/**
 * The final-export row of an order (packages/db/src/orderExports.ts and packages/db/src/memory.ts):
 * an insert-or-reclaim compare-and-set that doubles as the lock on taking the export.
 */
module OrderExports {
  import opened SqlLogic
  import opened Wrappers

  const CLAIM_STALE_MS: int := 60 * 60 * 1000
  const FRESHNESS_MS: int := 60 * 60 * 1000

  datatype Status = Pending | Done | FailedExport

  datatype File = File(name: string, key: string, size: nat)

  datatype OrderExport = OrderExport(
    jobId: Option<string>,
    key: string,
    status: Status,
    files: seq<File>,
    error: Option<string>,
    createdAt: int,
    finishedAt: Option<int>)

  /** `isExportFresh`: the teardown gate's test */
  predicate IsFresh(row: Option<OrderExport>, now: int) {
    row.Some? && row.value.status.Done? && row.value.finishedAt.Some? && now - row.value.finishedAt.value <= FRESHNESS_MS
  }

  // ----- SQL -----

  /** `insert … on conflict … where failed or stale pending or old done`; the row after, and whether it was claimed */
  function SqlClaim(row: Option<OrderExport>, jobId: Option<string>, key: string, now: int,
                    staleBefore: int, doneBefore: Option<int>): (OrderExport, bool)
  {
    var claimed := OrderExport(jobId, key, Pending, [], None, now, None);
    match row
    case None => (claimed, true)
    case Some(e) =>
      var matches :=
        Known(e.status.FailedExport?)
          .Or(Known(e.status.Pending?).And(Known(e.createdAt < staleBefore)))
          .Or(Known(e.status.Done?).And(SqlLess(e.finishedAt, doneBefore)));
      if matches.True3? then (claimed, true) else (e, false)
  }

  function SqlFinish(row: Option<OrderExport>, status: Status, files: seq<File>, error: Option<string>, now: int): Option<OrderExport> {
    if row.Some? && row.value.status.Pending? then
      Some(row.value.(status := status, files := files, error := error, finishedAt := Some(now)))
    else None
  }

  function SqlAppend(row: Option<OrderExport>, files: seq<File>): Option<OrderExport> {
    if row.Some? then Some(row.value.(files := row.value.files + files)) else None
  }

  class MemoryExports {
    var exports: map<string, OrderExport>

    ghost function RowOf(orderId: string): Option<OrderExport>
      reads this
    {
      if orderId in exports then Some(exports[orderId]) else None
    }

    constructor ()
      ensures exports == map[]
    {
      exports := map[];
    }

    /** `claim`: the decision and the row of the SQL statement; a lost claim changes nothing. */
    method Claim(orderId: string, jobId: Option<string>, key: string, now: int, staleBefore: int, doneBefore: Option<int>)
      returns (row: OrderExport, claimed: bool)
      modifies this
      ensures (row, claimed) == SqlClaim(old(RowOf(orderId)), jobId, key, now, staleBefore, doneBefore)
      ensures exports == if claimed then old(exports)[orderId := row] else old(exports)
    {
      if orderId in exports {
        var existing := exports[orderId];
        var reclaimable :=
          || existing.status == FailedExport
          || (existing.status == Pending && existing.createdAt < staleBefore)
          || (existing.status == Done && doneBefore.Some? && existing.finishedAt.Some? &&
              existing.finishedAt.value < doneBefore.value);
        if !reclaimable {
          return existing, false;
        }
      }
      row := OrderExport(jobId, key, Pending, [], None, now, None);
      exports := exports[orderId := row];
      claimed := true;
    }

    method Finish(orderId: string, status: Status, files: seq<File>, error: Option<string>, now: int)
      returns (row: Option<OrderExport>)
      modifies this
      ensures row == SqlFinish(old(RowOf(orderId)), status, files, error, now)
      ensures exports == if row.Some? then old(exports)[orderId := row.value] else old(exports)
    {
      if orderId !in exports || exports[orderId].status != Pending {
        return None;
      }
      var next := exports[orderId].(status := status, files := files, error := error, finishedAt := Some(now));
      exports := exports[orderId := next];
      row := Some(next);
    }

    method AppendFiles(orderId: string, files: seq<File>) returns (row: Option<OrderExport>)
      modifies this
      ensures row == SqlAppend(old(RowOf(orderId)), files)
      ensures exports == if row.Some? then old(exports)[orderId := row.value] else old(exports)
    {
      if orderId !in exports {
        return None;
      }
      var next := exports[orderId].(files := exports[orderId].files + files);
      exports := exports[orderId := next];
      row := Some(next);
    }
  }

  // ----- The row as a lock -----

  /**
   * One statement on the order's row. `retake` is whether the claimer saw the order not yet torn
   * down, and so asks for a done export past the freshness window to be taken again.
   */
  datatype Op =
    | Claim(jobId: Option<string>, key: string, at: int, retake: bool)
    | Finish(status: Status, files: seq<File>, error: Option<string>, at: int)
    | Append(files: seq<File>)

  /** A finish reports done or failed, never pending */
  predicate ValidOp(op: Op) {
    op.Finish? ==> !op.status.Pending?
  }

  function Apply(row: Option<OrderExport>, op: Op): Option<OrderExport> {
    match op
    case Claim(jobId, key, at, retake) =>
      Some(SqlClaim(row, jobId, key, at, at - CLAIM_STALE_MS, if retake then Some(at - FRESHNESS_MS) else None).0)
    case Finish(status, files, error, at) =>
      var next := SqlFinish(row, status, files, error, at);
      if next.Some? then next else row
    case Append(files) =>
      var next := SqlAppend(row, files);
      if next.Some? then next else row
  }

  predicate Succeeds(row: Option<OrderExport>, op: Op) {
    match op
    case Claim(jobId, key, at, retake) =>
      SqlClaim(row, jobId, key, at, at - CLAIM_STALE_MS, if retake then Some(at - FRESHNESS_MS) else None).1
    case Finish(status, files, error, at) => SqlFinish(row, status, files, error, at).Some?
    case Append(files) => row.Some?
  }

  function Run(ops: seq<Op>): Option<OrderExport> {
    if ops == [] then None else Apply(Run(ops[..|ops| - 1]), ops[|ops| - 1])
  }

  /** The claims and finishes that succeeded, in order */
  function Held(ops: seq<Op>): seq<Op> {
    if ops == [] then []
    else
      var rest, last := Held(ops[..|ops| - 1]), ops[|ops| - 1];
      if !last.Append? && Succeeds(Run(ops[..|ops| - 1]), last) then rest + [last] else rest
  }

  /** What may directly follow what: only a claim gone stale is replaced without a finish */
  predicate MayFollow(first: Op, second: Op) {
    match second
    case Finish(_, _, _, _) => first.Claim?
    case Claim(_, _, at, retake) =>
      || (first.Claim? && first.at < at - 3_600_000)
      || (first.Finish? && first.status.FailedExport?)
      || (first.Finish? && first.status.Done? && retake && first.at < at - 3_600_000)
    case Append(_) => false
  }

  ghost predicate Alternates(held: seq<Op>) {
    && (held != [] ==> held[0].Claim?)
    && forall i :: 0 < i < |held| ==> MayFollow(held[i - 1], held[i])
  }

  /** The row remembers the last claim or finish that succeeded */
  predicate Remembers(row: Option<OrderExport>, held: seq<Op>) {
    if held == [] then row == None
    else
      var last := held[|held| - 1];
      && row.Some?
      && match last
         case Claim(_, _, at, _) => row.value.status.Pending? && row.value.createdAt == at
         case Finish(status, _, _, at) => row.value.status == status && !status.Pending? && row.value.finishedAt == Some(at)
         case Append(_) => false
  }

  /**
   * The row is a lock: on every run, successful claims and finishes alternate, except that a claim
   * past the stale limit may be replaced; and a claim or finish that fails changes nothing.
   */
  lemma {:induction false} ClaimsAndFinishesAlternate(ops: seq<Op>)
    requires forall i :: 0 <= i < |ops| ==> ValidOp(ops[i])
    ensures Alternates(Held(ops)) && Remembers(Run(ops), Held(ops))
    ensures forall i :: 0 <= i < |ops| && !Succeeds(Run(ops[..i]), ops[i]) ==> Run(ops[..i + 1]) == Run(ops[..i])
  {
    forall i | 0 <= i < |ops| && !Succeeds(Run(ops[..i]), ops[i]) ensures Run(ops[..i + 1]) == Run(ops[..i]) {
      FailureChangesNothing(ops, i);
    }
    if ops != [] {
      var n := |ops| - 1;
      ClaimsAndFinishesAlternate(ops[..n]);
      assert ValidOp(ops[n]);
      OneMoreHeld(Run(ops[..n]), Held(ops[..n]), ops[n]);
    }
  }

  lemma FailureChangesNothing(ops: seq<Op>, i: nat)
    requires i < |ops| && !Succeeds(Run(ops[..i]), ops[i])
    ensures Run(ops[..i + 1]) == Run(ops[..i])
  {
    assert ops[..i + 1][..i] == ops[..i];
  }

  lemma OneMoreHeld(row: Option<OrderExport>, held: seq<Op>, op: Op)
    requires Alternates(held) && Remembers(row, held) && ValidOp(op)
    ensures var held' := if !op.Append? && Succeeds(row, op) then held + [op] else held;
            Alternates(held') && Remembers(Apply(row, op), held')
  {
  }

  /** Outside a claim nothing listed is dropped: files only grow between one finish and the next claim. */
  lemma FilesGrowUntilTheNextClaim(row: Option<OrderExport>, op: Op)
    requires row.Some? && !row.value.status.Pending?
    requires !(op.Claim? && Succeeds(row, op))
    ensures Apply(row, op).Some? && Apply(row, op).value.status == row.value.status
    ensures row.value.files <= Apply(row, op).value.files
  {
  }

  // ----- How long a listed file stays -----

  /** A statement that clears the files, or sets them without this one */
  predicate Unlists(row: Option<OrderExport>, op: Op, file: File) {
    Succeeds(row, op) && (op.Claim? || (op.Finish? && file !in op.files))
  }

  predicate HasFile(row: Option<OrderExport>, file: File) {
    row.Some? && file in row.value.files
  }

  /** At every moment of the run */
  predicate AlwaysHasFile(row: Option<OrderExport>, ops: seq<Op>, file: File) {
    HasFile(RunOn(row, ops), file) && (ops != [] ==> AlwaysHasFile(row, ops[..|ops| - 1], file))
  }

  /** No statement of the run, on the row it finds */
  predicate NeverUnlists(row: Option<OrderExport>, ops: seq<Op>, file: File) {
    ops != [] ==>
      var n := |ops| - 1;
      NeverUnlists(row, ops[..n], file) && !Unlists(RunOn(row, ops[..n]), ops[n], file)
  }

  /**
   * However the statements of all callers interleave, a listed file stays listed at every moment if
   * and only if no claim wins the row and no finish lands on it with files that leave it out.
   */
  lemma {:induction false} FileStaysListed(row: Option<OrderExport>, ops: seq<Op>, file: File)
    requires HasFile(row, file)
    ensures AlwaysHasFile(row, ops, file) <==> NeverUnlists(row, ops, file)
  {
    if ops != [] {
      var n := |ops| - 1;
      FileStaysListed(row, ops[..n], file);
      if HasFile(RunOn(row, ops[..n]), file) {
        OneStatementOnFile(RunOn(row, ops[..n]), ops[n], file);
      }
    }
  }

  lemma OneStatementOnFile(row: Option<OrderExport>, op: Op, file: File)
    requires HasFile(row, file)
    ensures HasFile(Apply(row, op), file) <==> !Unlists(row, op, file)
  {
    if op.Append? {
      var i :| 0 <= i < |row.value.files| && row.value.files[i] == file;
      assert (row.value.files + op.files)[i] == file;
    }
  }

  // ----- Whose claim a finish completes -----

  /** The row after the given statements on it */
  function RunOn(row: Option<OrderExport>, ops: seq<Op>): Option<OrderExport> {
    if ops == [] then row else Apply(RunOn(row, ops[..|ops| - 1]), ops[|ops| - 1])
  }

  /** A claim that finds the one taken at `t` stale */
  predicate Replaces(op: Op, t: int) {
    op.Claim? && t < op.at - 3_600_000
  }

  ghost predicate NobodyReplaces(ops: seq<Op>, t: int) {
    forall i :: 0 <= i < |ops| ==> !Replaces(ops[i], t)
  }

  lemma NoneReplaces(ops: seq<Op>, t: int)
    requires ops != []
    ensures NobodyReplaces(ops, t) <==> NobodyReplaces(ops[..|ops| - 1], t) && !Replaces(ops[|ops| - 1], t)
  {
    var front := ops[..|ops| - 1];
    if NobodyReplaces(front, t) && !Replaces(ops[|ops| - 1], t) {
      forall i | 0 <= i < |ops| ensures !Replaces(ops[i], t) {
        assert i < |front| ==> !Replaces(front[i], t);
      }
    }
    if NobodyReplaces(ops, t) {
      forall i | 0 <= i < |front| ensures !Replaces(front[i], t) {
        assert !Replaces(ops[i], t);
      }
    }
  }

  predicate IsClaimOf(row: Option<OrderExport>, key: string, t: int) {
    row.Some? && row.value.status.Pending? && row.value.createdAt == t && row.value.key == key
  }

  /**
   * While nothing is finished, the row stays the claim taken at `t` if and only if no statement is
   * a claim that comes more than the stale limit after it.
   */
  lemma {:induction false} ClaimIsStillMine(row: Option<OrderExport>, ops: seq<Op>, key: string, t: int)
    requires IsClaimOf(row, key, t)
    requires forall i :: 0 <= i < |ops| ==> !ops[i].Finish?
    ensures IsClaimOf(RunOn(row, ops), key, t) <==> NobodyReplaces(ops, t)
    ensures RunOn(row, ops).Some? && RunOn(row, ops).value.status.Pending?
    ensures !IsClaimOf(RunOn(row, ops), key, t) ==> RunOn(row, ops).value.createdAt > t
  {
    if ops != [] {
      var n := |ops| - 1;
      ClaimIsStillMine(row, ops[..n], key, t);
      NoneReplaces(ops, t);
    }
  }

  /** So a finish completes the claim of its own run if and only if nobody replaced that claim. */
  lemma FinishCompletesItsOwnClaim(row: Option<OrderExport>, ops: seq<Op>, key: string, t: int, finish: Op)
    requires IsClaimOf(row, key, t) && finish.Finish?
    requires forall i :: 0 <= i < |ops| ==> !ops[i].Finish?
    ensures var after := RunOn(row, ops + [finish]);
            && after.Some? && after.value.status == finish.status && after.value.files == finish.files
            && (after.value.createdAt == t && after.value.key == key <==> NobodyReplaces(ops, t))
  {
    ClaimIsStillMine(row, ops, key, t);
    assert (ops + [finish])[..|ops|] == ops;
  }

  /**
   * The finish does not say whose claim it completes: a run that outlived the stale limit finishes
   * the claim that replaced its own, and the newer run's finish is then refused.
   */
  lemma LateFinishCompletesAnotherClaim(mine: seq<File>, theirs: seq<File>)
    ensures var ops := [Claim(None, "old", 0, true), Claim(None, "new", 3_600_001, true),
                        Finish(Done, mine, None, 3_600_002)];
            var row := Run(ops);
            && row.Some? && row.value.key == "new" && row.value.files == mine
            && !Succeeds(row, Finish(Done, theirs, None, 3_600_003))
  {
    var a, b := Claim(None, "old", 0, true), Claim(None, "new", 3_600_001, true);
    var c := Finish(Done, mine, None, 3_600_002);
    assert [a, b, c][..2] == [a, b] && [a, b][..1] == [a] && [a][..0] == [];
    assert Run([a]).Some? && Run([a, b]).Some? && Run([a, b]).value.key == "new";
  }
}
