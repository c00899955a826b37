/**
 * The jobs table (packages/db/src/memory.ts, packages/db/src/jobs.ts): one active job per order,
 * `killed` as a guard on status writes, and the report token of each job.
 */
module JobTable {
  import opened Wrappers

  datatype JobStatus = Queued | Planning | Building | Verifying | Delivered | Failed | Killed

  predicate IsActive(status: JobStatus) {
    status.Queued? || status.Planning? || status.Building? || status.Verifying?
  }

  /** Phases in run order; the three ends rank alike */
  function Rank(status: JobStatus): nat {
    match status
    case Queued => 0
    case Planning => 1
    case Building => 2
    case Verifying => 3
    case Delivered => 4
    case Failed => 4
    case Killed => 4
  }

  datatype SizeClass = S | M | L

  datatype Mode = Build | Redeliver

  datatype Job = Job(
    orderId: string,
    sizeClass: Option<SizeClass>,
    maxTokens: nat,
    mode: Mode,
    sourceJobId: Option<string>,
    status: JobStatus,
    tokensUsed: nat,
    reason: Option<string>,
    taskArn: Option<string>)

  /** What an update does with the job's report token: nothing, `null`, or a new hash */
  datatype TokenUpdate = Keep | Revoke | Replace(hash: string)

  datatype JobUpdate = JobUpdate(
    status: Option<JobStatus>,
    tokensUsed: Option<nat>,
    reason: Option<string>,
    taskArn: Option<string>,
    token: TokenUpdate)

  const NO_UPDATE := JobUpdate(None, None, None, None, Keep)

  /** Rows by id, and the job each live token belongs to */
  datatype Table = Table(jobs: map<string, Job>, tokens: map<string, string>)

  predicate HasActive(t: Table, orderId: string) {
    exists id :: id in t.jobs && t.jobs[id].orderId == orderId && IsActive(t.jobs[id].status)
  }

  function Updated<T>(value: Option<T>, old_: Option<T>): Option<T> {
    if value.Some? then value else old_
  }

  function WriteRow(job: Job, update: JobUpdate): Job {
    job.(status := update.status.GetOr(job.status),
         tokensUsed := update.tokensUsed.GetOr(job.tokensUsed),
         reason := Updated(update.reason, job.reason),
         taskArn := Updated(update.taskArn, job.taskArn))
  }

  function Without(tokens: map<string, string>, id: string): map<string, string> {
    map hash | hash in tokens && tokens[hash] != id :: tokens[hash]
  }

  function WriteToken(tokens: map<string, string>, id: string, token: TokenUpdate): map<string, string> {
    match token
    case Keep => tokens
    case Revoke => Without(tokens, id)
    case Replace(hash) => Without(tokens, id)[hash := id]
  }

  /** Nothing is written to a missing row, and no status to a killed one */
  predicate Accepts(t: Table, id: string, update: JobUpdate) {
    id in t.jobs && !(update.status.Some? && t.jobs[id].status.Killed?)
  }

  function Update(t: Table, id: string, update: JobUpdate): Table {
    if !Accepts(t, id, update) then t
    else Table(t.jobs[id := WriteRow(t.jobs[id], update)], WriteToken(t.tokens, id, update.token))
  }

  function Insert(t: Table, id: string, job: Job, tokenHash: Option<string>): Table {
    Table(t.jobs[id := job], if tokenHash.Some? then t.tokens[tokenHash.value := id] else t.tokens)
  }

  class MemoryJobs {
    var jobs: map<string, Job>
    /** report token hash → job id */
    var reportTokens: map<string, string>

    ghost function View(): Table
      reads this
    {
      Table(jobs, reportTokens)
    }

    constructor ()
      ensures View() == Table(map[], map[])
    {
      jobs, reportTokens := map[], map[];
    }

    /** `createJobRow` under a fresh id: refused while the order has an active job. */
    method InsertJob(id: string, job: Job, tokenHash: Option<string>) returns (inserted: bool)
      requires id !in jobs
      modifies this
      ensures inserted <==> !HasActive(old(View()), job.orderId)
      ensures View() == if inserted then Insert(old(View()), id, job, tokenHash) else old(View())
    {
      var ids := jobs.Keys;
      while ids != {}
        invariant ids <= jobs.Keys && View() == old(View())
        invariant forall other :: other in jobs.Keys - ids ==>
                    !(jobs[other].orderId == job.orderId && IsActive(jobs[other].status))
        decreases |ids|
      {
        var other :| other in ids;
        if jobs[other].orderId == job.orderId && IsActive(jobs[other].status) {
          return false;
        }
        ids := ids - {other};
      }
      jobs := jobs[id := job];
      if tokenHash.Some? {
        reportTokens := reportTokens[tokenHash.value := id];
      }
      inserted := true;
    }

    method DropTokens(id: string)
      modifies `reportTokens
      ensures reportTokens == Without(old(reportTokens), id)
    {
      var hashes := reportTokens.Keys;
      while hashes != {}
        invariant hashes <= old(reportTokens).Keys
        invariant reportTokens == map hash | hash in old(reportTokens) &&
                                    (hash in hashes || old(reportTokens)[hash] != id) :: old(reportTokens)[hash]
        decreases |hashes|
      {
        var hash :| hash in hashes;
        if reportTokens[hash] == id {
          reportTokens := reportTokens - {hash};
        }
        hashes := hashes - {hash};
      }
    }

    /** `update`: `None` when the row is missing, or killed and the write carries a status. */
    method UpdateJob(id: string, update: JobUpdate) returns (row: Option<Job>)
      modifies this
      ensures row.Some? <==> Accepts(old(View()), id, update)
      ensures row.Some? ==> row.value == WriteRow(old(jobs)[id], update)
      ensures View() == Update(old(View()), id, update)
    {
      if id !in jobs {
        return None;
      }
      if update.status != None && jobs[id].status == Killed {
        return None;
      }
      if update.token != Keep {
        DropTokens(id);
        if update.token.Replace? {
          reportTokens := reportTokens[update.token.hash := id];
        }
      }
      var next := WriteRow(jobs[id], update);
      jobs := jobs[id := next];
      row := Some(next);
    }
  }

  function StatusOf(t: Table, id: string): Option<JobStatus> {
    if id in t.jobs then Some(t.jobs[id].status) else None
  }

  // ----- Single statements, in any interleaving -----

  datatype Statement = Statement(id: string, update: JobUpdate)

  function RunStatements(t: Table, statements: seq<Statement>): Table {
    if statements == [] then t
    else
      var last := statements[|statements| - 1];
      Update(RunStatements(t, statements[..|statements| - 1]), last.id, last.update)
  }

  /** `killed` is absorbing however the statements of different callers interleave. */
  lemma {:induction false} KilledIsAbsorbing(t: Table, statements: seq<Statement>, id: string)
    requires StatusOf(t, id) == Some(Killed)
    ensures StatusOf(RunStatements(t, statements), id) == Some(Killed)
  {
    if statements != [] {
      KilledIsAbsorbing(t, statements[..|statements| - 1], id);
    }
  }

  predicate KeepsStatus(statement: Statement, id: string, status: JobStatus) {
    statement.id == id ==> statement.update.status.None? || statement.update.status == Some(status)
  }

  /** At every moment of the run */
  predicate AlwaysHas(t: Table, statements: seq<Statement>, id: string, status: JobStatus) {
    && StatusOf(RunStatements(t, statements), id) == Some(status)
    && (statements != [] ==> AlwaysHas(t, statements[..|statements| - 1], id, status))
  }

  predicate AllKeepStatus(statements: seq<Statement>, id: string, status: JobStatus) {
    statements != [] ==>
      AllKeepStatus(statements[..|statements| - 1], id, status) && KeepsStatus(statements[|statements| - 1], id, status)
  }

  /**
   * An ended job keeps its status at every moment of a run of statements if and only if it was
   * killed, or every statement on it carries no status or the one it has.
   */
  lemma {:induction false} EndedStatusIsKept(t: Table, statements: seq<Statement>, id: string, status: JobStatus)
    requires StatusOf(t, id) == Some(status) && status in {Delivered, Failed, Killed}
    ensures AlwaysHas(t, statements, id, status) <==>
            status.Killed? || AllKeepStatus(statements, id, status)
  {
    if statements != [] {
      EndedStatusIsKept(t, statements[..|statements| - 1], id, status);
    }
  }

  /** Every live token is an active job's */
  ghost predicate TokensAreLive(t: Table) {
    forall hash :: hash in t.tokens ==>
      t.tokens[hash] in t.jobs && t.jobs[t.tokens[hash]].status in {Queued, Planning, Building, Verifying}
  }

  predicate HoldsToken(t: Table, id: string) {
    exists hash :: hash in t.tokens && t.tokens[hash] == id
  }

  /** No token is handed to a row that is or becomes ended, and ending a row that holds one revokes it */
  predicate MindsTokens(t: Table, statement: Statement) {
    Accepts(t, statement.id, statement.update) ==>
      || IsActive(statement.update.status.GetOr(t.jobs[statement.id].status))
      || statement.update.token.Revoke?
      || (statement.update.token.Keep? && !HoldsToken(t, statement.id))
  }

  lemma OneStatementMindsTokens(t: Table, statement: Statement)
    requires TokensAreLive(t)
    ensures TokensAreLive(Update(t, statement.id, statement.update)) <==> MindsTokens(t, statement)
  {
    var t' := Update(t, statement.id, statement.update);
    if Accepts(t, statement.id, statement.update) && !MindsTokens(t, statement) {
      if statement.update.token.Replace? {
        assert t'.tokens[statement.update.token.hash] == statement.id;
      } else {
        var hash :| hash in t.tokens && t.tokens[hash] == statement.id;
        assert hash in t'.tokens;
      }
      assert !TokensAreLive(t');
    }
  }

  ghost predicate AlwaysLive(t: Table, statements: seq<Statement>) {
    && TokensAreLive(RunStatements(t, statements))
    && (statements != [] ==> AlwaysLive(t, statements[..|statements| - 1]))
  }

  predicate AllMindTokens(t: Table, statements: seq<Statement>) {
    statements != [] ==>
      var n := |statements| - 1;
      AllMindTokens(t, statements[..n]) && MindsTokens(RunStatements(t, statements[..n]), statements[n])
  }

  /**
   * Live tokens belong to active jobs at every moment if and only if each statement, on the table
   * it finds, gives no token to an ended row and revokes the token of a row it ends.
   */
  lemma {:induction false} TokensStayLive(t: Table, statements: seq<Statement>)
    requires TokensAreLive(t)
    ensures AlwaysLive(t, statements) <==> AllMindTokens(t, statements)
  {
    if statements != [] {
      var n := |statements| - 1;
      TokensStayLive(t, statements[..n]);
      if AlwaysLive(t, statements[..n]) {
        OneStatementMindsTokens(RunStatements(t, statements[..n]), statements[n]);
      }
    }
  }

  /**
   * The other two ends are not: a report that authenticated before the sweep failed its job still
   * delivers it, and a token rotation that raced the kill leaves a token on the killed row.
   */
  lemma StaleReportOverwritesFailed(job: Job, id: string, hash: string)
    requires IsActive(job.status)
    ensures var t := Table(map[id := job], map[hash := id]);
            var sweep := Statement(id, NO_UPDATE.(status := Some(Failed), token := Revoke));
            var report := Statement(id, NO_UPDATE.(status := Some(Delivered), token := Revoke));
            var kill := Statement(id, NO_UPDATE.(status := Some(Killed), token := Revoke));
            var rotate := Statement(id, NO_UPDATE.(token := Replace(hash)));
            && StatusOf(RunStatements(t, [sweep]), id) == Some(Failed)
            && StatusOf(RunStatements(t, [sweep, report]), id) == Some(Delivered)
            && StatusOf(RunStatements(t, [kill, rotate]), id) == Some(Killed)
            && RunStatements(t, [kill, rotate]).tokens == map[hash := id]
  {
    var t := Table(map[id := job], map[hash := id]);
    var sweep := Statement(id, NO_UPDATE.(status := Some(Failed), token := Revoke));
    var report := Statement(id, NO_UPDATE.(status := Some(Delivered), token := Revoke));
    var kill := Statement(id, NO_UPDATE.(status := Some(Killed), token := Revoke));
    var rotate := Statement(id, NO_UPDATE.(token := Replace(hash)));
    assert [sweep][..0] == [] && [sweep, report][..1] == [sweep];
    assert [kill][..0] == [] && [kill, rotate][..1] == [kill];
    assert RunStatements(t, [sweep]) == Update(t, id, sweep.update);
    assert RunStatements(t, [kill]) == Update(t, id, kill.update);
    assert RunStatements(t, [kill]).tokens == map[];
  }
}
