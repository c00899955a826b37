/**
 * The final export and the deletion certificate (apps/api/src/services/exportService.ts) together
 * with the lifecycle actions, each service call one step.
 */
module FinalExport {
  import opened Lifecycle
  import opened OrderExports
  import opened Teardown
  import opened Wrappers

  datatype Site = Site(lifecycle: LifecycleState, exported: Option<OrderExport>)

  datatype Collected = Files(files: seq<File>) | CollectFailed(error: string)

  datatype Call =
    /** `finalExport`: the claim's and the finish's instants, and how collecting went */
    | Take(jobId: Option<string>, key: string, at: int, finishedAt: int, collected: Collected)
    /** `runLifecycleAction`: the gate's instant, the sweep, the previews, and the certificate when its object was stored */
    | Act(request: Request, at: int, failed: nat, previewsGone: bool, orderKey: string, certificate: Option<File>, certifiedAt: int)

  function TakeExport(site: Site, jobId: Option<string>, key: string, at: int, finishedAt: int, collected: Collected): Option<OrderExport> {
    // A torn-down order's done export is final: it is never offered for a retake
    var claim := Claim(jobId, key, at, !site.lifecycle.TornDown?);
    var claimed := OrderExports.Apply(site.exported, claim);
    if !Succeeds(site.exported, claim) then claimed
    else
      match collected
      case Files(files) => OrderExports.Apply(claimed, Finish(Done, files, None, finishedAt))
      case CollectFailed(error) => OrderExports.Apply(claimed, Finish(FailedExport, [], Some(error), finishedAt))
  }

  /** `writeDeletionCertificate`: a teardown that skipped the export first gets a done, empty one */
  function WriteCertificate(exported: Option<OrderExport>, orderKey: string, certificate: Option<File>, at: int): Option<OrderExport> {
    var ready :=
      if exported.Some? then exported
      else OrderExports.Apply(OrderExports.Apply(None, Claim(None, orderKey, at, false)), Finish(Done, [], None, at));
    if certificate.None? then ready else OrderExports.Apply(ready, Append([certificate.value]))
  }

  function ActOn(enabled: bool, site: Site, request: Request, at: int, failed: nat, previewsGone: bool,
                 orderKey: string, certificate: Option<File>, certifiedAt: int): Site
  {
    var to := TargetOf(request.action);
    if !CanTransition(site.lifecycle, to) || !GateOpen(enabled, request, site.exported, at) then site
    else if !request.confirm || failed > 0 then site
    else if !request.action.Teardown? then site.(lifecycle := to)
    else if !previewsGone then site
    else Site(to, WriteCertificate(site.exported, orderKey, certificate, certifiedAt))
  }

  function Apply(enabled: bool, site: Site, call: Call): Site {
    match call
    case Take(jobId, key, at, finishedAt, collected) =>
      site.(exported := TakeExport(site, jobId, key, at, finishedAt, collected))
    case Act(request, at, failed, previewsGone, orderKey, certificate, certifiedAt) =>
      ActOn(enabled, site, request, at, failed, previewsGone, orderKey, certificate, certifiedAt)
  }

  function Run(enabled: bool, site: Site, calls: seq<Call>): Site {
    if calls == [] then site
    else Apply(enabled, Run(enabled, site, calls[..|calls| - 1]), calls[|calls| - 1])
  }

  predicate IsDone(exported: Option<OrderExport>) {
    exported.Some? && exported.value.status.Done?
  }

  /** Gone for good: the order is torn down over a done export */
  predicate Closed(site: Site) {
    site.lifecycle.TornDown? && IsDone(site.exported)
  }

  /**
   * An export call takes the export if and only if there is none, the last one failed, one has been
   * in flight for over an hour, or, on an order that is not torn down, one was done over an hour ago.
   * What it took is then on the row, as done or as failed; otherwise nothing changes.
   */
  lemma TakenIff(enabled: bool, site: Site, jobId: Option<string>, key: string, at: int, finishedAt: int, collected: Collected)
    ensures var row := site.exported;
            var takes :=
              || row.None?
              || row.value.status.FailedExport?
              || (row.value.status.Pending? && row.value.createdAt < at - 3_600_000)
              || (row.value.status.Done? && !site.lifecycle.TornDown? && row.value.finishedAt.Some? && row.value.finishedAt.value < at - 3_600_000);
            Apply(enabled, site, Take(jobId, key, at, finishedAt, collected)) ==
            if !takes then site
            else if collected.Files? then site.(exported := Some(OrderExport(jobId, key, Done, collected.files, None, at, Some(finishedAt))))
            else site.(exported := Some(OrderExport(jobId, key, FailedExport, [], Some(collected.error), at, Some(finishedAt))))
  {
  }

  /**
   * A lifecycle action takes effect if and only if it is confirmed, the order may move there, no
   * resource failed, and, for a teardown, the feature is on, no export is in flight, one was done at
   * most an hour ago or is skipped, and every preview went. Only a teardown touches the export.
   */
  lemma ActedIff(enabled: bool, site: Site, request: Request, at: int, failed: nat, previewsGone: bool,
                 orderKey: string, certificate: Option<File>, certifiedAt: int)
    ensures var after := Apply(enabled, site, Act(request, at, failed, previewsGone, orderKey, certificate, certifiedAt));
            var row := site.exported;
            var effect :=
              && request.confirm && failed == 0
              && (site.lifecycle.TornDown? ==> request.action.Teardown?)
              && (request.action.Teardown? ==>
                    && enabled && previewsGone && !(row.Some? && row.value.status.Pending?)
                    && (request.skipExport ||
                        (row.Some? && row.value.status.Done? && row.value.finishedAt.Some? && at - row.value.finishedAt.value <= 3_600_000)));
            && after.lifecycle == (if !effect then site.lifecycle else match request.action case Suspend => Suspended case Resume => Active case Teardown => TornDown)
            && (!(effect && request.action.Teardown?) ==> after.exported == row)
  {
  }

  /** A torn-down order whose export is done never loses a listed file, whatever is called afterwards. */
  lemma {:induction false} ClosedSiteKeepsItsFiles(enabled: bool, site: Site, calls: seq<Call>)
    requires Closed(site)
    ensures var after := Run(enabled, site, calls);
            && Closed(after)
            && site.exported.value.files <= after.exported.value.files
            && after.exported.value.key == site.exported.value.key
            && after.exported.value.finishedAt == site.exported.value.finishedAt
  {
    if calls != [] {
      ClosedSiteKeepsItsFiles(enabled, site, calls[..|calls| - 1]);
    }
  }

  /**
   * A teardown that took effect over a done export, or over none, leaves a closed site that lists
   * the certificate after every exported file, when its object was stored; and every later call
   * keeps it there.
   */
  lemma CertificateIsTheLastWord(enabled: bool, site: Site, request: Request, at: int, orderKey: string, certificate: Option<File>,
                                 certifiedAt: int, calls: seq<Call>)
    requires request.action.Teardown? && request.confirm
    requires GateOpen(enabled, request, site.exported, at)
    requires site.exported.Some? ==> IsDone(site.exported)
    ensures var torn := Apply(enabled, site, Act(request, at, 0, true, orderKey, certificate, certifiedAt));
            var after := Run(enabled, torn, calls);
            && Closed(torn)
            && torn.exported.value.files == (if site.exported.Some? then site.exported.value.files else []) + (if certificate.Some? then [certificate.value] else [])
            && Closed(after) && torn.exported.value.files <= after.exported.value.files
  {
    var torn := Apply(enabled, site, Act(request, at, 0, true, orderKey, certificate, certifiedAt));
    var files := if site.exported.Some? then site.exported.value.files else [];
    assert certificate.Some? ==> [] + [certificate.value] == [certificate.value];
    assert files + [] == files;
    ClosedSiteKeepsItsFiles(enabled, torn, calls);
  }

  /**
   * The done export is needed: a teardown that skipped a failed export appends its certificate to
   * the failed row, and the next export call reclaims that row and drops it.
   */
  lemma FailedExportLosesTheCertificate(exported: OrderExport, certificate: File, at: int)
    requires exported.status.FailedExport?
    ensures var skip := Request(LifecycleAction.Teardown, true, true);
            var torn := Apply(true, Site(Active, Some(exported)), Act(skip, at, 0, true, exported.key, Some(certificate), at));
            var after := Apply(true, torn, Take(None, exported.key, at, at, Files([])));
            && torn.lifecycle.TornDown? && certificate in torn.exported.value.files
            && after.lifecycle.TornDown? && after.exported.value.files == []
  {
    var skip := Request(LifecycleAction.Teardown, true, true);
    var torn := Apply(true, Site(Active, Some(exported)), Act(skip, at, 0, true, exported.key, Some(certificate), at));
    assert torn.exported.value.files == exported.files + [certificate];
    assert Succeeds(torn.exported, Claim(None, exported.key, at, false));
  }

  ghost predicate NeverLost(enabled: bool, site: Site, file: File) {
    forall calls :: Has(Run(enabled, site, calls), file)
  }

  predicate Has(site: Site, file: File) {
    site.exported.Some? && file in site.exported.value.files
  }

  /** A confirmed teardown's certificate survives whatever is called afterwards if and only if the export it went over had not failed. */
  lemma CertificateSurvivesOverAnythingButAFailure(enabled: bool, site: Site, request: Request, at: int, orderKey: string,
                                                   certificate: File, certifiedAt: int)
    requires request.action.Teardown? && request.confirm && GateOpen(enabled, request, site.exported, at)
    ensures var torn := Apply(enabled, site, Act(request, at, 0, true, orderKey, Some(certificate), certifiedAt));
            NeverLost(enabled, torn, certificate) <==> !(site.exported.Some? && site.exported.value.status.FailedExport?)
  {
    var torn := Apply(enabled, site, Act(request, at, 0, true, orderKey, Some(certificate), certifiedAt));
    if site.exported.Some? && site.exported.value.status.FailedExport? {
      var take := Take(None, orderKey, at, at, Files([]));
      assert [take][..0] == [];
      assert Succeeds(torn.exported, Claim(None, orderKey, at, false));
      assert !Has(Run(enabled, torn, [take]), certificate);
    } else {
      forall calls ensures Has(Run(enabled, torn, calls), certificate) {
        CertificateIsTheLastWord(enabled, site, request, at, orderKey, Some(certificate), certifiedAt, calls);
        var files := torn.exported.value.files;
        assert files[|files| - 1] == certificate;
        assert Run(enabled, torn, calls).exported.value.files[|files| - 1] == certificate;
      }
    }
  }

  // ----- Export calls that read the order and claim the row at different moments -----

  /** An export call between its statements: what its read of the order said, or a claim it won */
  datatype Taker = HasRead(retake: bool) | Holds

  datatype Shared = Shared(site: Site, takers: map<nat, Taker>)

  datatype Statement =
    | ReadOrder(id: nat)
    | ClaimRow(id: nat, jobId: Option<string>, key: string, at: int)
    | FinishRow(id: nat, collected: Collected, at: int)
    | MoveOver(request: Request, at: int, failed: nat, previewsGone: bool)  // a teardown up to its certificate
    | CertificateClaim(key: string, at: int)                                // the certificate's own statements
    | CertificateFinish(at: int)
    | CertificateAppend(file: File)
    | Whole(call: Call)

  function ApplyStatement(enabled: bool, s: Shared, statement: Statement): Shared {
    match statement
    case ReadOrder(id) => s.(takers := s.takers[id := HasRead(!s.site.lifecycle.TornDown?)])
    case ClaimRow(id, jobId, key, at) =>
      if id !in s.takers || s.takers[id].Holds? then s
      else
        var claim := Claim(jobId, key, at, s.takers[id].retake);
        Shared(s.site.(exported := OrderExports.Apply(s.site.exported, claim)),
               if Succeeds(s.site.exported, claim) then s.takers[id := Holds] else s.takers - {id})
    case FinishRow(id, collected, at) =>
      if id !in s.takers || !s.takers[id].Holds? then s
      else
        var finish :=
          match collected
          case Files(files) => Finish(Done, files, None, at)
          case CollectFailed(error) => Finish(FailedExport, [], Some(error), at);
        Shared(s.site.(exported := OrderExports.Apply(s.site.exported, finish)), s.takers - {id})
    case MoveOver(request, at, failed, previewsGone) =>
      s.(site := s.site.(lifecycle := ActOn(enabled, s.site, request, at, failed, previewsGone, "", None, at).lifecycle))
    case CertificateClaim(key, at) => OnRow(s, Claim(None, key, at, false))
    case CertificateFinish(at) => OnRow(s, Finish(Done, [], None, at))
    case CertificateAppend(file) => OnRow(s, Append([file]))
    case Whole(call) => s.(site := Apply(enabled, s.site, call))
  }

  function OnRow(s: Shared, op: Op): Shared {
    s.(site := s.site.(exported := OrderExports.Apply(s.site.exported, op)))
  }

  function RunShared(enabled: bool, s: Shared, statements: seq<Statement>): Shared {
    if statements == [] then s
    else ApplyStatement(enabled, RunShared(enabled, s, statements[..|statements| - 1]), statements[|statements| - 1])
  }

  /** A claim by a call that read the order before it was torn down, past the freshness window of a row done at `doneAt` */
  predicate Retakes(s: Shared, statement: Statement, doneAt: int) {
    && statement.ClaimRow? && statement.id in s.takers && s.takers[statement.id] == HasRead(true)
    && doneAt < statement.at - 3_600_000
  }

  /** The site is closed, over the row done at `doneAt` and with all the given files */
  ghost predicate Keeps(s: Shared, files: seq<File>, doneAt: int) {
    Closed(s.site) && s.site.exported.value.finishedAt == Some(doneAt) && files <= s.site.exported.value.files
  }

  /** At every moment of the run */
  ghost predicate AlwaysKeeps(enabled: bool, s: Shared, statements: seq<Statement>, files: seq<File>, doneAt: int) {
    && Keeps(RunShared(enabled, s, statements), files, doneAt)
    && (statements != [] ==> AlwaysKeeps(enabled, s, statements[..|statements| - 1], files, doneAt))
  }

  /** No statement of the run, on the state it finds */
  predicate NeverRetakes(enabled: bool, s: Shared, statements: seq<Statement>, doneAt: int) {
    statements != [] ==>
      var n := |statements| - 1;
      NeverRetakes(enabled, s, statements[..n], doneAt) && !Retakes(RunShared(enabled, s, statements[..n]), statements[n], doneAt)
  }

  lemma OneStatementKeeps(enabled: bool, s: Shared, statement: Statement, files: seq<File>, doneAt: int)
    requires Keeps(s, files, doneAt)
    ensures Keeps(ApplyStatement(enabled, s, statement), files, doneAt) <==> !Retakes(s, statement, doneAt)
  {
    if statement.Whole? {
      ClosedSiteKeepsItsFiles(enabled, s.site, [statement.call]);
      assert [statement.call][..0] == [];
      assert Run(enabled, s.site, [statement.call]) == Apply(enabled, s.site, statement.call);
    }
  }

  /**
   * With export calls taken statement by statement, a torn-down order keeps its done row and every
   * listed file at every moment if and only if no call that read the order before the teardown
   * claims the row past its freshness window.
   */
  lemma {:induction false} ClosedSiteIsKept(enabled: bool, s: Shared, statements: seq<Statement>, files: seq<File>, doneAt: int)
    requires Keeps(s, files, doneAt)
    ensures AlwaysKeeps(enabled, s, statements, files, doneAt) <==> NeverRetakes(enabled, s, statements, doneAt)
  {
    if statements != [] {
      var n := |statements| - 1;
      ClosedSiteIsKept(enabled, s, statements[..n], files, doneAt);
      if AlwaysKeeps(enabled, s, statements[..n], files, doneAt) {
        OneStatementKeeps(enabled, RunShared(enabled, s, statements[..n]), statements[n], files, doneAt);
      }
    }
  }

  /** The statements of an export call, with nothing in between, are the whole call. */
  lemma TakeInARow(enabled: bool, s: Shared, id: nat, jobId: Option<string>, key: string, at: int, finishedAt: int, collected: Collected)
    requires id !in s.takers
    ensures RunShared(enabled, s, [ReadOrder(id), ClaimRow(id, jobId, key, at), FinishRow(id, collected, finishedAt)])
            == ApplyStatement(enabled, s, Whole(Take(jobId, key, at, finishedAt, collected)))
  {
    var a, b, c := ReadOrder(id), ClaimRow(id, jobId, key, at), FinishRow(id, collected, finishedAt);
    ThreeShared(enabled, s, a, b, c);
    var s1 := ApplyStatement(enabled, s, a);
    assert s1.takers - {id} == s.takers;
    assert s1.takers[id := Holds] - {id} == s.takers;
  }

  /** So are those of a teardown that takes effect: the move, an export row when there is none, the certificate. */
  lemma TeardownInARow(enabled: bool, s: Shared, request: Request, at: int, orderKey: string, certificate: File, certifiedAt: int)
    requires request.action.Teardown? && request.confirm && GateOpen(enabled, request, s.site.exported, at)
    ensures var whole := ApplyStatement(enabled, s, Whole(Act(request, at, 0, true, orderKey, Some(certificate), certifiedAt)));
            if s.site.exported.Some? then
              OnRow(ApplyStatement(enabled, s, MoveOver(request, at, 0, true)), Append([certificate])) == whole
            else
              RunShared(enabled, ApplyStatement(enabled, s, MoveOver(request, at, 0, true)),
                        [CertificateClaim(orderKey, certifiedAt), CertificateFinish(certifiedAt), CertificateAppend(certificate)]) == whole
  {
    ThreeShared(enabled, ApplyStatement(enabled, s, MoveOver(request, at, 0, true)),
                CertificateClaim(orderKey, certifiedAt), CertificateFinish(certifiedAt), CertificateAppend(certificate));
  }

  /** No export call under way read the order before it was torn down */
  predicate AllReadAfter(s: Shared) {
    forall id :: id in s.takers ==> s.takers[id] != HasRead(true)
  }

  /** So export calls that read the order only after its teardown never take anything from a closed site. */
  lemma {:induction false} LaterReadersKeepTheSite(enabled: bool, s: Shared, statements: seq<Statement>, files: seq<File>, doneAt: int)
    requires Keeps(s, files, doneAt) && AllReadAfter(s)
    ensures AlwaysKeeps(enabled, s, statements, files, doneAt) && AllReadAfter(RunShared(enabled, s, statements))
  {
    if statements != [] {
      var n := |statements| - 1;
      LaterReadersKeepTheSite(enabled, s, statements[..n], files, doneAt);
      OneStatementKeeps(enabled, RunShared(enabled, s, statements[..n]), statements[n], files, doneAt);
      OneReaderAfter(enabled, RunShared(enabled, s, statements[..n]), statements[n]);
    }
  }

  lemma OneReaderAfter(enabled: bool, s: Shared, statement: Statement)
    requires Closed(s.site) && AllReadAfter(s)
    ensures AllReadAfter(ApplyStatement(enabled, s, statement))
  {
  }

  lemma OneMoreShared(enabled: bool, s: Shared, statements: seq<Statement>, statement: Statement)
    ensures RunShared(enabled, s, statements + [statement]) == ApplyStatement(enabled, RunShared(enabled, s, statements), statement)
  {
    assert (statements + [statement])[..|statements|] == statements;
  }

  /**
   * An export call that claims the row between the gate of a teardown that skipped the export and
   * the certificate: its finish lands over the appended certificate.
   */
  lemma ExportInBetweenDropsTheCertificate(key: string, certificate: File, at: int)
    ensures var skip := Request(LifecycleAction.Teardown, true, true);
            var start := Shared(Site(Active, None), map[0 := HasRead(true)]);
            var certified := [MoveOver(skip, at, 0, true), ClaimRow(0, None, key, at), CertificateAppend(certificate)];
            var s, after := RunShared(true, start, certified), RunShared(true, start, certified + [FinishRow(0, Files([]), at)]);
            && s.site.lifecycle.TornDown? && HasFile(s.site.exported, certificate)
            && after.site.lifecycle.TornDown? && IsDone(after.site.exported) && !HasFile(after.site.exported, certificate)
  {
    var skip := Request(LifecycleAction.Teardown, true, true);
    var start := Shared(Site(Active, None), map[0 := HasRead(true)]);
    var a, b, c := MoveOver(skip, at, 0, true), ClaimRow(0, None, key, at), CertificateAppend(certificate);
    ThreeShared(true, start, a, b, c);
    OneMoreShared(true, start, [a, b, c], FinishRow(0, Files([]), at));
    SkippedOverNoExport(at);
    ClaimedAfterTheMove(key, certificate, at);
  }

  lemma ThreeShared(enabled: bool, s: Shared, a: Statement, b: Statement, c: Statement)
    ensures RunShared(enabled, s, [a, b, c]) == ApplyStatement(enabled, ApplyStatement(enabled, ApplyStatement(enabled, s, a), b), c)
  {
    Appended3(a, b, c);
    OneMoreShared(enabled, s, [], a);
    OneMoreShared(enabled, s, [a], b);
    OneMoreShared(enabled, s, [a, b], c);
  }

  lemma Appended3(a: Statement, b: Statement, c: Statement)
    ensures [] + [a] == [a] && [a] + [b] == [a, b] && [a, b] + [c] == [a, b, c]
  {
  }

  lemma SkippedOverNoExport(at: int)
    ensures var skip := Request(LifecycleAction.Teardown, true, true);
            ApplyStatement(true, Shared(Site(Active, None), map[0 := HasRead(true)]), MoveOver(skip, at, 0, true))
            == Shared(Site(TornDown, None), map[0 := HasRead(true)])
  {
  }

  lemma ClaimedAfterTheMove(key: string, certificate: File, at: int)
    ensures var claimed := ApplyStatement(true, Shared(Site(TornDown, None), map[0 := HasRead(true)]), ClaimRow(0, None, key, at));
            var certified := ApplyStatement(true, claimed, CertificateAppend(certificate));
            var finished := ApplyStatement(true, certified, FinishRow(0, Files([]), at));
            && certified.site == Site(TornDown, Some(OrderExport(None, key, Pending, [certificate], None, at, None)))
            && finished.site == Site(TornDown, Some(OrderExport(None, key, Done, [], None, at, Some(at))))
  {
    assert [] + [certificate] == [certificate];
  }

  /** An export call that read the order, saw it torn down over a fresh export, and stalled: its claim drops the certificate. */
  lemma StalledExportDropsTheCertificate(exported: OrderExport, doneAt: int, certificate: File)
    requires exported.status.Done? && exported.finishedAt == Some(doneAt)
    ensures var request := Request(LifecycleAction.Teardown, true, false);
            var start := Shared(Site(Active, Some(exported)), map[]);
            var torn := RunShared(true, start, [ReadOrder(0), Whole(Act(request, doneAt, 0, true, exported.key, Some(certificate), doneAt))]);
            var after := ApplyStatement(true, torn, ClaimRow(0, None, exported.key, doneAt + 3_600_001));
            && Closed(torn.site) && certificate in torn.site.exported.value.files
            && after.site.lifecycle.TornDown? && after.site.exported.value.files == []
  {
    var request := Request(LifecycleAction.Teardown, true, false);
    var start := Shared(Site(Active, Some(exported)), map[]);
    var act := Act(request, doneAt, 0, true, exported.key, Some(certificate), doneAt);
    OneMoreShared(true, start, [], ReadOrder(0));
    OneMoreShared(true, start, [ReadOrder(0)], Whole(act));
    assert [] + [ReadOrder(0)] == [ReadOrder(0)] && [ReadOrder(0)] + [Whole(act)] == [ReadOrder(0), Whole(act)];
    var torn := Apply(true, start.site, act);
    assert torn == Site(TornDown, Some(exported.(files := exported.files + [certificate])));
  }

  // ----- The scheduled teardowns -----

  /** One due order, and what happens in its pass: the export's call and the teardown's */
  datatype Due = Due(
    site: Site,
    jobId: Option<string>, key: string, at: int, finishedAt: int, collected: Collected,
    gateAt: int, failed: nat, previewsGone: bool, certificate: Option<File>, certifiedAt: int)
  {
    function TakeCall(): Call {
      Take(jobId, key, at, finishedAt, collected)
    }

    function TeardownCall(): Call {
      Act(Request(LifecycleAction.Teardown, true, false), gateAt, failed, previewsGone, key, certificate, certifiedAt)
    }
  }

  function Taken(due: Due): Site {
    Apply(true, due.site, due.TakeCall())
  }

  /** The export first, and the teardown only after it is done */
  function AfterPass(due: Due): Site {
    if IsDone(Taken(due).exported) then Apply(true, Taken(due), due.TeardownCall()) else Taken(due)
  }

  datatype Outcome = NowTornDown | NotTornDown | NothingToDo

  /** A refused gate and a preview that would not go both throw; a failed resource is reported */
  predicate Applies(due: Due) {
    && IsDone(Taken(due).exported)
    && GateOpen(true, Request(LifecycleAction.Teardown, true, false), Taken(due).exported, due.gateAt)
    && due.failed == 0 && due.previewsGone
  }

  function OutcomeOf(due: Due): Outcome {
    if !Applies(due) then NotTornDown else if due.site.lifecycle.TornDown? then NothingToDo else NowTornDown
  }

  /**
   * A pass tears an order down only over a done and fresh export, with no failed resource and every
   * preview gone; otherwise the order keeps its state. One that was torn down since the list was
   * read comes out as neither torn down nor failed, with another certificate.
   */
  lemma PassIsSafe(due: Due)
    ensures var after := AfterPass(due);
            && (OutcomeOf(due).NowTornDown? <==> after.lifecycle.TornDown? && !due.site.lifecycle.TornDown?)
            && (after.lifecycle.TornDown? && !due.site.lifecycle.TornDown? ==>
                  && due.failed == 0 && due.previewsGone && Closed(after)
                  && var row := TakeExport(due.site, due.jobId, due.key, due.at, due.finishedAt, due.collected);
                     row.Some? && row.value.status.Done? && row.value.finishedAt.Some? && due.gateAt - row.value.finishedAt.value <= 3_600_000)
            && (!OutcomeOf(due).NowTornDown? ==> after.lifecycle == due.site.lifecycle)
            && (OutcomeOf(due).NothingToDo? && due.certificate.Some? ==>
                  after.exported.Some? && after.exported.value.files == Taken(due).exported.value.files + [due.certificate.value])
  {
  }

  /** One order of `runHostingSweep` and `runLifecycleSweep`. */
  method SweepOrder(due: Due) returns (after: Site, exported: bool, outcome: Outcome)
    ensures after == AfterPass(due) && outcome == OutcomeOf(due)
    ensures exported == IsDone(Taken(due).exported)
  {
    var taken := Apply(true, due.site, due.TakeCall());
    if !IsDone(taken.exported) {
      return taken, false, NotTornDown;
    }
    after := Apply(true, taken, due.TeardownCall());
    var applies := GateOpen(true, Request(LifecycleAction.Teardown, true, false), taken.exported, due.gateAt)
                   && due.failed == 0 && due.previewsGone;
    exported, outcome := true, if !applies then NotTornDown else if taken.lifecycle.TornDown? then NothingToDo else NowTornDown;
  }

  function AfterPasses(due: seq<Due>): seq<Site> {
    if due == [] then [] else AfterPasses(due[..|due| - 1]) + [AfterPass(due[|due| - 1])]
  }

  function Sites(due: seq<Due>): seq<Site> {
    if due == [] then [] else Sites(due[..|due| - 1]) + [due[|due| - 1].site]
  }

  function CountOf(due: seq<Due>, outcome: Outcome): nat {
    if due == [] then 0
    else
      var rest := CountOf(due[..|due| - 1], outcome);
      if OutcomeOf(due[|due| - 1]) == outcome then rest + 1 else rest
  }

  /** How many of the due orders have a done export after their pass's export call */
  function CountExported(due: seq<Due>): nat {
    if due == [] then 0
    else
      var rest := CountExported(due[..|due| - 1]);
      if IsDone(Taken(due[|due| - 1]).exported) then rest + 1 else rest
  }

  lemma {:induction false} OutcomesAddUp(due: seq<Due>)
    ensures CountOf(due, NowTornDown) + CountOf(due, NotTornDown) + CountOf(due, NothingToDo) == |due|
  {
    if due != [] {
      OutcomesAddUp(due[..|due| - 1]);
    }
  }

  lemma {:induction false} NoneOfThat(due: seq<Due>, outcome: Outcome)
    ensures CountOf(due, outcome) == 0 <==> forall d :: d in due ==> OutcomeOf(d) != outcome
  {
    if due != [] {
      var n := |due| - 1;
      NoneOfThat(due[..n], outcome);
      assert due == due[..n] + [due[n]];
    }
  }

  datatype Counts = Counts(checked: nat, exported: nat, tornDown: nat, failed: nat, skipped: nat)

  /**
   * `runHostingSweep`: every due order has its own pass, whatever the others came to. Torn down and
   * failed add up to the due orders if and only if no pass found nothing to do. With the feature off
   * nothing moves.
   */
  method RunHostingSweep(enabled: bool, due: seq<Due>) returns (after: seq<Site>, counts: Counts)
    ensures after == if enabled then AfterPasses(due) else Sites(due)
    ensures !enabled ==> counts == Counts(|due|, 0, 0, 0, |due|)
    ensures enabled ==> counts.checked == |due| && counts.skipped == 0
    ensures enabled ==> counts.tornDown == CountOf(due, NowTornDown) && counts.failed == CountOf(due, NotTornDown)
    ensures enabled ==> counts.exported == CountExported(due)
    ensures enabled ==> (counts.tornDown + counts.failed == |due| <==> forall d :: d in due ==> OutcomeOf(d) != NothingToDo)
    ensures counts.tornDown <= counts.exported
  {
    if !enabled {
      return Sites(due), Counts(|due|, 0, 0, 0, |due|);
    }
    after := [];
    var exported: nat, tornDown: nat, failed: nat := 0, 0, 0;
    for i := 0 to |due|
      invariant after == AfterPasses(due[..i])
      invariant tornDown == CountOf(due[..i], NowTornDown) && failed == CountOf(due[..i], NotTornDown)
      invariant exported == CountExported(due[..i]) && tornDown <= exported
    {
      assert due[..i + 1][..i] == due[..i];
      var site, exportedNow, outcome := SweepOrder(due[i]);
      after := after + [site];
      exported := if exportedNow then exported + 1 else exported;
      tornDown := if outcome.NowTornDown? then tornDown + 1 else tornDown;
      failed := if outcome.NotTornDown? then failed + 1 else failed;
    }
    assert due[..|due|] == due;
    OutcomesAddUp(due);
    NoneOfThat(due, NothingToDo);
    counts := Counts(|due|, exported, tornDown, failed, 0);
  }
}
