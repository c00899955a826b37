/** Lifecycle actions on one order (apps/api/src/services/accountService.ts `runLifecycleAction`). */
module Teardown {
  import opened Lifecycle
  import opened OrderExports
  import opened Wrappers

  // Every statement is a step of its own: any number of admin and sweep actions interleave with each
  // other, with claims and finishes of the export, and with new jobs, and may stop anywhere.

  const JOB_LIST_LIMIT: nat := 200

  /** `mode: 'redeliver'` jobs use their source job's resources */
  datatype JobRow = JobRow(id: string, redeliver: bool, sourceJobId: Option<string>)

  /** `provisioningJobIdOf` */
  function ProvisioningId(job: JobRow): string {
    if job.redeliver && job.sourceJobId.Some? then job.sourceJobId.value else job.id
  }

  /** `db.jobs.list`: the newest 200, newest first */
  function ListedJobs(jobs: seq<JobRow>): seq<JobRow> {
    if |jobs| <= JOB_LIST_LIMIT then jobs else jobs[..JOB_LIST_LIMIT]
  }

  /** The distinct provisioning ids of the listed jobs */
  function ListedIds(jobs: seq<JobRow>): set<string> {
    set job | job in ListedJobs(jobs) :: ProvisioningId(job)
  }

  /** What the api provisions for a job's delivered app, named after its provisioning id */
  datatype Preview = Database(jobId: string) | Storage(jobId: string)

  function PreviewsOf(ids: set<string>): (previews: set<Preview>)
    ensures forall p :: p in previews <==> p.jobId in ids
  {
    (set jobId | jobId in ids :: Database(jobId)) + (set jobId | jobId in ids :: Storage(jobId))
  }

  /** What a teardown that lists these jobs tears down */
  function ListedPreviews(jobs: seq<JobRow>): set<Preview> {
    PreviewsOf(ListedIds(jobs))
  }

  datatype Request = Request(action: LifecycleAction, confirm: bool, skipExport: bool)

  /** Where an action stands; the numbers are the steps of the run at which it got there */
  datatype Progress =
    | Read
    | Gated(gate: nat)
    | Cleared(gate: nat, swept: nat)
    | Emptying(gate: nat, swept: nat, listed: nat, todo: set<Preview>)
    | Emptied
    | Ended

  datatype Action = Action(request: Request, from: LifecycleState, progress: Progress)

  /** Every job's previews that exist, the jobs that are active, and what their requests in flight ask for */
  datatype Order = Order(
    lifecycle: LifecycleState,
    exported: Option<OrderExport>,
    jobs: seq<JobRow>,
    actions: seq<Action>,
    live: set<Preview>,
    active: set<JobRow>,
    asked: map<nat, Preview>)

  /** One preview's teardown: it returned, or it threw before or after the preview was gone */
  datatype Drop = Returned | ThrewBefore | ThrewAfter

  datatype Step =
    | Start(request: Request)
    | CheckGate(id: nat, now: int)
    | RunDeprovision(id: nat, failed: nat)
    | ListJobs(id: nat)
    | TeardownPreview(id: nat, preview: Preview, drop: Drop)
    | SetLifecycle(id: nat)
    | Stop(id: nat)
    | OnExport(op: Op)
    | NewJob(job: JobRow)
    | EndJob(job: JobRow)
    | Ask(call: nat, job: JobRow, storage: bool)
    | Serve(call: nat, made: bool)

  /** The gate of a confirmed teardown: feature on, no export in flight, and a fresh one or an explicit skip */
  predicate GateOpen(enabled: bool, request: Request, exported: Option<OrderExport>, now: int) {
    request.action.Teardown? && request.confirm ==>
      && enabled
      && !(exported.Some? && exported.value.status.Pending?)
      && (request.skipExport || IsFresh(exported, now))
  }

  function Moved(o: Order, id: nat, progress: Progress): Order
    requires id < |o.actions|
  {
    o.(actions := o.actions[id := o.actions[id].(progress := progress)])
  }

  /** One statement, as step `at` of the run */
  function Apply(enabled: bool, o: Order, at: nat, step: Step): Order {
    match step
    case Start(request) =>
      if !CanTransition(o.lifecycle, TargetOf(request.action)) then o
      else o.(actions := o.actions + [Action(request, o.lifecycle, Read)])
    case CheckGate(id, now) =>
      if id >= |o.actions| || !o.actions[id].progress.Read? then o
      else Moved(o, id, if GateOpen(enabled, o.actions[id].request, o.exported, now) then Gated(at) else Ended)
    case RunDeprovision(id, failed) =>
      if id >= |o.actions| || !o.actions[id].progress.Gated? then o
      else
        // A dry run returns here; so does a run that reported failures
        Moved(o, id, if !o.actions[id].request.confirm || failed > 0 then Ended else Cleared(o.actions[id].progress.gate, at))
    case ListJobs(id) =>
      if id >= |o.actions| || !o.actions[id].progress.Cleared? then o
      else
        var p := o.actions[id].progress;
        Moved(o, id, if !o.actions[id].request.action.Teardown? then Emptied else Emptying(p.gate, p.swept, at, ListedPreviews(o.jobs)))
    case TeardownPreview(id, preview, drop) =>
      if id >= |o.actions| || !o.actions[id].progress.Emptying? || preview !in o.actions[id].progress.todo then o
      else
        var p := o.actions[id].progress;
        Moved(o, id, if drop.Returned? then p.(todo := p.todo - {preview}) else Ended)
          .(live := if drop.ThrewBefore? then o.live else o.live - {preview})
    case SetLifecycle(id) =>
      if id >= |o.actions| then o
      else
        var a := o.actions[id];
        if !(a.progress.Emptied? || (a.progress.Emptying? && a.progress.todo == {})) then o
        else if o.lifecycle != a.from then Moved(o, id, Ended)
        else Moved(o, id, Ended).(lifecycle := TargetOf(a.request.action))
    case Stop(id) => if id >= |o.actions| then o else Moved(o, id, Ended)
    case OnExport(op) => o.(exported := OrderExports.Apply(o.exported, op))
    case NewJob(job) => o.(jobs := [job] + o.jobs, active := o.active + {job})
    case EndJob(job) => o.(active := o.active - {job})
    case Ask(call, job, storage) =>
      // The container of an active job; nothing here looks at the order
      if job !in o.active then o
      else
        var jobId := ProvisioningId(job);
        o.(asked := o.asked[call := if storage then Storage(jobId) else Database(jobId)])
    case Serve(call, made) =>
      if call !in o.asked then o
      else o.(asked := o.asked - {call}, live := if made then o.live + {o.asked[call]} else o.live)
  }

  function OrderAfter(enabled: bool, start: Order, steps: seq<Step>): Order {
    if steps == [] then start
    else Apply(enabled, OrderAfter(enabled, start, steps[..|steps| - 1]), |steps| - 1, steps[|steps| - 1])
  }

  /** A run: what it started from, and its steps so far */
  datatype History = History(enabled: bool, start: Order, steps: seq<Step>) {
    /** The order as step `k` finds it */
    function At(k: nat): Order
      requires k <= |steps|
    {
      OrderAfter(enabled, start, steps[..k])
    }

    function Now(): Order {
      OrderAfter(enabled, start, steps)
    }

    function Before(n: nat): History
      requires n <= |steps|
    {
      this.(steps := steps[..n])
    }

    ghost predicate Opens() {
      start.actions == [] && !start.lifecycle.TornDown?
    }

    /** Step `k` is a statement of action `id`, whose progress it finds */
    predicate Acts(k: nat, id: nat, request: Request) {
      k < |steps| && id < |At(k).actions| && At(k).actions[id].request == request
    }

    /** Step `g` found the gate of the action open, on the order's own export row */
    predicate PassesGate(g: nat, id: nat, request: Request) {
      && Acts(g, id, request) && steps[g].CheckGate? && steps[g].id == id
      && At(g).actions[id].progress.Read? && GateOpen(enabled, request, At(g).exported, steps[g].now)
    }

    predicate SweepsClean(d: nat, id: nat, request: Request) {
      Acts(d, id, request) && steps[d] == RunDeprovision(id, 0) && At(d).actions[id].progress.Gated? && request.confirm
    }

    predicate Lists(l: nat, id: nat, request: Request) {
      Acts(l, id, request) && steps[l] == ListJobs(id) && At(l).actions[id].progress.Cleared?
    }

    /** Step `p` is the action's teardown of the preview, which was still to do */
    predicate TearsDown(p: nat, id: nat, preview: Preview) {
      && p < |steps| && steps[p].TeardownPreview? && steps[p].id == id && steps[p].preview == preview
      && id < |At(p).actions| && At(p).actions[id].progress.Emptying? && preview in At(p).actions[id].progress.todo
    }

    /** And it returned */
    predicate Empties(p: nat, id: nat, preview: Preview) {
      TearsDown(p, id, preview) && steps[p].drop.Returned?
    }

    ghost predicate EmptiedAfter(l: nat, id: nat, preview: Preview) {
      exists p :: l < p < |steps| && Empties(p, id, preview)
    }

    /** Everything listed at `l` was torn down since, but for what is still to do */
    ghost predicate Previews(l: nat, id: nat, request: Request, todo: set<Preview>) {
      && Lists(l, id, request) && todo <= ListedPreviews(At(l).jobs)
      && forall preview :: preview in ListedPreviews(At(l).jobs) && preview !in todo ==> EmptiedAfter(l, id, preview)
    }

    ghost predicate ActionOk(id: nat)
      requires id < |Now().actions|
    {
      var a := Now().actions[id];
      && CanTransition(a.from, TargetOf(a.request.action))
      && match a.progress
         case Read => true
         case Ended => true
         case Gated(g) => PassesGate(g, id, a.request)
         case Cleared(g, d) => PassesGate(g, id, a.request) && g < d && SweepsClean(d, id, a.request)
         case Emptying(g, d, l, todo) =>
           && a.request.action.Teardown?
           && PassesGate(g, id, a.request) && g < d && SweepsClean(d, id, a.request)
           && d < l && Previews(l, id, a.request, todo)
         case Emptied => !a.request.action.Teardown? && a.request.confirm
    }

    /** Step `s` moved the order to torn down, with nothing left to do of what step `l` listed */
    predicate MovesOver(s: nat, id: nat, request: Request, l: nat) {
      && Acts(s, id, request) && steps[s] == SetLifecycle(id)
      && At(s).actions[id].progress.Emptying? && At(s).actions[id].progress.listed == l && At(s).actions[id].progress.todo == {}
      && !At(s).lifecycle.TornDown? && At(s + 1).lifecycle.TornDown?
    }

    /**
     * One confirmed teardown, with the feature on: at step `g` the order's export row let it
     * through the gate, at `d` the deprovision reported no failure, at `l` it listed the order's
     * jobs, after that the teardown of each preview of a listed provisioning id returned, and then
     * step `s` moved the order.
     */
    ghost predicate Earned(id: nat, request: Request, g: nat, d: nat, l: nat, s: nat) {
      && request.action.Teardown? && request.confirm && enabled
      && g < d < l < s < |steps|
      && PassesGate(g, id, request) && SweepsClean(d, id, request)
      && Before(s).Previews(l, id, request, {})
      && MovesOver(s, id, request, l)
    }

    ghost predicate IsEarned() {
      exists id, request, g, d, l, s :: Earned(id, request, g, d, l, s)
    }

    ghost predicate Inv() {
      && (forall id :: 0 <= id < |Now().actions| ==> ActionOk(id))
      && (Now().lifecycle.TornDown? ==> IsEarned())
    }
  }

  // ----- Longer runs keep what shorter ones showed -----

  lemma SamePast(h: History, n: nat, k: nat)
    requires k <= n <= |h.steps|
    ensures h.Before(n).At(k) == h.At(k)
  {
    assert h.steps[..n][..k] == h.steps[..k];
  }

  lemma PastStays(h: History, n: nat, k: nat, id: nat, request: Request)
    requires k < n <= |h.steps|
    ensures h.Before(n).PassesGate(k, id, request) == h.PassesGate(k, id, request)
    ensures h.Before(n).SweepsClean(k, id, request) == h.SweepsClean(k, id, request)
    ensures h.Before(n).Lists(k, id, request) == h.Lists(k, id, request)
  {
    SamePast(h, n, k);
  }

  lemma EmptiesStays(h: History, n: nat, p: nat, id: nat, preview: Preview)
    requires p < n <= |h.steps|
    ensures h.Before(n).TearsDown(p, id, preview) == h.TearsDown(p, id, preview)
    ensures h.Before(n).Empties(p, id, preview) == h.Empties(p, id, preview)
  {
    SamePast(h, n, p);
  }

  lemma PreviewsStay(h: History, n: nat, l: nat, id: nat, request: Request, todo: set<Preview>)
    requires n <= |h.steps| && h.Before(n).Previews(l, id, request, todo)
    ensures h.Previews(l, id, request, todo)
  {
    PastStays(h, n, l, id, request);
    SamePast(h, n, l);
    forall preview | preview in ListedPreviews(h.At(l).jobs) && preview !in todo ensures h.EmptiedAfter(l, id, preview) {
      assert h.Before(n).EmptiedAfter(l, id, preview);
      var p :| l < p < n && h.Before(n).Empties(p, id, preview);
      EmptiesStays(h, n, p, id, preview);
    }
  }

  /** An action that a step leaves alone stands as well after it */
  lemma ActionStaysOk(h: History, n: nat, id: nat)
    requires n <= |h.steps| && id < |h.Before(n).Now().actions| && id < |h.Now().actions|
    requires h.Before(n).ActionOk(id) && h.Now().actions[id] == h.Before(n).Now().actions[id]
    ensures h.ActionOk(id)
  {
    var a := h.Now().actions[id];
    match a.progress
    case Gated(g) => PastStays(h, n, g, id, a.request);
    case Cleared(g, d) =>
      PastStays(h, n, g, id, a.request);
      PastStays(h, n, d, id, a.request);
    case Emptying(g, d, l, todo) =>
      PastStays(h, n, g, id, a.request);
      PastStays(h, n, d, id, a.request);
      PreviewsStay(h, n, l, id, a.request, todo);
    case _ =>
  }

  lemma MoveStays(h: History, n: nat, s: nat, id: nat, request: Request, l: nat)
    requires s < n <= |h.steps|
    ensures h.Before(n).MovesOver(s, id, request, l) == h.MovesOver(s, id, request, l)
    ensures h.Before(n).Before(s) == h.Before(s)
  {
    SamePast(h, n, s);
    SamePast(h, n, s + 1);
    assert h.steps[..n][..s] == h.steps[..s];
  }

  lemma EarnedStays(h: History, n: nat, id: nat, request: Request, g: nat, d: nat, l: nat, s: nat)
    requires n <= |h.steps| && h.Before(n).Earned(id, request, g, d, l, s)
    ensures h.Earned(id, request, g, d, l, s)
  {
    MoveStays(h, n, s, id, request, l);
    assert h.PassesGate(g, id, request) by {
      PastStays(h, n, g, id, request);
    }
    assert h.SweepsClean(d, id, request) by {
      PastStays(h, n, d, id, request);
    }
  }

  // ----- One more step -----

  lemma LastStep(h: History)
    requires h.steps != []
    ensures var n := |h.steps| - 1;
            h.Before(n).Now() == h.At(n) && h.Now() == Apply(h.enabled, h.At(n), n, h.steps[n])
    ensures h.At(|h.steps|) == h.Now()
  {
    assert h.steps[..|h.steps|] == h.steps;
  }

  /** The step before last found the action fine and the last one is the action's own statement */
  ghost predicate ActsLast(h: History, id: nat) {
    && h.steps != []
    && var n := |h.steps| - 1;
       id < |h.Before(n).Now().actions| && h.Before(n).ActionOk(id)
  }

  lemma GateStepOk(h: History, id: nat, now: int)
    requires ActsLast(h, id) && h.steps[|h.steps| - 1] == CheckGate(id, now)
    requires h.At(|h.steps| - 1).actions[id].progress.Read?
    ensures h.ActionOk(id)
  {
    LastStep(h);
  }

  lemma SweepStepOk(h: History, id: nat, failed: nat)
    requires ActsLast(h, id) && h.steps[|h.steps| - 1] == RunDeprovision(id, failed)
    requires h.At(|h.steps| - 1).actions[id].progress.Gated?
    ensures h.ActionOk(id)
  {
    LastStep(h);
    var n := |h.steps| - 1;
    var a := h.At(n).actions[id];
    PastStays(h, n, a.progress.gate, id, a.request);
  }

  lemma ListStepOk(h: History, id: nat)
    requires ActsLast(h, id) && h.steps[|h.steps| - 1] == ListJobs(id)
    requires h.At(|h.steps| - 1).actions[id].progress.Cleared?
    ensures h.ActionOk(id)
  {
    LastStep(h);
    var n := |h.steps| - 1;
    var a := h.At(n).actions[id];
    PastStays(h, n, a.progress.gate, id, a.request);
    PastStays(h, n, a.progress.swept, id, a.request);
  }

  lemma OneLessToDo(h: History, id: nat, preview: Preview)
    requires h.steps != [] && h.steps[|h.steps| - 1] == TeardownPreview(id, preview, Returned)
    requires id < |h.At(|h.steps| - 1).actions|
    requires var p := h.At(|h.steps| - 1).actions[id].progress; p.Emptying? && preview in p.todo
    ensures var a := h.At(|h.steps| - 1).actions[id];
            && id < |h.Now().actions|
            && h.Now().actions[id] == a.(progress := a.progress.(todo := a.progress.todo - {preview}))
            && h.Empties(|h.steps| - 1, id, preview)
  {
    LastStep(h);
  }

  lemma PreviewStepOk(h: History, id: nat, preview: Preview)
    requires ActsLast(h, id) && h.steps[|h.steps| - 1] == TeardownPreview(id, preview, Returned)
    requires var p := h.At(|h.steps| - 1).actions[id].progress; p.Emptying? && preview in p.todo
    ensures h.ActionOk(id)
  {
    var n := |h.steps| - 1;
    assert h.Before(n).Now() == h.At(n);
    var a := h.At(n).actions[id];
    OneLessToDo(h, id, preview);
    PastStays(h, n, a.progress.gate, id, a.request);
    PastStays(h, n, a.progress.swept, id, a.request);
    OneMoreIsDone(h, id, preview, a.progress.listed, a.request, a.progress.todo);
  }

  lemma OneMoreIsDone(h: History, id: nat, preview: Preview, l: nat, request: Request, todo: set<Preview>)
    requires h.steps != [] && l < |h.steps| - 1 && h.Before(|h.steps| - 1).Previews(l, id, request, todo)
    requires h.Empties(|h.steps| - 1, id, preview)
    ensures h.Previews(l, id, request, todo - {preview})
  {
    PreviewsStay(h, |h.steps| - 1, l, id, request, todo);
    assert h.EmptiedAfter(l, id, preview);
  }

  lemma EndedOk(h: History, id: nat)
    requires ActsLast(h, id) && id < |h.Now().actions|
    requires h.Now().actions[id] == h.At(|h.steps| - 1).actions[id].(progress := Ended)
    ensures h.ActionOk(id)
  {
    LastStep(h);
  }

  /** The action that the last step moved stands well after it */
  lemma ActedOk(h: History, id: nat)
    requires ActsLast(h, id) && id < |h.Now().actions| && h.Now().actions[id] != h.At(|h.steps| - 1).actions[id]
    ensures h.ActionOk(id)
  {
    LastStep(h);
    var n := |h.steps| - 1;
    match h.steps[n]
    case CheckGate(_, now) => GateStepOk(h, id, now);
    case RunDeprovision(_, failed) => SweepStepOk(h, id, failed);
    case ListJobs(_) => ListStepOk(h, id);
    case TeardownPreview(_, preview, drop) => if drop.Returned? { PreviewStepOk(h, id, preview); } else { EndedOk(h, id); }
    case SetLifecycle(_) => EndedOk(h, id);
    case Stop(_) => EndedOk(h, id);
    case _ =>
  }

  lemma ActionsKeepOk(h: History, id: nat)
    requires h.steps != [] && h.Before(|h.steps| - 1).Inv() && id < |h.Now().actions|
    ensures h.ActionOk(id)
  {
    LastStep(h);
    var n := |h.steps| - 1;
    if id < |h.At(n).actions| {
      assert h.Before(n).ActionOk(id);
      if h.Now().actions[id] == h.At(n).actions[id] {
        ActionStaysOk(h, n, id);
      } else {
        ActedOk(h, id);
      }
    }
  }

  /** A step that moves the order to torn down is earned by its action */
  lemma SetEarns(h: History, id: nat)
    requires h.steps != [] && h.Before(|h.steps| - 1).Inv() && h.steps[|h.steps| - 1] == SetLifecycle(id)
    requires h.Now().lifecycle.TornDown? && !h.At(|h.steps| - 1).lifecycle.TornDown?
    ensures h.IsEarned()
  {
    LastStep(h);
    var n := |h.steps| - 1;
    assert h.Before(n).ActionOk(id);
    var a := h.At(n).actions[id];
    var p := a.progress;
    PastStays(h, n, p.gate, id, a.request);
    PastStays(h, n, p.swept, id, a.request);
    assert h.Earned(id, a.request, p.gate, p.swept, p.listed, n);
  }

  lemma StepKeepsInv(h: History)
    requires h.steps != [] && h.Before(|h.steps| - 1).Inv()
    ensures h.Inv()
    ensures h.At(|h.steps| - 1).lifecycle.TornDown? ==> h.Now().lifecycle.TornDown?
  {
    LastStep(h);
    var n := |h.steps| - 1;
    forall id | 0 <= id < |h.Now().actions| ensures h.ActionOk(id) {
      ActionsKeepOk(h, id);
    }
    if h.At(n).lifecycle.TornDown? {
      var id, request, g, d, l, s :| h.Before(n).Earned(id, request, g, d, l, s);
      EarnedStays(h, n, id, request, g, d, l, s);
      StaysTornDown(h);
    } else if h.Now().lifecycle.TornDown? {
      SetEarns(h, h.steps[n].id);
    }
  }

  lemma StaysTornDown(h: History)
    requires h.steps != [] && h.Before(|h.steps| - 1).Inv() && h.At(|h.steps| - 1).lifecycle.TornDown?
    ensures h.Now().lifecycle.TornDown?
  {
    LastStep(h);
    var n := |h.steps| - 1;
    if h.steps[n].SetLifecycle? && h.steps[n].id < |h.At(n).actions| {
      assert h.Before(n).ActionOk(h.steps[n].id);
    }
  }

  lemma {:induction false} RunKeepsInv(h: History)
    requires h.Opens()
    ensures h.Inv()
    decreases |h.steps|
  {
    if h.steps != [] {
      RunKeepsInv(h.Before(|h.steps| - 1));
      StepKeepsInv(h);
    }
  }

  // ----- Results -----

  /**
   * However actions interleave, an order found torn down was torn down by an action that earned it;
   * and its gate, at step `g`, found no export in flight and, unless it was told to skip the export,
   * one done at most an hour before.
   */
  lemma TornDownIsEarned(h: History)
    requires h.Opens() && h.Now().lifecycle.TornDown?
    ensures h.enabled
    ensures exists id: nat, request, g: nat, d: nat, l: nat, s: nat ::
              && h.Earned(id, request, g, d, l, s)
              && var row := h.At(g).exported;
                 && !(row.Some? && row.value.status.Pending?)
                 && (request.skipExport ||
                     (row.Some? && row.value.status.Done? && row.value.finishedAt.Some? && h.steps[g].now - row.value.finishedAt.value <= 3_600_000))
  {
    RunKeepsInv(h);
    var id: nat, request, g: nat, d: nat, l: nat, s: nat :| h.Earned(id, request, g, d, l, s);
    assert h.PassesGate(g, id, request);
  }

  /**
   * The gate, both ways: a confirmed teardown passes it if and only if the feature is on, no export
   * is in flight, and the export is skipped or was done at most an hour before; anything else passes.
   */
  lemma GateIff(h: History, id: nat, now: int)
    requires h.steps != [] && h.steps[|h.steps| - 1] == CheckGate(id, now)
    requires id < |h.At(|h.steps| - 1).actions| && h.At(|h.steps| - 1).actions[id].progress.Read?
    ensures var n := |h.steps| - 1;
            var request, row := h.At(n).actions[id].request, h.At(n).exported;
            && id < |h.Now().actions|
            && h.Now().actions[id].progress ==
               if request.action.Teardown? && request.confirm then
                 if && h.enabled
                    && !(row.Some? && row.value.status.Pending?)
                    && (request.skipExport ||
                        (row.Some? && row.value.status.Done? && row.value.finishedAt.Some? && now - row.value.finishedAt.value <= 3_600_000))
                 then Gated(n) else Ended
               else Gated(n)
  {
    LastStep(h);
  }

  /**
   * A change of lifecycle is one of four, and is the last statement of a confirmed action of that
   * name which found the order as it had read it.
   */
  lemma LifecycleMovesByItsAction(h: History)
    requires h.Opens() && h.steps != [] && h.Now().lifecycle != h.At(|h.steps| - 1).lifecycle
    ensures var n := |h.steps| - 1;
            && h.steps[n].SetLifecycle? && h.steps[n].id < |h.At(n).actions|
            && var a, before, after := h.At(n).actions[h.steps[n].id], h.At(n).lifecycle, h.Now().lifecycle;
               && a.request.confirm && a.from == before
               && after == (match a.request.action case Suspend => Suspended case Resume => Active case Teardown => TornDown)
               && (before, after) in {(Active, Suspended), (Active, TornDown), (Suspended, Active), (Suspended, TornDown)}
  {
    var n := |h.steps| - 1;
    RunKeepsInv(h.Before(n));
    LastStep(h);
    var id := h.steps[n].id;
    assert h.Before(n).ActionOk(id);
    AllowedMoves(h.At(n).actions[id].from, h.At(n).actions[id].request.action);
  }

  lemma AllowedMoves(from: LifecycleState, action: LifecycleAction)
    requires CanTransition(from, TargetOf(action))
    ensures TargetOf(action) == match action case Suspend => Suspended case Resume => Active case Teardown => TornDown
    ensures from != TargetOf(action) ==>
              (from, TargetOf(action)) in {(Active, Suspended), (Active, TornDown), (Suspended, Active), (Suspended, TornDown)}
  {
  }

  /** Whatever an action does after it stopped changes nothing. */
  lemma StoppedIsOver(enabled: bool, o: Order, id: nat, at: nat, later: nat, step: Step)
    requires id < |o.actions|
    requires step.CheckGate? || step.RunDeprovision? || step.ListJobs? || step.TeardownPreview? || step.SetLifecycle? || step.Stop?
    requires step.id == id
    ensures var stopped := Apply(enabled, o, at, Stop(id));
            && stopped.lifecycle == o.lifecycle && stopped.exported == o.exported && stopped.live == o.live
            && Apply(enabled, stopped, later, step) == stopped
  {
    var stopped := Apply(enabled, o, at, Stop(id));
    assert stopped.actions[id].progress.Ended?;
    assert stopped.actions[id := stopped.actions[id]] == stopped.actions;
  }

  /** A container whose job has ended gets nothing made. */
  lemma EndedJobAsksInVain(enabled: bool, o: Order, at: nat, later: nat, job: JobRow, call: nat, storage: bool)
    ensures var ended := Apply(enabled, o, at, EndJob(job)); Apply(enabled, ended, later, Ask(call, job, storage)) == ended
  {
  }

  /** The export statements of a run, in order */
  function ExportOps(steps: seq<Step>): seq<Op> {
    if steps == [] then []
    else
      var rest, last := ExportOps(steps[..|steps| - 1]), steps[|steps| - 1];
      if last.OnExport? then rest + [last.op] else rest
  }

  /** The row every gate reads is what the export statements before it, and nothing else, made of it. */
  lemma {:induction false} GatesReadTheRow(h: History)
    ensures h.Now().exported == RunOn(h.start.exported, ExportOps(h.steps))
    decreases |h.steps|
  {
    if h.steps != [] {
      var n := |h.steps| - 1;
      GatesReadTheRow(h.Before(n));
      LastStep(h);
      OneStepOnTheRow(h.enabled, h.At(n), n, h.steps[n]);
      if h.steps[n].OnExport? {
        assert (ExportOps(h.steps[..n]) + [h.steps[n].op])[..|ExportOps(h.steps[..n])|] == ExportOps(h.steps[..n]);
      }
    }
  }

  lemma OneStepOnTheRow(enabled: bool, o: Order, at: nat, step: Step)
    ensures Apply(enabled, o, at, step).exported == if step.OnExport? then OrderExports.Apply(o.exported, step.op) else o.exported
  {
  }

  /** And nothing ever leads out of it. */
  lemma {:induction false} TornDownIsNeverLeft(h: History, n: nat)
    requires h.Opens() && n <= |h.steps| && h.At(n).lifecycle.TornDown?
    ensures h.Now().lifecycle.TornDown?
    decreases |h.steps|
  {
    if n == |h.steps| {
      assert h.steps[..n] == h.steps;
    } else {
      var m := |h.steps| - 1;
      SamePast(h, m, n);
      TornDownIsNeverLeft(h.Before(m), n);
      NeverLeftInOneStep(h);
    }
  }

  lemma NeverLeftInOneStep(h: History)
    requires h.Opens() && h.steps != [] && h.Before(|h.steps| - 1).Now().lifecycle.TornDown?
    ensures h.Now().lifecycle.TornDown?
  {
    RunKeepsInv(h.Before(|h.steps| - 1));
    LastStep(h);
    StaysTornDown(h);
  }

  // ----- Which previews a teardown reaches -----

  /** No job beyond the list limit has a provisioning id of its own */
  predicate NoneCut(jobs: seq<JobRow>) {
    forall i :: 200 <= i < |jobs| ==> ProvisioningId(jobs[i]) in ListedIds(jobs)
  }

  /** No job that came after step `l` has a provisioning id that step did not list */
  ghost predicate NoneLate(h: History, l: nat)
    requires l <= |h.steps|
  {
    forall k :: l < k < |h.steps| && h.steps[k].NewJob? ==> ProvisioningId(h.steps[k].job) in ListedIds(h.At(l).jobs)
  }

  /** Every preview that a job of the order may have */
  function AllPreviews(jobs: seq<JobRow>): set<Preview> {
    PreviewsOf(set job | job in jobs :: ProvisioningId(job))
  }

  /** Every preview of every job of the order was once torn down by action `id` */
  ghost predicate ReachesAll(h: History, id: nat) {
    forall preview :: preview in AllPreviews(h.Now().jobs) ==> EmptiedBy(h, id, preview)
  }

  ghost predicate EmptiedBy(h: History, id: nat, preview: Preview) {
    exists p :: 0 <= p < |h.steps| && h.Empties(p, id, preview)
  }

  ghost predicate Arrived(h: History, l: nat, job: JobRow) {
    exists k :: l <= k < |h.steps| && h.steps[k] == NewJob(job)
  }

  /** How many jobs were started after step `k` */
  function StartedSince(steps: seq<Step>, k: nat): nat {
    if |steps| <= k + 1 then 0
    else
      var before := StartedSince(steps[..|steps| - 1], k);
      if steps[|steps| - 1].NewJob? then before + 1 else before
  }

  lemma {:induction false} PlaceOfJob(h: History, k: nat)
    requires k < |h.steps| && h.steps[k].NewJob?
    ensures var i := StartedSince(h.steps, k); i < |h.Now().jobs| && h.Now().jobs[i] == h.steps[k].job
    decreases |h.steps|
  {
    var n := |h.steps| - 1;
    OneStepOfJobs(h);
    if k < n {
      PlaceOfJob(h.Before(n), k);
    }
  }

  lemma OneStepOfJobs(h: History)
    requires h.steps != []
    ensures var n := |h.steps| - 1;
            h.Now().jobs == if h.steps[n].NewJob? then [h.steps[n].job] + h.Before(n).Now().jobs else h.Before(n).Now().jobs
  {
    LastStep(h);
  }

  /** The newest 200 jobs are the listed ones: a job is, with its provisioning id, until 200 more have come. */
  lemma NewestAreListed(h: History, k: nat)
    requires k < |h.steps| && h.steps[k].NewJob? && StartedSince(h.steps, k) < 200
    ensures h.steps[k].job in ListedJobs(h.Now().jobs) && ProvisioningId(h.steps[k].job) in ListedIds(h.Now().jobs)
  {
    PlaceOfJob(h, k);
    var i := StartedSince(h.steps, k);
    assert ListedJobs(h.Now().jobs)[i] == h.steps[k].job;
  }

  lemma OneStepArrives(enabled: bool, o: Order, at: nat, step: Step, job: JobRow)
    ensures job in Apply(enabled, o, at, step).jobs <==> job in o.jobs || step == NewJob(job)
  {
  }

  lemma ArrivedByThen(h: History, l: nat, job: JobRow)
    requires h.steps != [] && l < |h.steps|
    ensures Arrived(h, l, job) <==> Arrived(h.Before(|h.steps| - 1), l, job) || h.steps[|h.steps| - 1] == NewJob(job)
  {
    var n := |h.steps| - 1;
    assert forall k :: 0 <= k < n ==> h.Before(n).steps[k] == h.steps[k];
  }

  lemma {:induction false} JobsAreOldOrNew(h: History, l: nat, job: JobRow)
    requires l <= |h.steps|
    ensures job in h.Now().jobs <==> job in h.At(l).jobs || Arrived(h, l, job)
    decreases |h.steps|
  {
    if l == |h.steps| {
      assert h.steps[..l] == h.steps;
    } else {
      var n := |h.steps| - 1;
      LastStep(h);
      SamePast(h, n, l);
      JobsAreOldOrNew(h.Before(n), l, job);
      ArrivedByThen(h, l, job);
      OneStepArrives(h.enabled, h.At(n), n, h.steps[n], job);
    }
  }

  /** What an action has listed stays its listing until it ends, and an ended one stays ended */
  ghost predicate GoesOn(p: Progress, q: Progress) {
    && (p.Ended? ==> q.Ended?)
    && (p.Emptying? ==> q.Ended? || (q.Emptying? && q.listed == p.listed && q.todo <= p.todo))
  }

  lemma {:induction false} ListingIsFixed(h: History, k: nat, id: nat)
    requires k <= |h.steps| && id < |h.At(k).actions|
    ensures id < |h.Now().actions| && GoesOn(h.At(k).actions[id].progress, h.Now().actions[id].progress)
    decreases |h.steps|
  {
    if k == |h.steps| {
      assert h.steps[..k] == h.steps;
    } else {
      var n := |h.steps| - 1;
      LastStep(h);
      SamePast(h, n, k);
      ListingIsFixed(h.Before(n), k, id);
      OneStepGoesOn(h.enabled, h.At(n), n, h.steps[n], id);
    }
  }

  lemma OneStepGoesOn(enabled: bool, o: Order, at: nat, step: Step, id: nat)
    requires id < |o.actions|
    ensures var o' := Apply(enabled, o, at, step);
            id < |o'.actions| && GoesOn(o.actions[id].progress, o'.actions[id].progress)
  {
  }

  /** The action whose step `s` moved the order listed only once */
  lemma ListedOnce(h: History, id: nat, request: Request, l: nat, s: nat, p: nat, preview: Preview)
    requires h.MovesOver(s, id, request, l) && h.Empties(p, id, preview)
    ensures h.At(p).actions[id].progress.listed == l
  {
    if p <= s {
      SamePast(h, s, p);
      ListingIsFixed(h.Before(s), p, id);
    } else {
      MovedIsEnded(h, id, request, l, s);
      SamePast(h, p, s + 1);
      ListingIsFixed(h.Before(p), s + 1, id);
    }
  }

  lemma MovedIsEnded(h: History, id: nat, request: Request, l: nat, s: nat)
    requires h.MovesOver(s, id, request, l)
    ensures id < |h.At(s + 1).actions| && h.At(s + 1).actions[id].progress.Ended?
  {
    LastStep(h.Before(s + 1));
    SamePast(h, s + 1, s);
  }

  lemma TodoIsListed(h: History, id: nat)
    requires h.Opens() && id < |h.Now().actions| && h.Now().actions[id].progress.Emptying?
    ensures var p := h.Now().actions[id].progress;
            p.listed <= |h.steps| && p.todo <= ListedPreviews(h.At(p.listed).jobs)
  {
    RunKeepsInv(h);
    assert h.ActionOk(id);
  }

  /** What the action tore down, it had listed */
  lemma EmptiedWasListed(h: History, id: nat, request: Request, l: nat, s: nat, p: nat, preview: Preview)
    requires h.Opens() && h.MovesOver(s, id, request, l) && h.Empties(p, id, preview) && l <= |h.steps|
    ensures preview in ListedPreviews(h.At(l).jobs)
  {
    ListedOnce(h, id, request, l, s, p, preview);
    TodoIsListed(h.Before(p), id);
    SamePast(h, p, l);
  }

  ghost predicate AllIn(jobs: seq<JobRow>, ids: set<string>) {
    forall job :: job in jobs ==> ProvisioningId(job) in ids
  }

  lemma AllListedIff(h: History, l: nat)
    requires l <= |h.steps| && (l < |h.steps| ==> !h.steps[l].NewJob?)
    ensures AllIn(h.Now().jobs, ListedIds(h.At(l).jobs)) <==> NoneLate(h, l) && NoneCut(h.At(l).jobs)
  {
    var listed := ListedIds(h.At(l).jobs);
    if AllIn(h.Now().jobs, listed) {
      forall k | l < k < |h.steps| && h.steps[k].NewJob? ensures ProvisioningId(h.steps[k].job) in listed {
        JobsAreOldOrNew(h, l, h.steps[k].job);
      }
      forall i | JOB_LIST_LIMIT <= i < |h.At(l).jobs| ensures ProvisioningId(h.At(l).jobs[i]) in listed {
        JobsAreOldOrNew(h, l, h.At(l).jobs[i]);
      }
    }
    if NoneLate(h, l) && NoneCut(h.At(l).jobs) {
      forall job | job in h.Now().jobs ensures ProvisioningId(job) in listed {
        JobsAreOldOrNew(h, l, job);
        if job in h.At(l).jobs {
          UncutIsListed(h.At(l).jobs, job);
        }
      }
    }
  }

  /**
   * Every preview of every job of a torn-down order was once torn down by the action that moved it
   * if and only if no job with an unlisted provisioning id arrived after the listing and none was
   * cut by the list limit.
   */
  lemma TeardownReachesEveryJob(h: History, id: nat, request: Request, g: nat, d: nat, l: nat, s: nat)
    requires h.Opens() && h.Earned(id, request, g, d, l, s)
    ensures ReachesAll(h, id) <==> NoneLate(h, l) && NoneCut(h.At(l).jobs)
  {
    PastStays(h, s, l, id, request);
    AllListedIff(h, l);
    forall preview ensures EmptiedBy(h, id, preview) <==> preview in ListedPreviews(h.At(l).jobs) {
      ListedIsEmptied(h, id, request, g, d, l, s, preview);
    }
    AllInPreviews(h.Now().jobs, ListedIds(h.At(l).jobs));
  }

  lemma AllInPreviews(jobs: seq<JobRow>, ids: set<string>)
    ensures AllIn(jobs, ids) <==> AllPreviews(jobs) <= PreviewsOf(ids)
  {
    if AllPreviews(jobs) <= PreviewsOf(ids) {
      forall job | job in jobs ensures ProvisioningId(job) in ids {
        assert Database(ProvisioningId(job)) in AllPreviews(jobs);
      }
    }
  }

  lemma ListedIsEmptied(h: History, id: nat, request: Request, g: nat, d: nat, l: nat, s: nat, preview: Preview)
    requires h.Opens() && h.Earned(id, request, g, d, l, s)
    ensures EmptiedBy(h, id, preview) <==> preview in ListedPreviews(h.At(l).jobs)
  {
    if EmptiedBy(h, id, preview) {
      var p :| 0 <= p < |h.steps| && h.Empties(p, id, preview);
      EmptiedWasListed(h, id, request, l, s, p, preview);
    }
    if preview in ListedPreviews(h.At(l).jobs) {
      PreviewsStay(h, s, l, id, request, {});
      assert h.EmptiedAfter(l, id, preview);
    }
  }

  lemma UncutIsListed(jobs: seq<JobRow>, job: JobRow)
    requires NoneCut(jobs) && job in jobs
    ensures ProvisioningId(job) in ListedIds(jobs)
  {
    var i :| 0 <= i < |jobs| && jobs[i] == job;
    if i < JOB_LIST_LIMIT {
      assert ListedJobs(jobs)[i] == job;
    }
  }
}
