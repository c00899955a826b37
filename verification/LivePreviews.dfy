/** Which previews are live on a torn-down order. */
module LivePreviews {
  import opened Lifecycle
  import opened Teardown
  import opened Wrappers

  // Containers of active jobs ask the api for them (apps/api/src/routes/internal/jobs/postJobDatabase.ts,
  // postJobStorage.ts) and nothing there looks at the order, while a teardown drops those of the jobs
  // it listed.

  // ----- Which previews are live on a torn-down order -----

  /** Step `k` serves a request in flight and makes the preview */
  predicate Makes(h: History, k: nat, preview: Preview) {
    && k < |h.steps| && h.steps[k].Serve? && h.steps[k].made
    && h.steps[k].call in h.At(k).asked && h.At(k).asked[h.steps[k].call] == preview
  }

  /** Step `k` is a teardown, of any action, after which the preview is gone */
  predicate Drops(h: History, k: nat, preview: Preview) {
    && k < |h.steps| && h.steps[k].TeardownPreview? && !h.steps[k].drop.ThrewBefore?
    && h.TearsDown(k, h.steps[k].id, preview)
  }

  ghost predicate NotDroppedFrom(h: History, k: nat, preview: Preview) {
    forall j :: k <= j < |h.steps| ==> !Drops(h, j, preview)
  }

  /** Made at some step from `l` on, and not torn down since */
  ghost predicate MadeAndKept(h: History, l: nat, preview: Preview) {
    exists k :: l <= k < |h.steps| && Makes(h, k, preview) && NotDroppedFrom(h, k + 1, preview)
  }

  lemma OneStepLive(h: History, preview: Preview)
    requires h.steps != []
    ensures var n := |h.steps| - 1;
            preview in h.Now().live <==> Makes(h, n, preview) || (preview in h.At(n).live && !Drops(h, n, preview))
  {
    LastStep(h);
  }

  lemma MakesAndDropsStay(h: History, n: nat, k: nat, preview: Preview)
    requires k < n <= |h.steps|
    ensures Makes(h.Before(n), k, preview) == Makes(h, k, preview)
    ensures Drops(h.Before(n), k, preview) == Drops(h, k, preview)
  {
    SamePast(h, n, k);
  }

  lemma NotDroppedLonger(h: History, k: nat, preview: Preview)
    requires h.steps != [] && k < |h.steps|
    ensures NotDroppedFrom(h, k, preview) <==>
            NotDroppedFrom(h.Before(|h.steps| - 1), k, preview) && !Drops(h, |h.steps| - 1, preview)
  {
    var n := |h.steps| - 1;
    forall j | k <= j < n ensures Drops(h.Before(n), j, preview) == Drops(h, j, preview) {
      MakesAndDropsStay(h, n, j, preview);
    }
  }

  lemma KeptUntilThen(h: History, l: nat, k: nat, preview: Preview)
    requires h.steps != [] && l <= k < |h.steps| - 1
    requires !Drops(h, |h.steps| - 1, preview)
    requires Makes(h.Before(|h.steps| - 1), k, preview) && NotDroppedFrom(h.Before(|h.steps| - 1), k + 1, preview)
    ensures MadeAndKept(h, l, preview)
  {
    MakesAndDropsStay(h, |h.steps| - 1, k, preview);
    NotDroppedLonger(h, k + 1, preview);
    assert Makes(h, k, preview);
  }

  lemma KeptBefore(h: History, l: nat, k: nat, preview: Preview)
    requires h.steps != [] && l <= k < |h.steps| - 1
    requires Makes(h, k, preview) && NotDroppedFrom(h, k + 1, preview)
    ensures MadeAndKept(h.Before(|h.steps| - 1), l, preview) && !Drops(h, |h.steps| - 1, preview)
  {
    MakesAndDropsStay(h, |h.steps| - 1, k, preview);
    NotDroppedLonger(h, k + 1, preview);
    assert Makes(h.Before(|h.steps| - 1), k, preview);
  }

  lemma KeptIsMade(h: History, l: nat, preview: Preview)
    requires h.steps != [] && MadeAndKept(h, l, preview)
    ensures var n := |h.steps| - 1;
            Makes(h, n, preview) || (l <= n && MadeAndKept(h.Before(n), l, preview) && !Drops(h, n, preview))
  {
    var k :| l <= k < |h.steps| && Makes(h, k, preview) && NotDroppedFrom(h, k + 1, preview);
    if k < |h.steps| - 1 {
      KeptBefore(h, l, k, preview);
    }
  }

  lemma MadeAndKeptLonger(h: History, l: nat, preview: Preview)
    requires h.steps != [] && l < |h.steps|
    ensures var n := |h.steps| - 1;
            MadeAndKept(h, l, preview) <==>
            Makes(h, n, preview) || (MadeAndKept(h.Before(n), l, preview) && !Drops(h, n, preview))
  {
    var n := |h.steps| - 1;
    if MadeAndKept(h.Before(n), l, preview) && !Drops(h, n, preview) {
      var k :| l <= k < n && Makes(h.Before(n), k, preview) && NotDroppedFrom(h.Before(n), k + 1, preview);
      KeptUntilThen(h, l, k, preview);
    }
    if Makes(h, n, preview) {
      assert NotDroppedFrom(h, n + 1, preview);
    }
    if MadeAndKept(h, l, preview) {
      KeptIsMade(h, l, preview);
    }
  }

  /** A preview is live if and only if it was at step `l`, or was made since, and has not been torn down since then. */
  lemma {:induction false} LiveIff(h: History, l: nat, preview: Preview)
    requires l <= |h.steps|
    ensures preview in h.Now().live <==>
            (preview in h.At(l).live && NotDroppedFrom(h, l, preview)) || MadeAndKept(h, l, preview)
    decreases |h.steps|
  {
    if l == |h.steps| {
      assert h.steps[..l] == h.steps;
    } else {
      var n := |h.steps| - 1;
      LastStep(h);
      SamePast(h, n, l);
      LiveIff(h.Before(n), l, preview);
      OneStepLive(h, preview);
      NotDroppedLonger(h, l, preview);
      MadeAndKeptLonger(h, l, preview);
    }
  }

  ghost predicate NothingLive(h: History) {
    forall preview :: preview in AllPreviews(h.Now().jobs) ==> preview !in h.Now().live
  }

  /**
   * Nothing of its jobs is live on a torn-down order if and only if no listed preview was made
   * after its last teardown and no unlisted one is live.
   */
  lemma TornDownOrderIsEmpty(h: History, id: nat, request: Request, g: nat, d: nat, l: nat, s: nat)
    requires h.Opens() && h.Earned(id, request, g, d, l, s)
    ensures NothingLive(h) <==>
            && (forall preview :: preview in ListedPreviews(h.At(l).jobs) ==> !MadeAndKept(h, 0, preview))
            && (forall preview :: preview in AllPreviews(h.Now().jobs) && preview !in ListedPreviews(h.At(l).jobs) ==> preview !in h.Now().live)
  {
    ListedIsOfTheOrder(h, l);
    forall preview | preview in ListedPreviews(h.At(l).jobs)
      ensures preview in h.Now().live <==> MadeAndKept(h, 0, preview)
    {
      ListedIsDropped(h, id, request, g, d, l, s, preview);
      LiveIff(h, 0, preview);
    }
  }

  lemma ListedIsOfTheOrder(h: History, l: nat)
    requires l <= |h.steps|
    ensures ListedPreviews(h.At(l).jobs) <= AllPreviews(h.Now().jobs)
  {
    forall job | job in h.At(l).jobs ensures job in h.Now().jobs {
      JobsAreOldOrNew(h, l, job);
    }
  }

  lemma ListedIsDropped(h: History, id: nat, request: Request, g: nat, d: nat, l: nat, s: nat, preview: Preview)
    requires h.Earned(id, request, g, d, l, s) && preview in ListedPreviews(h.At(l).jobs)
    ensures exists j :: l <= j < |h.steps| && Drops(h, j, preview)
  {
    PreviewsStay(h, s, l, id, request, {});
    assert h.EmptiedAfter(l, id, preview);
    var j :| l < j < |h.steps| && h.Empties(j, id, preview);
    assert Drops(h, j, preview);
  }

  // ----- A condition on the order as the teardown lists it -----

  /** No job is active, and no request of one is in flight */
  predicate Quiet(o: Order) {
    o.active == {} && o.asked == map[]
  }

  /** Previews and requests are of jobs of the order */
  predicate WellPlaced(o: Order) {
    && o.live <= AllPreviews(o.jobs)
    && (forall job :: job in o.active ==> job in o.jobs)
    && (forall call :: call in o.asked ==> o.asked[call] in AllPreviews(o.jobs))
  }

  lemma OneStepPlaces(enabled: bool, o: Order, at: nat, step: Step)
    requires WellPlaced(o)
    ensures WellPlaced(Apply(enabled, o, at, step))
  {
    var o' := Apply(enabled, o, at, step);
    assert AllPreviews(o.jobs) <= AllPreviews(o'.jobs);
  }

  lemma {:induction false} RunPlaces(h: History)
    requires WellPlaced(h.start)
    ensures WellPlaced(h.Now())
    decreases |h.steps|
  {
    if h.steps != [] {
      LastStep(h);
      RunPlaces(h.Before(|h.steps| - 1));
      OneStepPlaces(h.enabled, h.At(|h.steps| - 1), |h.steps| - 1, h.steps[|h.steps| - 1]);
    }
  }

  /** From step `l` on no job is started */
  ghost predicate NoArrivals(h: History, l: nat) {
    forall k :: l <= k < |h.steps| ==> !h.steps[k].NewJob?
  }

  lemma OneStepStaysQuiet(h: History, preview: Preview)
    requires h.steps != [] && Quiet(h.At(|h.steps| - 1)) && !h.steps[|h.steps| - 1].NewJob?
    ensures Quiet(h.Now()) && !Makes(h, |h.steps| - 1, preview)
  {
    LastStep(h);
  }

  lemma {:induction false} QuietMakesNothing(h: History, l: nat, preview: Preview)
    requires l <= |h.steps| && Quiet(h.At(l)) && NoArrivals(h, l)
    ensures Quiet(h.Now()) && !MadeAndKept(h, l, preview)
    decreases |h.steps|
  {
    if l == |h.steps| {
      assert h.steps[..l] == h.steps;
    } else {
      var n := |h.steps| - 1;
      LastStep(h);
      SamePast(h, n, l);
      QuietMakesNothing(h.Before(n), l, preview);
      OneStepStaysQuiet(h, preview);
      MadeAndKeptLonger(h, l, preview);
    }
  }

  /** With no job active at the listing, none arriving after it and none cut from it, nothing is live. */
  lemma QuietTeardownLeavesNothing(h: History, id: nat, request: Request, g: nat, d: nat, l: nat, s: nat)
    requires h.Opens() && h.Earned(id, request, g, d, l, s) && NoArrivals(h, l)
    requires Quiet(h.At(l)) && h.At(l).live <= ListedPreviews(h.At(l).jobs)
    ensures h.Now().live == {}
  {
    forall preview ensures preview !in h.Now().live {
      QuietMakesNothing(h, l, preview);
      LiveIff(h, l, preview);
      if preview in ListedPreviews(h.At(l).jobs) {
        ListedIsDropped(h, id, request, g, d, l, s, preview);
      }
    }
  }

  /** What the list limit cuts is the only way a preview escapes the listing */
  lemma UncutPreviewsAreListed(h: History, l: nat)
    requires WellPlaced(h.start) && l <= |h.steps| && NoneCut(h.At(l).jobs)
    ensures h.At(l).live <= ListedPreviews(h.At(l).jobs)
  {
    RunPlaces(h.Before(l));
    SamePast(h, l, l);
    forall job | job in h.At(l).jobs ensures ProvisioningId(job) in ListedIds(h.At(l).jobs) {
      UncutIsListed(h.At(l).jobs, job);
    }
  }

  // ----- And only that condition is safe -----

  lemma OneMoreStep(enabled: bool, start: Order, steps: seq<Step>, step: Step)
    ensures OrderAfter(enabled, start, steps + [step]) == Apply(enabled, OrderAfter(enabled, start, steps), |steps|, step)
  {
    assert (steps + [step])[..|steps|] == steps;
  }

  /** The run with more steps */
  function Then(h: History, more: seq<Step>): History {
    h.(steps := h.steps + more)
  }

  lemma OneMoreThen(h: History, more: seq<Step>, step: Step)
    ensures Then(h, more + [step]).Now() == Apply(h.enabled, Then(h, more).Now(), |h.steps| + |more|, step)
  {
    OneMoreStep(h.enabled, h.start, h.steps + more, step);
    ThenOneMore(h, more, step);
  }

  lemma ThenOneMore(h: History, more: seq<Step>, step: Step)
    ensures Then(h, more + [step]).steps == Then(h, more).steps + [step]
  {
  }

  lemma ThenBefore(h: History, more: seq<Step>, step: Step)
    ensures Then(h, more + [step]).Before(|h.steps| + |more|) == Then(h, more)
  {
    assert (h.steps + (more + [step]))[..|h.steps| + |more|] == h.steps + more;
  }

  /** The action is emptying what it listed, over an order that is still as it read it */
  predicate UnderWay(o: Order, id: nat) {
    && id < |o.actions| && o.actions[id].progress.Emptying? && o.actions[id].request.action.Teardown?
    && o.lifecycle == o.actions[id].from && !o.lifecycle.TornDown?
  }

  ghost predicate NoneStarts(steps: seq<Step>) {
    forall k :: 0 <= k < |steps| ==> !steps[k].NewJob?
  }

  /** The teardown of one more preview returns */
  lemma OneIsDropped(h: History, id: nat, more: seq<Step>, preview: Preview)
    requires UnderWay(Then(h, more).Now(), id) && NoneStarts(more)
    requires preview in Then(h, more).Now().actions[id].progress.todo
    ensures var o, o' := Then(h, more).Now(), Then(h, more + [TeardownPreview(id, preview, Returned)]).Now();
            && NoneStarts(more + [TeardownPreview(id, preview, Returned)]) && UnderWay(o', id)
            && o'.actions[id].progress == o.actions[id].progress.(todo := o.actions[id].progress.todo - {preview})
            && o'.live == o.live - {preview} && o'.active == o.active && o'.asked == o.asked
  {
    OneMoreThen(h, more, TeardownPreview(id, preview, Returned));
  }

  /** A teardown under way can always get through what is left to do */
  lemma {:induction false} CanEmpty(h: History, id: nat, more: seq<Step>) returns (rest: seq<Step>)
    requires UnderWay(Then(h, more).Now(), id) && NoneStarts(more)
    ensures var o, o' := Then(h, more).Now(), Then(h, rest).Now();
            && NoneStarts(rest) && UnderWay(o', id)
            && o'.actions[id].progress.todo == {} && o'.actions[id].progress.listed == o.actions[id].progress.listed
            && o'.live == o.live - o.actions[id].progress.todo && o'.active == o.active && o'.asked == o.asked
    decreases |Then(h, more).Now().actions[id].progress.todo|
  {
    var o := Then(h, more).Now();
    var todo := o.actions[id].progress.todo;
    if preview :| preview in todo {
      OneIsDropped(h, id, more, preview);
      rest := CanEmpty(h, id, more + [TeardownPreview(id, preview, Returned)]);
      assert o.live - {preview} - (todo - {preview}) == o.live - todo;
    } else {
      rest := more;
      assert o.live - todo == o.live;
    }
  }

  /** Some step of the run is the last of a teardown by the action that listed at `l` */
  ghost predicate MovedBy(h: History, id: nat, l: nat) {
    exists request, g, d, s :: h.Earned(id, request, g, d, l, s)
  }

  /** With nothing left to do, the next statement moves the order */
  lemma CanMove(h: History, id: nat, more: seq<Step>)
    requires h.Opens() && UnderWay(Then(h, more).Now(), id) && Then(h, more).Now().actions[id].progress.todo == {}
    ensures var o, h' := Then(h, more).Now(), Then(h, more + [SetLifecycle(id)]);
            && MovedBy(h', id, o.actions[id].progress.listed)
            && h'.Now().live == o.live && h'.Now().active == o.active && h'.Now().asked == o.asked
  {
    var h' := Then(h, more + [SetLifecycle(id)]);
    OneMoreThen(h, more, SetLifecycle(id));
    ThenBefore(h, more, SetLifecycle(id));
    RunKeepsInv(Then(h, more));
    MoveIsEarned(h', id);
  }

  lemma MoveIsEarned(h: History, id: nat)
    requires h.steps != [] && h.Before(|h.steps| - 1).Inv() && h.steps[|h.steps| - 1] == SetLifecycle(id)
    requires UnderWay(h.Before(|h.steps| - 1).Now(), id) && h.Before(|h.steps| - 1).Now().actions[id].progress.todo == {}
    ensures MovedBy(h, id, h.Before(|h.steps| - 1).Now().actions[id].progress.listed)
  {
    LastStep(h);
    var n := |h.steps| - 1;
    assert h.Before(n).ActionOk(id);
    var a := h.At(n).actions[id];
    var p := a.progress;
    PastStays(h, n, p.gate, id, a.request);
    PastStays(h, n, p.swept, id, a.request);
    assert h.Earned(id, a.request, p.gate, p.swept, p.listed, n);
  }

  lemma MovedStays(h: History, longer: History, n: nat, id: nat, l: nat)
    requires n <= |longer.steps| && longer.Before(n) == h && MovedBy(h, id, l)
    ensures MovedBy(longer, id, l)
  {
    var request, g, d, s :| h.Earned(id, request, g, d, l, s);
    EarnedStays(longer, n, id, request, g, d, l, s);
  }

  lemma StaysMoved(h: History, more: seq<Step>, step: Step, id: nat, l: nat)
    requires MovedBy(Then(h, more), id, l)
    ensures MovedBy(Then(h, more + [step]), id, l)
  {
    ThenBefore(h, more, step);
    MovedStays(Then(h, more), Then(h, more + [step]), |h.steps| + |more|, id, l);
  }

  /** If these further steps start no job and the action has then moved the order, nothing is live */
  ghost predicate Empties(h: History, more: seq<Step>, id: nat, l: nat) {
    NoneStarts(more) && MovedBy(Then(h, more), id, l) ==> Then(h, more).Now().live == {}
  }

  /** However the run goes on */
  ghost predicate AlwaysEmpties(h: History, id: nat, l: nat) {
    forall more :: Empties(h, more, id, l)
  }

  lemma ServedIsLive(h: History, moved: seq<Step>, call: nat)
    requires call in Then(h, moved).Now().asked
    ensures Then(h, moved + [Serve(call, true)]).Now().live != {}
  {
    var preview := Then(h, moved).Now().asked[call];
    OneMoreThen(h, moved, Serve(call, true));
    assert preview in Then(h, moved + [Serve(call, true)]).Now().live;
  }

  lemma RequestInFlightSurvives(h: History, moved: seq<Step>, id: nat, l: nat, call: nat)
    requires NoneStarts(moved) && MovedBy(Then(h, moved), id, l) && call in Then(h, moved).Now().asked
    ensures !Empties(h, moved + [Serve(call, true)], id, l)
  {
    ServedIsLive(h, moved, call);
    StaysMoved(h, moved, Serve(call, true), id, l);
  }

  lemma AskApplies(enabled: bool, o: Order, at: nat, job: JobRow)
    requires job in o.active
    ensures 0 in Apply(enabled, o, at, Ask(0, job, false)).asked
  {
  }

  lemma AskIsInFlight(h: History, moved: seq<Step>, job: JobRow)
    requires job in Then(h, moved).Now().active
    ensures 0 in Then(h, moved + [Ask(0, job, false)]).Now().asked
  {
    OneMoreThen(h, moved, Ask(0, job, false));
    AskApplies(h.enabled, Then(h, moved).Now(), |h.steps| + |moved|, job);
  }

  lemma ActiveJobSurvives(h: History, moved: seq<Step>, id: nat, l: nat, job: JobRow)
    requires NoneStarts(moved) && MovedBy(Then(h, moved), id, l) && job in Then(h, moved).Now().active
    ensures !AlwaysEmpties(h, id, l)
  {
    AskIsInFlight(h, moved, job);
    StaysMoved(h, moved, Ask(0, job, false), id, l);
    RequestInFlightSurvives(h, moved + [Ask(0, job, false)], id, l, 0);
    OneSurvives(h, moved + [Ask(0, job, false)] + [Serve(0, true)], id, l);
  }

  lemma OneSurvives(h: History, more: seq<Step>, id: nat, l: nat)
    requires !Empties(h, more, id, l)
    ensures !AlwaysEmpties(h, id, l)
  {
  }

  lemma NoRequestSurvives(h: History, moved: seq<Step>, id: nat, l: nat)
    requires NoneStarts(moved) && MovedBy(Then(h, moved), id, l) && AlwaysEmpties(h, id, l)
    ensures Then(h, moved).Now().asked == map[]
  {
    var o := Then(h, moved).Now();
    if call :| call in o.asked {
      RequestInFlightSurvives(h, moved, id, l, call);
      assert false;
    }
  }

  lemma NoActiveJobSurvives(h: History, moved: seq<Step>, id: nat, l: nat)
    requires NoneStarts(moved) && MovedBy(Then(h, moved), id, l) && AlwaysEmpties(h, id, l)
    ensures Then(h, moved).Now().active == {}
  {
    var o := Then(h, moved).Now();
    if job :| job in o.active {
      ActiveJobSurvives(h, moved, id, l, job);
      assert false;
    }
  }

  /** Some continuation by the action alone moves the order, and leaves alone all it did not list */
  lemma CanFinish(h: History, id: nat) returns (moved: seq<Step>)
    requires h.Opens() && UnderWay(h.Now(), id)
    ensures var o, o' := h.Now(), Then(h, moved).Now();
            && NoneStarts(moved) && MovedBy(Then(h, moved), id, o.actions[id].progress.listed)
            && o'.live == o.live - o.actions[id].progress.todo && o'.active == o.active && o'.asked == o.asked
  {
    assert Then(h, []) == h by {
      assert h.steps + [] == h.steps;
    }
    var emptied := CanEmpty(h, id, []);
    CanMove(h, id, emptied);
    moved := emptied + [SetLifecycle(id)];
  }

  /** An unlisted preview, a request in flight, and the next request of an active job each survive some teardown. */
  lemma UnsafeListing(h: History, id: nat)
    requires h.Opens() && UnderWay(h.Now(), id) && AlwaysEmpties(h, id, h.Now().actions[id].progress.listed)
    ensures Quiet(h.Now()) && h.Now().live <= h.Now().actions[id].progress.todo
  {
    var l := h.Now().actions[id].progress.listed;
    var moved := CanFinish(h, id);
    NoRequestSurvives(h, moved, id, l);
    NoActiveJobSurvives(h, moved, id, l);
    NothingLeftOver(h, moved, id, l);
    WasQuiet(h.Now(), Then(h, moved).Now(), h.Now().actions[id].progress.todo);
  }

  lemma WasQuiet(o: Order, o': Order, todo: set<Preview>)
    requires Quiet(o') && o'.live == {} && o'.live == o.live - todo && o'.active == o.active && o'.asked == o.asked
    ensures Quiet(o) && o.live <= todo
  {
    forall preview | preview in o.live ensures preview in todo {
      assert preview !in o.live - todo;
    }
  }

  lemma NothingLeftOver(h: History, moved: seq<Step>, id: nat, l: nat)
    requires NoneStarts(moved) && MovedBy(Then(h, moved), id, l) && AlwaysEmpties(h, id, l)
    ensures Then(h, moved).Now().live == {}
  {
    assert Empties(h, moved, id, l);
  }

  lemma ListingChangesNothingElse(h: History, id: nat)
    requires h.steps != [] && h.steps[|h.steps| - 1] == ListJobs(id) && UnderWay(h.Now(), id)
    requires h.Now().actions[id].progress.listed == |h.steps| - 1
    requires h.Opens()
    ensures var o := h.At(|h.steps| - 1);
            && h.Now() == o.(actions := h.Now().actions)
            && h.Now().actions[id].progress.todo == ListedPreviews(o.jobs)
  {
    LastStep(h);
    RunKeepsInv(h);
    assert h.ActionOk(id);
  }

  /**
   * What a caller can check as the teardown lists the jobs: nothing will be live on the torn-down
   * order, however the run goes on without new jobs, if and only if no job is active, none of its
   * requests is in flight, and every live preview is listed.
   */
  lemma ListingIsSafe(h: History, id: nat)
    requires h.Opens() && h.steps != [] && h.steps[|h.steps| - 1] == ListJobs(id)
    requires UnderWay(h.Now(), id) && h.Now().actions[id].progress.listed == |h.steps| - 1
    ensures var l := |h.steps| - 1;
            AlwaysEmpties(h, id, l) <==> Quiet(h.At(l)) && h.At(l).live <= ListedPreviews(h.At(l).jobs)
  {
    var l := |h.steps| - 1;
    ListingChangesNothingElse(h, id);
    if AlwaysEmpties(h, id, l) {
      UnsafeListing(h, id);
    }
    if Quiet(h.At(l)) && h.At(l).live <= ListedPreviews(h.At(l).jobs) {
      forall more ensures Empties(h, more, id, l) {
        if NoneStarts(more) && MovedBy(Then(h, more), id, l) {
          SafeListing(h, id, more);
        }
      }
    }
  }

  lemma ThenNoArrivals(h: History, more: seq<Step>)
    requires h.steps != [] && !h.steps[|h.steps| - 1].NewJob? && NoneStarts(more)
    ensures NoArrivals(Then(h, more), |h.steps| - 1) && Then(h, more).At(|h.steps| - 1) == h.At(|h.steps| - 1)
  {
    assert (h.steps + more)[..|h.steps| - 1] == h.steps[..|h.steps| - 1];
  }

  lemma SafeListing(h: History, id: nat, more: seq<Step>)
    requires h.Opens() && h.steps != [] && h.steps[|h.steps| - 1] == ListJobs(id) && NoneStarts(more)
    requires var l := |h.steps| - 1; Quiet(h.At(l)) && h.At(l).live <= ListedPreviews(h.At(l).jobs) && MovedBy(Then(h, more), id, l)
    ensures Then(h, more).Now().live == {}
  {
    var l := |h.steps| - 1;
    ThenNoArrivals(h, more);
    var request, g, d, s :| Then(h, more).Earned(id, request, g, d, l, s);
    QuietTeardownLeavesNothing(Then(h, more), id, request, g, d, l, s);
  }

  // ----- Previews left behind -----

  function OneTeardown(): Request {
    Request(LifecycleAction.Teardown, true, true)
  }

  /** The first four statements of a teardown that finds nothing in its way */
  function Opening(): seq<Step> {
    [Start(OneTeardown()), CheckGate(0, 0), RunDeprovision(0, 0), ListJobs(0)]
  }

  lemma UpToTheGate(start: Order)
    requires start.lifecycle.Active? && start.exported.None? && start.actions == []
    ensures OrderAfter(true, start, [Start(OneTeardown()), CheckGate(0, 0)])
            == start.(actions := [Action(OneTeardown(), Active, Gated(1))])
  {
    var a, b := Start(OneTeardown()), CheckGate(0, 0);
    var started := start.(actions := [Action(OneTeardown(), Active, Read)]);
    OneMoreStep(true, start, [], a);
    OneMoreStep(true, start, [a], b);
    assert [] + [a] == [a] && [a] + [b] == [a, b];
    assert OrderAfter(true, start, [a]) == started;
    assert GateOpen(true, OneTeardown(), None, 0);
    assert Apply(true, started, 1, b) == started.(actions := [Action(OneTeardown(), Active, Gated(1))]);
  }

  lemma UpToTheListing(start: Order)
    requires start.lifecycle.Active? && start.exported.None? && start.actions == []
    ensures OrderAfter(true, start, Opening())
            == start.(actions := [Action(OneTeardown(), Active, Emptying(1, 2, 3, ListedPreviews(start.jobs)))])
  {
    var gated, c, d := [Start(OneTeardown()), CheckGate(0, 0)], RunDeprovision(0, 0), ListJobs(0);
    UpToTheGate(start);
    OneMoreStep(true, start, gated, c);
    OneMoreStep(true, start, gated + [c], d);
    assert gated + [c] + [d] == Opening();
  }

  /** The order right after its listing, with what is still to do */
  predicate JustListed(o: Order, todo: set<Preview>) {
    o.lifecycle.Active? && o.actions == [Action(OneTeardown(), Active, Emptying(1, 2, 3, todo))]
  }

  lemma TwoDrops(start: Order, steps: seq<Step>, jobId: string)
    requires JustListed(OrderAfter(true, start, steps), PreviewsOf({jobId}))
    ensures var o, o' := OrderAfter(true, start, steps),
                         OrderAfter(true, start, steps + [TeardownPreview(0, Database(jobId), Returned)] + [TeardownPreview(0, Storage(jobId), Returned)]);
            && JustListed(o', {}) && o'.live == o.live - PreviewsOf({jobId})
            && o'.active == o.active && o'.jobs == o.jobs
  {
    var a, b := TeardownPreview(0, Database(jobId), Returned), TeardownPreview(0, Storage(jobId), Returned);
    var o := OrderAfter(true, start, steps);
    OneMoreStep(true, start, steps, a);
    OneMoreStep(true, start, steps + [a], b);
    assert PreviewsOf({jobId}) - {Database(jobId)} - {Storage(jobId)} == {};
    assert o.live - {Database(jobId)} - {Storage(jobId)} == o.live - PreviewsOf({jobId});
  }

  /** An active job asks for its database, and the teardown moves the order: before or after it is made */
  lemma ProvidedOverTheTeardown(start: Order, steps: seq<Step>, job: JobRow)
    requires JustListed(OrderAfter(true, start, steps), {}) && job in OrderAfter(true, start, steps).active
    ensures var o, o' := OrderAfter(true, start, steps),
                         OrderAfter(true, start, steps + [Ask(0, job, false)] + [Serve(0, true)] + [SetLifecycle(0)]);
            o'.lifecycle.TornDown? && Database(ProvisioningId(job)) in o'.live && o'.jobs == o.jobs
  {
    OneMoreStep(true, start, steps, Ask(0, job, false));
    OneMoreStep(true, start, steps + [Ask(0, job, false)], Serve(0, true));
    OneMoreStep(true, start, steps + [Ask(0, job, false)] + [Serve(0, true)], SetLifecycle(0));
  }

  /** A build started after the listing provisions: its database is live under the torn-down order. */
  lemma LateJobIsLeftBehind(job: JobRow)
    ensures var start := Order(Active, None, [], [], {}, {}, map[]);
            var h := History(true, start, Opening() + [NewJob(job)] + [Ask(0, job, false)] + [Serve(0, true)] + [SetLifecycle(0)]);
            && h.Opens() && h.Now().lifecycle.TornDown? && job in h.Now().jobs
            && Database(ProvisioningId(job)) in h.Now().live
  {
    var start := Order(Active, None, [], [], {}, {}, map[]);
    UpToTheListing(start);
    OneMoreStep(true, start, Opening(), NewJob(job));
    assert ListedPreviews([]) == {};
    ProvidedOverTheTeardown(start, Opening() + [NewJob(job)], job);
  }

  /** A listed build that is still running provisions after its teardown returned. */
  lemma RunningJobProvisionsAgain(build: JobRow)
    requires !build.redeliver
    ensures var start := Order(Active, None, [build], [], {}, {build}, map[]);
            var dropped := Opening() + [TeardownPreview(0, Database(build.id), Returned)] + [TeardownPreview(0, Storage(build.id), Returned)];
            var h := History(true, start, dropped + [Ask(0, build, false)] + [Serve(0, true)] + [SetLifecycle(0)]);
            h.Opens() && h.Now().lifecycle.TornDown? && Database(build.id) in h.Now().live
  {
    var start := Order(Active, None, [build], [], {}, {build}, map[]);
    UpToTheListing(start);
    assert build in ListedJobs([build]) && ListedIds([build]) == {build.id};
    TwoDrops(start, Opening(), build.id);
    ProvidedOverTheTeardown(start, Opening() + [TeardownPreview(0, Database(build.id), Returned)] + [TeardownPreview(0, Storage(build.id), Returned)], build);
  }

  /** A redelivery of a listed build arrives after the build's previews are gone, and makes its database again. */
  lemma RedeliveryProvisionsAgain(build: JobRow, redelivery: JobRow)
    requires !build.redeliver && redelivery.redeliver && redelivery.sourceJobId == Some(build.id)
    ensures var start := Order(Active, None, [build], [], PreviewsOf({build.id}), {}, map[]);
            var dropped := Opening() + [TeardownPreview(0, Database(build.id), Returned)] + [TeardownPreview(0, Storage(build.id), Returned)];
            var h := History(true, start, dropped + [NewJob(redelivery)] + [Ask(0, redelivery, false)] + [Serve(0, true)] + [SetLifecycle(0)]);
            h.Opens() && h.Now().lifecycle.TornDown? && Database(build.id) in h.Now().live
  {
    var start := Order(Active, None, [build], [], PreviewsOf({build.id}), {}, map[]);
    var dropped := Opening() + [TeardownPreview(0, Database(build.id), Returned)] + [TeardownPreview(0, Storage(build.id), Returned)];
    UpToTheListing(start);
    assert build in ListedJobs([build]) && ListedIds([build]) == {build.id};
    TwoDrops(start, Opening(), build.id);
    OneMoreStep(true, start, dropped, NewJob(redelivery));
    ProvidedOverTheTeardown(start, dropped + [NewJob(redelivery)], redelivery);
  }

  lemma MoveApplies(o: Order, at: nat)
    requires JustListed(o, {})
    ensures var o' := Apply(true, o, at, SetLifecycle(0));
            o'.lifecycle.TornDown? && o'.live == o.live && o'.jobs == o.jobs
  {
  }

  /** With nothing left to do, the teardown moves the order and leaves the rest alone */
  lemma MovesLast(start: Order, steps: seq<Step>)
    requires JustListed(OrderAfter(true, start, steps), {})
    ensures var o, o' := OrderAfter(true, start, steps), OrderAfter(true, start, steps + [SetLifecycle(0)]);
            o'.lifecycle.TornDown? && o'.live == o.live && o'.jobs == o.jobs
  {
    OneMoreStep(true, start, steps, SetLifecycle(0));
    MoveApplies(OrderAfter(true, start, steps), |steps|);
  }

  /** As many redeliveries of one build as the list holds, under ids of their own */
  ghost predicate FillTheList(newer: seq<JobRow>, source: JobRow) {
    && |newer| == 200
    && (forall i :: 0 <= i < |newer| ==> newer[i].redeliver && newer[i].sourceJobId == Some(source.id))
    && forall i, j :: 0 <= i < j < |newer| ==> newer[i].id != newer[j].id
  }

  lemma OnlyTheSourceIsListed(newer: seq<JobRow>, source: JobRow, old_: JobRow)
    requires FillTheList(newer, source)
    ensures ListedIds(newer + [source, old_]) == {source.id}
  {
    assert ListedJobs(newer + [source, old_]) == newer;
    assert newer[0] in newer && ProvisioningId(newer[0]) == source.id;
  }

  /** The older build is cut from the list: its database stays live under the torn-down order. */
  lemma CutJobIsLeftBehind(newer: seq<JobRow>, source: JobRow, old_: JobRow)
    requires FillTheList(newer, source) && !source.redeliver && !old_.redeliver && source.id != old_.id
    ensures var start := Order(Active, None, newer + [source, old_], [], {Database(old_.id)}, {}, map[]);
            var dropped := Opening() + [TeardownPreview(0, Database(source.id), Returned)] + [TeardownPreview(0, Storage(source.id), Returned)];
            var h := History(true, start, dropped + [SetLifecycle(0)]);
            && h.Opens() && h.Now().lifecycle.TornDown? && old_ in h.Now().jobs
            && Database(ProvisioningId(old_)) in h.Now().live
  {
    var start := Order(Active, None, newer + [source, old_], [], {Database(old_.id)}, {}, map[]);
    var dropped := Opening() + [TeardownPreview(0, Database(source.id), Returned)] + [TeardownPreview(0, Storage(source.id), Returned)];
    UpToTheListing(start);
    OnlyTheSourceIsListed(newer, source, old_);
    TwoDrops(start, Opening(), source.id);
    MovesLast(start, dropped);
    assert start.jobs[201] == old_;
  }
}
