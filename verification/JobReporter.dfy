/** The build container's reporter (apps/job/src/reporter.ts) over a lossy link. */
module JobReporter {
  import opened Wrappers
  import opened JobEvents

  // Events are numbered at `emit`, sent one at a time in order, and each request is tried up to
  // `RETRIES + 1` times; any attempt may be lost before or after the api applied it. Other writers
  // append in between.

  const RETRIES: nat := 3

  datatype Numbered = Numbered(number: nat, kind: EventType, payload: Payload)

  /** What became of one attempt */
  datatype Fate =
    | Lost               // never reached the api
    | Refused            // 4xx: nothing stored, final
    | Failed             // 5xx before the event was stored
    | StoredThenFailed   // stored, then 5xx before its side effect
    | AppliedThenLost    // stored with its side effect, the response lost
    | Delivered

  predicate Stores(fate: Fate) {
    fate.StoredThenFailed? || fate.AppliedThenLost? || fate.Delivered?
  }

  predicate Final(fate: Fate) {
    fate.Refused? || fate.Delivered?
  }

  /** Admin mail and the job's gate list: what an event does besides being stored */
  predicate HasEffect(kind: EventType) {
    kind.Notify? || kind.Gate?
  }

  /** One reporter: everything it emitted, how many emits have settled, and how */
  datatype Reporter = Reporter(sent: seq<Numbered>, queue: seq<Numbered>, attempt: nat, resolved: set<nat>)

  const NEW_REPORTER := Reporter([], [], 0, {})

  datatype Effect = Effect(jobId: string, number: nat)

  datatype System = System(events: seq<JobEvent>, effects: seq<Effect>, reporters: map<string, Reporter>)

  const INITIAL := System([], [], map[])

  datatype Step =
    | Emit(jobId: string, kind: EventType, payload: Payload)
    | Attempt(jobId: string, fate: Fate)
    | ApiEvent(jobId: string, kind: EventType, payload: Payload)

  function ReporterOf(s: System, jobId: string): Reporter {
    if jobId in s.reporters then s.reporters[jobId] else NEW_REPORTER
  }

  /** The api's side of one attempt: store once, and run the side effect only of a new event */
  ghost function Serve(events: seq<JobEvent>, effects: seq<Effect>, jobId: string, e: Numbered, fate: Fate)
    : (seq<JobEvent>, seq<Effect>)
  {
    if !Stores(fate) then (events, effects)
    else
      var duplicate := Stored(events, jobId, e.number);
      var runs := !duplicate && HasEffect(e.kind) && !fate.StoredThenFailed?;
      (StoredOnce(events, jobId, e.number, e.kind, e.payload),
       if runs then effects + [Effect(jobId, e.number)] else effects)
  }

  /** The reporter after an attempt: the head settles, or is tried again */
  function Next(r: Reporter, fate: Fate): Reporter
    requires r.queue != []
  {
    if Final(fate) || r.attempt >= RETRIES then
      r.(queue := r.queue[1..], attempt := 0,
         resolved := if fate.Delivered? then r.resolved + {r.queue[0].number} else r.resolved)
    else r.(attempt := r.attempt + 1)
  }

  ghost function Apply(s: System, step: Step): System {
    match step
    case Emit(jobId, kind, payload) =>
      var r := ReporterOf(s, jobId);
      var e := Numbered(|r.sent| + 1, kind, payload);
      s.(reporters := s.reporters[jobId := r.(sent := r.sent + [e], queue := r.queue + [e])])
    case Attempt(jobId, fate) =>
      var r := ReporterOf(s, jobId);
      if r.queue == [] then s
      else
        var e := r.queue[0];
        var served := Serve(s.events, s.effects, jobId, e, fate);
        System(served.0, served.1, s.reporters[jobId := Next(r, fate)])
    case ApiEvent(jobId, kind, payload) =>
      s.(events := Appended(s.events, jobId, None, kind, payload))
  }

  ghost function Run(s: System, steps: seq<Step>): System {
    if steps == [] then s
    else Apply(Run(s, steps[..|steps| - 1]), steps[|steps| - 1])
  }

  // ----- What holds on every run -----

  function Settled(r: Reporter): int {
    |r.sent| - |r.queue|
  }

  ghost predicate ReporterOk(s: System, jobId: string, r: Reporter) {
    && (forall i :: 0 <= i < |r.sent| ==> r.sent[i].number == i + 1)
    && |r.queue| <= |r.sent|
    && r.queue == r.sent[Settled(r)..]
    && r.attempt <= RETRIES
    && (forall n :: n in r.resolved ==> 1 <= n <= Settled(r) && Stored(s.events, jobId, n))
  }

  /** A numbered event was emitted under that number by its job's reporter, and has settled or is next */
  ghost predicate EventOk(s: System, e: JobEvent) {
    e.number.Some? ==>
      var r := ReporterOf(s, e.jobId);
      var n := e.number.value;
      && 1 <= n <= |r.sent| && n <= Settled(r) + 1
      && r.sent[n - 1] == Numbered(n, e.kind, e.payload)
  }

  ghost predicate Increasing(events: seq<JobEvent>) {
    forall i, j :: 0 <= i < j < |events| && events[i].jobId == events[j].jobId &&
                   events[i].number.Some? && events[j].number.Some?
      ==> events[i].number.value < events[j].number.value
  }

  ghost predicate EffectsOk(events: seq<JobEvent>, effects: seq<Effect>) {
    && (forall i, j :: 0 <= i < j < |effects| ==> effects[i] != effects[j])
    && (forall i :: 0 <= i < |effects| ==> Stored(events, effects[i].jobId, effects[i].number))
  }

  ghost predicate Inv(s: System) {
    && (forall jobId :: jobId in s.reporters ==> ReporterOk(s, jobId, s.reporters[jobId]))
    && (forall i :: 0 <= i < |s.events| ==> EventOk(s, s.events[i]))
    && Increasing(s.events)
    && EffectsOk(s.events, s.effects)
  }

  lemma StoredStays(events: seq<JobEvent>, more: seq<JobEvent>, jobId: string, number: nat)
    requires Stored(events, jobId, number) && events <= more
    ensures Stored(more, jobId, number)
  {
    var i :| 0 <= i < |events| && IsNumbered(events[i], jobId, number);
    assert IsNumbered(more[i], jobId, number);
  }

  /** The api's side: the head event is stored at the end of the job's numbered events, or already there. */
  lemma ServeKeeps(s: System, jobId: string, fate: Fate)
    requires Inv(s) && ReporterOf(s, jobId).queue != []
    ensures var e := ReporterOf(s, jobId).queue[0];
            var served := Serve(s.events, s.effects, jobId, e, fate);
            && s.events <= served.0
            && Increasing(served.0)
            && EffectsOk(served.0, served.1)
            && (Stores(fate) ==> Stored(served.0, jobId, e.number))
            && forall i :: 0 <= i < |served.0| ==> EventOk(s, served.0[i])
  {
    var r := ReporterOf(s, jobId);
    assert ReporterOk(s, jobId, r);
    var e := r.queue[0];
    assert e == r.sent[Settled(r)];
    var served := Serve(s.events, s.effects, jobId, e, fate);
    if Stores(fate) && !Stored(s.events, jobId, e.number) {
      var stored := served.0[|s.events|];
      assert IsNumbered(stored, jobId, e.number);
      forall i | 0 <= i < |s.events| && s.events[i].jobId == jobId && s.events[i].number.Some?
        ensures s.events[i].number.value < e.number
      {
        assert EventOk(s, s.events[i]);
        assert !IsNumbered(s.events[i], jobId, e.number);
      }
      forall i | 0 <= i < |s.effects|
        ensures Stored(served.0, s.effects[i].jobId, s.effects[i].number)
        ensures s.effects[i] != Effect(jobId, e.number)
      {
        StoredStays(s.events, served.0, s.effects[i].jobId, s.effects[i].number);
      }
    }
  }

  lemma ReporterStays(s: System, s': System, jobId: string, r: Reporter)
    requires ReporterOk(s, jobId, r) && s.events <= s'.events
    ensures ReporterOk(s', jobId, r)
  {
    forall n | n in r.resolved ensures Stored(s'.events, jobId, n) {
      StoredStays(s.events, s'.events, jobId, n);
    }
  }

  lemma NextReporterOk(s: System, jobId: string, r: Reporter, fate: Fate)
    requires ReporterOk(s, jobId, r) && r.queue != []
    requires Stores(fate) ==> Stored(s.events, jobId, r.queue[0].number)
    ensures ReporterOk(s, jobId, Next(r, fate)) && Settled(r) <= Settled(Next(r, fate)) && Next(r, fate).sent == r.sent
  {
    assert r.queue[0] == r.sent[Settled(r)];
    assert r.queue[1..] == r.sent[Settled(r) + 1..];
  }

  lemma AttemptKeepsInv(s: System, jobId: string, fate: Fate)
    requires Inv(s)
    ensures Inv(Apply(s, Attempt(jobId, fate)))
  {
    var r := ReporterOf(s, jobId);
    if r.queue != [] {
      var s' := Apply(s, Attempt(jobId, fate));
      ServeKeeps(s, jobId, fate);
      ReporterStays(s, s', jobId, r);
      NextReporterOk(s', jobId, r, fate);
      forall other | other in s'.reporters ensures ReporterOk(s', other, s'.reporters[other]) {
        if other != jobId {
          ReporterStays(s, s', other, s.reporters[other]);
        }
      }
      forall i | 0 <= i < |s'.events| ensures EventOk(s', s'.events[i]) {
        assert EventOk(s, s'.events[i]);
      }
    }
  }

  lemma EmitterOk(s: System, jobId: string, r: Reporter, kind: EventType, payload: Payload)
    requires ReporterOk(s, jobId, r)
    ensures var e := Numbered(|r.sent| + 1, kind, payload);
            ReporterOk(s, jobId, r.(sent := r.sent + [e], queue := r.queue + [e]))
  {
    var e := Numbered(|r.sent| + 1, kind, payload);
    assert (r.sent + [e])[Settled(r)..] == r.queue + [e];
  }

  lemma EventStays(s: System, s': System, e: JobEvent)
    requires EventOk(s, e)
    requires ReporterOf(s, e.jobId).sent <= ReporterOf(s', e.jobId).sent
    requires Settled(ReporterOf(s, e.jobId)) <= Settled(ReporterOf(s', e.jobId))
    ensures EventOk(s', e)
  {
  }

  lemma ReportersAfterEmit(s: System, s': System, jobId: string, r: Reporter)
    requires forall other :: other in s.reporters ==> ReporterOk(s, other, s.reporters[other])
    requires s' == s.(reporters := s.reporters[jobId := r]) && ReporterOk(s, jobId, r)
    ensures forall other :: other in s'.reporters ==> ReporterOk(s', other, s'.reporters[other])
  {
    forall other | other in s'.reporters ensures ReporterOk(s', other, s'.reporters[other]) {
      ReporterStays(s, s', other, s'.reporters[other]);
    }
  }

  lemma EmittedKeepsInv(s: System, s': System, jobId: string, r: Reporter)
    requires Inv(s) && s' == s.(reporters := s.reporters[jobId := r]) && ReporterOk(s, jobId, r)
    requires ReporterOf(s, jobId).sent <= r.sent && Settled(ReporterOf(s, jobId)) <= Settled(r)
    ensures Inv(s')
  {
    ReportersAfterEmit(s, s', jobId, r);
    EventsAfterEmit(s, s', jobId, r);
  }

  lemma EmitKeepsInv(s: System, jobId: string, kind: EventType, payload: Payload)
    requires Inv(s)
    ensures Inv(Apply(s, Emit(jobId, kind, payload)))
  {
    var r := ReporterOf(s, jobId);
    var e := Numbered(|r.sent| + 1, kind, payload);
    var r' := r.(sent := r.sent + [e], queue := r.queue + [e]);
    EmitterOk(s, jobId, r, kind, payload);
    EmittedKeepsInv(s, s.(reporters := s.reporters[jobId := r']), jobId, r');
  }

  lemma EventsAfterEmit(s: System, s': System, jobId: string, r: Reporter)
    requires forall i :: 0 <= i < |s.events| ==> EventOk(s, s.events[i])
    requires s' == s.(reporters := s.reporters[jobId := r])
    requires ReporterOf(s, jobId).sent <= r.sent && Settled(ReporterOf(s, jobId)) <= Settled(r)
    ensures forall i :: 0 <= i < |s'.events| ==> EventOk(s', s'.events[i])
  {
    forall i | 0 <= i < |s'.events| ensures EventOk(s', s'.events[i]) {
      EventStays(s, s', s.events[i]);
    }
  }

  lemma ApiEventKeepsInv(s: System, step: Step)
    requires Inv(s) && step.ApiEvent?
    ensures Inv(Apply(s, step))
  {
    var s' := Apply(s, step);
    forall other | other in s'.reporters ensures ReporterOk(s', other, s'.reporters[other]) {
      assert ReporterOk(s, other, s.reporters[other]);
      forall n | n in s'.reporters[other].resolved ensures Stored(s'.events, other, n) {
        StoredStays(s.events, s'.events, other, n);
      }
    }
    forall i | 0 <= i < |s'.effects|
      ensures Stored(s'.events, s'.effects[i].jobId, s'.effects[i].number)
    {
      StoredStays(s.events, s'.events, s.effects[i].jobId, s.effects[i].number);
    }
    forall i | 0 <= i < |s'.events| ensures EventOk(s', s'.events[i]) {
      assert i < |s.events| ==> EventOk(s, s.events[i]);
    }
  }

  lemma StepKeepsInv(s: System, step: Step)
    requires Inv(s)
    ensures Inv(Apply(s, step))
  {
    match step
    case Attempt(jobId, fate) => AttemptKeepsInv(s, jobId, fate);
    case Emit(jobId, kind, payload) => EmitKeepsInv(s, jobId, kind, payload);
    case ApiEvent(_, _, _) => ApiEventKeepsInv(s, step);
  }

  lemma {:induction false} RunKeepsInv(steps: seq<Step>)
    ensures Inv(Run(INITIAL, steps))
  {
    if steps != [] {
      RunKeepsInv(steps[..|steps| - 1]);
      StepKeepsInv(Run(INITIAL, steps[..|steps| - 1]), steps[|steps| - 1]);
    }
  }

  /**
   * On every run of every interleaving: a job's numbered events are stored in strictly increasing
   * order, with the content emitted under that number, and the effects run at most once each.
   */
  lemma StoredLogIsFaithful(steps: seq<Step>)
    ensures var s := Run(INITIAL, steps);
            && Increasing(s.events)
            && (forall i :: 0 <= i < |s.events| && s.events[i].number.Some? ==>
                  var sent := ReporterOf(s, s.events[i].jobId).sent;
                  var n := s.events[i].number.value;
                  1 <= n <= |sent| && sent[n - 1] == Numbered(n, s.events[i].kind, s.events[i].payload))
            && (forall i, j :: 0 <= i < j < |s.effects| ==> s.effects[i] != s.effects[j])
  {
    RunKeepsInv(steps);
    var s := Run(INITIAL, steps);
    forall i | 0 <= i < |s.events| ensures EventOk(s, s.events[i]) {
    }
  }

  lemma OneOfEach(events: seq<JobEvent>, jobId: string, number: nat, i: nat, j: nat)
    requires Increasing(events) && i < |events| && j < |events|
    requires IsNumbered(events[i], jobId, number) && IsNumbered(events[j], jobId, number)
    ensures i == j
  {
  }

  /** An emit that resolved is in the log exactly once, with what was emitted. */
  lemma ResolvedEmitIsStoredOnce(steps: seq<Step>, jobId: string, number: nat)
    requires number in ReporterOf(Run(INITIAL, steps), jobId).resolved
    ensures var s := Run(INITIAL, steps);
            var sent := ReporterOf(s, jobId).sent;
            && 1 <= number <= |sent|
            && exists i ::
                 && 0 <= i < |s.events| && IsNumbered(s.events[i], jobId, number)
                 && sent[number - 1] == Numbered(number, s.events[i].kind, s.events[i].payload)
                 && forall j :: 0 <= j < |s.events| && IsNumbered(s.events[j], jobId, number) ==> j == i
  {
    RunKeepsInv(steps);
    var s := Run(INITIAL, steps);
    assert ReporterOk(s, jobId, s.reporters[jobId]);
    assert Stored(s.events, jobId, number);
    var i :| 0 <= i < |s.events| && IsNumbered(s.events[i], jobId, number);
    assert EventOk(s, s.events[i]);
    forall j | 0 <= j < |s.events| && IsNumbered(s.events[j], jobId, number) ensures j == i {
      OneOfEach(s.events, jobId, number, i, j);
    }
  }

  // ----- Side effects -----

  /** Step `k` is the attempt that first stores the event of this number */
  ghost predicate FirstStores(steps: seq<Step>, k: nat, jobId: string, number: nat) {
    && k < |steps| && steps[k].Attempt? && steps[k].jobId == jobId && Stores(steps[k].fate)
    && var s := Run(INITIAL, steps[..k]);
       ReporterOf(s, jobId).queue != [] && ReporterOf(s, jobId).queue[0].number == number && !Stored(s.events, jobId, number)
  }

  ghost predicate Ran(s: System, jobId: string, number: nat) {
    Effect(jobId, number) in s.effects
  }

  lemma AttemptOnStored(s: System, step: Step, jobId: string, number: nat)
    requires Stored(s.events, jobId, number) && step.Attempt?
    ensures Stored(Apply(s, step).events, jobId, number)
    ensures Ran(Apply(s, step), jobId, number) <==> Ran(s, jobId, number)
  {
    StoredStays(s.events, Apply(s, step).events, jobId, number);
  }

  /** Once an event is stored, nothing runs its effect any more. */
  lemma StoredIsSettled(s: System, step: Step, jobId: string, number: nat)
    requires Stored(s.events, jobId, number)
    ensures Stored(Apply(s, step).events, jobId, number)
    ensures Ran(Apply(s, step), jobId, number) <==> Ran(s, jobId, number)
  {
    if step.Attempt? {
      AttemptOnStored(s, step, jobId, number);
    } else {
      StoredStays(s.events, Apply(s, step).events, jobId, number);
    }
  }

  lemma NewInTheLog(events: seq<JobEvent>, e: JobEvent, jobId: string, number: nat)
    requires Stored(events + [e], jobId, number)
    ensures Stored(events, jobId, number) || IsNumbered(e, jobId, number)
  {
    var i :| 0 <= i < |events + [e]| && IsNumbered((events + [e])[i], jobId, number);
    if i < |events| {
      assert IsNumbered(events[i], jobId, number);
    }
  }

  lemma RanIsStored(s: System, jobId: string, number: nat)
    requires Inv(s)
    ensures Ran(s, jobId, number) ==> Stored(s.events, jobId, number)
  {
    if Ran(s, jobId, number) {
      var i :| 0 <= i < |s.effects| && s.effects[i] == Effect(jobId, number);
      assert Stored(s.events, s.effects[i].jobId, s.effects[i].number);
    }
  }

  /** Only an attempt stores a number, and it runs the effect unless it then failed */
  lemma StoringRunsTheEffect(s: System, step: Step, jobId: string, number: nat)
    requires Inv(s) && !Stored(s.events, jobId, number) && Stored(Apply(s, step).events, jobId, number)
    ensures step.Attempt? && step.jobId == jobId && Stores(step.fate)
    ensures var queue := ReporterOf(s, jobId).queue;
            && queue != [] && queue[0].number == number
            && Apply(s, step).events == Appended(s.events, jobId, Some(number), queue[0].kind, queue[0].payload)
            && (Ran(Apply(s, step), jobId, number) <==> (queue[0].kind.Notify? || queue[0].kind.Gate?) && !step.fate.StoredThenFailed?)
  {
    var s' := Apply(s, step);
    if |s'.events| > |s.events| {
      NewInTheLog(s.events, s'.events[|s.events|], jobId, number);
    }
    RanIsStored(s, jobId, number);
  }

  lemma LogOnlyGrows(s: System, step: Step)
    ensures s.events <= Apply(s, step).events
  {
  }

  lemma FirstStoresStays(steps: seq<Step>, n: nat, k: nat, jobId: string, number: nat)
    requires n <= |steps| && FirstStores(steps[..n], k, jobId, number)
    ensures FirstStores(steps, k, jobId, number) && steps[k] == steps[..n][k]
  {
    assert steps[..n][..k] == steps[..k] && steps[..n][k] == steps[k];
  }

  lemma NumberedOnce(steps: seq<Step>, jobId: string, number: nat, i: nat, j: nat)
    requires var events := Run(INITIAL, steps).events;
             i < |events| && j < |events| && IsNumbered(events[i], jobId, number) && IsNumbered(events[j], jobId, number)
    ensures i == j
  {
    RunKeepsInv(steps);
    OneOfEach(Run(INITIAL, steps).events, jobId, number, i, j);
  }

  /**
   * A stored event was first stored by one attempt, and its side effect has run if and only if it
   * is a notice or a gate and that attempt did not fail after storing: the redelivered event is a
   * duplicate, so its mail or gate is never made up for.
   */
  lemma {:induction false} EffectRanUnlessStoringFailed(steps: seq<Step>, jobId: string, number: nat, i: nat)
    requires var events := Run(INITIAL, steps).events; i < |events| && IsNumbered(events[i], jobId, number)
    ensures var s := Run(INITIAL, steps);
            exists k: nat :: FirstStores(steps, k, jobId, number) &&
                        (Effect(jobId, number) in s.effects <==>
                         (s.events[i].kind.Notify? || s.events[i].kind.Gate?) && !steps[k].fate.StoredThenFailed?)
  {
    if steps != [] {
      var n := |steps| - 1;
      var before, s := Run(INITIAL, steps[..n]), Run(INITIAL, steps);
      RunKeepsInv(steps[..n]);
      LogOnlyGrows(before, steps[n]);
      if Stored(before.events, jobId, number) {
        var j :| 0 <= j < |before.events| && IsNumbered(before.events[j], jobId, number);
        NumberedOnce(steps, jobId, number, i, j);
        EffectRanUnlessStoringFailed(steps[..n], jobId, number, i);
        var k: nat :| FirstStores(steps[..n], k, jobId, number) &&
                      (Ran(before, jobId, number) <==>
                       (before.events[i].kind.Notify? || before.events[i].kind.Gate?) && !steps[..n][k].fate.StoredThenFailed?);
        FirstStoresStays(steps, n, k, jobId, number);
        StoredIsSettled(before, steps[n], jobId, number);
      } else {
        assert Stored(s.events, jobId, number);
        StoringRunsTheEffect(before, steps[n], jobId, number);
        NumberedOnce(steps, jobId, number, i, |before.events|);
        assert FirstStores(steps, n, jobId, number);
      }
    }
  }

  /** In particular for an emit that resolved. */
  lemma ResolvedEmitRanUnlessStoringFailed(steps: seq<Step>, jobId: string, number: nat)
    requires number in ReporterOf(Run(INITIAL, steps), jobId).resolved
    ensures var s := Run(INITIAL, steps);
            && 1 <= number <= |ReporterOf(s, jobId).sent|
            && var kind := ReporterOf(s, jobId).sent[number - 1].kind;
               exists k: nat :: FirstStores(steps, k, jobId, number) &&
                           (Effect(jobId, number) in s.effects <==> (kind.Notify? || kind.Gate?) && !steps[k].fate.StoredThenFailed?)
  {
    ResolvedEmitIsStoredOnce(steps, jobId, number);
    var s := Run(INITIAL, steps);
    var i :| 0 <= i < |s.events| && IsNumbered(s.events[i], jobId, number) &&
             ReporterOf(s, jobId).sent[number - 1] == Numbered(number, s.events[i].kind, s.events[i].payload);
    EffectRanUnlessStoringFailed(steps, jobId, number, i);
  }

  lemma OneMoreStep(steps: seq<Step>, step: Step)
    ensures Run(INITIAL, steps + [step]) == Apply(Run(INITIAL, steps), step)
  {
    assert (steps + [step])[..|steps|] == steps;
  }

  /** A notice stored by an attempt that then failed, and delivered by the next: resolved, and never mailed. */
  lemma RetriedNoticeIsNeverMailed(jobId: string, payload: Payload)
    ensures var s := Run(INITIAL, [Emit(jobId, Notify, payload), Attempt(jobId, StoredThenFailed), Attempt(jobId, Delivered)]);
            1 in ReporterOf(s, jobId).resolved && Stored(s.events, jobId, 1) && s.effects == []
  {
    var a, b, c := Step.Emit(jobId, Notify, payload), Attempt(jobId, StoredThenFailed), Attempt(jobId, Delivered);
    OneMoreStep([], a);
    OneMoreStep([a], b);
    OneMoreStep([a, b], c);
    assert [] + [a] == [a] && [a] + [b] == [a, b] && [a, b] + [c] == [a, b, c];
    var e := Numbered(1, Notify, payload);
    var s2 := Run(INITIAL, [a, b]);
    assert s2.events == [JobEvent(1, jobId, Some(1), Notify, payload)] && s2.effects == [];
    assert IsNumbered(s2.events[0], jobId, 1);
    assert ReporterOf(s2, jobId) == Reporter([e], [e], 1, {});
  }

  /**
   * What a first attempt leaves, whatever its fate: the event is stored unless the attempt never
   * got that far, a notice or gate also has its effect unless storing was the last thing that
   * happened, and the emit resolves exactly when the answer came back.
   */
  lemma FirstAttempt(jobId: string, kind: EventType, payload: Payload, fate: Fate)
    ensures var s := Run(INITIAL, [Emit(jobId, kind, payload), Attempt(jobId, fate)]);
            var stored := fate in {StoredThenFailed, AppliedThenLost, Delivered};
            && s.events == (if stored then [JobEvent(1, jobId, Some(1), kind, payload)] else [])
            && s.effects == (if stored && fate != StoredThenFailed && kind in {Notify, EventType.Gate} then [Effect(jobId, 1)] else [])
            && ReporterOf(s, jobId).resolved == (if fate == Delivered then {1} else {})
            && ReporterOf(s, jobId).queue == (if fate == Refused || fate == Delivered then [] else [Numbered(1, kind, payload)])
  {
    var a, b := Step.Emit(jobId, kind, payload), Attempt(jobId, fate);
    var e := Numbered(1, kind, payload);
    OneMoreStep([], a);
    OneMoreStep([a], b);
    assert [] + [a] == [a] && [a] + [b] == [a, b];
    assert NEW_REPORTER.sent + [e] == [e] && NEW_REPORTER.queue + [e] == [e];
    assert Apply(INITIAL, a) == System([], [], map[jobId := Reporter([e], [e], 0, {})]);
    ServedFirst(jobId, e, fate);
    TriedFirst(e, fate);
  }

  lemma ServedFirst(jobId: string, e: Numbered, fate: Fate)
    ensures var served := Serve([], [], jobId, e, fate);
            var stored := fate in {StoredThenFailed, AppliedThenLost, Delivered};
            && served.0 == (if stored then [JobEvent(1, jobId, Some(e.number), e.kind, e.payload)] else [])
            && served.1 == (if stored && fate != StoredThenFailed && e.kind in {Notify, EventType.Gate} then [Effect(jobId, e.number)] else [])
  {
  }

  lemma TriedFirst(e: Numbered, fate: Fate)
    ensures var next := Next(Reporter([e], [e], 0, {}), fate);
            && next.resolved == (if fate == Delivered then {e.number} else {})
            && next.queue == (if fate == Refused || fate == Delivered then [] else [e])
  {
  }

  // ----- The request loop -----

  /** Outcome of one request: whether it resolved, and how many attempts it took */
  datatype Outcome = Outcome(resolved: bool, attempts: nat)

  class JobApi {
    const log: EventLog
    ghost var effects: seq<Effect>

    ghost predicate Valid()
      reads this, log
    {
      log.Valid()
    }

    constructor ()
      ensures Valid() && fresh(log) && log.events == [] && effects == []
    {
      log := new EventLog();
      effects := [];
    }

    /** `POST /events` with one event, as the fate of the attempt lets it happen. */
    method Receive(jobId: string, e: Numbered, fate: Fate)
      requires Valid()
      modifies this, log
      ensures Valid() && (log.events, effects) == Serve(old(log.events), old(effects), jobId, e, fate)
    {
      if fate.StoredThenFailed? || fate.AppliedThenLost? || fate.Delivered? {
        var _, duplicate := log.AppendEventOnce(jobId, e.number, e.kind, e.payload);
        if duplicate {
          return;
        }
        if (e.kind.Notify? || e.kind.Gate?) && !fate.StoredThenFailed? {
          effects := effects + [Effect(jobId, e.number)];
        }
      }
    }
  }

  /** The attempts one request makes from attempt `k` on: up to and including the first final one, or the last */
  function AttemptsFrom(fates: seq<Fate>, k: nat): (n: nat)
    requires k < |fates|
    ensures k < n <= |fates|
    ensures forall i :: k <= i < n - 1 ==> !Final(fates[i])
    ensures n < |fates| ==> Final(fates[n - 1])
    decreases |fates| - k
  {
    if Final(fates[k]) || k == |fates| - 1 then k + 1 else AttemptsFrom(fates, k + 1)
  }

  function AttemptsMade(fates: seq<Fate>): (n: nat)
    requires |fates| == RETRIES + 1
    ensures 1 <= n <= RETRIES + 1
    ensures forall i :: 0 <= i < n - 1 ==> !Final(fates[i])
    ensures n <= RETRIES ==> Final(fates[n - 1])
  {
    AttemptsFrom(fates, 0)
  }

  function AttemptSteps(jobId: string, fates: seq<Fate>): seq<Step> {
    seq(|fates|, i requires 0 <= i < |fates| => Attempt(jobId, fates[i]))
  }

  /** The api's side of the attempts of one request */
  ghost function ServeAll(events: seq<JobEvent>, effects: seq<Effect>, jobId: string, e: Numbered, fates: seq<Fate>)
    : (seq<JobEvent>, seq<Effect>)
  {
    if fates == [] then (events, effects)
    else
      var before := ServeAll(events, effects, jobId, e, fates[..|fates| - 1]);
      Serve(before.0, before.1, jobId, e, fates[|fates| - 1])
  }

  /** The reporter after the given attempts at its head request, none before the last one final */
  function Tried(r: Reporter, fates: seq<Fate>): Reporter
    requires r.queue != []
  {
    var done := r.(queue := r.queue[1..], attempt := 0);
    if fates == [] then r
    else if fates[|fates| - 1].Delivered? then done.(resolved := r.resolved + {r.queue[0].number})
    else if fates[|fates| - 1].Refused? || |fates| > RETRIES then done
    else r.(attempt := |fates|)
  }

  lemma {:induction false} AttemptsInARow(events: seq<JobEvent>, effects: seq<Effect>, jobId: string, r: Reporter, fates: seq<Fate>)
    requires r.queue != [] && r.attempt == 0 && |fates| <= RETRIES + 1
    requires forall i :: 0 <= i < |fates| - 1 ==> !Final(fates[i])
    ensures var served := ServeAll(events, effects, jobId, r.queue[0], fates);
            Run(System(events, effects, map[jobId := r]), AttemptSteps(jobId, fates)) ==
            System(served.0, served.1, map[jobId := Tried(r, fates)])
  {
    if fates != [] {
      var k := |fates| - 1;
      AttemptsInARow(events, effects, jobId, r, fates[..k]);
      var steps := AttemptSteps(jobId, fates);
      assert steps[..k] == AttemptSteps(jobId, fates[..k]);
      assert steps[k] == Attempt(jobId, fates[k]);
      var q := Tried(r, fates[..k]);
      assert k > 0 ==> fates[..k][k - 1] == fates[k - 1];
      assert q == r.(attempt := k);
      assert map[jobId := q][jobId := Tried(r, fates)] == map[jobId := Tried(r, fates)];
    }
  }

  lemma ServeOneMore(events: seq<JobEvent>, effects: seq<Effect>, jobId: string, e: Numbered, fates: seq<Fate>, k: nat)
    requires k < |fates|
    ensures var before := ServeAll(events, effects, jobId, e, fates[..k]);
            ServeAll(events, effects, jobId, e, fates[..k + 1]) == Serve(before.0, before.1, jobId, e, fates[k])
  {
    assert fates[..k + 1][..k] == fates[..k];
  }

  class ApiReporter {
    const jobId: string
    const api: JobApi
    ghost var sent: seq<Numbered>
    var seqNo: nat
    var queue: seq<Numbered>
    ghost var resolved: set<nat>

    ghost predicate Valid()
      reads this, api, api.log
    {
      && api.Valid()
      && seqNo == |sent|
    }

    /** This reporter and its api as a state of the system */
    ghost function View(): System
      reads this, api, api.log
    {
      System(api.log.events, api.effects, map[jobId := Reporter(sent, queue, 0, resolved)])
    }

    constructor (jobId: string, api: JobApi)
      requires api.Valid()
      ensures Valid() && this.jobId == jobId && this.api == api
      ensures View() == System(api.log.events, api.effects, map[jobId := NEW_REPORTER])
    {
      this.jobId := jobId;
      this.api := api;
      sent, seqNo, queue, resolved := [], 0, [], {};
    }

    /** `emit`: takes the next number at once and joins the queue. */
    method Emit(kind: EventType, payload: Payload)
      requires Valid()
      modifies this
      ensures Valid() && View() == Apply(old(View()), Step.Emit(jobId, kind, payload))
    {
      seqNo := seqNo + 1;
      var numbered := Numbered(seqNo, kind, payload);
      queue := queue + [numbered];
      sent := sent + [numbered];
    }

    /** `request`: tries until an attempt is final or the retries are used up. */
    method Request(e: Numbered, fates: seq<Fate>) returns (outcome: Outcome)
      requires api.Valid()
      requires |fates| == 4
      modifies api, api.log
      ensures api.Valid() && outcome.attempts == AttemptsMade(fates)
      ensures outcome.resolved == fates[outcome.attempts - 1].Delivered?
      ensures (api.log.events, api.effects) ==
              ServeAll(old(api.log.events), old(api.effects), jobId, e, fates[..outcome.attempts])
    {
      ghost var events, effects := api.log.events, api.effects;
      var attempt := 0;
      while attempt <= RETRIES
        invariant 0 <= attempt <= RETRIES + 1
        invariant api.Valid()
        invariant (api.log.events, api.effects) == ServeAll(events, effects, jobId, e, fates[..attempt])
        invariant attempt > 0 ==> !fates[attempt - 1].Delivered?
        invariant AttemptsMade(fates) == if attempt <= RETRIES then AttemptsFrom(fates, attempt) else RETRIES + 1
      {
        ServeOneMore(events, effects, jobId, e, fates, attempt);
        api.Receive(jobId, e, fates[attempt]);
        if fates[attempt].Delivered? {
          return Outcome(true, attempt + 1);
        }
        if fates[attempt].Refused? {
          return Outcome(false, attempt + 1);
        }
        attempt := attempt + 1;
      }
      outcome := Outcome(false, RETRIES + 1);
    }

    /**
     * The queue's next task. Whatever the fates of the attempts, it does what that many attempt
     * steps of the system do.
     */
    method SendNext(fates: seq<Fate>) returns (outcome: Outcome)
      requires Valid() && queue != []
      requires |fates| == 4
      modifies this, api, api.log
      ensures Valid() && outcome.attempts == AttemptsMade(fates)
      ensures outcome.resolved == fates[outcome.attempts - 1].Delivered?
      ensures View() == Run(old(View()), AttemptSteps(jobId, fates[..outcome.attempts]))
    {
      var e := queue[0];
      outcome := Request(e, fates);
      AttemptsInARow(old(api.log.events), old(api.effects), jobId, Reporter(sent, queue, 0, resolved), fates[..outcome.attempts]);
      queue := queue[1..];
      if outcome.resolved {
        resolved := resolved + {e.number};
      }
    }
  }
}
