/**
 * The resident's monthly token cap (packages/resident/src/cap.ts) and the builds that spend it
 * (packages/resident/src/resident.ts). Months are numbered; token counts are whole numbers.
 */
module MonthlyCap {
  import opened Wrappers

  /** The month object held in memory */
  datatype MonthState = MonthState(month: int, usedTokens: nat)

  /** The stored month objects, and the one that is cached */
  datatype Cap = Cap(store: map<int, nat>, cached: Option<MonthState>)

  function Stored(c: Cap, month: int): nat {
    if month in c.store then c.store[month] else 0
  }

  predicate Hit(c: Cap, month: int) {
    c.cached.Some? && c.cached.value.month == month
  }

  function Used(c: Cap, month: int): nat {
    if Hit(c, month) then c.cached.value.usedTokens else Stored(c, month)
  }

  function Loaded(c: Cap, month: int): Cap {
    c.(cached := Some(MonthState(month, Used(c, month))))
  }

  function Remaining(maxTokens: nat, used: nat): nat {
    if used >= maxTokens then 0 else maxTokens - used
  }

  /** Whether the store answers the read and takes the write of one `add` */
  datatype Fate = Fate(getOk: bool, putOk: bool)

  function Added(c: Cap, month: int, tokens: int, fate: Fate): Cap {
    if !Hit(c, month) && !fate.getOk then c
    else
      var used := Used(c, month) + if tokens > 0 then tokens else 0;
      Cap(if fate.putOk then c.store[month := used] else c.store, Some(MonthState(month, used)))
  }

  class MonthlyCap {
    const maxTokens: nat
    var store: map<int, nat>
    var state: Option<MonthState>

    ghost function View(): Cap
      reads this
    {
      Cap(store, state)
    }

    constructor (maxTokens: nat, store: map<int, nat>)
      ensures this.maxTokens == maxTokens && View() == Cap(store, None)
    {
      this.maxTokens, this.store, state := maxTokens, store, None;
    }

    /** `load`: a failing read of the store throws and leaves everything as it was. */
    method Load(month: int, getOk: bool) returns (used: Option<nat>)
      modifies `state
      ensures used.Some? <==> Hit(old(View()), month) || getOk
      ensures used.Some? ==> used.value == Used(old(View()), month) && View() == Loaded(old(View()), month)
      ensures used.None? ==> View() == old(View())
    {
      if state.Some? && state.value.month == month {
        return Some(state.value.usedTokens);
      }
      if !getOk {
        return None;
      }
      var stored := if month in store then store[month] else 0;
      state := Some(MonthState(month, stored));
      used := Some(stored);
    }

    /** `add`: counts in memory first, so a failing write leaves the store behind the count. */
    method Add(month: int, tokens: int, fate: Fate) returns (reached: Option<bool>)
      modifies this
      ensures View() == Added(old(View()), month, tokens, fate)
      ensures reached.Some? <==> (Hit(old(View()), month) || fate.getOk) && fate.putOk
      ensures reached.Some? ==> (reached.value <==> Used(View(), month) >= maxTokens)
    {
      var loaded := Load(month, fate.getOk);
      if loaded.None? {
        return None;
      }
      var used := loaded.value + if tokens > 0 then tokens else 0;
      state := Some(MonthState(month, used));
      if !fate.putOk {
        return None;
      }
      store := store[month := used];
      reached := Some(used >= maxTokens);
    }
  }

  // ----- Builds under the cap -----

  /** `turn` is the most one in-flight model turn adds past a build's budget */
  datatype Config = Config(maxTokens: nat, taskBudget: nat, turn: nat)

  datatype Build = Build(budget: nat, tokensSeen: nat)

  datatype State = State(cap: Cap, clock: int, build: Option<Build>)

  datatype Step =
    | RunNext(checked: int, checkOk: bool, started: int, startOk: bool)  // `reached()` and `remaining()`: month, and whether the store answers
    | OnTokens(month: int, used: nat, fate: Fate)                        // the build's running total
    | Ends
    | Looks(month: int)                             // any other reader of the counter
    | Restarts

  /** A load that succeeded, at its moment */
  function LoadedAt(s: State, month: int): State {
    s.(cap := Loaded(s.cap, month), clock := month)
  }

  predicate Loads(s: State, month: int, ok: bool) {
    Hit(s.cap, month) || ok
  }

  function Apply(cfg: Config, s: State, step: Step): State {
    match step
    case RunNext(checked, checkOk, started, startOk) =>
      if s.build.Some? || !Loads(s, checked, checkOk) then s
      else
        var first := LoadedAt(s, checked);
        if Used(first.cap, checked) >= cfg.maxTokens || !Loads(first, started, startOk) then first
        else
          var second := LoadedAt(first, started);
          var remaining := Remaining(cfg.maxTokens, Used(second.cap, started));
          second.(build := Some(Build(if cfg.taskBudget < remaining then cfg.taskBudget else remaining, 0)))
    case OnTokens(month, used, fate) =>
      if s.build.None? then s
      else
        var delta := used - s.build.value.tokensSeen;
        State(if delta > 0 then Added(s.cap, month, delta, fate) else s.cap, month, Some(s.build.value.(tokensSeen := used)))
    case Ends => s.(build := None)
    case Looks(month) => LoadedAt(s, month)
    case Restarts => s.(cap := s.cap.(cached := None), build := None)
  }

  class Resident {
    const cfg: Config
    const cap: MonthlyCap
    var build: Option<Build>
    ghost var clock: int

    ghost function View(): State
      reads this, cap
    {
      State(cap.View(), clock, build)
    }

    constructor (cfg: Config, store: map<int, nat>, clock: int)
      ensures this.cfg == cfg && cap.maxTokens == cfg.maxTokens && fresh(cap)
      ensures View() == State(Cap(store, None), clock, None)
    {
      this.cfg, this.clock, build := cfg, clock, None;
      cap := new MonthlyCap(cfg.maxTokens, store);
    }

    /** `runNext` into `build`, with a task queued: the budget is what the month has left; a failing read starts nothing. */
    method RunNext(checked: int, checkOk: bool, started: int, startOk: bool)
      requires cap.maxTokens == cfg.maxTokens
      modifies this, cap
      ensures View() == Apply(cfg, old(View()), Step.RunNext(checked, checkOk, started, startOk))
      ensures old(build).None? ==>
                build ==
                if && (Hit(old(cap.View()), checked) || checkOk) && Used(old(cap.View()), checked) < cfg.maxTokens
                   && (started == checked || startOk)
                then
                  var left := cfg.maxTokens - Used(Loaded(old(cap.View()), checked), started);
                  Some(Build(if left <= 0 then 0 else if left < cfg.taskBudget then left else cfg.taskBudget, 0))
                else None
      ensures old(build).Some? ==> View() == old(View())
    {
      if build.Some? {
        return;
      }
      var used := cap.Load(checked, checkOk);
      if used.None? {
        return;
      }
      clock := checked;
      if used.value >= cfg.maxTokens {
        return;
      }
      var usedNow := cap.Load(started, startOk);
      if usedNow.None? {
        return;
      }
      clock := started;
      var remaining := if usedNow.value >= cfg.maxTokens then 0 else cfg.maxTokens - usedNow.value;
      build := Some(Build(if cfg.taskBudget < remaining then cfg.taskBudget else remaining, 0));
    }

    /** `onTokens`: only growth is added, and the total is remembered before it is. */
    method OnTokens(month: int, used: nat, fate: Fate)
      requires cap.maxTokens == cfg.maxTokens && build.Some?
      modifies this, cap
      ensures View() == Apply(cfg, old(View()), Step.OnTokens(month, used, fate))
    {
      var delta := used - build.value.tokensSeen;
      build, clock := Some(build.value.(tokensSeen := used)), month;
      if delta > 0 {
        var _ := cap.Add(month, delta, fate);
      }
    }
  }

  /** The clock does not run backwards, and a build's totals grow to at most its budget and one turn */
  predicate Legal(cfg: Config, s: State, step: Step) {
    match step
    case RunNext(checked, _, started, _) => s.clock <= checked <= started
    case OnTokens(month, used, _) =>
      s.clock <= month && s.build.Some? && s.build.value.tokensSeen <= used <= s.build.value.budget + cfg.turn
    case Looks(month) => s.clock <= month
    case _ => true
  }

  function Run(cfg: Config, clock: int, steps: seq<Step>): State {
    if steps == [] then State(Cap(map[], None), clock, None)
    else Apply(cfg, Run(cfg, clock, steps[..|steps| - 1]), steps[|steps| - 1])
  }

  predicate LegalRun(cfg: Config, clock: int, steps: seq<Step>) {
    steps == [] ||
    (LegalRun(cfg, clock, steps[..|steps| - 1]) && Legal(cfg, Run(cfg, clock, steps[..|steps| - 1]), steps[|steps| - 1]))
  }

  // ----- The cap holds -----

  predicate MonthOk(cfg: Config, s: State, month: int) {
    && Stored(s.cap, month) <= Used(s.cap, month) <= cfg.maxTokens + cfg.turn
    && (month > s.clock ==> Used(s.cap, month) == 0)
  }

  /** What is left of the running build's budget still fits under the cap */
  predicate BuildOk(cfg: Config, s: State) {
    s.build.Some? ==>
      && Used(s.cap, s.clock) + s.build.value.budget <= cfg.maxTokens + s.build.value.tokensSeen
      && s.build.value.tokensSeen <= s.build.value.budget + cfg.turn
      && s.build.value.budget <= cfg.maxTokens
  }

  ghost predicate Inv(cfg: Config, s: State) {
    BuildOk(cfg, s) && forall month :: MonthOk(cfg, s, month)
  }

  lemma LoadKeepsInv(cfg: Config, s: State, month: int)
    requires Inv(cfg, s) && s.clock <= month
    ensures Inv(cfg, LoadedAt(s, month))
  {
    var s' := LoadedAt(s, month);
    assert MonthOk(cfg, s, month) && MonthOk(cfg, s, s.clock);
    forall m ensures MonthOk(cfg, s', m) {
      assert MonthOk(cfg, s, m);
    }
  }

  lemma AddKeepsInv(cfg: Config, s: State, s': State, month: int, used: nat, fate: Fate)
    requires Inv(cfg, s) && s.clock == month && s.build.Some?
    requires s.build.value.tokensSeen < used <= s.build.value.budget + cfg.turn
    requires s' == Apply(cfg, s, OnTokens(month, used, fate))
    ensures Inv(cfg, s')
  {
    assert MonthOk(cfg, s, month);
    forall m ensures MonthOk(cfg, s', m) {
      assert MonthOk(cfg, s, m);
    }
  }

  /** A report in a later month than the last one seen: nothing is counted there yet */
  lemma ClockKeepsInv(cfg: Config, s: State, month: int)
    requires Inv(cfg, s) && s.clock <= month
    ensures Inv(cfg, s.(clock := month))
  {
    var s' := s.(clock := month);
    assert MonthOk(cfg, s, month);
    forall m ensures MonthOk(cfg, s', m) {
      assert MonthOk(cfg, s, m);
    }
  }

  lemma StartKeepsInv(cfg: Config, s: State, step: Step)
    requires Inv(cfg, s) && Legal(cfg, s, step) && step.RunNext?
    ensures Inv(cfg, Apply(cfg, s, step))
  {
    var checked, started := step.checked, step.started;
    if s.build.None? && Loads(s, checked, step.checkOk) {
      var first := LoadedAt(s, checked);
      LoadKeepsInv(cfg, s, checked);
      if Used(first.cap, checked) < cfg.maxTokens && Loads(first, started, step.startOk) {
        LoadKeepsInv(cfg, first, started);
        assert MonthOk(cfg, first, started);
        var s' := Apply(cfg, s, step);
        forall m ensures MonthOk(cfg, s', m) {
          assert MonthOk(cfg, LoadedAt(first, started), m);
        }
      }
    }
  }

  lemma StepKeepsInv(cfg: Config, s: State, step: Step)
    requires Inv(cfg, s) && Legal(cfg, s, step)
    ensures Inv(cfg, Apply(cfg, s, step))
  {
    match step
    case RunNext(_, _, _, _) => StartKeepsInv(cfg, s, step);
    case OnTokens(month, used, fate) =>
      ClockKeepsInv(cfg, s, month);
      var later := s.(clock := month);
      if used > s.build.value.tokensSeen {
        AddKeepsInv(cfg, later, Apply(cfg, later, step), month, used, fate);
      }
    case Ends =>
      forall m ensures MonthOk(cfg, Apply(cfg, s, step), m) {
        assert MonthOk(cfg, s, m);
      }
    case Looks(month) => LoadKeepsInv(cfg, s, month);
    case Restarts =>
      forall m ensures MonthOk(cfg, Apply(cfg, s, step), m) {
        assert MonthOk(cfg, s, m);
      }
  }

  lemma {:induction false} RunKeepsInv(cfg: Config, clock: int, steps: seq<Step>)
    requires LegalRun(cfg, clock, steps)
    ensures Inv(cfg, Run(cfg, clock, steps))
  {
    if steps != [] {
      RunKeepsInv(cfg, clock, steps[..|steps| - 1]);
      StepKeepsInv(cfg, Run(cfg, clock, steps[..|steps| - 1]), steps[|steps| - 1]);
    }
  }

  /**
   * Every month's counter stays within the cap and one turn: across restarts, failing store calls
   * and builds that run from one month into the next.
   */
  lemma {:induction false} CapHoldsEveryMonth(cfg: Config, clock: int, steps: seq<Step>, month: int)
    requires LegalRun(cfg, clock, steps)
    ensures Used(Run(cfg, clock, steps).cap, month) <= cfg.maxTokens + cfg.turn
  {
    RunKeepsInv(cfg, clock, steps);
    assert MonthOk(cfg, Run(cfg, clock, steps), month);
  }

  // ----- The counters count what the builds reported -----

  /** The stored counters of the given months, added up */
  ghost function Sum(store: map<int, nat>, months: set<int>): nat
    requires months <= store.Keys
  {
    if !exists month :: month in months then 0
    else
      var month :| month in months;
      store[month] + Sum(store, months - {month})
  }

  ghost function Total(store: map<int, nat>): nat {
    Sum(store, store.Keys)
  }

  lemma {:induction false} SumWithout(store: map<int, nat>, months: set<int>, month: int)
    requires months <= store.Keys && month in months
    ensures Sum(store, months) == store[month] + Sum(store, months - {month})
    decreases |months|
  {
    var first :| first in months && Sum(store, months) == store[first] + Sum(store, months - {first});
    if first != month {
      SumWithout(store, months - {first}, month);
      SumWithout(store, months - {month}, first);
      assert months - {first} - {month} == months - {month} - {first};
    }
  }

  lemma {:induction false} SumElsewhere(store: map<int, nat>, months: set<int>, month: int, used: nat)
    requires months <= store.Keys && month !in months
    ensures Sum(store[month := used], months) == Sum(store, months)
    decreases |months|
  {
    if exists other :: other in months {
      var other :| other in months;
      SumWithout(store, months, other);
      SumWithout(store[month := used], months, other);
      SumElsewhere(store, months - {other}, month, used);
    }
  }

  lemma TotalUpdate(store: map<int, nat>, month: int, used: nat)
    ensures Total(store[month := used]) + (if month in store then store[month] else 0) == Total(store) + used
  {
    var others := store.Keys - {month};
    var store' := store[month := used];
    assert store'.Keys - {month} == others;
    SumWithout(store', store'.Keys, month);
    SumElsewhere(store, others, month, used);
    if month in store {
      SumWithout(store, store.Keys, month);
    } else {
      assert others == store.Keys;
    }
  }

  /** Counted in memory but not in the store */
  function Unsaved(c: Cap): int {
    if c.cached.None? then 0 else c.cached.value.usedTokens - Stored(c, c.cached.value.month)
  }

  function UnsavedUnless(c: Cap, month: int): int {
    if Hit(c, month) then 0 else Unsaved(c)
  }

  /** What one step loses: a count whose read failed, or an unsaved count that leaves memory */
  function Forgets(cfg: Config, s: State, step: Step): int {
    match step
    case RunNext(checked, checkOk, started, startOk) =>
      if s.build.Some? || !Loads(s, checked, checkOk) then 0
      else
        var first := LoadedAt(s, checked);
        var again := Used(first.cap, checked) < cfg.maxTokens && Loads(first, started, startOk);
        UnsavedUnless(s.cap, checked) + if again then UnsavedUnless(first.cap, started) else 0
    case OnTokens(month, used, fate) =>
      if s.build.None? || used <= s.build.value.tokensSeen then 0
      else if !Hit(s.cap, month) && !fate.getOk then used - s.build.value.tokensSeen
      else UnsavedUnless(s.cap, month)
    case Looks(month) => UnsavedUnless(s.cap, month)
    case Restarts => Unsaved(s.cap)
    case Ends => 0
  }

  function Forgotten(cfg: Config, clock: int, steps: seq<Step>): int {
    if steps == [] then 0
    else
      Forgotten(cfg, clock, steps[..|steps| - 1])
      + Forgets(cfg, Run(cfg, clock, steps[..|steps| - 1]), steps[|steps| - 1])
  }

  /** The last total the current build reported, and the final totals of the builds before it */
  function Reported(cfg: Config, clock: int, steps: seq<Step>): (sums: (nat, nat)) {
    if steps == [] then (0, 0)
    else
      var sums := Reported(cfg, clock, steps[..|steps| - 1]);
      match steps[|steps| - 1]
      case OnTokens(_, used, _) => (used, sums.1)
      case Ends => (0, sums.0 + sums.1)
      case Restarts => (0, sums.0 + sums.1)
      case _ => sums
  }

  lemma LoadConserves(c: Cap, month: int)
    ensures Unsaved(Loaded(c, month)) + UnsavedUnless(c, month) == Unsaved(c)
  {
  }

  lemma AddConserves(c: Cap, month: int, tokens: nat, fate: Fate)
    requires Hit(c, month) || fate.getOk
    ensures var c' := Added(c, month, tokens, fate);
            Total(c'.store) + Unsaved(c') + UnsavedUnless(c, month) == Total(c.store) + Unsaved(c) + tokens
  {
    TotalUpdate(c.store, month, Used(c, month) + tokens);
  }

  function Seen(s: State): nat {
    if s.build.Some? then s.build.value.tokensSeen else 0
  }

  lemma StepConserves(cfg: Config, s: State, step: Step)
    requires Legal(cfg, s, step)
    ensures var s' := Apply(cfg, s, step);
            var counted := if step.OnTokens? then step.used - Seen(s) else 0;
            Total(s'.cap.store) + Unsaved(s'.cap) + Forgets(cfg, s, step) == Total(s.cap.store) + Unsaved(s.cap) + counted
  {
    match step
    case RunNext(checked, _, started, _) =>
      if s.build.None? {
        LoadConserves(s.cap, checked);
        LoadConserves(Loaded(s.cap, checked), started);
      }
    case OnTokens(month, used, fate) =>
      if used > s.build.value.tokensSeen && (Hit(s.cap, month) || fate.getOk) {
        AddConserves(s.cap, month, used - s.build.value.tokensSeen, fate);
      }
    case Ends =>
    case Looks(month) => LoadConserves(s.cap, month);
    case Restarts =>
  }

  /**
   * Conservation: what the stored counters hold, what memory has not saved yet and what failing
   * store calls made the cap forget add up to exactly the final usage of every build.
   */
  lemma {:induction false} EveryTokenIsAccountedFor(cfg: Config, clock: int, steps: seq<Step>)
    requires LegalRun(cfg, clock, steps)
    ensures var s := Run(cfg, clock, steps);
            var sums := Reported(cfg, clock, steps);
            && sums.0 == Seen(s)
            && Total(s.cap.store) + Unsaved(s.cap) + Forgotten(cfg, clock, steps) == sums.0 + sums.1
  {
    if steps != [] {
      var n := |steps| - 1;
      EveryTokenIsAccountedFor(cfg, clock, steps[..n]);
      StepConserves(cfg, Run(cfg, clock, steps[..n]), steps[n]);
    }
  }

  lemma StepForgetsNoLess(cfg: Config, s: State, step: Step)
    requires Inv(cfg, s) && Legal(cfg, s, step)
    ensures Forgets(cfg, s, step) >= 0
  {
    UnsavedIsNatural(cfg, s);
    if step.RunNext? {
      LoadKeepsInv(cfg, s, step.checked);
      UnsavedIsNatural(cfg, LoadedAt(s, step.checked));
    }
  }

  lemma UnsavedIsNatural(cfg: Config, s: State)
    requires Inv(cfg, s)
    ensures Unsaved(s.cap) >= 0
  {
    if s.cap.cached.Some? {
      assert MonthOk(cfg, s, s.cap.cached.value.month);
    }
  }

  /** Neither part of what the stored counters miss can make up for the other */
  lemma {:induction false} NothingIsMissedTwice(cfg: Config, clock: int, steps: seq<Step>)
    requires LegalRun(cfg, clock, steps)
    ensures Unsaved(Run(cfg, clock, steps).cap) >= 0 && Forgotten(cfg, clock, steps) >= 0
  {
    RunKeepsInv(cfg, clock, steps);
    UnsavedIsNatural(cfg, Run(cfg, clock, steps));
    if steps != [] {
      var n := |steps| - 1;
      NothingIsMissedTwice(cfg, clock, steps[..n]);
      RunKeepsInv(cfg, clock, steps[..n]);
      StepForgetsNoLess(cfg, Run(cfg, clock, steps[..n]), steps[n]);
    }
  }

  /**
   * So the counters never exceed what was reported, and are exactly that if and only if nothing is
   * unsaved and nothing was ever forgotten.
   */
  lemma CountersAreExactWhenNothingIsForgotten(cfg: Config, clock: int, steps: seq<Step>)
    requires LegalRun(cfg, clock, steps)
    ensures var s := Run(cfg, clock, steps);
            var sums := Reported(cfg, clock, steps);
            && Total(s.cap.store) <= sums.0 + sums.1
            && (Total(s.cap.store) == sums.0 + sums.1 <==> Unsaved(s.cap) == 0 && Forgotten(cfg, clock, steps) == 0)
  {
    EveryTokenIsAccountedFor(cfg, clock, steps);
    NothingIsMissedTwice(cfg, clock, steps);
  }

  lemma OneMoreStep(cfg: Config, clock: int, steps: seq<Step>, step: Step)
    ensures Run(cfg, clock, steps + [step]) == Apply(cfg, Run(cfg, clock, steps), step)
    ensures LegalRun(cfg, clock, steps + [step]) <==> LegalRun(cfg, clock, steps) && Legal(cfg, Run(cfg, clock, steps), step)
    ensures Forgotten(cfg, clock, steps + [step]) == Forgotten(cfg, clock, steps) + Forgets(cfg, Run(cfg, clock, steps), step)
  {
    assert (steps + [step])[..|steps|] == steps;
  }

  /** A build whose one count could not be written, and a restart: the month has forgotten it. */
  lemma RestartForgetsAFailedWrite(cfg: Config, month: int, used: nat)
    requires cfg.maxTokens > 0 && 0 < used <= cfg.turn
    ensures var steps := [RunNext(month, true, month, true), OnTokens(month, used, Fate(true, false)), Restarts];
            && LegalRun(cfg, month, steps)
            && Used(Run(cfg, month, steps).cap, month) == 0 && Forgotten(cfg, month, steps) == used
            && Reported(cfg, month, steps) == (0, used)
  {
    var a, b, c := RunNext(month, true, month, true), OnTokens(month, used, Fate(true, false)), Restarts;
    OneMoreStep(cfg, month, [], a);
    OneMoreStep(cfg, month, [a], b);
    OneMoreStep(cfg, month, [a, b], c);
    assert [] + [a] == [a] && [a] + [b] == [a, b] && [a, b] + [c] == [a, b, c];
    assert [a, b, c][..2] == [a, b] && [a, b][..1] == [a] && [a][..0] == [];
    var s0 := Run(cfg, month, []);
    assert Run(cfg, month, [a]).cap == Cap(map[], Some(MonthState(month, 0))) by {
      assert LoadedAt(s0, month).cap == Cap(map[], Some(MonthState(month, 0)));
    }
    assert Run(cfg, month, [a, b]).cap == Cap(map[], Some(MonthState(month, used)));
    assert Reported(cfg, month, [a]) == (0, 0);
    assert Reported(cfg, month, [a, b]) == (used, 0);
  }

  predicate StoreWorks(steps: seq<Step>) {
    forall i :: 0 <= i < |steps| && steps[i].OnTokens? ==> steps[i].fate == Fate(true, true)
  }

  lemma {:induction false} NothingIsForgotten(cfg: Config, clock: int, steps: seq<Step>)
    requires LegalRun(cfg, clock, steps) && StoreWorks(steps)
    ensures Unsaved(Run(cfg, clock, steps).cap) == 0 && Forgotten(cfg, clock, steps) == 0
  {
    if steps != [] {
      var n := |steps| - 1;
      NothingIsForgotten(cfg, clock, steps[..n]);
      assert steps[n].OnTokens? ==> steps[n].fate == Fate(true, true);
    }
  }

  /** While the store works, the counters are exactly the final usage of every build, restarts included. */
  lemma {:induction false} CountersAreTheFinalUsage(cfg: Config, clock: int, steps: seq<Step>)
    requires LegalRun(cfg, clock, steps) && StoreWorks(steps)
    ensures var sums := Reported(cfg, clock, steps);
            Total(Run(cfg, clock, steps).cap.store) == sums.0 + sums.1
  {
    EveryTokenIsAccountedFor(cfg, clock, steps);
    NothingIsForgotten(cfg, clock, steps);
  }

  // ----- Adds that overlap within a month -----

  /** The count in memory, the writes issued so far, and what the last one to land stored */
  datatype Writes = Writes(used: nat, issued: seq<nat>, stored: Option<nat>)

  datatype WriteStep = Issue(tokens: nat) | Land(k: nat)

  /** `add` counts and writes out at once what it counted; writes land in any order */
  function ApplyWrite(w: Writes, step: WriteStep): Writes {
    match step
    case Issue(tokens) => Writes(w.used + tokens, w.issued + [w.used + tokens], w.stored)
    case Land(k) => if k < |w.issued| then w.(stored := Some(w.issued[k])) else w
  }

  function RunWrites(steps: seq<WriteStep>): Writes {
    if steps == [] then Writes(0, [], None) else ApplyWrite(RunWrites(steps[..|steps| - 1]), steps[|steps| - 1])
  }

  predicate Counts(steps: seq<WriteStep>) {
    forall i :: 0 <= i < |steps| && steps[i].Issue? ==> steps[i].tokens > 0
  }

  /** Later writes carry more, and the last of them the whole count */
  lemma {:induction false} WritesGrow(steps: seq<WriteStep>)
    requires Counts(steps)
    ensures var w := RunWrites(steps);
            && (forall i, j :: 0 <= i < j < |w.issued| ==> w.issued[i] < w.issued[j])
            && (w.issued != [] ==> w.issued[|w.issued| - 1] == w.used)
            && (w.issued == [] ==> w.used == 0)
  {
    if steps != [] {
      WritesGrow(steps[..|steps| - 1]);
    }
  }

  /** Overlapping adds leave the whole count in the store exactly when the write that landed last is the newest one. */
  lemma OverlappingAddsKeepTheCount(steps: seq<WriteStep>, k: nat)
    requires Counts(steps) && k < |RunWrites(steps).issued|
    ensures var w := RunWrites(steps + [Land(k)]);
            && w.used == RunWrites(steps).used
            && (w.stored == Some(w.used) <==> k + 1 == |w.issued|)
  {
    WritesGrow(steps);
    assert (steps + [Land(k)])[..|steps|] == steps;
  }
}
