/**
 * The two actuators of packages/org/src/actuator.ts under the deprovision engine: the in-memory
 * world of tagged resources, and the production dispatch to per-service handlers.
 */
module Actuators {
  import opened Wrappers
  import opened Deprovision

  // ----- The in-memory world -----

  datatype ResourceState = Live | Paused | Gone

  type World = map<string, ResourceState>

  /** A handler that throws, before or after it changed the resource */
  datatype Fault = FailsBefore | FailsAfter

  function StateOf(world: World, arn: string): Option<ResourceState> {
    if arn in world then Some(world[arn]) else None
  }

  function GoalOf(mode: Mode): ResourceState {
    match mode
    case Suspend => Paused
    case Resume => Live
    case Teardown => Gone
  }

  function DoneAs(mode: Mode): Outcome {
    match mode
    case Suspend => Suspended
    case Resume => Resumed
    case Teardown => Deleted
  }

  /** Where one action leaves a resource */
  function NextState(mode: Mode, faults: map<string, Fault>, arn: string, state: Option<ResourceState>): Option<ResourceState> {
    if state.None? || state == Some(Gone) || (arn in faults && faults[arn].FailsBefore?) then state
    else Some(GoalOf(mode))
  }

  function Reported(mode: Mode, faults: map<string, Fault>, arn: string, state: Option<ResourceState>): Outcome {
    if arn in faults then Failed
    else if state.None? || state == Some(Gone) then AlreadyGone
    else DoneAs(mode)
  }

  function FakeActuator(mode: Mode, faults: map<string, Fault>): Actuator<World> {
    (world: World, r: Resource) =>
      var state := StateOf(world, r.arn);
      var next := NextState(mode, faults, r.arn, state);
      Acted(if next.Some? then world[r.arn := next.value] else world, Reported(mode, faults, r.arn, state))
  }

  ghost predicate NoRepeats(rs: seq<Resource>) {
    forall i, j :: 0 <= i < j < |rs| ==> rs[i].arn != rs[j].arn
  }

  function Arns(rs: seq<Resource>): set<string> {
    set r | r in rs :: r.arn
  }

  lemma ActOnOne(mode: Mode, faults: map<string, Fault>, world: World, r: Resource, arn: string)
    ensures StateOf(FakeActuator(mode, faults)(world, r).world, arn) ==
            if arn == r.arn then NextState(mode, faults, arn, StateOf(world, arn)) else StateOf(world, arn)
  {
  }

  lemma LastIsNew(rs: seq<Resource>)
    requires rs != [] && NoRepeats(rs)
    ensures NoRepeats(rs[..|rs| - 1]) && rs[|rs| - 1].arn !in Arns(rs[..|rs| - 1])
    ensures Arns(rs) == Arns(rs[..|rs| - 1]) + {rs[|rs| - 1].arn}
  {
    assert rs == rs[..|rs| - 1] + [rs[|rs| - 1]];
  }

  lemma {:induction false} RunStates(mode: Mode, faults: map<string, Fault>, world: World, rs: seq<Resource>, arn: string)
    requires NoRepeats(rs)
    ensures StateOf(Run(FakeActuator(mode, faults), mode, world, rs).0, arn) ==
            if arn in Arns(rs) then NextState(mode, faults, arn, StateOf(world, arn)) else StateOf(world, arn)
  {
    if rs != [] {
      var n := |rs| - 1;
      LastIsNew(rs);
      RunStates(mode, faults, world, rs[..n], arn);
      ActOnOne(mode, faults, Run(FakeActuator(mode, faults), mode, world, rs[..n]).0, rs[n], arn);
    }
  }

  lemma {:induction false} RunReports(mode: Mode, faults: map<string, Fault>, world: World, rs: seq<Resource>)
    requires NoRepeats(rs)
    ensures var entries := Run(FakeActuator(mode, faults), mode, world, rs).1;
            |entries| == |rs| && forall i :: 0 <= i < |rs| ==>
              entries[i].outcome == Reported(mode, faults, rs[i].arn, StateOf(world, rs[i].arn))
  {
    if rs != [] {
      var n := |rs| - 1;
      LastIsNew(rs);
      RunReports(mode, faults, world, rs[..n]);
      RunStates(mode, faults, world, rs[..n], rs[n].arn);
    }
  }

  /**
   * A run acts on each resource as if it were alone: everything else keeps its state, a failing
   * resource affects no other, and each report tells what was there before the run.
   */
  lemma RunIsPointwise(mode: Mode, faults: map<string, Fault>, world: World, rs: seq<Resource>)
    requires NoRepeats(rs)
    ensures var ran := Run(FakeActuator(mode, faults), mode, world, rs);
            && |ran.1| == |rs|
            && (forall i :: 0 <= i < |rs| ==>
                  ran.1[i].outcome == Reported(mode, faults, rs[i].arn, StateOf(world, rs[i].arn)))
            && (forall arn :: StateOf(ran.0, arn) ==
                  if arn in Arns(rs) then NextState(mode, faults, arn, StateOf(world, arn)) else StateOf(world, arn))
  {
    RunReports(mode, faults, world, rs);
    forall arn {
      RunStates(mode, faults, world, rs, arn);
    }
  }

  /**
   * What one resource of a run comes to, whatever the others do: a failing one is reported failed and
   * keeps its state or, when it failed late, reaches the goal; one that is not there or gone is
   * reported already gone and stays so; any other reaches the goal.
   */
  lemma OneResource(mode: Mode, faults: map<string, Fault>, world: World, rs: seq<Resource>, i: nat)
    requires NoRepeats(rs) && i < |rs|
    ensures var ran := Run(FakeActuator(mode, faults), mode, world, rs);
            var arn := rs[i].arn;
            && |ran.1| == |rs|
            && var (goal, done) := match mode case Suspend => (Paused, Suspended) case Resume => (Live, Resumed) case Teardown => (Gone, Deleted);
               if arn !in world || world[arn] == Gone then
                 ran.1[i].outcome == (if arn in faults then Failed else AlreadyGone) && StateOf(ran.0, arn) == StateOf(world, arn)
               else if arn in faults then
                 ran.1[i].outcome == Failed && StateOf(ran.0, arn) == Some(if faults[arn] == FailsBefore then world[arn] else goal)
               else ran.1[i].outcome == done && StateOf(ran.0, arn) == Some(goal)
  {
    assert rs[i] in rs;
    RunReports(mode, faults, world, rs);
    RunStates(mode, faults, world, rs, rs[i].arn);
  }

  lemma TwiceInSeq(rs: seq<Resource>, i: nat, j: nat)
    requires i < j < |rs| && rs[i] == rs[j]
    ensures multiset(rs)[rs[i]] >= 2
  {
    assert rs == rs[..i] + [rs[i]] + rs[i + 1..j] + [rs[j]] + rs[j + 1..];
  }

  lemma {:induction false} OnceWithoutRepeats(rs: seq<Resource>, r: Resource)
    requires NoRepeats(rs)
    ensures multiset(rs)[r] <= 1
  {
    if rs != [] {
      var n := |rs| - 1;
      OnceWithoutRepeats(rs[..n], r);
      assert rs == rs[..n] + [rs[n]];
      assert r == rs[n] ==> r !in rs[..n];
    }
  }

  /** Fencing and sorting keep the ARNs distinct. */
  lemma TargetsHaveNoRepeats(collate: (string, string) -> bool, mode: Mode, discovered: seq<Resource>)
    requires Collation(collate) && NoRepeats(discovered)
    ensures NoRepeats(Targets(collate, mode, discovered))
  {
    var ts := Targets(collate, mode, discovered);
    TargetsAreTheFencedSorted(collate, mode, discovered);
    FencedMultiset(discovered);
    forall i, j | 0 <= i < j < |ts| ensures ts[i].arn != ts[j].arn {
      assert ts[i] in discovered && ts[j] in discovered;
      OnceWithoutRepeats(discovered, ts[i]);
      if ts[i] == ts[j] {
        TwiceInSeq(ts, i, j);
      }
    }
  }

  /** The ARNs of the discovered resources with the delivery tag */
  function FencedArns(discovered: seq<Resource>): set<string> {
    set r | r in discovered && "Service" in r.tags && r.tags["Service"] == "mf-delivery" :: r.arn
  }

  lemma TargetArns(collate: (string, string) -> bool, mode: Mode, discovered: seq<Resource>)
    requires Collation(collate)
    ensures Arns(Targets(collate, mode, discovered)) == FencedArns(discovered)
  {
    TargetsAreTheFencedSorted(collate, mode, discovered);
  }

  function RunTargets(collate: (string, string) -> bool, mode: Mode, faults: map<string, Fault>, world: World,
                      discovered: seq<Resource>): (World, seq<AuditEntry>)
  {
    Run(FakeActuator(mode, faults), mode, world, Targets(collate, mode, discovered))
  }

  /**
   * Whatever fails, a resource that no discovered one with the delivery tag names keeps its state,
   * and a named one that does not fail reaches the goal.
   */
  lemma FenceAndFaultIsolation(collate: (string, string) -> bool, mode: Mode, faults: map<string, Fault>, world: World,
                               discovered: seq<Resource>, arn: string)
    requires Collation(collate) && NoRepeats(discovered)
    ensures var after := StateOf(RunTargets(collate, mode, faults, world, discovered).0, arn);
            && ((forall r :: r in discovered && r.arn == arn ==> !("Service" in r.tags && r.tags["Service"] == "mf-delivery")) ==>
                  after == StateOf(world, arn))
            && ((exists r :: r in discovered && r.arn == arn && "Service" in r.tags && r.tags["Service"] == "mf-delivery")
                && arn !in faults && arn in world ==>
                  after == Some(if world[arn].Gone? then Gone else match mode case Suspend => Paused case Resume => Live case Teardown => Gone))
  {
    TargetsHaveNoRepeats(collate, mode, discovered);
    TargetArns(collate, mode, discovered);
    RunIsPointwise(mode, faults, world, Targets(collate, mode, discovered));
  }

  /** Tearing down again changes nothing and finds every resource already gone. */
  lemma TeardownTwice(collate: (string, string) -> bool, world: World, discovered: seq<Resource>)
    requires Collation(collate) && NoRepeats(discovered)
    ensures var once := RunTargets(collate, Teardown, map[], world, discovered);
            var twice := RunTargets(collate, Teardown, map[], once.0, discovered);
            && twice.0 == once.0
            && forall i :: 0 <= i < |twice.1| ==> twice.1[i].outcome == AlreadyGone
  {
    var ts := Targets(collate, Teardown, discovered);
    TargetsHaveNoRepeats(collate, Teardown, discovered);
    RunIsPointwise(Teardown, map[], world, ts);
    var once := RunTargets(collate, Teardown, map[], world, discovered).0;
    RunIsPointwise(Teardown, map[], once, ts);
    var twice := RunTargets(collate, Teardown, map[], once, discovered).0;
    forall i | 0 <= i < |ts| ensures ts[i].arn in Arns(ts) {
      assert ts[i] in ts;
    }
    SameStates(once, twice);
  }

  /** Resume undoes suspend: a world whose fenced resources were all active is restored. */
  lemma SuspendThenResume(collate: (string, string) -> bool, world: World, discovered: seq<Resource>)
    requires Collation(collate) && NoRepeats(discovered)
    requires forall arn :: arn in FencedArns(discovered) ==> StateOf(world, arn) == Some(Live)
    ensures var suspended := RunTargets(collate, Suspend, map[], world, discovered).0;
            && (forall arn :: arn in FencedArns(discovered) ==> StateOf(suspended, arn) == Some(Paused))
            && RunTargets(collate, Resume, map[], suspended, discovered).0 == world
  {
    TargetsHaveNoRepeats(collate, Suspend, discovered);
    TargetsHaveNoRepeats(collate, Resume, discovered);
    TargetArns(collate, Suspend, discovered);
    TargetArns(collate, Resume, discovered);
    RunIsPointwise(Suspend, map[], world, Targets(collate, Suspend, discovered));
    var suspended := RunTargets(collate, Suspend, map[], world, discovered).0;
    RunIsPointwise(Resume, map[], suspended, Targets(collate, Resume, discovered));
    SameStates(RunTargets(collate, Resume, map[], suspended, discovered).0, world);
  }

  lemma SameStates(a: World, b: World)
    requires forall arn :: StateOf(a, arn) == StateOf(b, arn)
    ensures a == b
  {
    forall arn ensures arn in a <==> arn in b {
      assert StateOf(a, arn) == StateOf(b, arn);
    }
    forall arn | arn in a ensures a[arn] == b[arn] {
      assert StateOf(a, arn) == StateOf(b, arn);
    }
  }

  class FakeWorld {
    var states: World

    constructor (seed: World)
      ensures states == seed
    {
      states := seed;
    }

    /** `suspend`, `resume` and `teardown` of one resource */
    method Act(mode: Mode, r: Resource) returns (outcome: Outcome)
      modifies this
      ensures Acted(states, outcome) == FakeActuator(mode, map[])(old(states), r)
    {
      if r.arn !in states || states[r.arn] == Gone {
        assert r.arn in states ==> states[r.arn := Gone] == states;
        return AlreadyGone;
      }
      match mode {
        case Suspend =>
          if states[r.arn] == Paused {
            assert states[r.arn := Paused] == states;
            return Suspended;
          }
          states := states[r.arn := Paused];
          outcome := Suspended;
        case Resume =>
          if states[r.arn] == Live {
            assert states[r.arn := Live] == states;
            return Resumed;
          }
          states := states[r.arn := Live];
          outcome := Resumed;
        case Teardown =>
          states := states[r.arn := Gone];
          outcome := Deleted;
      }
    }
  }

  // ----- The production dispatch -----

  /** What a service handler did */
  datatype Handled = Returned(outcome: Outcome) | ThrewAlreadyGone | Threw

  datatype AwsActuator = AwsActuator(registry: map<(string, Mode), Resource -> Handled>, cascadeManaged: set<string>) {
    predicate Handles(mode: Mode, service: string) {
      (service, mode) in registry
    }

    /** `dispatch`, with the engine's `runAction` turning a throw into `failed` */
    function Dispatch(mode: Mode, r: Resource): Outcome {
      if Handles(mode, r.service) then
        match registry[(r.service, mode)](r)
        case Returned(outcome) => outcome
        case ThrewAlreadyGone => AlreadyGone
        case Threw => Failed
      else if r.service in cascadeManaged then Skipped
      else if mode.Teardown? then Failed
      else Skipped
    }

    function Act(mode: Mode): Actuator<()> {
      (w: (), r: Resource) => Acted(w, Dispatch(mode, r))
    }

    /** A teardown handler that returns says the resource is deleted or was already gone */
    ghost predicate HonestTeardown() {
      forall service, r :: (service, Teardown) in registry && registry[(service, Teardown)](r).Returned? ==>
        registry[(service, Teardown)](r).outcome in {Deleted, AlreadyGone}
    }
  }

  lemma {:induction false} DispatchedOutcomes(aws: AwsActuator, mode: Mode, rs: seq<Resource>)
    ensures var entries := Run(aws.Act(mode), mode, (), rs).1;
            |entries| == |rs| && forall i :: 0 <= i < |rs| ==> entries[i].outcome == aws.Dispatch(mode, rs[i])
  {
    if rs != [] {
      DispatchedOutcomes(aws, mode, rs[..|rs| - 1]);
    }
  }

  /** No failure: the handler did not throw, or there is none and the mode or the owner takes care of it */
  predicate GoesWell(aws: AwsActuator, mode: Mode, r: Resource) {
    if (r.service, mode) in aws.registry then aws.registry[(r.service, mode)](r) !in {Threw, Returned(Failed)}
    else mode != Teardown || r.service in aws.cascadeManaged
  }

  lemma FailsIff(aws: AwsActuator, mode: Mode, r: Resource)
    ensures aws.Dispatch(mode, r) == Failed <==> !GoesWell(aws, mode, r)
  {
  }

  /**
   * A run reports no failure if and only if no handler of a resource with the delivery tag threw, but
   * for saying it was already gone, and, in a teardown, every such resource has a handler or is in a
   * service its owner takes down with it.
   */
  lemma CleanRunIff(aws: AwsActuator, collate: (string, string) -> bool, mode: Mode, discovered: seq<Resource>)
    requires Collation(collate)
    ensures TallyOf(Run(aws.Act(mode), mode, (), Targets(collate, mode, discovered)).1).failed == 0 <==>
              forall r :: r in discovered && "Service" in r.tags && r.tags["Service"] == "mf-delivery" ==>
                if (r.service, mode) in aws.registry then aws.registry[(r.service, mode)](r) !in {Threw, Returned(Failed)}
                else mode != Teardown || r.service in aws.cascadeManaged
  {
    var ts := Targets(collate, mode, discovered);
    TargetsAreTheFencedSorted(collate, mode, discovered);
    NoneFailsIff(aws, mode, ts);
    forall r ensures r in ts <==> r in discovered && "Service" in r.tags && r.tags["Service"] == "mf-delivery" {
    }
  }

  lemma NoneFailsIff(aws: AwsActuator, mode: Mode, ts: seq<Resource>)
    ensures TallyOf(Run(aws.Act(mode), mode, (), ts).1).failed == 0 <==> forall r :: r in ts ==> GoesWell(aws, mode, r)
  {
    var entries := Run(aws.Act(mode), mode, (), ts).1;
    DispatchedOutcomes(aws, mode, ts);
    CountZero(entries, Failed);
    forall i | 0 <= i < |ts| ensures entries[i].outcome == Failed <==> !GoesWell(aws, mode, ts[i]) {
      FailsIff(aws, mode, ts[i]);
    }
    if TallyOf(entries).failed == 0 {
      forall r | r in ts ensures GoesWell(aws, mode, r) {
        var i :| 0 <= i < |ts| && ts[i] == r;
        assert entries[i].outcome != Failed;
      }
    } else {
      var i :| 0 <= i < |entries| && entries[i].outcome == Failed;
      assert ts[i] in ts && !GoesWell(aws, mode, ts[i]);
    }
  }

  /** Some entry says the resource is deleted or was gone, or skips it because its owner takes it down */
  ghost predicate Accounts(aws: AwsActuator, entries: seq<AuditEntry>, r: Resource) {
    exists i :: 0 <= i < |entries| && entries[i].arn == r.arn && entries[i].service == r.service
                && (entries[i].outcome in {Deleted, AlreadyGone} || (entries[i].outcome == Skipped && r.service in aws.cascadeManaged))
  }

  lemma WellHandled(aws: AwsActuator, r: Resource)
    requires aws.HonestTeardown() && GoesWell(aws, Teardown, r)
    ensures aws.Dispatch(Teardown, r) in {Deleted, AlreadyGone} || (aws.Dispatch(Teardown, r) == Skipped && r.service in aws.cascadeManaged)
  {
  }

  lemma EntryOf(aws: AwsActuator, ts: seq<Resource>, r: Resource)
    requires r in ts
    ensures var entries := Run(aws.Act(Teardown), Teardown, (), ts).1;
            exists i :: 0 <= i < |entries| && entries[i].arn == r.arn && entries[i].service == r.service
                        && entries[i].outcome == aws.Dispatch(Teardown, r)
  {
    DispatchedOutcomes(aws, Teardown, ts);
    EveryResourceIsAudited(aws.Act(Teardown), Teardown, (), ts);
    var i :| 0 <= i < |ts| && ts[i] == r;
    assert Run(aws.Act(Teardown), Teardown, (), ts).1[i].arn == r.arn;
  }

  lemma WellHandledIsAccounted(aws: AwsActuator, entries: seq<AuditEntry>, r: Resource)
    requires aws.HonestTeardown() && GoesWell(aws, Teardown, r)
    requires exists i :: 0 <= i < |entries| && entries[i].arn == r.arn && entries[i].service == r.service
                         && entries[i].outcome == aws.Dispatch(Teardown, r)
    ensures Accounts(aws, entries, r)
  {
    WellHandled(aws, r);
  }

  /** After a real teardown without failures every resource with the delivery tag is accounted for. */
  lemma CleanTeardownAccountsForEverything(aws: AwsActuator, collate: (string, string) -> bool, discovered: seq<Resource>, r: Resource)
    requires Collation(collate) && aws.HonestTeardown()
    requires TallyOf(Run(aws.Act(Teardown), Teardown, (), Targets(collate, Teardown, discovered)).1).failed == 0
    requires r in discovered && "Service" in r.tags && r.tags["Service"] == "mf-delivery"
    ensures Accounts(aws, Run(aws.Act(Teardown), Teardown, (), Targets(collate, Teardown, discovered)).1, r)
  {
    CleanRunIff(aws, collate, Teardown, discovered);
    TargetsAreTheFencedSorted(collate, Teardown, discovered);
    EntryOf(aws, Targets(collate, Teardown, discovered), r);
    WellHandledIsAccounted(aws, Run(aws.Act(Teardown), Teardown, (), Targets(collate, Teardown, discovered)).1, r);
  }
}
