/**
 * The deprovision engine (packages/org/src/deprovision.ts) over the tagged resources of a delivery
 * (packages/org/src/actuator.ts): fencing, ordering, fault tolerance, idempotence and tallies.
 */
module Deprovision {
  import opened Wrappers
  import opened Sorting

  datatype Mode = Suspend | Resume | Teardown

  datatype Outcome = Planned | Suspended | Resumed | Deleted | Skipped | AlreadyGone | Failed

  datatype Resource = Resource(arn: string, service: string, tags: map<string, string>)

  datatype AuditEntry = AuditEntry(mode: Mode, arn: string, service: string, outcome: Outcome, dryRun: bool)

  const SERVICE_TAG_KEY := "Service"
  const SERVICE_TAG_VALUE := "mf-delivery"

  const SUSPEND_TEARDOWN_ORDER: seq<string> :=
    ["ecs", "apprunner", "lambda", "logs", "route53", "secretsmanager", "ecr", "s3"]
  const RESUME_ORDER: seq<string> :=
    ["s3", "ecr", "secretsmanager", "route53", "logs", "lambda", "apprunner", "ecs"]

  // ----- Fence and order -----

  predicate IsFenced(r: Resource) {
    SERVICE_TAG_KEY in r.tags && r.tags[SERVICE_TAG_KEY] == SERVICE_TAG_VALUE
  }

  function Fenced(rs: seq<Resource>): seq<Resource> {
    if rs == [] then []
    else
      var rest, last := Fenced(rs[..|rs| - 1]), rs[|rs| - 1];
      if IsFenced(last) then rest + [last] else rest
  }

  function Priority(order: seq<string>, service: string): (p: nat)
    ensures p <= |order|
    ensures p < |order| <==> service in order
    ensures p < |order| ==> order[p] == service && forall i :: 0 <= i < p ==> order[i] != service
  {
    if order == [] then 0
    else if order[0] == service then 0
    else 1 + Priority(order[1..], service)
  }

  /** A collation of ARNs (`localeCompare`) that tells any two apart */
  ghost predicate Collation(collate: (string, string) -> bool) {
    && TotalOrder(collate)
    && forall a, b :: collate(a, b) && collate(b, a) ==> a == b
  }

  /** `orderer(order)`: by service priority, then by ARN */
  function Orderer(order: seq<string>, collate: (string, string) -> bool): (Resource, Resource) -> bool {
    (a: Resource, b: Resource) =>
      || Priority(order, a.service) < Priority(order, b.service)
      || (Priority(order, a.service) == Priority(order, b.service) && collate(a.arn, b.arn))
  }

  lemma OrdererIsTotal(order: seq<string>, collate: (string, string) -> bool)
    requires Collation(collate)
    ensures TotalOrder(Orderer(order, collate))
  {
    var leq := Orderer(order, collate);
    forall a, b ensures leq(a, b) || leq(b, a) {
      assert collate(a.arn, b.arn) || collate(b.arn, a.arn);
    }
    forall a, b, c | leq(a, b) && leq(b, c) ensures leq(a, c) {
      assert collate(a.arn, b.arn) && collate(b.arn, c.arn) ==> collate(a.arn, c.arn);
    }
  }

  ghost predicate DistinctArns(rs: seq<Resource>) {
    forall i, j :: 0 <= i < |rs| && 0 <= j < |rs| && rs[i].arn == rs[j].arn ==> rs[i] == rs[j]
  }

  // ----- The run -----

  /** What the actuator did to one resource: the new world, and what it reported */
  datatype Acted<W> = Acted(world: W, outcome: Outcome)

  type Actuator<!W> = (W, Resource) -> Acted<W>

  /** The audit trail of a real run, in order */
  function Run<W>(act: Actuator<W>, mode: Mode, world: W, rs: seq<Resource>): (W, seq<AuditEntry>) {
    if rs == [] then (world, [])
    else
      var r := rs[|rs| - 1];
      var before := Run(act, mode, world, rs[..|rs| - 1]);
      var acted := act(before.0, r);
      (acted.world, before.1 + [AuditEntry(mode, r.arn, r.service, acted.outcome, false)])
  }

  function Plan(mode: Mode, rs: seq<Resource>): seq<AuditEntry> {
    seq(|rs|, i requires 0 <= i < |rs| => AuditEntry(mode, rs[i].arn, rs[i].service, Planned, true))
  }

  /** Exactly one entry per resource, in order: no failure cuts the run short. */
  lemma {:induction false} EveryResourceIsAudited<W>(act: Actuator<W>, mode: Mode, world: W, rs: seq<Resource>)
    ensures var entries := Run(act, mode, world, rs).1;
            |entries| == |rs| &&
            forall i :: 0 <= i < |rs| ==>
              entries[i].arn == rs[i].arn && entries[i].service == rs[i].service &&
              entries[i].mode == mode && !entries[i].dryRun
  {
    if rs != [] {
      EveryResourceIsAudited(act, mode, world, rs[..|rs| - 1]);
    }
  }

  // ----- Tallies -----

  datatype Tally = Tally(planned: nat, suspended: nat, resumed: nat, deleted: nat, skipped: nat, alreadyGone: nat, failed: nat) {
    function Count(o: Outcome): Tally {
      match o
      case Planned => this.(planned := planned + 1)
      case Suspended => this.(suspended := suspended + 1)
      case Resumed => this.(resumed := resumed + 1)
      case Deleted => this.(deleted := deleted + 1)
      case Skipped => this.(skipped := skipped + 1)
      case AlreadyGone => this.(alreadyGone := alreadyGone + 1)
      case Failed => this.(failed := failed + 1)
    }

    function Plus(t: Tally): Tally {
      Tally(planned + t.planned, suspended + t.suspended, resumed + t.resumed, deleted + t.deleted,
            skipped + t.skipped, alreadyGone + t.alreadyGone, failed + t.failed)
    }

    function Total(): nat {
      planned + suspended + resumed + deleted + skipped + alreadyGone + failed
    }
  }

  const EMPTY_TALLY := Tally(0, 0, 0, 0, 0, 0, 0)

  /** Entries with one outcome */
  function CountOf(entries: seq<AuditEntry>, o: Outcome): nat {
    if entries == [] then 0
    else
      var rest := CountOf(entries[..|entries| - 1], o);
      if entries[|entries| - 1].outcome == o then rest + 1 else rest
  }

  function TallyOf(entries: seq<AuditEntry>): Tally {
    Tally(CountOf(entries, Planned), CountOf(entries, Suspended), CountOf(entries, Resumed), CountOf(entries, Deleted),
          CountOf(entries, Skipped), CountOf(entries, AlreadyGone), CountOf(entries, Failed))
  }

  /** Where the trail has an outcome */
  function PlacesOf(entries: seq<AuditEntry>, o: Outcome): set<nat> {
    set i: nat | i < |entries| && entries[i].outcome == o
  }

  lemma PlacesWithLast(entries: seq<AuditEntry>, o: Outcome)
    requires entries != []
    ensures var n := |entries| - 1;
            && n !in PlacesOf(entries[..n], o)
            && PlacesOf(entries, o) == if entries[n].outcome == o then PlacesOf(entries[..n], o) + {n} else PlacesOf(entries[..n], o)
  {
  }

  lemma {:induction false} CountIsOfPlaces(entries: seq<AuditEntry>, o: Outcome)
    ensures CountOf(entries, o) == |PlacesOf(entries, o)|
  {
    if entries != [] {
      CountIsOfPlaces(entries[..|entries| - 1], o);
      PlacesWithLast(entries, o);
    }
  }

  /** Each counter of a tally is the number of entries with its outcome. */
  lemma TallyCountsEach(entries: seq<AuditEntry>)
    ensures var t := TallyOf(entries);
            && t.planned == |PlacesOf(entries, Planned)| && t.suspended == |PlacesOf(entries, Suspended)|
            && t.resumed == |PlacesOf(entries, Resumed)| && t.deleted == |PlacesOf(entries, Deleted)|
            && t.skipped == |PlacesOf(entries, Skipped)| && t.alreadyGone == |PlacesOf(entries, AlreadyGone)|
            && t.failed == |PlacesOf(entries, Failed)|
  {
    forall o ensures CountOf(entries, o) == |PlacesOf(entries, o)| {
      CountIsOfPlaces(entries, o);
    }
  }

  /** `tally`: one counter incremented per entry */
  method TallyEntries(entries: seq<AuditEntry>) returns (counts: Tally)
    ensures counts == TallyOf(entries)
  {
    counts := EMPTY_TALLY;
    for i := 0 to |entries|
      invariant counts == TallyOf(entries[..i])
    {
      assert entries[..i + 1][..i] == entries[..i];
      counts := counts.Count(entries[i].outcome);
    }
    assert entries[..|entries|] == entries;
  }

  lemma {:induction false} TallyTotal(entries: seq<AuditEntry>)
    ensures TallyOf(entries).Total() == |entries|
  {
    if entries != [] {
      TallyTotal(entries[..|entries| - 1]);
    }
  }

  lemma {:induction false} CountConcat(a: seq<AuditEntry>, b: seq<AuditEntry>, o: Outcome)
    ensures CountOf(a + b, o) == CountOf(a, o) + CountOf(b, o)
  {
    if b == [] {
      assert a + b == a;
    } else {
      CountConcat(a, b[..|b| - 1], o);
      assert (a + b)[..|a + b| - 1] == a + b[..|b| - 1];
    }
  }

  lemma CountsAddUp(both: seq<AuditEntry>, a: seq<AuditEntry>, b: seq<AuditEntry>)
    requires forall o :: CountOf(both, o) == CountOf(a, o) + CountOf(b, o)
    ensures TallyOf(both) == TallyOf(a).Plus(TallyOf(b))
  {
  }

  lemma TallyConcat(a: seq<AuditEntry>, b: seq<AuditEntry>)
    ensures TallyOf(a + b) == TallyOf(a).Plus(TallyOf(b))
  {
    forall o ensures CountOf(a + b, o) == CountOf(a, o) + CountOf(b, o) {
      CountConcat(a, b, o);
    }
    CountsAddUp(a + b, a, b);
  }

  /** A zero count means no entry has that outcome. */
  lemma {:induction false} CountZero(entries: seq<AuditEntry>, o: Outcome)
    ensures CountOf(entries, o) == 0 <==> forall i :: 0 <= i < |entries| ==> entries[i].outcome != o
  {
    if entries != [] {
      var n := |entries| - 1;
      CountZero(entries[..n], o);
      if CountOf(entries, o) == 0 {
        forall i | 0 <= i < |entries| ensures entries[i].outcome != o {
          assert i < n ==> entries[..n][i] == entries[i];
        }
      } else if entries[n].outcome != o {
        var i :| 0 <= i < n && entries[..n][i].outcome == o;
        assert entries[i].outcome == o;
      }
    }
  }

  // ----- The engine -----

  datatype Result = Result(mode: Mode, dryRun: bool, discovered: nat, fenced: nat, skippedByFence: nat,
                           entries: seq<AuditEntry>, summary: Tally)

  /** A run, or the refusal of an invalid slug or of an unscoped destructive run */
  datatype Response = InvalidSlug | Unscoped | Ran(result: Result)

  predicate SlugEdge(c: char) {
    'a' <= c <= 'z' || '0' <= c <= '9'
  }

  predicate IsSlug(s: string) {
    && 2 <= |s| <= 40
    && SlugEdge(s[0]) && SlugEdge(s[|s| - 1])
    && forall i :: 0 <= i < |s| ==> SlugEdge(s[i]) || s[i] == '-'
  }

  /** Counts that add up: the summary tallies the entries, one per fenced resource, the rest skipped */
  ghost predicate ResultOk(r: Result) {
    && r.summary == TallyOf(r.entries)
    && r.summary.Total() == |r.entries| == r.fenced
    && r.discovered == r.fenced + r.skippedByFence
  }

  lemma {:induction false} FencedShape(rs: seq<Resource>)
    ensures |Fenced(rs)| <= |rs|
    ensures forall r :: r in Fenced(rs) <==> r in rs && "Service" in r.tags && r.tags["Service"] == "mf-delivery"
  {
    if rs != [] {
      FencedShape(rs[..|rs| - 1]);
      assert rs == rs[..|rs| - 1] + [rs[|rs| - 1]];
    }
  }

  /** The places at which discovery lists a resource with the delivery tag */
  function TaggedAt(rs: seq<Resource>): set<nat> {
    set i: nat | i < |rs| && "Service" in rs[i].tags && rs[i].tags["Service"] == "mf-delivery"
  }

  lemma {:induction false} FencedCount(rs: seq<Resource>)
    ensures |Fenced(rs)| == |TaggedAt(rs)|
  {
    if rs != [] {
      var n := |rs| - 1;
      FencedCount(rs[..n]);
      assert TaggedAt(rs) == if IsFenced(rs[n]) then TaggedAt(rs[..n]) + {n} else TaggedAt(rs[..n]);
    }
  }

  function OrderFor(mode: Mode): seq<string> {
    if mode.Resume? then RESUME_ORDER else SUSPEND_TEARDOWN_ORDER
  }

  /** What a run with the given service order acts on */
  function TargetsBy(order: seq<string>, collate: (string, string) -> bool, discovered: seq<Resource>): seq<Resource> {
    Sort(Orderer(order, collate), Fenced(discovered))
  }

  /** What a run acts on when the caller gives no order of its own */
  function Targets(collate: (string, string) -> bool, mode: Mode, discovered: seq<Resource>): seq<Resource> {
    TargetsBy(OrderFor(mode), collate, discovered)
  }

  /** Whatever the order, the targets are the fenced resources, each as often, sorted by it and then by ARN. */
  lemma TargetsByAreTheFencedSorted(order: seq<string>, collate: (string, string) -> bool, discovered: seq<Resource>)
    requires Collation(collate)
    ensures var ts := TargetsBy(order, collate, discovered);
            && SortedBy(Orderer(order, collate), ts)
            && multiset(ts) == multiset(Fenced(discovered)) && |ts| == |TaggedAt(discovered)|
            && (forall r :: multiset(ts)[r] == if "Service" in r.tags && r.tags["Service"] == "mf-delivery" then multiset(discovered)[r] else 0)
            && forall r :: r in ts <==> r in discovered && "Service" in r.tags && r.tags["Service"] == "mf-delivery"
  {
    OrdererIsTotal(order, collate);
    SortSorts(Orderer(order, collate), Fenced(discovered));
    FencedShape(discovered);
    FencedCount(discovered);
    FencedMultiset(discovered);
    SameMembers(TargetsBy(order, collate, discovered), Fenced(discovered));
  }

  lemma TargetCount(order: seq<string>, collate: (string, string) -> bool, discovered: seq<Resource>)
    requires Collation(collate)
    ensures |TargetsBy(order, collate, discovered)| == |Fenced(discovered)| == |TaggedAt(discovered)| <= |discovered|
  {
    TargetsByAreTheFencedSorted(order, collate, discovered);
    FencedShape(discovered);
    FencedCount(discovered);
  }

  lemma TargetsAreTheFencedSorted(collate: (string, string) -> bool, mode: Mode, discovered: seq<Resource>)
    requires Collation(collate)
    ensures var ts := Targets(collate, mode, discovered);
            && SortedBy(Orderer(OrderFor(mode), collate), ts)
            && multiset(ts) == multiset(Fenced(discovered)) && |ts| == |TaggedAt(discovered)|
            && (forall r :: multiset(ts)[r] == if "Service" in r.tags && r.tags["Service"] == "mf-delivery" then multiset(discovered)[r] else 0)
            && forall r :: r in ts <==> r in discovered && "Service" in r.tags && r.tags["Service"] == "mf-delivery"
  {
    TargetsByAreTheFencedSorted(OrderFor(mode), collate, discovered);
  }

  /** The trail of a real run names exactly the ARNs of the discovered resources with the delivery tag. */
  lemma TrailIsOfTheTagged<W>(act: Actuator<W>, collate: (string, string) -> bool, mode: Mode, world: W, discovered: seq<Resource>, arn: string)
    requires Collation(collate)
    ensures var entries := Run(act, mode, world, Targets(collate, mode, discovered)).1;
            (exists i :: 0 <= i < |entries| && entries[i].arn == arn) <==>
            exists r :: r in discovered && r.arn == arn && "Service" in r.tags && r.tags["Service"] == "mf-delivery"
  {
    var ts := Targets(collate, mode, discovered);
    var entries := Run(act, mode, world, ts).1;
    TargetsAreTheFencedSorted(collate, mode, discovered);
    EveryResourceIsAudited(act, mode, world, ts);
    if r :| r in discovered && r.arn == arn && "Service" in r.tags && r.tags["Service"] == "mf-delivery" {
      assert r in ts;
      var i :| 0 <= i < |ts| && ts[i] == r;
      assert entries[i].arn == arn;
    }
    if i :| 0 <= i < |entries| && entries[i].arn == arn {
      assert ts[i] in ts && ts[i].arn == arn;
    }
  }

  /** An earlier target's service comes no later in the mode's order; within one service ARNs are collated. */
  lemma TargetsComeInServiceOrder(collate: (string, string) -> bool, mode: Mode, discovered: seq<Resource>, i: nat, j: nat)
    requires Collation(collate) && i < j < |Targets(collate, mode, discovered)|
    ensures var a, b := Targets(collate, mode, discovered)[i], Targets(collate, mode, discovered)[j];
            var order := if mode.Resume? then ["s3", "ecr", "secretsmanager", "route53", "logs", "lambda", "apprunner", "ecs"]
                         else ["ecs", "apprunner", "lambda", "logs", "route53", "secretsmanager", "ecr", "s3"];
            && (b.service in order ==> a.service in order && Priority(order, a.service) <= Priority(order, b.service))
            && (a.service == b.service ==> collate(a.arn, b.arn))
  {
    TargetsAreTheFencedSorted(collate, mode, discovered);
    var a, b := Targets(collate, mode, discovered)[i], Targets(collate, mode, discovered)[j];
    OrderedPair(OrderFor(mode), collate, a, b);
  }

  lemma OrderedPair(order: seq<string>, collate: (string, string) -> bool, a: Resource, b: Resource)
    requires Orderer(order, collate)(a, b)
    ensures b.service in order ==> a.service in order && Priority(order, a.service) <= Priority(order, b.service)
    ensures a.service == b.service ==> collate(a.arn, b.arn)
  {
    var p, q := Priority(order, a.service), Priority(order, b.service);
    assert p <= q;
  }

  /** The targets, and so the audit trail, do not depend on the order discovery listed the resources in. */
  lemma DiscoveryOrderIsIrrelevant(collate: (string, string) -> bool, mode: Mode, a: seq<Resource>, b: seq<Resource>)
    requires Collation(collate) && DistinctArns(a) && multiset(a) == multiset(b)
    ensures Targets(collate, mode, a) == Targets(collate, mode, b)
  {
    FencedMultisets(a, b);
    TargetsAreTheFencedSorted(collate, mode, a);
    TargetsAreTheFencedSorted(collate, mode, b);
    OrdererIsTotal(OrderFor(mode), collate);
    TargetsDoNotTie(collate, mode, a);
    SortedPermutationsAgree(Orderer(OrderFor(mode), collate), Targets(collate, mode, a), Targets(collate, mode, b));
  }

  lemma TargetsDoNotTie(collate: (string, string) -> bool, mode: Mode, a: seq<Resource>)
    requires Collation(collate) && DistinctArns(a)
    ensures Antisymmetric(Orderer(OrderFor(mode), collate), Targets(collate, mode, a))
  {
    TargetsAreTheFencedSorted(collate, mode, a);
    var ts := Targets(collate, mode, a);
    var leq := Orderer(OrderFor(mode), collate);
    forall i, j | 0 <= i < |ts| && 0 <= j < |ts| && leq(ts[i], ts[j]) && leq(ts[j], ts[i])
      ensures ts[i] == ts[j]
    {
      assert ts[i] in a && ts[j] in a;
    }
  }

  lemma FencedMultisets(a: seq<Resource>, b: seq<Resource>)
    requires multiset(a) == multiset(b)
    ensures multiset(Fenced(a)) == multiset(Fenced(b))
  {
    FencedMultiset(a);
    FencedMultiset(b);
  }

  lemma {:induction false} FencedMultiset(rs: seq<Resource>)
    ensures forall r :: multiset(Fenced(rs))[r] ==
                        if "Service" in r.tags && r.tags["Service"] == "mf-delivery" then multiset(rs)[r] else 0
  {
    if rs != [] {
      FencedMultiset(rs[..|rs| - 1]);
      assert rs == rs[..|rs| - 1] + [rs[|rs| - 1]];
    }
  }

  /** The loop over the ordered resources */
  method RunAll<W>(act: Actuator<W>, mode: Mode, world: W, dryRun: bool, ordered: seq<Resource>)
    returns (world': W, entries: seq<AuditEntry>)
    ensures (world', entries) == if dryRun then (world, Plan(mode, ordered)) else Run(act, mode, world, ordered)
  {
    world' := world;
    entries := [];
    for i := 0 to |ordered|
      invariant dryRun ==> world' == world && entries == Plan(mode, ordered[..i])
      invariant !dryRun ==> (world', entries) == Run(act, mode, world, ordered[..i])
    {
      var r := ordered[i];
      assert ordered[..i + 1][..i] == ordered[..i];
      if dryRun {
        entries := entries + [AuditEntry(mode, r.arn, r.service, Planned, true)];
      } else {
        var acted := act(world', r);
        world' := acted.world;
        entries := entries + [AuditEntry(mode, r.arn, r.service, acted.outcome, false)];
      }
    }
    assert ordered[..|ordered|] == ordered;
  }

  /** Letters, digits and hyphens, no hyphen at either end, and 2 to 40 of them */
  lemma SlugIff(s: string)
    ensures IsSlug(s) <==>
            && 2 <= |s| <= 40 && s[0] != '-' && s[|s| - 1] != '-'
            && forall i :: 0 <= i < |s| ==> 'a' <= s[i] <= 'z' || '0' <= s[i] <= '9' || s[i] == '-'
  {
  }

  lemma AddsUpIff(mode: Mode, dryRun: bool, discovered: nat, fenced: nat, audit: seq<AuditEntry>, trail: seq<AuditEntry>, summary: Tally)
    requires |trail| == fenced <= discovered && summary == TallyOf(audit + trail)
    ensures ResultOk(Result(mode, dryRun, discovered, fenced, discovered - fenced, audit + trail, summary)) <==> audit == []
  {
    TallyTotal(audit + trail);
  }

  /** Behind the first `seen` entries there is one per target, in order; those of a dry run are planned */
  predicate NamesTargets(mode: Mode, dryRun: bool, ts: seq<Resource>, seen: nat, entries: seq<AuditEntry>) {
    && |entries| == seen + |ts|
    && forall i :: 0 <= i < |ts| ==>
         var entry := entries[seen + i];
         && entry.arn == ts[i].arn && entry.service == ts[i].service && entry.mode == mode && entry.dryRun == dryRun
         && (dryRun ==> entry.outcome == Planned)
  }

  lemma TrailNamesTheTargets<W>(act: Actuator<W>, mode: Mode, world: W, dryRun: bool, ts: seq<Resource>, audit: seq<AuditEntry>, trail: seq<AuditEntry>)
    requires trail == if dryRun then Plan(mode, ts) else Run(act, mode, world, ts).1
    ensures |trail| == |ts| && NamesTargets(mode, dryRun, ts, |audit|, audit + trail)
  {
    EveryResourceIsAudited(act, mode, world, ts);
    forall i | 0 <= i < |ts| ensures (audit + trail)[|audit| + i] == trail[i] {
    }
  }

  /**
   * `deprovision` on what discovery returned. Dry runs plan and touch nothing; a real suspend or
   * teardown needs a customer; the trail is the run over the fenced resources in order. The caller
   * may give a service order, and a log that already holds entries: those are tallied too, so the
   * counts add up if and only if the log was empty.
   */
  method Deprovision<W>(act: Actuator<W>, collate: (string, string) -> bool, world: W, discovered: seq<Resource>,
                        customerSlug: Option<string>, mode: Mode, dryRun: bool,
                        orderGiven: Option<seq<string>>, audit: seq<AuditEntry>)
    returns (response: Response, world': W)
    requires Collation(collate)
    ensures response.InvalidSlug? <==>
              customerSlug.Some? && var s := customerSlug.value;
              !(2 <= |s| <= 40 && s[0] != '-' && s[|s| - 1] != '-' && forall i :: 0 <= i < |s| ==> 'a' <= s[i] <= 'z' || '0' <= s[i] <= '9' || s[i] == '-')
    ensures response.Unscoped? <==> customerSlug.None? && !dryRun && !mode.Resume?
    ensures !response.Ran? || dryRun ==> world' == world
    ensures response.Ran? ==>
              var ts := TargetsBy(orderGiven.GetOr(OrderFor(mode)), collate, discovered);
              var result := response.result;
              && result.mode == mode && result.dryRun == dryRun
              && result.entries == audit + (if dryRun then Plan(mode, ts) else Run(act, mode, world, ts).1)
              && result.summary == TallyOf(result.entries)
              && result.fenced == |ts| == |TaggedAt(discovered)|
              && result.discovered == |discovered| && result.skippedByFence == |discovered| - |TaggedAt(discovered)|
              && (ResultOk(result) <==> audit == [])
              && NamesTargets(mode, dryRun, ts, |audit|, result.entries)
    ensures response.Ran? && !dryRun ==>
              world' == Run(act, mode, world, TargetsBy(orderGiven.GetOr(OrderFor(mode)), collate, discovered)).0
  {
    if customerSlug.Some? {
      SlugIff(customerSlug.value);
    }
    if customerSlug.Some? && !IsSlug(customerSlug.value) {
      return InvalidSlug, world;
    }
    if !dryRun && !mode.Resume? && customerSlug.None? {
      return Unscoped, world;
    }
    var fenced := Fenced(discovered);
    var order := orderGiven.GetOr(OrderFor(mode));
    var ordered := TargetsBy(order, collate, discovered);
    TargetCount(order, collate, discovered);
    var trail: seq<AuditEntry>;
    world', trail := RunAll(act, mode, world, dryRun, ordered);
    TrailNamesTheTargets(act, mode, world, dryRun, ordered, audit, trail);
    var entries := audit + trail;
    var summary := TallyEntries(entries);
    AddsUpIff(mode, dryRun, |discovered|, |fenced|, audit, trail, summary);
    response := Ran(Result(mode, dryRun, |discovered|, |fenced|, |discovered| - |fenced|, entries, summary));
  }

  // ----- Several fences -----

  function EntriesOf(results: seq<Result>): seq<AuditEntry> {
    if results == [] then []
    else EntriesOf(results[..|results| - 1]) + results[|results| - 1].entries
  }

  function DiscoveredBy(results: seq<Result>): nat {
    if results == [] then 0 else DiscoveredBy(results[..|results| - 1]) + results[|results| - 1].discovered
  }

  ghost predicate NoneFailed(r: Result) {
    CountOf(r.entries, Failed) == 0
  }

  lemma {:induction false} NoFailureAnywhere(results: seq<Result>)
    ensures CountOf(EntriesOf(results), Failed) == 0 <==> forall i :: 0 <= i < |results| ==> NoneFailed(results[i])
  {
    if results != [] {
      var n := |results| - 1;
      NoFailureAnywhere(results[..n]);
      CountConcat(EntriesOf(results[..n]), results[n].entries, Failed);
      if forall i :: 0 <= i < n ==> NoneFailed(results[..n][i]) {
        assert forall i :: 0 <= i < n ==> NoneFailed(results[i]);
      } else {
        var i :| 0 <= i < n && !NoneFailed(results[..n][i]);
        assert !NoneFailed(results[i]);
      }
    }
  }

  /** `aggregateDeprovision`: folding several runs keeps every count what one run's would be. */
  method Aggregate(results: seq<Result>) returns (total: Result)
    requires results != [] && forall i :: 0 <= i < |results| ==> ResultOk(results[i])
    ensures ResultOk(total) && total.entries == EntriesOf(results) && total.discovered == DiscoveredBy(results)
    ensures total.mode == results[0].mode && total.dryRun == results[0].dryRun
    ensures total.summary.failed == 0 <==> forall i :: 0 <= i < |results| ==> results[i].summary.failed == 0
  {
    var summary := EMPTY_TALLY;
    var entries: seq<AuditEntry> := [];
    var discovered: nat, fenced: nat, skipped: nat := 0, 0, 0;
    for i := 0 to |results|
      invariant summary == TallyOf(entries) && entries == EntriesOf(results[..i])
      invariant fenced == |entries| && discovered == fenced + skipped && discovered == DiscoveredBy(results[..i])
    {
      assert results[..i + 1][..i] == results[..i];
      assert ResultOk(results[i]);
      TallyConcat(entries, results[i].entries);
      summary := summary.Plus(results[i].summary);
      entries := entries + results[i].entries;
      discovered := discovered + results[i].discovered;
      fenced := fenced + results[i].fenced;
      skipped := skipped + results[i].skippedByFence;
    }
    assert results[..|results|] == results;
    TallyTotal(entries);
    NoFailureAnywhere(results);
    forall i | 0 <= i < |results| ensures NoneFailed(results[i]) <==> results[i].summary.failed == 0 {
      assert ResultOk(results[i]);
    }
    total := Result(results[0].mode, results[0].dryRun, discovered, fenced, skipped, entries, summary);
  }
}
