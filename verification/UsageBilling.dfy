/** Exactly-once usage billing (apps/api/src/services/paymentService.ts `billInstallation`). */
module UsageBilling {
  import opened Wrappers
  import opened UsageReports

  // Any number of runners bill one installation's month, each read, reservation, provider call,
  // confirm and release a step of its own, and any of them may crash anywhere. The provider keeps
  // the meter events it accepted and drops a repeated identifier.

  const IN_FLIGHT_MS: int := 5 * 60_000
  const MAX_IDENTIFIER_LENGTH: nat := 100

  // ----- Identifiers -----

  function Digit(n: nat): char
    requires n < 10
  {
    "0123456789"[n]
  }

  function Decimal(n: nat): (s: string)
    ensures s != [] && '/' !in s
  {
    if n < 10 then [Digit(n)] else Decimal(n / 10) + [Digit(n % 10)]
  }

  /** The installation and month billed, with the hash that shortens a long installation id */
  datatype Account = Account(hash: string -> string, installationId: string, month: string) {
    /** `usageReportIdentifier`: the idempotency key of one report */
    function Identifier(totalUsdCents: nat): string {
      var identifier := installationId + "/" + month + "/" + Decimal(totalUsdCents);
      if |identifier| <= MAX_IDENTIFIER_LENGTH then identifier
      else hash(installationId) + "/" + month + "/" + Decimal(totalUsdCents)
    }

    function Identifiers(): nat -> string {
      (total: nat) => Identifier(total)
    }
  }

  lemma {:induction false} DecimalInjective(a: nat, b: nat)
    requires Decimal(a) == Decimal(b)
    ensures a == b
  {
    var s, t := Decimal(a), Decimal(b);
    if a >= 10 && b >= 10 {
      assert s[..|s| - 1] == Decimal(a / 10);
      assert t[..|t| - 1] == Decimal(b / 10);
      DecimalInjective(a / 10, b / 10);
      assert s[|s| - 1] == Digit(a % 10) && t[|t| - 1] == Digit(b % 10);
    } else if a < 10 && b < 10 {
      assert s[0] == Digit(a) && t[0] == Digit(b);
    }
  }

  /** Two texts that split at their last slash alike have the same tail. */
  lemma LastSegment(p: string, s: string, q: string, t: string)
    requires '/' !in s && '/' !in t
    requires p + "/" + s == q + "/" + t
    ensures s == t
  {
    var whole := p + "/" + s;
    var whole' := q + "/" + t;
    assert whole[|p|] == '/' && whole'[|q|] == '/';
    forall k | |p| < k < |whole| ensures whole[k] != '/' {
      assert whole[k] == s[k - |p| - 1];
    }
    forall k | |q| < k < |whole'| ensures whole'[k] != '/' {
      assert whole'[k] == t[k - |q| - 1];
    }
    assert s == whole[|p| + 1..] && t == whole'[|q| + 1..];
  }

  /** The identifier determines the cumulative cents, whether or not the id was shortened. */
  lemma IdentifierDeterminesTotal(account: Account, a: nat, b: nat)
    requires account.Identifier(a) == account.Identifier(b)
    ensures a == b
  {
    var long, short := account.installationId + "/" + account.month, account.hash(account.installationId) + "/" + account.month;
    var p := if account.Identifier(a) == long + "/" + Decimal(a) then long else short;
    var q := if account.Identifier(b) == long + "/" + Decimal(b) then long else short;
    assert account.Identifier(a) == p + "/" + Decimal(a);
    assert account.Identifier(b) == q + "/" + Decimal(b);
    LastSegment(p, Decimal(a), q, Decimal(b));
    DecimalInjective(a, b);
  }

  /** The key fits the provider's limit, and is the readable one when that fits. */
  lemma IdentifierFits(account: Account, total: nat)
    requires |account.hash(account.installationId)| == 32 && |account.month| == 7 && |Decimal(total)| <= 59
    ensures |account.Identifier(total)| <= 100
    ensures |account.installationId| + 9 + |Decimal(total)| <= 100 ==>
              account.Identifier(total) == account.installationId + "/" + account.month + "/" + Decimal(total)
  {
  }

  /** The key function determines the total */
  ghost predicate Injective(ident: nat -> string) {
    forall a, b :: ident(a) == ident(b) ==> a == b
  }

  lemma IdentifiersAreInjective(account: Account)
    ensures Injective(account.Identifiers())
  {
    forall a, b | account.Identifiers()(a) == account.Identifiers()(b) ensures a == b {
      IdentifierDeterminesTotal(account, a, b);
    }
  }

  // ----- One runner's decision -----

  datatype Decision =
    | Unchanged
    | InProgress
    | Overreported(creditUsdCents: nat)
    | NoCustomer
    | Attempt(reservation: Reservation)

  /** `billInstallation` from its read of the row up to the reservation */
  function Decide(ident: nat -> string, snapshot: Option<Report>, provider: Provider, totalUsdCents: nat,
                  now: int, hasCustomer: bool): Decision
  {
    var report := if snapshot.Some? && snapshot.value.provider == provider then snapshot else None;
    var reported := if report.Some? then report.value.usdCents else 0;
    var isPending := report.Some? && report.value.pendingUsdCents.Some? && report.value.pendingIdentifier.Some?;
    var to := if isPending then report.value.pendingUsdCents.value else totalUsdCents;
    var identifier := if isPending then report.value.pendingIdentifier.value else ident(totalUsdCents);
    if InFlight(report, now) then InProgress
    else if to < reported then Overreported(reported - to)
    else if to == reported then Unchanged
    else if !hasCustomer && provider != Fake then NoCustomer
    else Attempt(Reservation(provider, reported, to, identifier))
  }

  predicate InFlight(report: Option<Report>, now: int) {
    && report.Some? && report.value.pendingAt.Some?
    && report.value.pendingAt.value != 0
    && now - report.value.pendingAt.value < IN_FLIGHT_MS
  }

  // ----- The system -----

  datatype MeterEvent = MeterEvent(provider: Provider, identifier: string, usdCents: int)

  datatype Runner =
    | Idle
    | Read(snapshot: Option<Report>, totalUsdCents: nat)
    | Reserved(reservation: Reservation)
    | Sent(provider: Provider, identifier: string)
    | Failed(identifier: string)

  /**
   * The row, the events the providers accepted, the runners, every month total read so far, and the
   * providers the row was taken over from
   */
  datatype System = System(
    row: Option<Report>,
    meter: seq<MeterEvent>,
    runners: map<nat, Runner>,
    observed: set<nat>,
    past: set<Provider>)

  datatype SendFate = Accepted | AcceptedThenLost | Rejected
  datatype WriteFate = Done | LostBefore | LostAfter

  datatype Step =
    | ReadRow(i: nat, totalUsdCents: nat)
    | Reserve(i: nat, provider: Provider, now: int, hasCustomer: bool)
    | Send(i: nat, sendFate: SendFate)
    | Confirm(i: nat, now: int, writeFate: WriteFate)
    | Release(i: nat, landed: bool)
    | Crash(i: nat)

  const INITIAL := System(None, [], map[], {}, {})

  function RunnerOf(s: System, i: nat): Runner {
    if i in s.runners then s.runners[i] else Idle
  }

  predicate IsAccepted(meter: seq<MeterEvent>, provider: Provider, identifier: string) {
    exists k :: 0 <= k < |meter| && meter[k].provider == provider && meter[k].identifier == identifier
  }

  /** The provider deduplicates retries on the identifier */
  function Accept(meter: seq<MeterEvent>, e: MeterEvent): seq<MeterEvent> {
    if IsAccepted(meter, e.provider, e.identifier) then meter else meter + [e]
  }

  function Apply(ident: nat -> string, s: System, step: Step): System {
    var runner := RunnerOf(s, step.i);
    match step
    case ReadRow(i, total) =>
      if runner != Idle then s
      else s.(runners := s.runners[i := Read(s.row, total)], observed := s.observed + {total})
    case Reserve(i, provider, now, hasCustomer) =>
      if !runner.Read? then s
      else
        var decision := Decide(ident, runner.snapshot, provider, runner.totalUsdCents, now, hasCustomer);
        if !decision.Attempt? then s.(runners := s.runners[i := Idle])
        else
          var written := SqlReserve(s.row, decision.reservation, now);
          if written.Row? then
            s.(row := Some(written.report), runners := s.runners[i := Reserved(decision.reservation)],
               past := if s.row.Some? && s.row.value.provider != provider then s.past + {s.row.value.provider} else s.past)
          else s.(runners := s.runners[i := Idle])
    case Send(i, fate) =>
      if !runner.Reserved? then s
      else
        var r := runner.reservation;
        var event := MeterEvent(r.provider, r.identifier, r.toUsdCents - r.fromUsdCents);
        var meter := if fate.Rejected? then s.meter else Accept(s.meter, event);
        s.(meter := meter,
           runners := s.runners[i := if fate.Accepted? then Sent(r.provider, r.identifier) else Failed(r.identifier)])
    case Confirm(i, now, fate) =>
      if !runner.Sent? then s
      else
        var written := SqlConfirm(s.row, runner.identifier, Some(runner.identifier), now);
        var row := if written.Row? && !fate.LostBefore? then Some(written.report) else s.row;
        s.(row := row,
           runners := s.runners[i := if written.Row? && fate.Done? then Idle else Failed(runner.identifier)])
    case Release(i, landed) =>
      if !runner.Failed? then s
      else s.(row := if landed then SqlRelease(s.row, runner.identifier) else s.row,
              runners := s.runners[i := Idle])
    case Crash(i) => s.(runners := s.runners[i := Idle])
  }

  function Run(ident: nat -> string, s: System, steps: seq<Step>): System {
    if steps == [] then s
    else Apply(ident, Run(ident, s, steps[..|steps| - 1]), steps[|steps| - 1])
  }

  predicate OneProvider(steps: seq<Step>, provider: Provider) {
    forall k :: 0 <= k < |steps| && steps[k].Reserve? ==> steps[k].provider == provider
  }

  // ----- What is owed -----

  /** Cents the provider has accepted */
  function Billed(meter: seq<MeterEvent>, provider: Provider): int {
    if meter == [] then 0
    else
      var last := meter[|meter| - 1];
      Billed(meter[..|meter| - 1], provider) + if last.provider == provider then last.usdCents else 0
  }

  /** The row's confirmed cents, plus the pending difference exactly when its event was accepted */
  function Settled(s: System): int {
    match s.row
    case None => 0
    case Some(e) =>
      if e.pendingIdentifier.Some? && e.pendingUsdCents.Some? &&
         IsAccepted(s.meter, e.provider, e.pendingIdentifier.value)
      then e.pendingUsdCents.value
      else e.usdCents
  }

  // ----- Invariant -----

  predicate RowOk(ident: nat -> string, e: Report, observed: set<nat>) {
    && PendingTogether(e)
    && (e.usdCents == 0 || e.usdCents in observed)
    && (e.pendingUsdCents.Some? ==>
          && e.pendingIdentifier == Some(ident(e.pendingUsdCents.value))
          && e.usdCents < e.pendingUsdCents.value
          && e.pendingUsdCents.value in observed)
  }

  /** The provider is the row's, or one the row was taken over from */
  predicate IsKnown(s: System, provider: Provider) {
    s.row.Some? && (provider == s.row.value.provider || provider in s.past)
  }

  predicate Ours(s: System, provider: Provider) {
    s.row.Some? && provider == s.row.value.provider
  }

  predicate ReservationOk(ident: nat -> string, s: System, r: Reservation) {
    && IsKnown(s, r.provider)
    && r.identifier == ident(r.toUsdCents)
    && r.fromUsdCents < r.toUsdCents
    && (Ours(s, r.provider) ==>
          || IsAccepted(s.meter, r.provider, r.identifier)
          || (s.row.value.pendingIdentifier == Some(r.identifier) && s.row.value.usdCents == r.fromUsdCents))
  }

  ghost predicate RunnerOk(ident: nat -> string, s: System, runner: Runner) {
    match runner
    case Idle => true
    case Read(snapshot, total) =>
      && total in s.observed
      && (snapshot.Some? ==> IsKnown(s, snapshot.value.provider) && RowOk(ident, snapshot.value, s.observed))
    case Reserved(r) => ReservationOk(ident, s, r)
    case Sent(provider, identifier) =>
      IsKnown(s, provider) && (Ours(s, provider) ==> IsAccepted(s.meter, provider, identifier))
    case Failed(_) => true
  }

  /** An event accepted by the row's provider is one of the row's past totals, or the pending one */
  ghost predicate EventOk(ident: nat -> string, s: System, e: MeterEvent) {
    && IsKnown(s, e.provider)
    && e.usdCents > 0
    && (Ours(s, e.provider) ==>
          || s.row.value.pendingIdentifier == Some(e.identifier)
          || exists t: nat :: t <= s.row.value.usdCents && ident(t) == e.identifier)
  }

  /** The row's provider accepted exactly what the row settles to */
  predicate Exact(s: System) {
    s.row.Some? ==> Billed(s.meter, s.row.value.provider) == Settled(s)
  }

  /** The row is with a provider it was never taken over from */
  predicate Forward(s: System) {
    if s.row.Some? then s.row.value.provider !in s.past else s.past == {}
  }

  ghost predicate Books(ident: nat -> string, s: System) {
    && (s.row.Some? ==> RowOk(ident, s.row.value, s.observed))
    && (forall i :: i in s.runners ==> RunnerOk(ident, s, s.runners[i]))
    && (forall k :: 0 <= k < |s.meter| ==> EventOk(ident, s, s.meter[k]))
    && Forward(s)
  }

  ghost predicate Inv(ident: nat -> string, s: System) {
    Books(ident, s) && Exact(s)
  }

  /** Whether a confirm that lands is of an event that the row's own provider accepted */
  predicate Faithful(s: System, step: Step) {
    step.Confirm? && RunnerOf(s, step.i).Sent? && !step.writeFate.LostBefore?
    && s.row.Some? && s.row.value.pendingIdentifier == Some(RunnerOf(s, step.i).identifier)
    ==> IsAccepted(s.meter, s.row.value.provider, RunnerOf(s, step.i).identifier)
  }

  lemma FreshReservationIsNotAccepted(ident: nat -> string, s: System, to: nat)
    requires Injective(ident)
    requires Books(ident, s) && s.row.Some? && s.row.value.pendingIdentifier.None? && s.row.value.usdCents < to
    ensures !IsAccepted(s.meter, s.row.value.provider, ident(to))
  {
    forall k | 0 <= k < |s.meter| && s.meter[k].provider == s.row.value.provider ensures s.meter[k].identifier != ident(to) {
      assert EventOk(ident, s, s.meter[k]);
    }
  }

  lemma {:induction false} NothingBilled(meter: seq<MeterEvent>, provider: Provider)
    requires forall k :: 0 <= k < |meter| ==> meter[k].provider != provider
    ensures Billed(meter, provider) == 0
  {
    if meter != [] {
      NothingBilled(meter[..|meter| - 1], provider);
    }
  }

  /** A provider that is neither the row's nor a past one has accepted nothing */
  lemma NewProviderAcceptedNothing(ident: nat -> string, s: System, provider: Provider)
    requires Books(ident, s) && !IsKnown(s, provider)
    ensures Billed(s.meter, provider) == 0
    ensures forall identifier :: !IsAccepted(s.meter, provider, identifier)
  {
    forall k | 0 <= k < |s.meter| ensures s.meter[k].provider != provider {
      assert EventOk(ident, s, s.meter[k]);
    }
    NothingBilled(s.meter, provider);
  }

  /** The other runners stand as well under the reserved row */
  lemma ReserveKeepsOthers(ident: nat -> string, s: System, s': System, r: Reservation, now: int, runner: Runner)
    requires Injective(ident)
    requires Books(ident, s) && RunnerOk(ident, s, runner) && Forward(s')
    requires s'.meter == s.meter && s'.observed == s.observed
    requires s'.row.Some? && SqlReserve(s.row, r, now) == Row(s'.row.value)
    requires s'.past == if s.row.Some? && s.row.value.provider != r.provider then s.past + {s.row.value.provider} else s.past
    requires r.identifier == ident(r.toUsdCents)
    ensures RunnerOk(ident, s', runner)
  {
  }

  /** The compare-and-set admits a fresh difference, a retry of the very same event, or a takeover. */
  lemma ReserveKeepsBooks(ident: nat -> string, s: System, s': System, step: Step)
    requires Injective(ident)
    requires Books(ident, s) && step.Reserve? && s' == Apply(ident, s, step) && Forward(s')
    ensures Books(ident, s')
  {
    var runner := RunnerOf(s, step.i);
    if runner.Read? {
      assert RunnerOk(ident, s, runner);
      var decision := Decide(ident, runner.snapshot, step.provider, runner.totalUsdCents, step.now, step.hasCustomer);
      if decision.Attempt? && SqlReserve(s.row, decision.reservation, step.now).Row? {
        var r := decision.reservation;
        forall k | 0 <= k < |s'.meter| ensures EventOk(ident, s', s'.meter[k]) {
          assert EventOk(ident, s, s.meter[k]);
        }
        forall i | i in s'.runners ensures RunnerOk(ident, s', s'.runners[i]) {
          if i != step.i {
            ReserveKeepsOthers(ident, s, s', r, step.now, s.runners[i]);
          }
        }
      } else {
        StutterKeepsBooks(ident, s, s');
      }
    }
  }

  lemma ReserveStaysExact(ident: nat -> string, s: System, s': System, step: Step)
    requires Injective(ident)
    requires Inv(ident, s) && step.Reserve? && s' == Apply(ident, s, step) && Forward(s')
    ensures Exact(s')
  {
    if s'.row.Some? && !IsKnown(s, s'.row.value.provider) {
      NewProviderAcceptedNothing(ident, s, s'.row.value.provider);
    } else if s'.row != s.row && s.row.value.pendingIdentifier.None? {
      assert RunnerOk(ident, s, RunnerOf(s, step.i));
      FreshReservationIsNotAccepted(ident, s, s'.row.value.pendingUsdCents.value);
    }
  }

  lemma AcceptedGrows(meter: seq<MeterEvent>, e: MeterEvent, provider: Provider, identifier: string)
    ensures IsAccepted(Accept(meter, e), provider, identifier) <==>
            IsAccepted(meter, provider, identifier) || (e.provider == provider && e.identifier == identifier)
    ensures Billed(Accept(meter, e), provider) == Billed(meter, provider) +
            if !IsAccepted(meter, e.provider, e.identifier) && e.provider == provider then e.usdCents else 0
  {
    var longer := meter + [e];
    assert longer[..|meter|] == meter;
    if IsAccepted(meter, provider, identifier) {
      var k :| 0 <= k < |meter| && meter[k].provider == provider && meter[k].identifier == identifier;
      assert longer[k] == meter[k];
    }
    assert longer[|meter|] == e;
  }

  function EventOf(r: Reservation): MeterEvent {
    MeterEvent(r.provider, r.identifier, r.toUsdCents - r.fromUsdCents)
  }

  /** An event of the row's provider joins the row's past or pending totals, and is billed when it is new */
  lemma AcceptStaysExact(ident: nat -> string, s: System, s': System, r: Reservation)
    requires Inv(ident, s) && ReservationOk(ident, s, r) && Injective(ident)
    requires s'.meter == Accept(s.meter, EventOf(r)) && s'.row == s.row
    ensures Exact(s')
  {
    AcceptedGrows(s.meter, EventOf(r), s.row.value.provider, r.identifier);
    if s.row.value.pendingIdentifier.Some? {
      AcceptedGrows(s.meter, EventOf(r), s.row.value.provider, s.row.value.pendingIdentifier.value);
    }
  }

  /** An identifier that is accepted is one of the row's totals, so a new event of the row's provider is the pending one */
  lemma AcceptKeepsEvents(ident: nat -> string, s: System, s': System, r: Reservation)
    requires Books(ident, s) && ReservationOk(ident, s, r)
    requires s'.meter == Accept(s.meter, EventOf(r)) && s'.row == s.row && s'.past == s.past
    ensures forall k :: 0 <= k < |s'.meter| ==> EventOk(ident, s', s'.meter[k])
  {
    forall k | 0 <= k < |s'.meter| ensures EventOk(ident, s', s'.meter[k]) {
      if k < |s.meter| {
        assert EventOk(ident, s, s.meter[k]);
      }
    }
  }

  lemma AcceptKeepsRunner(ident: nat -> string, s: System, s': System, runner: Runner, event: MeterEvent)
    requires RunnerOk(ident, s, runner)
    requires s'.meter == Accept(s.meter, event) && s'.row == s.row && s'.observed == s.observed && s'.past == s.past
    ensures RunnerOk(ident, s', runner)
  {
    match runner
    case Reserved(r) => AcceptedGrows(s.meter, event, r.provider, r.identifier);
    case Sent(provider, identifier) => AcceptedGrows(s.meter, event, provider, identifier);
    case _ =>
  }

  lemma SendKeepsInv(ident: nat -> string, s: System, step: Step)
    requires Injective(ident)
    requires Inv(ident, s) && step.Send?
    ensures Inv(ident, Apply(ident, s, step))
  {
    var s' := Apply(ident, s, step);
    var runner := RunnerOf(s, step.i);
    if runner.Reserved? {
      assert RunnerOk(ident, s, runner);
      var r := runner.reservation;
      if step.sendFate.Rejected? {
        StutterKeepsBooks(ident, s, s');
      } else {
        AcceptStaysExact(ident, s, s', r);
        AcceptKeepsEvents(ident, s, s', r);
        AcceptedGrows(s.meter, EventOf(r), r.provider, r.identifier);
        forall i | i in s'.runners ensures RunnerOk(ident, s', s'.runners[i]) {
          if i != step.i {
            AcceptKeepsRunner(ident, s, s', s.runners[i], EventOf(r));
          }
        }
      }
    }
  }

  /** A confirm that lands moves the pending cents over: exact if and only if the row's provider accepted the event. */
  lemma ConfirmIsExactWhenFaithful(ident: nat -> string, s: System, step: Step)
    requires Inv(ident, s) && step.Confirm?
    ensures Exact(Apply(ident, s, step)) <==> Faithful(s, step)
  {
  }

  lemma ConfirmKeepsBooks(ident: nat -> string, s: System, step: Step)
    requires Books(ident, s) && step.Confirm? && Faithful(s, step)
    ensures Books(ident, Apply(ident, s, step))
  {
    var s' := Apply(ident, s, step);
    var runner := RunnerOf(s, step.i);
    if runner.Sent? && s'.row != s.row {
      var to := s.row.value.pendingUsdCents.value;
      forall k | 0 <= k < |s'.meter| ensures EventOk(ident, s', s'.meter[k]) {
        assert EventOk(ident, s, s.meter[k]);
        if s.row.value.pendingIdentifier == Some(s.meter[k].identifier) {
          assert ident(to) == s.meter[k].identifier;
        }
      }
      forall i | i in s'.runners ensures RunnerOk(ident, s', s'.runners[i]) {
        assert i != step.i ==> RunnerOk(ident, s, s.runners[i]);
      }
    } else {
      StutterKeepsBooks(ident, s, s');
    }
  }

  /** A step that leaves the row's money and the meter alone */
  lemma StutterKeepsBooks(ident: nat -> string, s: System, s': System)
    requires Books(ident, s)
    requires s'.meter == s.meter && s.observed <= s'.observed && s'.past == s.past
    requires s'.row == s.row || (s.row.Some? && s'.row == Some(s.row.value.(pendingAt := None)))
    requires forall i :: i in s'.runners ==>
               (i in s.runners && s'.runners[i] == s.runners[i]) || s'.runners[i] == Idle || s'.runners[i].Failed? ||
               (s'.runners[i].Read? && s'.runners[i].snapshot == s.row && s'.runners[i].totalUsdCents in s'.observed)
    ensures Books(ident, s')
    ensures Exact(s') <==> Exact(s)
  {
    forall k | 0 <= k < |s'.meter| ensures EventOk(ident, s', s'.meter[k]) {
      assert EventOk(ident, s, s.meter[k]);
    }
    forall i | i in s'.runners ensures RunnerOk(ident, s', s'.runners[i]) {
      assert i in s.runners ==> RunnerOk(ident, s, s.runners[i]);
    }
  }

  /** From an exact state, a step that does not take the row back to a past provider is exact if and only if it is faithful. */
  lemma StepIsExactWhenFaithful(ident: nat -> string, s: System, step: Step)
    requires Injective(ident)
    requires Inv(ident, s) && Forward(Apply(ident, s, step))
    ensures Exact(Apply(ident, s, step)) <==> Faithful(s, step)
    ensures Faithful(s, step) ==> Inv(ident, Apply(ident, s, step))
  {
    var s' := Apply(ident, s, step);
    match step
    case ReadRow(_, _) => StutterKeepsBooks(ident, s, s');
    case Reserve(_, _, _, _) =>
      ReserveKeepsBooks(ident, s, s', step);
      ReserveStaysExact(ident, s, s', step);
    case Send(_, _) => SendKeepsInv(ident, s, step);
    case Confirm(_, _, _) =>
      ConfirmIsExactWhenFaithful(ident, s, step);
      if Faithful(s, step) {
        ConfirmKeepsBooks(ident, s, step);
      }
    case Release(_, _) => StutterKeepsBooks(ident, s, s');
    case Crash(_) => StutterKeepsBooks(ident, s, s');
  }

  // ----- Whole runs -----

  /** At every moment of the run */
  predicate AlwaysForward(ident: nat -> string, steps: seq<Step>) {
    Forward(Run(ident, INITIAL, steps)) && (steps != [] ==> AlwaysForward(ident, steps[..|steps| - 1]))
  }

  predicate AlwaysExact(ident: nat -> string, steps: seq<Step>) {
    Exact(Run(ident, INITIAL, steps)) && (steps != [] ==> AlwaysExact(ident, steps[..|steps| - 1]))
  }

  /** Every step of the run, on the state it finds */
  predicate AllFaithful(ident: nat -> string, steps: seq<Step>) {
    steps != [] ==>
      var n := |steps| - 1;
      AllFaithful(ident, steps[..n]) && Faithful(Run(ident, INITIAL, steps[..n]), steps[n])
  }

  lemma {:induction false} FaithfulRunKeepsInv(ident: nat -> string, steps: seq<Step>)
    requires Injective(ident) && AlwaysForward(ident, steps) && AllFaithful(ident, steps)
    ensures Inv(ident, Run(ident, INITIAL, steps))
  {
    if steps != [] {
      var n := |steps| - 1;
      FaithfulRunKeepsInv(ident, steps[..n]);
      StepIsExactWhenFaithful(ident, Run(ident, INITIAL, steps[..n]), steps[n]);
    }
  }

  /**
   * In runs that never return to a provider the row was taken over from, the row's provider has at
   * every moment accepted exactly what the row settles to, if and only if no confirm lands for an
   * event that provider had not accepted.
   */
  lemma {:induction false} TakeoversStayExact(ident: nat -> string, steps: seq<Step>)
    requires Injective(ident) && AlwaysForward(ident, steps)
    ensures AlwaysExact(ident, steps) <==> AllFaithful(ident, steps)
  {
    if steps != [] {
      var n := |steps| - 1;
      TakeoversStayExact(ident, steps[..n]);
      if AllFaithful(ident, steps[..n]) {
        FaithfulRunKeepsInv(ident, steps[..n]);
        StepIsExactWhenFaithful(ident, Run(ident, INITIAL, steps[..n]), steps[n]);
      }
    }
  }

  // ----- One provider -----

  predicate RunnerOnly(runner: Runner, provider: Provider) {
    && (runner.Reserved? ==> runner.reservation.provider == provider)
    && (runner.Sent? ==> runner.provider == provider)
  }

  ghost predicate Only(s: System, provider: Provider) {
    && (s.row.Some? ==> s.row.value.provider == provider)
    && s.past == {}
    && forall i :: i in s.runners ==> RunnerOnly(s.runners[i], provider)
  }

  lemma StepKeepsOnly(ident: nat -> string, provider: Provider, s: System, step: Step)
    requires Only(s, provider) && (step.Reserve? ==> step.provider == provider)
    ensures Only(Apply(ident, s, step), provider)
  {
    assert RunnerOnly(RunnerOf(s, step.i), provider);
  }

  /** With one provider, who sent what is confirmed has it accepted by the row's provider */
  lemma OnlyIsFaithful(ident: nat -> string, provider: Provider, s: System, step: Step)
    requires Inv(ident, s) && Only(s, provider)
    ensures Faithful(s, step)
  {
    if step.Confirm? && RunnerOf(s, step.i).Sent? {
      assert RunnerOnly(RunnerOf(s, step.i), provider);
      assert RunnerOk(ident, s, RunnerOf(s, step.i));
    }
  }

  lemma {:induction false} RunKeepsInv(ident: nat -> string, provider: Provider, steps: seq<Step>)
    requires Injective(ident)
    requires OneProvider(steps, provider)
    ensures Inv(ident, Run(ident, INITIAL, steps)) && Only(Run(ident, INITIAL, steps), provider)
  {
    if steps != [] {
      var n := |steps| - 1;
      RunKeepsInv(ident, provider, steps[..n]);
      var s := Run(ident, INITIAL, steps[..n]);
      StepKeepsOnly(ident, provider, s, steps[n]);
      OnlyIsFaithful(ident, provider, s, steps[n]);
      StepIsExactWhenFaithful(ident, s, steps[n]);
    }
  }

  // ----- Results -----

  /**
   * Exactly once: whatever the runners do and wherever they crash, the cents the provider accepted
   * are the row's confirmed cents, plus the pending difference exactly when its event was accepted
   * but not yet confirmed; and they never exceed a month total some run had read.
   */
  lemma ExactlyOnceBilling(account: Account, provider: Provider, steps: seq<Step>)
    requires OneProvider(steps, provider)
    ensures var s := Run(account.Identifiers(), INITIAL, steps);
            && Billed(s.meter, provider) == Settled(s)
            && (Settled(s) == 0 || Settled(s) in s.observed)
  {
    IdentifiersAreInjective(account);
    RunKeepsInv(account.Identifiers(), provider, steps);
    var s := Run(account.Identifiers(), INITIAL, steps);
    if s.row.None? {
      NewProviderAcceptedNothing(account.Identifiers(), s, provider);
    }
  }

  function Confirmed(row: Option<Report>): nat {
    if row.Some? then row.value.usdCents else 0
  }

  /** What the next pass has to bring the cumulative to */
  function Due(row: Option<Report>, total: nat): nat {
    if row.Some? && row.value.pendingUsdCents.Some? then row.value.pendingUsdCents.value else total
  }

  /**
   * What a pass answers for a row that was not reserved within the last five minutes: it bills what
   * is due to a customer, or for the fake provider without one. When the month now totals less than
   * was confirmed, nothing is pending, and the credit it reports is exactly what the provider
   * accepted beyond the total.
   */
  lemma PassAnswers(ident: nat -> string, provider: Provider, steps: seq<Step>, total: nat, now: int, hasCustomer: bool)
    requires Injective(ident) && OneProvider(steps, provider)
    requires var row := Run(ident, INITIAL, steps).row;
             row.Some? && row.value.pendingAt.Some? ==> row.value.pendingAt.value == 0 || row.value.pendingAt.value + 300_000 <= now
    ensures var s := Run(ident, INITIAL, steps);
            var decision := Decide(ident, s.row, provider, total, now, hasCustomer);
            if Due(s.row, total) < Confirmed(s.row) then
              decision.Overreported? && total + decision.creditUsdCents == Confirmed(s.row) == Billed(s.meter, provider)
            else if Due(s.row, total) == Confirmed(s.row) then decision == Unchanged
            else if !hasCustomer && provider == Stripe then decision == NoCustomer
            else decision.Attempt? && decision.reservation.toUsdCents == Due(s.row, total)
  {
    RunKeepsInv(ident, provider, steps);
    var s := Run(ident, INITIAL, steps);
    assert s.row.Some? ==> RowOk(ident, s.row.value, s.observed);
  }

  lemma ReadThenReserve(ident: nat -> string, provider: Provider, s: System, i: nat, total: nat, now: int, hasCustomer: bool)
    requires Inv(ident, s) && Only(s, provider) && RunnerOf(s, i) == Idle
    requires Decide(ident, s.row, provider, total, now, hasCustomer).Attempt?
    requires Decide(ident, s.row, provider, total, now, hasCustomer).reservation.toUsdCents == Due(s.row, total)
    ensures var s2 := Apply(ident, Apply(ident, s, ReadRow(i, total)), Reserve(i, provider, now, hasCustomer));
            && s2.meter == s.meter
            && RunnerOf(s2, i).Reserved?
            && s2.row.Some? && s2.row.value.usdCents == Confirmed(s.row)
            && s2.row.value.pendingUsdCents == Some(Due(s.row, total))
            && s2.row.value.pendingIdentifier == Some(RunnerOf(s2, i).reservation.identifier)
            && RunnerOf(s2, i).reservation.provider == provider
  {
    var s1 := Apply(ident, s, ReadRow(i, total));
    assert RunnerOf(s1, i) == Read(s.row, total);
    var decision := Decide(ident, s.row, provider, total, now, hasCustomer);
    assert s.row.Some? ==> RowOk(ident, s.row.value, s.observed);
    assert SqlReserve(s.row, decision.reservation, now).Row?;
  }

  lemma SendThenConfirm(ident: nat -> string, s: System, i: nat, now: int)
    requires RunnerOf(s, i).Reserved? && s.row.Some? && PendingTogether(s.row.value)
    requires s.row.value.pendingIdentifier == Some(RunnerOf(s, i).reservation.identifier)
    ensures var s2 := Apply(ident, Apply(ident, s, Send(i, Accepted)), Confirm(i, now, Done));
            && RunnerOf(s2, i) == Idle
            && s2.row == Some(Report(s.row.value.pendingUsdCents.value, s.row.value.provider,
                 s.row.value.pendingIdentifier, None, None, None, now))
  {
    var s1 := Apply(ident, s, Send(i, Accepted));
    assert RunnerOf(s1, i) == Sent(RunnerOf(s, i).reservation.provider, RunnerOf(s, i).reservation.identifier);
  }

  /**
   * Recovery: after any run, one undisturbed pass over a row that was not reserved within the last
   * five minutes settles what was pending (or the new total), bills exactly that, and leaves
   * nothing pending; without a customer it changes nothing, unless the provider is the fake one.
   */
  lemma UndisturbedPassSettles(ident: nat -> string, provider: Provider, steps: seq<Step>, i: nat, total: nat, now: int, hasCustomer: bool)
    requires Injective(ident)
    requires OneProvider(steps, provider)
    requires RunnerOf(Run(ident, INITIAL, steps), i) == Idle
    requires var row := Run(ident, INITIAL, steps).row;
             row.Some? && row.value.pendingAt.Some? ==> row.value.pendingAt.value == 0 || row.value.pendingAt.value + 300_000 <= now
    ensures var s := Run(ident, INITIAL, steps);
            var pass := [ReadRow(i, total), Reserve(i, provider, now, hasCustomer), Send(i, Accepted), Confirm(i, now, Done)];
            var s' := Run(ident, INITIAL, steps + pass);
            if Due(s.row, total) > Confirmed(s.row) && (hasCustomer || provider == Fake) then
              && Confirmed(s'.row) == Due(s.row, total) == Billed(s'.meter, provider)
              && s'.row.Some? && s'.row.value.pendingIdentifier.None?
            else s'.row == s.row && s'.meter == s.meter
  {
    var s := Run(ident, INITIAL, steps);
    var pass := [ReadRow(i, total), Reserve(i, provider, now, hasCustomer), Send(i, Accepted), Confirm(i, now, Done)];
    RunFour(ident, steps, pass);
    RunKeepsInv(ident, provider, steps);
    RunKeepsInv(ident, provider, steps + pass);
    PassAnswers(ident, provider, steps, total, now, hasCustomer);
    if Due(s.row, total) > Confirmed(s.row) && (hasCustomer || provider == Fake) {
      ReadThenReserve(ident, provider, s, i, total, now, hasCustomer);
      var s2 := Apply(ident, Apply(ident, s, ReadRow(i, total)), Reserve(i, provider, now, hasCustomer));
      SendThenConfirm(ident, s2, i, now);
    } else {
      ReadThenAnswer(ident, s, i, provider, total, now, hasCustomer);
    }
  }

  lemma RunOne(ident: nat -> string, steps: seq<Step>, step: Step)
    ensures Run(ident, INITIAL, steps + [step]) == Apply(ident, Run(ident, INITIAL, steps), step)
  {
    assert (steps + [step])[..|steps|] == steps;
  }

  lemma TwoAreAppended(steps: seq<Step>, a: Step, b: Step)
    ensures steps + [a, b] == steps + [a] + [b]
  {
  }

  lemma RunTwo(ident: nat -> string, steps: seq<Step>, a: Step, b: Step)
    ensures Run(ident, INITIAL, steps + [a, b]) == Apply(ident, Apply(ident, Run(ident, INITIAL, steps), a), b)
  {
    TwoAreAppended(steps, a, b);
    RunOne(ident, steps, a);
    RunOne(ident, steps + [a], b);
  }

  lemma FourAreAppended(steps: seq<Step>, more: seq<Step>)
    requires |more| == 4
    ensures steps + more == steps + [more[0], more[1]] + [more[2], more[3]]
  {
  }

  lemma RunFour(ident: nat -> string, steps: seq<Step>, more: seq<Step>)
    requires |more| == 4
    ensures Run(ident, INITIAL, steps + more) ==
            Apply(ident, Apply(ident, Run(ident, INITIAL, steps + [more[0], more[1]]), more[2]), more[3])
    ensures Run(ident, INITIAL, steps + [more[0], more[1]]) == Apply(ident, Apply(ident, Run(ident, INITIAL, steps), more[0]), more[1])
  {
    FourAreAppended(steps, more);
    RunTwo(ident, steps, more[0], more[1]);
    RunTwo(ident, steps + [more[0], more[1]], more[2], more[3]);
  }

  /** And within those five minutes a pass of the row's own provider answers in progress and changes nothing. */
  lemma HeldRowIsLeftAlone(ident: nat -> string, steps: seq<Step>, i: nat, total: nat, now: int, hasCustomer: bool, fate: SendFate, at: int)
    requires var s := Run(ident, INITIAL, steps);
             && RunnerOf(s, i) == Idle
             && s.row.Some? && s.row.value.pendingAt == Some(at) && at != 0 && now < at + 300_000
    ensures var s := Run(ident, INITIAL, steps);
            var provider := s.row.value.provider;
            var s' := Run(ident, INITIAL, steps + [ReadRow(i, total), Reserve(i, provider, now, hasCustomer), Send(i, fate), Confirm(i, now, Done)]);
            && Decide(ident, s.row, provider, total, now, hasCustomer) == InProgress
            && s'.row == s.row && s'.meter == s.meter && RunnerOf(s', i) == Idle
  {
    var s := Run(ident, INITIAL, steps);
    var provider := s.row.value.provider;
    RunFour(ident, steps, [ReadRow(i, total), Reserve(i, provider, now, hasCustomer), Send(i, fate), Confirm(i, now, Done)]);
    ReadThenAnswer(ident, s, i, provider, total, now, hasCustomer);
  }

  /** A decision not to bill leaves everything as it was */
  lemma ReadThenAnswer(ident: nat -> string, s: System, i: nat, provider: Provider, total: nat, now: int, hasCustomer: bool)
    requires RunnerOf(s, i) == Idle && !Decide(ident, s.row, provider, total, now, hasCustomer).Attempt?
    ensures var s2 := Apply(ident, Apply(ident, s, ReadRow(i, total)), Reserve(i, provider, now, hasCustomer));
            s2.row == s.row && s2.meter == s.meter && RunnerOf(s2, i) == Idle
  {
    assert RunnerOf(Apply(ident, s, ReadRow(i, total)), i) == Read(s.row, total);
  }

  /**
   * A runner that crashed anywhere, even while it held the row or after the provider had accepted
   * its event, is made up for by its own next pass once five minutes have gone by.
   */
  lemma CrashIsRecovered(ident: nat -> string, provider: Provider, steps: seq<Step>, i: nat, total: nat, now: int)
    requires Injective(ident) && OneProvider(steps, provider)
    requires var row := Run(ident, INITIAL, steps).row;
             row.Some? && row.value.pendingAt.Some? ==> row.value.pendingAt.value + 300_000 <= now
    ensures var s := Run(ident, INITIAL, steps);
            var pass := [ReadRow(i, total), Reserve(i, provider, now, true), Send(i, Accepted), Confirm(i, now, Done)];
            var s' := Run(ident, INITIAL, steps + [Crash(i)] + pass);
            if Due(s.row, total) > Confirmed(s.row) then
              && Confirmed(s'.row) == Due(s.row, total) == Billed(s'.meter, provider)
              && s'.row.Some? && s'.row.value.pendingIdentifier.None?
            else s'.row == s.row && s'.meter == s.meter
  {
    RunOne(ident, steps, Crash(i));
    UndisturbedPassSettles(ident, provider, steps + [Crash(i)], i, total, now, true);
  }

  // ----- Answers that do not come back -----

  /** The runner holds the row's reservation */
  predicate HoldsRow(s: System, i: nat) {
    && RunnerOf(s, i).Reserved?
    && s.row.Some? && s.row.value.pendingIdentifier == Some(RunnerOf(s, i).reservation.identifier)
  }

  /**
   * A confirm whose answer is lost leaves its runner to release the row: after it landed that changes
   * nothing any more, and before it did the reservation stays and may be retried at once.
   */
  lemma LostConfirm(ident: nat -> string, s: System, i: nat, now: int, landed: bool)
    requires RunnerOf(s, i).Sent? && s.row.Some? && PendingTogether(s.row.value)
    requires s.row.value.pendingIdentifier == Some(RunnerOf(s, i).identifier)
    ensures var s1 := Apply(ident, s, Confirm(i, now, if landed then LostAfter else LostBefore));
            var s2 := Apply(ident, s1, Release(i, true));
            && RunnerOf(s1, i) == Failed(RunnerOf(s, i).identifier) && RunnerOf(s2, i) == Idle
            && s1.row == (if landed then Apply(ident, s, Confirm(i, now, Done)).row else s.row)
            && s2.row == if landed then s1.row else Some(s.row.value.(pendingAt := None))
  {
  }

  lemma FailedThenReleased(ident: nat -> string, s: System, i: nat, fate: SendFate)
    requires HoldsRow(s, i) && fate != Accepted
    ensures var s2 := Apply(ident, Apply(ident, s, Send(i, fate)), Release(i, true));
            && RunnerOf(s2, i) == Idle
            && s2.row == Some(s.row.value.(pendingAt := None))
  {
    var s1 := Apply(ident, s, Send(i, fate));
    assert RunnerOf(s1, i) == Failed(RunnerOf(s, i).reservation.identifier);
  }

  /**
   * When the provider's answer is lost or a refusal, and the release lands, the very next pass bills
   * the reservation, at any instant: whether the provider had accepted it or not, what it accepted
   * is then exactly what was reserved.
   */
  lemma LostAnswerIsRetriedAtOnce(ident: nat -> string, provider: Provider, steps: seq<Step>, i: nat, total: nat, now: int, fate: SendFate)
    requires Injective(ident) && OneProvider(steps, provider)
    requires HoldsRow(Run(ident, INITIAL, steps), i) && fate != Accepted
    ensures var s := Run(ident, INITIAL, steps);
            var pass := [ReadRow(i, total), Reserve(i, provider, now, true), Send(i, Accepted), Confirm(i, now, Done)];
            var s' := Run(ident, INITIAL, steps + [Send(i, fate), Release(i, true)] + pass);
            && s.row.value.pendingUsdCents.Some?
            && Confirmed(s'.row) == s.row.value.pendingUsdCents.value == Billed(s'.meter, provider)
            && s'.row.Some? && s'.row.value.pendingIdentifier.None?
  {
    var s := Run(ident, INITIAL, steps);
    var released := steps + [Send(i, fate), Release(i, true)];
    RunTwo(ident, steps, Send(i, fate), Release(i, true));
    FailedThenReleased(ident, s, i, fate);
    RunKeepsInv(ident, provider, steps);
    assert RowOk(ident, s.row.value, s.observed);
    UndisturbedPassSettles(ident, provider, released, i, total, now, true);
  }

  // ----- Takeovers -----

  /** One undisturbed pass of runner 0 */
  function Pass(provider: Provider, total: nat): seq<Step> {
    [ReadRow(0, total), Reserve(0, provider, 0, true), Send(0, Accepted), Confirm(0, 0, Done)]
  }

  /** The row has no place for a report of the provider yet: there is none, or another provider's */
  predicate FreeFor(s: System, provider: Provider) {
    RunnerOf(s, 0) == Idle && (s.row.Some? ==> s.row.value.provider != provider)
  }

  /** The first half of the pass: the row is reserved for the whole total */
  lemma FreeRowIsReserved(ident: nat -> string, s: System, provider: Provider, total: nat)
    requires FreeFor(s, provider) && total > 0
    ensures var s2 := Apply(ident, Apply(ident, s, ReadRow(0, total)), Reserve(0, provider, 0, true));
            && RunnerOf(s2, 0) == Reserved(Reservation(provider, 0, total, ident(total)))
            && s2.meter == s.meter && s2.row.Some? && PendingTogether(s2.row.value)
            && s2.row.value.provider == provider
            && s2.row.value.pendingIdentifier == Some(ident(total)) && s2.row.value.pendingUsdCents == Some(total)
  {
    var s1 := Apply(ident, s, ReadRow(0, total));
    assert RunnerOf(s1, 0) == Read(s.row, total);
    assert Decide(ident, s.row, provider, total, 0, true) == Attempt(Reservation(provider, 0, total, ident(total)));
  }

  lemma PassOverFreeRow(ident: nat -> string, steps: seq<Step>, provider: Provider, total: nat)
    requires FreeFor(Run(ident, INITIAL, steps), provider) && total > 0
    ensures var s := Run(ident, INITIAL, steps);
            var s' := Run(ident, INITIAL, steps + Pass(provider, total));
            && RunnerOf(s', 0) == Idle
            && s'.row == Some(Report(total, provider, Some(ident(total)), None, None, None, 0))
            && s'.meter == Accept(s.meter, MeterEvent(provider, ident(total), total))
  {
    var s := Run(ident, INITIAL, steps);
    var s2 := Apply(ident, Apply(ident, s, ReadRow(0, total)), Reserve(0, provider, 0, true));
    RunFour(ident, steps, Pass(provider, total));
    FreeRowIsReserved(ident, s, provider, total);
    SendThenConfirm(ident, s2, 0, 0);
    SendIsAccepted(ident, s2, 0, 0);
  }

  lemma SendIsAccepted(ident: nat -> string, s: System, i: nat, now: int)
    requires RunnerOf(s, i).Reserved?
    ensures Apply(ident, Apply(ident, s, Send(i, Accepted)), Confirm(i, now, Done)).meter == Accept(s.meter, EventOf(RunnerOf(s, i).reservation))
  {
  }

  /**
   * After any run at all, an undisturbed pass that takes the row over is exact if and only if the
   * provider had accepted nothing, or exactly the new total when its identifier is among them.
   */
  lemma TakeoverIsExact(ident: nat -> string, steps: seq<Step>, provider: Provider, total: nat)
    requires FreeFor(Run(ident, INITIAL, steps), provider) && total > 0
    ensures var s := Run(ident, INITIAL, steps);
            Exact(Run(ident, INITIAL, steps + Pass(provider, total))) <==>
            Billed(s.meter, provider) == if IsAccepted(s.meter, provider, ident(total)) then total else 0
  {
    PassOverFreeRow(ident, steps, provider, total);
    AcceptedGrows(Run(ident, INITIAL, steps).meter, MeterEvent(provider, ident(total), total), provider, ident(total));
  }

  /** Only positive cents are ever billed, so zero billed means nothing accepted. */
  lemma {:induction false} NothingBilledNothingAccepted(ident: nat -> string, steps: seq<Step>, provider: Provider)
    ensures var meter := Run(ident, INITIAL, steps).meter;
            Billed(meter, provider) == 0 <==> forall k :: 0 <= k < |meter| ==> meter[k].provider != provider
  {
    EventsArePositive(ident, steps);
    ZeroBilled(Run(ident, INITIAL, steps).meter, provider);
  }

  ghost predicate Positive(s: System) {
    && (forall k :: 0 <= k < |s.meter| ==> s.meter[k].usdCents > 0)
    && forall i :: i in s.runners && s.runners[i].Reserved? ==>
         s.runners[i].reservation.fromUsdCents < s.runners[i].reservation.toUsdCents
  }

  lemma {:induction false} EventsArePositive(ident: nat -> string, steps: seq<Step>)
    ensures Positive(Run(ident, INITIAL, steps))
  {
    if steps != [] {
      EventsArePositive(ident, steps[..|steps| - 1]);
    }
  }

  lemma {:induction false} ZeroBilled(meter: seq<MeterEvent>, provider: Provider)
    requires forall k :: 0 <= k < |meter| ==> meter[k].usdCents > 0
    ensures Billed(meter, provider) >= 0
    ensures Billed(meter, provider) == 0 <==> forall k :: 0 <= k < |meter| ==> meter[k].provider != provider
  {
    if meter != [] {
      var n := |meter| - 1;
      ZeroBilled(meter[..n], provider);
      assert meter[n].usdCents > 0;
      if Billed(meter, provider) == 0 {
        forall k | 0 <= k < |meter| ensures meter[k].provider != provider {
          assert k < n ==> meter[..n][k].provider != provider;
        }
      } else {
        assert forall k :: 0 <= k < n ==> meter[..n][k] == meter[k];
      }
    }
  }

  /**
   * Bill 100 cents through Stripe, take the row over for the fake provider, return to Stripe with
   * 150 due: the row says 150, Stripe accepted 250.
   */
  lemma ProviderSwitchOverbills(ident: nat -> string)
    requires Injective(ident)
    ensures var s := Run(ident, INITIAL, Pass(Stripe, 100) + Pass(Fake, 100) + Pass(Stripe, 150));
            s.row.Some? && s.row.value.usdCents == 150 && Billed(s.meter, Stripe) == 250
  {
    var a, b := MeterEvent(Stripe, ident(100), 100), MeterEvent(Fake, ident(100), 100);
    TwoPasses(ident);
    PassOverFreeRow(ident, Pass(Stripe, 100) + Pass(Fake, 100), Stripe, 150);
    assert !IsAccepted([a, b], Stripe, ident(150));
    BilledThree(a, b, MeterEvent(Stripe, ident(150), 150));
  }

  lemma TwoPasses(ident: nat -> string)
    ensures var s := Run(ident, INITIAL, Pass(Stripe, 100) + Pass(Fake, 100));
            && FreeFor(s, Stripe)
            && s.meter == [MeterEvent(Stripe, ident(100), 100), MeterEvent(Fake, ident(100), 100)]
  {
    var a, b := MeterEvent(Stripe, ident(100), 100), MeterEvent(Fake, ident(100), 100);
    PassOverFreeRow(ident, [], Stripe, 100);
    assert [] + Pass(Stripe, 100) == Pass(Stripe, 100);
    assert Accept([], a) == [a] && Accept([a], b) == [a, b];
    PassOverFreeRow(ident, Pass(Stripe, 100), Fake, 100);
  }

  lemma BilledThree(a: MeterEvent, b: MeterEvent, c: MeterEvent)
    requires a.provider == c.provider == Stripe && b.provider == Fake
    ensures Billed([a, b] + [c], Stripe) == a.usdCents + c.usdCents
  {
    assert ([a, b] + [c])[..2] == [a, b];
    assert [a, b][..1] == [a];
    assert [a][..0] == [];
    assert Billed([a], Stripe) == a.usdCents;
    assert Billed([a, b], Stripe) == a.usdCents;
  }

  /**
   * A runner that is still at the old provider when the row is taken over: its confirm names only
   * the identifier, and credits the new provider with cents it never accepted.
   */
  lemma StaleConfirmCreditsTheNewProvider(ident: nat -> string)
    ensures var old_ := [ReadRow(0, 100), Reserve(0, Stripe, 0, true), Send(0, Accepted)];
            var new_ := [ReadRow(1, 100), Reserve(1, Fake, 0, true), Confirm(0, 0, Done)];
            var s := Run(ident, INITIAL, old_ + new_);
            && s.row.Some? && s.row.value.provider == Fake && s.row.value.usdCents == 100
            && Billed(s.meter, Fake) == 0 && Forward(s)
  {
    var old_ := [ReadRow(0, 100), Reserve(0, Stripe, 0, true), Send(0, Accepted)];
    var new_ := [ReadRow(1, 100), Reserve(1, Fake, 0, true), Confirm(0, 0, Done)];
    SentToTheOldProvider(ident);
    RunThree(ident, old_, new_);
    var s := Run(ident, INITIAL, old_);
    TakenOverWhileSent(ident, s);
    NothingBilled(s.meter, Fake);
  }

  lemma SentToTheOldProvider(ident: nat -> string)
    ensures var s := Run(ident, INITIAL, [ReadRow(0, 100), Reserve(0, Stripe, 0, true), Send(0, Accepted)]);
            && s.meter == [MeterEvent(Stripe, ident(100), 100)] && s.past == {}
            && s.runners == map[0 := Sent(Stripe, ident(100))]
            && s.row == Some(Report(0, Stripe, None, Some(100), Some(ident(100)), Some(0), 0))
  {
    var steps := [ReadRow(0, 100), Reserve(0, Stripe, 0, true), Send(0, Accepted)];
    RunThree(ident, [], steps);
    assert [] + steps == steps;
    assert Decide(ident, None, Stripe, 100, 0, true) == Attempt(Reservation(Stripe, 0, 100, ident(100)));
  }

  lemma TakenOverWhileSent(ident: nat -> string, s: System)
    requires s.row == Some(Report(0, Stripe, None, Some(100), Some(ident(100)), Some(0), 0)) && s.past == {}
    requires s.runners == map[0 := Sent(Stripe, ident(100))]
    ensures var s' := Apply(ident, Apply(ident, Apply(ident, s, ReadRow(1, 100)), Reserve(1, Fake, 0, true)), Confirm(0, 0, Done));
            && s'.row == Some(Report(100, Fake, Some(ident(100)), None, None, None, 0))
            && s'.meter == s.meter && s'.past == {Stripe}
  {
    var s1 := Apply(ident, s, ReadRow(1, 100));
    assert RunnerOf(s1, 1) == Read(s.row, 100);
    assert Decide(ident, s.row, Fake, 100, 0, true) == Attempt(Reservation(Fake, 0, 100, ident(100)));
    var s2 := Apply(ident, s1, Reserve(1, Fake, 0, true));
    assert RunnerOf(s2, 0) == Sent(Stripe, ident(100));
  }

  lemma RunThree(ident: nat -> string, steps: seq<Step>, more: seq<Step>)
    requires |more| == 3
    ensures Run(ident, INITIAL, steps + more) ==
            Apply(ident, Apply(ident, Apply(ident, Run(ident, INITIAL, steps), more[0]), more[1]), more[2])
  {
    RunTwo(ident, steps, more[0], more[1]);
    RunOne(ident, steps + [more[0], more[1]], more[2]);
    assert [more[0], more[1]] + [more[2]] == more;
    assert steps + [more[0], more[1]] + [more[2]] == steps + ([more[0], more[1]] + [more[2]]);
  }
}
