/** The monthly usage-report row (packages/db/src/resident.ts, packages/db/src/memory.ts). */
module UsageReports {
  import opened SqlLogic
  import opened Wrappers

  // A reservation is made before the payment provider is called and confirmed afterwards. The
  // in-memory methods are specified by the SQL statements, whose `where` clauses are read with
  // three-valued logic.

  datatype Provider = Stripe | Fake

  datatype Report = Report(
    usdCents: nat,
    provider: Provider,
    reference: Option<string>,
    pendingUsdCents: Option<nat>,
    pendingIdentifier: Option<string>,
    pendingAt: Option<int>,
    reportedAt: int)

  datatype Reservation = Reservation(provider: Provider, fromUsdCents: nat, toUsdCents: nat, identifier: string)

  /** Installation and month: the table's primary key */
  type Key = (string, string)

  // ----- SQL -----

  /** What one statement did: no row matched, a row was written, or a not-null column was violated */
  datatype Written = NoRow | Row(report: Report) | NotNullViolation

  /** `insert … on conflict do update … where … returning *` */
  function SqlReserve(row: Option<Report>, r: Reservation, now: int): Written {
    match row
    case None =>
      Row(Report(0, r.provider, None, Some(r.toUsdCents), Some(r.identifier), Some(now), now))
    case Some(e) =>
      var matches :=
        Known(e.provider != r.provider).Or(
          Known(e.usdCents == r.fromUsdCents).And(
            Known(e.pendingIdentifier.None?).Or(SqlEquals(e.pendingIdentifier, r.identifier))));
      if matches.True3? then
        Row(Report(
          if e.provider == r.provider then e.usdCents else 0,
          r.provider,
          if e.provider == r.provider then e.reference else None,
          Some(r.toUsdCents), Some(r.identifier), Some(now), e.reportedAt))
      else NoRow
  }

  /** `update … set usd_cents = pending_usd_cents … where pending_identifier = …`; `usd_cents` is not null */
  function SqlConfirm(row: Option<Report>, identifier: string, reference: Option<string>, now: int): Written {
    match row
    case None => NoRow
    case Some(e) =>
      if !SqlEquals(e.pendingIdentifier, identifier).True3? then NoRow
      else
        match e.pendingUsdCents
        case None => NotNullViolation
        case Some(cents) => Row(Report(cents, e.provider, reference, None, None, None, now))
  }

  function SqlRelease(row: Option<Report>, identifier: string): Option<Report> {
    match row
    case None => None
    case Some(e) =>
      if SqlEquals(e.pendingIdentifier, identifier).True3? then Some(e.(pendingAt := None)) else row
  }

  /** Identifier and cents of a reservation are set and cleared together */
  predicate PendingTogether(e: Report) {
    e.pendingIdentifier.Some? <==> e.pendingUsdCents.Some?
  }

  /** The row after the memory backend's confirm: it falls back to the confirmed cents */
  function MemoryConfirmed(e: Report, reference: Option<string>, now: int): Report {
    Report(e.pendingUsdCents.GetOr(e.usdCents), e.provider, reference, None, None, None, now)
  }

  /**
   * A reservation takes the row if and only if there is none, it is another provider's, or its
   * confirmed cents are those the runner read and nothing else is pending on it. What another
   * provider had confirmed, cents and reference, is forgotten; the row's own is kept.
   */
  lemma ReservedIff(row: Option<Report>, r: Reservation, now: int)
    ensures SqlReserve(row, r, now) ==
            if row.None? then Row(Report(0, r.provider, None, Some(r.toUsdCents), Some(r.identifier), Some(now), now))
            else if row.value.provider != r.provider then
              Row(Report(0, r.provider, None, Some(r.toUsdCents), Some(r.identifier), Some(now), row.value.reportedAt))
            else if row.value.usdCents == r.fromUsdCents && (row.value.pendingIdentifier == None || row.value.pendingIdentifier == Some(r.identifier)) then
              Row(row.value.(pendingUsdCents := Some(r.toUsdCents), pendingIdentifier := Some(r.identifier), pendingAt := Some(now)))
            else NoRow
  {
  }

  /** Confirming and releasing touch the row only under the identifier that is pending on it. */
  lemma SettledIff(e: Report, identifier: string, reference: Option<string>, now: int)
    requires e.pendingUsdCents.Some?
    ensures SqlConfirm(Some(e), identifier, reference, now) ==
            if e.pendingIdentifier == Some(identifier) then Row(Report(e.pendingUsdCents.value, e.provider, reference, None, None, None, now)) else NoRow
    ensures SqlRelease(Some(e), identifier) == if e.pendingIdentifier == Some(identifier) then Some(e.(pendingAt := None)) else Some(e)
  {
  }

  /**
   * The two backends confirm alike exactly when the row does not match, or carries the cents of
   * its reservation; otherwise Postgres rejects the statement and memory clears the reservation.
   */
  lemma ConfirmAgreement(e: Report, identifier: string, reference: Option<string>, now: int)
    ensures (SqlConfirm(Some(e), identifier, reference, now) ==
             if e.pendingIdentifier == Some(identifier) then Row(MemoryConfirmed(e, reference, now)) else NoRow)
            <==> (e.pendingIdentifier == Some(identifier) ==> e.pendingUsdCents.Some?)
    ensures PendingTogether(e) ==> !SqlConfirm(Some(e), identifier, reference, now).NotNullViolation?
  {
    if e.pendingIdentifier == Some(identifier) && e.pendingUsdCents.None? {
      assert SqlConfirm(Some(e), identifier, reference, now) == NotNullViolation;
    }
  }

  class MemoryReports {
    var reports: map<Key, Report>

    ghost function RowOf(key: Key): Option<Report>
      reads this
    {
      if key in reports then Some(reports[key]) else None
    }

    ghost predicate Valid()
      reads this
    {
      forall key :: key in reports ==> PendingTogether(reports[key])
    }

    constructor ()
      ensures Valid() && reports == map[]
    {
      reports := map[];
    }

    /** `reserveUsageReport`: on every row, the decision and the row the SQL statement gives. */
    method Reserve(key: Key, r: Reservation, now: int) returns (result: Written)
      modifies this
      ensures result == SqlReserve(old(RowOf(key)), r, now)
      ensures reports == if result.Row? then old(reports)[key := result.report] else old(reports)
      ensures old(Valid()) ==> Valid()
    {
      var sameProvider := key in reports && reports[key].provider == r.provider;
      if sameProvider {
        var existing := reports[key];
        var retry := existing.pendingIdentifier == Some(r.identifier);
        if existing.usdCents != r.fromUsdCents {
          return NoRow;
        }
        if existing.pendingIdentifier != None && !retry {
          return NoRow;
        }
      }
      var next := Report(
        if sameProvider then reports[key].usdCents else 0,
        r.provider,
        if sameProvider then reports[key].reference else None,
        Some(r.toUsdCents), Some(r.identifier), Some(now),
        if key in reports then reports[key].reportedAt else now);
      reports := reports[key := next];
      result := Row(next);
    }

    /** `confirmUsageReport`: agrees with SQL on every row a reservation can leave behind. */
    method Confirm(key: Key, identifier: string, reference: Option<string>, now: int) returns (result: Written)
      modifies this
      ensures old(Valid()) ==> Valid() && result == SqlConfirm(old(RowOf(key)), identifier, reference, now)
      ensures result.Row? <==> key in old(reports) && old(reports)[key].pendingIdentifier == Some(identifier)
      ensures result.Row? ==> result.report == MemoryConfirmed(old(reports)[key], reference, now)
      ensures reports == if result.Row? then old(reports)[key := result.report] else old(reports)
    {
      if key !in reports || reports[key].pendingIdentifier != Some(identifier) {
        return NoRow;
      }
      var existing := reports[key];
      ConfirmAgreement(existing, identifier, reference, now);
      var next := MemoryConfirmed(existing, reference, now);
      reports := reports[key := next];
      result := Row(next);
    }

    /** `releaseUsageReport`: the reservation stays, only its in-flight mark goes. */
    method Release(key: Key, identifier: string)
      modifies this
      ensures RowOf(key) == SqlRelease(old(RowOf(key)), identifier)
      ensures reports - {key} == old(reports) - {key}
      ensures old(Valid()) ==> Valid()
    {
      if key in reports && reports[key].pendingIdentifier == Some(identifier) {
        reports := reports[key := reports[key].(pendingAt := None)];
      }
    }
  }
}
