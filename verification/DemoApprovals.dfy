/**
 * The rolling weekly cap on voucher-demo approvals (packages/db/src/orders.ts `stampDemoApproval`,
 * apps/api/src/services/orderService.ts `approveDemoBuild`). Count and stamp are one serialised step.
 */
module DemoApprovals {
  import opened Wrappers
  import opened SlidingWindow

  const CAP_WINDOW_MS: int := 7 * 24 * 60 * 60 * 1000

  datatype DemoOrder = DemoOrder(isDemo: bool, depositPaid: bool, buildApprovedAt: Option<int>)
  datatype Stamp = Stamp(orderId: string, at: int)
  datatype Approval = Stamped | AlreadyApproved | CapReached(approved: nat) | NotApprovable

  /** Demo orders approved at or after `since` */
  function ApprovedSince(orders: map<string, DemoOrder>, since: int): set<string> {
    set id | id in orders && orders[id].isDemo && orders[id].buildApprovedAt.Some? &&
             orders[id].buildApprovedAt.value >= since
  }

  function Times(log: seq<Stamp>): seq<int> {
    seq(|log|, i requires 0 <= i < |log| => log[i].at)
  }

  ghost predicate DistinctOrders(log: seq<Stamp>) {
    forall i, j :: 0 <= i < j < |log| ==> log[i].orderId != log[j].orderId
  }

  /** Closed windows of 7 days in whole milliseconds: `[t - 7d, t]` */
  ghost predicate Capped(log: seq<Stamp>, cap: nat) {
    Chronological(Times(log)) && Admitted(Times(log), CAP_WINDOW_MS + 1, cap)
  }

  lemma ClosedWeekIsCapped(log: seq<Stamp>, cap: nat, t: int)
    requires Capped(log, cap)
    ensures CountIn(Times(log), t - 7 * 24 * 3_600_000 - 1, t) <= cap
  {
    WindowBound(Times(log), CAP_WINDOW_MS + 1, cap, t);
  }

  function LoggedSince(log: seq<Stamp>, since: int): set<string> {
    set i | 0 <= i < |log| && log[i].at >= since :: log[i].orderId
  }

  /** Distinct orders, so counting orders is counting stamps. */
  lemma {:induction false} CountLogged(log: seq<Stamp>, since: int, hi: int)
    requires DistinctOrders(log) && forall i :: 0 <= i < |log| ==> log[i].at <= hi
    ensures |LoggedSince(log, since)| == CountIn(Times(log), since - 1, hi)
  {
    if log != [] {
      var n := |log| - 1;
      CountLogged(log[..n], since, hi);
      LastLogged(log, since);
      assert Times(log) == Times(log[..n]) + [log[n].at];
      CountAppend(Times(log[..n]), log[n].at, since - 1, hi);
    }
  }

  lemma LastLogged(log: seq<Stamp>, since: int)
    requires log != [] && DistinctOrders(log)
    ensures var rest, last := LoggedSince(log[..|log| - 1], since), log[|log| - 1];
            && last.orderId !in rest
            && LoggedSince(log, since) == if last.at >= since then rest + {last.orderId} else rest
  {
    var n := |log| - 1;
    var rest := LoggedSince(log[..n], since);
    forall id | id in rest ensures id in LoggedSince(log, since) && id != log[n].orderId {
      var i :| 0 <= i < n && log[..n][i].at >= since && log[..n][i].orderId == id;
      assert log[i].orderId == id;
    }
  }

  /** A stamp written while fewer than `cap` orders were stamped in the week up to now */
  lemma StampKeepsCap(log: seq<Stamp>, cap: nat, orderId: string, now: int)
    requires Capped(log, cap) && DistinctOrders(log) && |LoggedSince(log, now - CAP_WINDOW_MS)| < cap
    requires forall i :: 0 <= i < |log| ==> log[i].at <= now
    ensures Capped(log + [Stamp(orderId, now)], cap)
  {
    CountLogged(log, now - CAP_WINDOW_MS, now);
    ExtendAdmitted(Times(log), CAP_WINDOW_MS + 1, cap, now);
    assert Times(log + [Stamp(orderId, now)]) == Times(log) + [now];
  }

  class OrderTable {
    var orders: map<string, DemoOrder>
    /** Every stamp, in the order it was written */
    ghost var log: seq<Stamp>

    /** The log lists exactly the approved orders of the table, with their instants */
    ghost predicate Valid()
      reads this
    {
      && DistinctOrders(log)
      && (forall i :: 0 <= i < |log| ==>
            log[i].orderId in orders && orders[log[i].orderId].isDemo &&
            orders[log[i].orderId].buildApprovedAt == Some(log[i].at))
      && (forall id :: id in orders && orders[id].isDemo && orders[id].buildApprovedAt.Some? ==>
            exists i :: 0 <= i < |log| && log[i].orderId == id)
    }

    constructor (orders: map<string, DemoOrder>)
      requires forall id :: id in orders ==> orders[id].buildApprovedAt.None?
      ensures Valid() && log == [] && this.orders == orders
    {
      this.orders := orders;
      log := [];
    }

    /** `stampDemoApproval`: no cap means an admin's `force`. */
    method StampDemoApproval(orderId: string, approvedAt: int, since: int, cap: Option<nat>)
      returns (stamped: bool, approved: nat)
      modifies this
      ensures approved == |ApprovedSince(old(orders), since)|
      ensures stamped <==> (cap == None || approved < cap.value) &&
                           orderId in old(orders) && old(orders)[orderId].buildApprovedAt.None?
      ensures orders == if stamped then old(orders)[orderId := old(orders)[orderId].(buildApprovedAt := Some(approvedAt))]
                        else old(orders)
      ensures log == if stamped then old(log) + [Stamp(orderId, approvedAt)] else old(log)
      ensures old(Valid()) && (orderId in old(orders) ==> old(orders)[orderId].isDemo) ==> Valid()
    {
      approved := |ApprovedSince(orders, since)|;
      stamped := false;
      if cap.Some? && approved >= cap.value {
        return;
      }
      if orderId !in orders || orders[orderId].buildApprovedAt.Some? {
        return;
      }
      ghost var before := orders;
      orders := orders[orderId := orders[orderId].(buildApprovedAt := Some(approvedAt))];
      log := log + [Stamp(orderId, approvedAt)];
      stamped := true;
      if old(Valid()) && before[orderId].isDemo {
        forall id | id in orders && orders[id].isDemo && orders[id].buildApprovedAt.Some?
          ensures exists i :: 0 <= i < |log| && log[i].orderId == id
        {
          if id == orderId {
            assert log[|log| - 1].orderId == id;
          } else {
            assert id in before;
            var i :| 0 <= i < |old(log)| && old(log)[i].orderId == id;
            assert log[i].orderId == id;
          }
        }
      }
    }

    /**
     * `approveDemoBuild` up to the build start. With a clock that never runs behind an earlier
     * stamp, an unforced approval keeps every closed week under the cap, and no stamp ever changes.
     */
    method ApproveDemoBuild(orderId: string, now: int, cap: nat, force: bool) returns (result: Approval)
      requires Valid()
      requires forall i :: 0 <= i < |log| ==> log[i].at <= now
      modifies this
      ensures Valid()
      ensures !force && old(Capped(log, cap)) ==> Capped(log, cap)
      ensures forall id :: id in old(orders) && old(orders)[id].buildApprovedAt.Some? ==>
                id in orders && orders[id] == old(orders)[id]
      ensures var approved := |ApprovedSince(old(orders), now - 7 * 24 * 3_600_000)|;
              result == if orderId !in old(orders) || !old(orders)[orderId].isDemo || !old(orders)[orderId].depositPaid then NotApprovable
                        else if old(orders)[orderId].buildApprovedAt.Some? then AlreadyApproved
                        else if force || approved < cap then Stamped
                        else CapReached(approved)
      ensures result == Stamped <==> log == old(log) + [Stamp(orderId, now)]
      ensures result != Stamped ==> log == old(log) && orders == old(orders)
    {
      if orderId !in orders || !orders[orderId].isDemo || !orders[orderId].depositPaid {
        return NotApprovable;
      }
      if orders[orderId].buildApprovedAt.Some? {
        return AlreadyApproved;
      }
      ghost var before, logged := orders, log;
      var stamped, approved := StampDemoApproval(orderId, now, now - CAP_WINDOW_MS,
        if force then None else Some(cap));
      if stamped {
        if !force && Capped(logged, cap) {
          assert LoggedSince(logged, now - CAP_WINDOW_MS) == ApprovedSince(before, now - CAP_WINDOW_MS);
          StampKeepsCap(logged, cap, orderId, now);
        }
        return Stamped;
      }
      result := CapReached(approved);
    }
  }
}
