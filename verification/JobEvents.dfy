/**
 * The job event log (packages/db/src/memory.ts, packages/db/src/jobs.ts): ids in append order,
 * container events numbered per job and stored once per number, reads capped at 500.
 */
module JobEvents {
  import opened Wrappers

  const PAGE_SIZE: nat := 500

  datatype EventType =
    | Started | Planned | TaskStarted | TaskFinished | TaskFailed | Merge | Verify | Gate
    | Delivery | Notify | DoneEvent | FailedEvent | KilledEvent | Log | Retry

  /** Payloads the api itself reads; anything else is plain text */
  datatype Payload =
    | Plain(text: string)
    | FailureNotice                  // a `notify` of kind `job-failed`
    | Reason(reason: string)         // of a `failed` event
    | RetriedBy(retryJobId: string)  // on the failed job
    | RetryOf(ofJobId: string)       // on its automatic retry

  /** `number` is the container's `seq`; events the api writes itself carry none */
  datatype JobEvent = JobEvent(id: nat, jobId: string, number: Option<nat>, kind: EventType, payload: Payload)

  ghost predicate WellNumbered(events: seq<JobEvent>) {
    forall i :: 0 <= i < |events| ==> events[i].id == i + 1
  }

  predicate IsNumbered(event: JobEvent, jobId: string, number: nat) {
    event.jobId == jobId && event.number == Some(number)
  }

  ghost predicate Stored(events: seq<JobEvent>, jobId: string, number: nat) {
    exists i :: 0 <= i < |events| && IsNumbered(events[i], jobId, number)
  }

  function Appended(events: seq<JobEvent>, jobId: string, number: Option<nat>, kind: EventType, payload: Payload): seq<JobEvent> {
    events + [JobEvent(|events| + 1, jobId, number, kind, payload)]
  }

  /** `insert … on conflict (job_id, seq) do nothing` */
  ghost function StoredOnce(events: seq<JobEvent>, jobId: string, number: nat, kind: EventType, payload: Payload): seq<JobEvent> {
    if Stored(events, jobId, number) then events else Appended(events, jobId, Some(number), kind, payload)
  }

  /** The job's events after the cursor, all of them */
  function EventsOf(events: seq<JobEvent>, jobId: string, afterId: nat): seq<JobEvent> {
    if events == [] then []
    else
      var rest, last := EventsOf(events[..|events| - 1], jobId, afterId), events[|events| - 1];
      if last.jobId == jobId && last.id > afterId then rest + [last] else rest
  }

  function AtMost(events: seq<JobEvent>, n: nat): seq<JobEvent> {
    if |events| <= n then events else events[..n]
  }

  function FirstPage(events: seq<JobEvent>): seq<JobEvent> {
    AtMost(events, PAGE_SIZE)
  }

  // ----- Reading by cursor -----

  lemma {:induction false} EventsOfMembers(events: seq<JobEvent>, jobId: string, afterId: nat)
    requires WellNumbered(events)
    ensures forall i :: 0 <= i < |EventsOf(events, jobId, afterId)| ==>
              var e := EventsOf(events, jobId, afterId)[i];
              e.jobId == jobId && afterId < e.id <= |events| && events[e.id - 1] == e
    ensures forall i, j :: 0 <= i < j < |EventsOf(events, jobId, afterId)| ==>
              EventsOf(events, jobId, afterId)[i].id < EventsOf(events, jobId, afterId)[j].id
  {
    if events != [] {
      EventsOfMembers(events[..|events| - 1], jobId, afterId);
    }
  }

  lemma {:induction false} CursorDrops(events: seq<JobEvent>, jobId: string, afterId: nat, k: nat)
    requires WellNumbered(events) && 0 < k <= |EventsOf(events, jobId, afterId)|
    ensures var all := EventsOf(events, jobId, afterId);
            EventsOf(events, jobId, all[k - 1].id) == all[k..]
  {
    var all := EventsOf(events, jobId, afterId);
    EventsOfMembers(events, jobId, afterId);
    var n := |events| - 1;
    var rest := EventsOf(events[..n], jobId, afterId);
    if k <= |rest| {
      CursorDrops(events[..n], jobId, afterId, k);
      EventsOfMembers(events[..n], jobId, afterId);
      assert all[k - 1] == rest[k - 1];
      if events[n].jobId == jobId && events[n].id > afterId {
        assert all == rest + [events[n]];
        assert all[k..] == rest[k..] + [events[n]];
      } else {
        assert all == rest;
      }
    } else {
      assert all == rest + [events[n]];
      NothingAfter(events, jobId, events[n].id);
    }
  }

  lemma {:induction false} NothingAfter(events: seq<JobEvent>, jobId: string, afterId: nat)
    requires WellNumbered(events) && |events| <= afterId
    ensures EventsOf(events, jobId, afterId) == []
  {
    if events != [] {
      NothingAfter(events[..|events| - 1], jobId, afterId);
    }
  }

  /** What a client that keeps asking from the last id it saw reads in `rounds` requests */
  function ReadInRounds(events: seq<JobEvent>, jobId: string, afterId: nat, rounds: nat): seq<JobEvent>
    decreases rounds
  {
    if rounds == 0 then []
    else
      var page := FirstPage(EventsOf(events, jobId, afterId));
      if page == [] then []
      else page + ReadInRounds(events, jobId, page[|page| - 1].id, rounds - 1)
  }

  /** Paging by cursor misses nothing, repeats nothing and keeps the order. */
  lemma {:induction false} PagingReadsTheLog(events: seq<JobEvent>, jobId: string, afterId: nat, rounds: nat)
    requires WellNumbered(events)
    ensures var all := EventsOf(events, jobId, afterId);
            ReadInRounds(events, jobId, afterId, rounds) == AtMost(all, rounds * 500)
    decreases rounds
  {
    var all := EventsOf(events, jobId, afterId);
    var page := FirstPage(all);
    if rounds > 0 && page != [] {
      CursorDrops(events, jobId, afterId, |page|);
      PagingReadsTheLog(events, jobId, page[|page| - 1].id, rounds - 1);
      PageThenRest(all, (rounds - 1) * PAGE_SIZE);
    }
  }

  lemma PageThenRest(all: seq<JobEvent>, more: nat)
    ensures var page := FirstPage(all); page + AtMost(all[|page|..], more) == AtMost(all, more + PAGE_SIZE)
  {
  }

  // ----- The store -----

  class EventLog {
    var events: seq<JobEvent>
    /** `${jobId}:${seq}` → position of the event stored for that number */
    var numbered: map<(string, nat), nat>

    /** The index names exactly the numbered events, one per number */
    ghost predicate Valid()
      reads this
    {
      && WellNumbered(events)
      && (forall key :: key in numbered ==>
            numbered[key] < |events| && IsNumbered(events[numbered[key]], key.0, key.1))
      && (forall i :: 0 <= i < |events| && events[i].number.Some? ==>
            var key := (events[i].jobId, events[i].number.value);
            key in numbered && numbered[key] == i)
    }

    constructor ()
      ensures Valid() && events == []
    {
      events, numbered := [], map[];
    }

    method AppendEvent(jobId: string, kind: EventType, payload: Payload) returns (event: JobEvent)
      requires Valid()
      modifies this
      ensures Valid() && events == Appended(old(events), jobId, None, kind, payload)
      ensures event == events[|events| - 1]
    {
      event := JobEvent(|events| + 1, jobId, None, kind, payload);
      events := events + [event];
    }

    /** The in-memory index makes the same decision as the unique `(job_id, seq)` index. */
    method AppendEventOnce(jobId: string, number: nat, kind: EventType, payload: Payload)
      returns (event: JobEvent, duplicate: bool)
      requires Valid()
      modifies this
      ensures Valid() && events == StoredOnce(old(events), jobId, number, kind, payload)
      ensures duplicate == Stored(old(events), jobId, number)
      ensures event in events && IsNumbered(event, jobId, number)
      ensures !duplicate ==> event.kind == kind && event.payload == payload
    {
      var key := (jobId, number);
      if key in numbered {
        event := events[numbered[key]];
        return event, true;
      }
      assert !Stored(events, jobId, number);
      event := JobEvent(|events| + 1, jobId, Some(number), kind, payload);
      events := events + [event];
      assert events[|events| - 1] == event;
      numbered := numbered[key := |events| - 1];
      duplicate := false;
    }

    /** `filter(…).slice(0, 500)` */
    method ListEvents(jobId: string, afterId: nat) returns (page: seq<JobEvent>)
      ensures page == FirstPage(EventsOf(events, jobId, afterId))
    {
      var found: seq<JobEvent> := [];
      for i := 0 to |events|
        invariant found == EventsOf(events[..i], jobId, afterId)
      {
        assert events[..i + 1][..i] == events[..i];
        if events[i].jobId == jobId && events[i].id > afterId {
          found := found + [events[i]];
        }
      }
      assert events[..|events|] == events;
      page := if |found| <= PAGE_SIZE then found else found[..PAGE_SIZE];
    }
  }
}
