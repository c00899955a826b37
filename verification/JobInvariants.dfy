/**
 * What every run of the job-control calls keeps. An order has at most one active job and a job at
 * most one token, which ends with it; a rebuild is linked to one failed job of its order, with the
 * same ceiling, and the first event of its log says so; a failure waits for its rebuild call until
 * that ran or crashed; and a held failure mail is answered exactly when that call came through and
 * the failure was no budget verdict the container reported.
 */
module JobInvariants {
  import opened JobControl
  import opened JobEvents
  import opened JobTable
  import opened Wrappers

  // ----- The table -----

  ghost predicate ActiveOf(t: Table, id: string, orderId: string) {
    id in t.jobs && t.jobs[id].orderId == orderId && IsActive(t.jobs[id].status)
  }

  /** At most one active job per order, at most one token per job, and tokens only of active jobs */
  ghost predicate TableOk(t: Table) {
    && (forall a, b, orderId :: ActiveOf(t, a, orderId) && ActiveOf(t, b, orderId) ==> a == b)
    && (forall h :: h in t.tokens ==> t.tokens[h] in t.jobs && IsActive(t.jobs[t.tokens[h]].status))
    && (forall g, h :: g in t.tokens && h in t.tokens && t.tokens[g] == t.tokens[h] ==> g == h)
  }

  lemma InsertKeepsTable(t: Table, id: string, job: Job, hash: string)
    requires TableOk(t) && id !in t.jobs && hash !in t.tokens && !HasActive(t, job.orderId) && IsActive(job.status)
    ensures TableOk(Insert(t, id, job, Some(hash)))
  {
    var t' := Insert(t, id, job, Some(hash));
    forall a, b, orderId | ActiveOf(t', a, orderId) && ActiveOf(t', b, orderId) ensures a == b {
      if a != id { assert ActiveOf(t, a, orderId); }
      if b != id { assert ActiveOf(t, b, orderId); }
    }
  }

  /** A write keeps the table in order when an end revokes the token and a new token is fresh */
  lemma UpdateKeepsTable(t: Table, id: string, update: JobUpdate)
    requires TableOk(t) && id in t.jobs && IsActive(t.jobs[id].status)
    requires update.status.Some? && !IsActive(update.status.value) ==> update.token.Revoke?
    requires update.token.Replace? ==> update.token.hash !in t.tokens
    ensures TableOk(Update(t, id, update))
  {
    var t' := Update(t, id, update);
    forall a, b, orderId | ActiveOf(t', a, orderId) && ActiveOf(t', b, orderId) ensures a == b {
      assert ActiveOf(t, a, orderId) && ActiveOf(t, b, orderId);
    }
  }

  /** Later rows: nothing moves backwards, and a job that has ended keeps its row */
  ghost predicate RowMovesOn(before: Job, after: Job) {
    && after.orderId == before.orderId && after.sizeClass == before.sizeClass && after.maxTokens == before.maxTokens
    && Rank(before.status) <= Rank(after.status)
    && (!IsActive(before.status) ==> after == before)
  }

  ghost predicate MovesOn(t: Table, t': Table) {
    forall id :: id in t.jobs ==> id in t'.jobs && RowMovesOn(t.jobs[id], t'.jobs[id])
  }

  // ----- The event log and the links -----

  ghost predicate EventOk(s: State, e: JobEvent) {
    && e.id > 0 && e.jobId in s.table.jobs
    && (e.kind.Retry? ==> e.jobId in s.links || e.jobId in s.links.Values)
  }

  /** The first event of a retry's log is its marker, so it is within the first 500 */
  ghost predicate Marked(events: seq<JobEvent>, id: string) {
    EventsOf(events, id, 0) != [] && EventsOf(events, id, 0)[0].kind.Retry?
  }

  ghost predicate EventsOk(s: State) {
    && (forall i :: 0 <= i < |s.events| ==> EventOk(s, s.events[i]))
    && (forall r :: r in s.links ==> Marked(s.events, r))
  }

  ghost predicate LinkOk(s: State, r: string)
    requires r in s.links
  {
    var id := s.links[r];
    && r in s.table.jobs && id in s.table.jobs
    && id !in s.links && id !in s.due
    && s.table.jobs[id].status.Failed?
    && s.table.jobs[r].maxTokens == s.table.jobs[id].maxTokens
    && s.table.jobs[r].orderId == s.table.jobs[id].orderId
  }

  ghost predicate LinksOk(s: State) {
    && (forall r :: r in s.links ==> LinkOk(s, r))
    && (forall q, r :: q in s.links && r in s.links && s.links[q] == s.links[r] ==> q == r)
  }

  // ----- Failures waiting for their rebuild call, and held mails -----

  predicate Answered(s: State, id: string) {
    id in s.paged || id in s.links.Values
  }

  predicate FailedRow(s: State, id: string) {
    id in s.table.jobs && s.table.jobs[id].status.Failed?
  }

  ghost predicate SettlingOk(s: State) {
    && (forall id :: id in s.due ==> id in s.trigger && id !in s.paged && id !in s.lost)
    && (forall id :: id in s.trigger ==> FailedRow(s, id))
    && (forall id :: id in s.paged || id in s.lost ==> id in s.trigger)
  }

  /** What decides a settled failure: the call ran and read, and a report's verdict was not about the budget */
  predicate Answerable(s: State, id: string)
    requires id in s.table.jobs && id in s.trigger
  {
    id !in s.lost && !(s.trigger[id].ByReport? && IsBudgetFailure(s.table.jobs[id].reason))
  }

  ghost predicate HeldOk(env: Env, s: State, id: string) {
    && id in s.table.jobs && Eligible(env, s.table.jobs[id]) && id !in s.links
    && (FailedRow(s, id) ==> id in s.trigger)
    && (FailedRow(s, id) && id !in s.due ==> (Answered(s, id) <==> Answerable(s, id)))
  }

  ghost predicate Inv(env: Env, s: State) {
    && TableOk(s.table)
    && EventsOk(s)
    && LinksOk(s)
    && SettlingOk(s)
    && forall id :: id in s.held ==> HeldOk(env, s, id)
  }

  // ----- Logs -----

  lemma EventsOfOne(events: seq<JobEvent>, e: JobEvent, id: string)
    ensures EventsOf(events + [e], id, 0) == if e.jobId == id && e.id > 0 then EventsOf(events, id, 0) + [e] else EventsOf(events, id, 0)
  {
    assert (events + [e])[..|events|] == events;
  }

  lemma MarkedStays(events: seq<JobEvent>, e: JobEvent, id: string)
    requires Marked(events, id)
    ensures Marked(events + [e], id)
  {
    EventsOfOne(events, e, id);
  }

  lemma {:induction false} EventsOfAreOwn(events: seq<JobEvent>, id: string)
    ensures forall e :: e in EventsOf(events, id, 0) ==> e in events && e.jobId == id
  {
    if events != [] {
      EventsOfAreOwn(events[..|events| - 1], id);
    }
  }

  /** A retry is never a candidate, however long its log: its marker is the first event. */
  lemma RetryIsNoCandidate(env: Env, s: State, id: string, job: Job, reason: Option<string>)
    requires EventsOk(s) && id in s.links
    ensures !Candidate(env, s, id, job, reason)
  {
    assert Marked(s.events, id);
    var page := FirstPage(EventsOf(s.events, id, 0));
    assert page[0] == EventsOf(s.events, id, 0)[0];
    assert page[0] in page;
  }

  /** A job neither retried nor a retry has no retry event at all. */
  lemma UnlinkedHasNoMarker(s: State, id: string)
    requires EventsOk(s) && id !in s.links && id !in s.links.Values
    ensures forall e :: e in FirstPage(EventsOf(s.events, id, 0)) ==> !e.kind.Retry?
  {
    EventsOfAreOwn(s.events, id);
    forall e | e in FirstPage(EventsOf(s.events, id, 0)) ensures !e.kind.Retry? {
      assert e in EventsOf(s.events, id, 0);
      var i :| 0 <= i < |s.events| && s.events[i] == e;
      assert EventOk(s, s.events[i]);
    }
  }

  // ----- Small steps -----

  /** Every row stays, with its order and ceiling, and a failed one stays as it is */
  ghost predicate RowsGoOn(t: Table, t': Table) {
    forall id :: id in t.jobs ==>
      && id in t'.jobs && t'.jobs[id].orderId == t.jobs[id].orderId && t'.jobs[id].maxTokens == t.jobs[id].maxTokens
      && (t.jobs[id].status.Failed? ==> t'.jobs[id] == t.jobs[id])
  }

  /** What a step that writes no event and no link has to keep for the log and the links to stay in order */
  lemma LogAndLinksStay(s: State, s': State)
    requires EventsOk(s) && LinksOk(s) && RowsGoOn(s.table, s'.table)
    requires s'.events == s.events && s'.links == s.links
    requires forall id :: id in s'.due && id !in s.due ==> !FailedRow(s, id)
    ensures EventsOk(s') && LinksOk(s')
  {
    forall i | 0 <= i < |s'.events| ensures EventOk(s', s'.events[i]) {
      assert EventOk(s, s.events[i]);
    }
    forall r | r in s'.links ensures LinkOk(s', r) {
      assert LinkOk(s, r);
    }
  }

  /** Appending an event that is no retry marker, about a job that exists */
  lemma AppendKeepsInv(env: Env, s: State, s': State)
    requires Inv(env, s) && |s'.events| == |s.events| + 1 && s.events <= s'.events
    requires s' == s.(events := s'.events)
    requires var e := s'.events[|s.events|]; e.id > 0 && e.jobId in s.table.jobs && !e.kind.Retry?
    ensures Inv(env, s')
  {
    var e := s'.events[|s.events|];
    assert s'.events == s.events + [e];
    forall i | 0 <= i < |s'.events| ensures EventOk(s', s'.events[i]) {
      assert i < |s.events| ==> EventOk(s, s.events[i]);
    }
    forall r | r in s'.links ensures Marked(s'.events, r) {
      MarkedStays(s.events, e, r);
    }
    forall r | r in s'.links ensures LinkOk(s', r) {
      assert LinkOk(s, r);
    }
    forall id | id in s'.held ensures HeldOk(env, s', id) {
      assert HeldOk(env, s, id);
    }
  }

  /** The table's rows after one active row was replaced by a later version of itself that has not failed */
  ghost predicate OnlyRow(t: Table, t': Table, id: string) {
    && id in t.jobs && IsActive(t.jobs[id].status)
    && t'.jobs.Keys == t.jobs.Keys
    && (forall other :: other in t.jobs && other != id ==> t'.jobs[other] == t.jobs[other])
    && t'.jobs[id].orderId == t.jobs[id].orderId && t'.jobs[id].sizeClass == t.jobs[id].sizeClass
    && t'.jobs[id].maxTokens == t.jobs[id].maxTokens
  }

  lemma RowWriteKeepsInv(env: Env, s: State, s': State, id: string)
    requires Inv(env, s) && TableOk(s'.table) && OnlyRow(s.table, s'.table, id)
    requires s' == s.(table := s'.table) && !s'.table.jobs[id].status.Failed?
    ensures Inv(env, s')
  {
    LogAndLinksStay(s, s');
    forall other | other in s'.held ensures HeldOk(env, s', other) {
      assert HeldOk(env, s, other);
    }
  }

  /** A write to an active row that does not fail it */
  lemma WriteKeepsInv(env: Env, s: State, id: string, update: JobUpdate)
    requires Inv(env, s) && id in s.table.jobs && IsActive(s.table.jobs[id].status)
    requires update.status.Some? ==> !update.status.value.Failed?
    requires update.status.Some? && !IsActive(update.status.value) ==> update.token.Revoke?
    requires update.token.Replace? ==> update.token.hash !in s.table.tokens
    ensures Inv(env, Write(s, id, update))
  {
    UpdateKeepsTable(s.table, id, update);
    RowWriteKeepsInv(env, s, Write(s, id, update), id);
  }

  /** An active row fails, and is owed a rebuild call unless it is not held: a launch that did not happen */
  lemma FailedRowKeepsInv(env: Env, s: State, s': State, id: string)
    requires Inv(env, s) && TableOk(s'.table) && OnlyRow(s.table, s'.table, id) && s'.table.jobs[id].status.Failed?
    requires s' == s.(table := s'.table, due := s'.due, trigger := s'.trigger)
    requires (s'.due == s.due + {id} && id in s'.trigger && s'.trigger == s.trigger[id := s'.trigger[id]])
             || (s'.due == s.due && s'.trigger == s.trigger && id !in s.held)
    ensures Inv(env, s')
  {
    LogAndLinksStay(s, s');
    forall other | other in s'.held ensures HeldOk(env, s', other) {
      assert HeldOk(env, s, other);
    }
  }

  lemma LaunchFailureKeepsInv(env: Env, s: State, id: string, update: JobUpdate)
    requires Inv(env, s) && id in s.table.jobs && IsActive(s.table.jobs[id].status) && id !in s.held
    requires update.status == Some(Failed) && update.token.Revoke?
    ensures Inv(env, Write(s, id, update))
  {
    UpdateKeepsTable(s.table, id, update);
    FailedRowKeepsInv(env, s, Write(s, id, update), id);
  }

  /** Failing an active row and owing it a rebuild call */
  lemma FailKeepsInv(env: Env, s: State, id: string, update: JobUpdate, trigger: Trigger)
    requires Inv(env, s) && id in s.table.jobs && IsActive(s.table.jobs[id].status)
    requires update.status == Some(Failed) && update.token.Revoke?
    ensures Inv(env, Fail(Write(s, id, update), id, trigger))
  {
    UpdateKeepsTable(s.table, id, update);
    FailedRowKeepsInv(env, s, Fail(Write(s, id, update), id, trigger), id);
  }

  lemma CreateKeepsInv(env: Env, s: State, id: string, job: Job, token: string)
    requires Inv(env, s) && Fresh(s, id, token) && !HasActive(s.table, job.orderId) && IsActive(job.status)
    ensures Inv(env, Create(s, id, job, token)) && id !in s.held && id !in s.links && id !in s.trigger
  {
    var s' := Create(s, id, job, token);
    InsertKeepsTable(s.table, id, job, token);
    LogAndLinksStay(s, s');
    forall other | other in s'.held ensures HeldOk(env, s', other) {
      assert HeldOk(env, s, other);
    }
    assert id in s.held ==> HeldOk(env, s, id);
    assert id in s.links ==> LinkOk(s, id);
  }

  lemma LaunchKeepsInv(env: Env, s: State, id: string, launch: Launch)
    requires Inv(env, s) && id in s.table.jobs && IsActive(s.table.jobs[id].status) && id !in s.held
    ensures Inv(env, Launched(env, s, id, launch))
  {
    if env.ecsConfigured {
      match launch
      case Task(arn) => WriteKeepsInv(env, s, id, NO_UPDATE.(taskArn := Some(arn)));
      case LaunchFails(message) =>
        var failed := Append(s, id, FailedEvent, Reason(message));
        AppendKeepsInv(env, s, failed);
        LaunchFailureKeepsInv(env, failed, id, NO_UPDATE.(status := Some(Failed), reason := Some(message), token := Revoke));
    }
  }

  // ----- Events from the container -----

  lemma ReceiveKeepsInv(env: Env, s: State, id: string, job: Job, reason: Option<string>, e: ContainerEvent)
    requires Inv(env, s) && id in s.table.jobs && s.table.jobs[id] == job && IsActive(job.status) && !e.kind.Retry?
    ensures Inv(env, Receive(env, s, id, job, reason, e))
    ensures Receive(env, s, id, job, reason, e).table == s.table
  {
    if !(e.number.Some? && Stored(s.events, id, e.number.value)) {
      var stored := s.(events := Appended(s.events, id, e.number, e.kind, e.payload));
      AppendKeepsInv(env, s, stored);
      if e.kind.Notify? && e.payload.FailureNotice? && Candidate(env, stored, id, job, reason) {
        var s' := stored.(held := stored.held + {id});
        if id in stored.links {
          RetryIsNoCandidate(env, stored, id, job, reason);
        }
        LogAndLinksStay(stored, s');
        forall other | other in s'.held ensures HeldOk(env, s', other) {
          if other in stored.held {
            assert HeldOk(env, stored, other);
          }
        }
      }
    }
  }

  lemma {:induction false} ReceiveAllKeepsInv(env: Env, s: State, id: string, job: Job, reason: Option<string>, batch: seq<ContainerEvent>)
    requires Inv(env, s) && id in s.table.jobs && s.table.jobs[id] == job && IsActive(job.status)
    requires forall i :: 0 <= i < |batch| ==> !batch[i].kind.Retry?
    ensures Inv(env, ReceiveAll(env, s, id, job, reason, batch))
    ensures ReceiveAll(env, s, id, job, reason, batch).table == s.table
  {
    if batch != [] {
      var n := |batch| - 1;
      ReceiveAllKeepsInv(env, s, id, job, reason, batch[..n]);
      ReceiveKeepsInv(env, ReceiveAll(env, s, id, job, reason, batch[..n]), id, job, reason, batch[n]);
    }
  }

  // ----- The rebuild -----

  /** Settling a due failure without a rebuild: right when a page goes out exactly when it should */
  lemma SettleKeepsInv(env: Env, s: State, id: string, page: bool)
    requires Inv(env, s) && id in s.due && FailedRow(s, id)
    requires id in s.held ==> (page || id in s.links.Values <==> Answerable(s, id))
    ensures Inv(env, Settle(s, id, page))
  {
    var s' := Settle(s, id, page);
    LogAndLinksStay(s, s');
    forall other | other in s'.held ensures HeldOk(env, s', other) {
      assert HeldOk(env, s, other);
    }
  }

  lemma LoseKeepsInv(env: Env, s: State, id: string)
    requires Inv(env, s) && id in s.due
    ensures Inv(env, s.(due := s.due - {id}, lost := s.lost + {id}))
  {
    var s' := s.(due := s.due - {id}, lost := s.lost + {id});
    NotYetRetried(s, id);
    LogAndLinksStay(s, s');
    forall other | other in s'.held ensures HeldOk(env, s', other) {
      assert HeldOk(env, s, other);
    }
  }

  /** The retry and the settling of its original, as one step */
  function Linked(s: State, id: string, newId: string, token: string): State
    requires id in s.table.jobs
  {
    var inserted := InsertRetry(s, id, newId, token);
    inserted.(due := inserted.due - {id})
  }

  lemma InsertRetryEvents(s: State, id: string, newId: string, token: string)
    requires id in s.table.jobs && newId !in s.table.jobs && EventsOk(s)
    ensures var s' := InsertRetry(s, id, newId, token);
            && (forall r :: r in s.links ==> Marked(s'.events, r))
            && Marked(s'.events, newId)
            && |s'.events| == |s.events| + 2 && s.events <= s'.events
            && (forall i :: |s.events| <= i < |s'.events| ==> s'.events[i].id > 0 && s'.events[i].jobId in {id, newId})
  {
    var a := JobEvent(|s.events| + 1, id, None, Retry, RetriedBy(newId));
    var b := JobEvent(|s.events| + 2, newId, None, Retry, RetryOf(id));
    var s' := InsertRetry(s, id, newId, token);
    assert s'.events == s.events + [a] + [b];
    NoEventsYet(s, newId);
    EventsOfOne(s.events, a, newId);
    EventsOfOne(s.events + [a], b, newId);
    forall r | r in s.links ensures Marked(s'.events, r) {
      MarkedStaysTwice(s.events, a, b, r);
    }
  }

  lemma MarkedStaysTwice(events: seq<JobEvent>, a: JobEvent, b: JobEvent, id: string)
    requires Marked(events, id)
    ensures Marked(events + [a] + [b], id)
  {
    MarkedStays(events, a, id);
    MarkedStays(events + [a], b, id);
  }

  /** A fresh id has no events */
  lemma NoEventsYet(s: State, newId: string)
    requires EventsOk(s) && newId !in s.table.jobs
    ensures EventsOf(s.events, newId, 0) == []
  {
    forall i | 0 <= i < |s.events| ensures s.events[i].jobId != newId {
      assert EventOk(s, s.events[i]);
    }
    NoEventsOf(s.events, newId);
  }

  lemma {:induction false} NoEventsOf(events: seq<JobEvent>, id: string)
    requires forall i :: 0 <= i < |events| ==> events[i].jobId != id
    ensures EventsOf(events, id, 0) == []
  {
    if events != [] {
      NoEventsOf(events[..|events| - 1], id);
    }
  }

  /** One new link, from a fresh retry to an original that had none */
  lemma LinkKeepsLinks(s: State, s': State, id: string, newId: string)
    requires LinksOk(s) && newId !in s.table.jobs && id !in s.links && id !in s.links.Values && FailedRow(s, id)
    requires s'.links == s.links[newId := id] && s'.due == s.due - {id}
    requires newId in s'.table.jobs && s'.table.jobs == s.table.jobs[newId := s'.table.jobs[newId]]
    requires s'.table.jobs[newId].maxTokens == s.table.jobs[id].maxTokens
    requires s'.table.jobs[newId].orderId == s.table.jobs[id].orderId
    ensures LinksOk(s')
    ensures s'.links.Values == s.links.Values + {id} && s'.links.Keys == s.links.Keys + {newId}
  {
    assert newId in s.links ==> LinkOk(s, newId);
    assert s'.links[newId] == id;
    forall v | v in s.links.Values ensures v in s'.links.Values {
      var r :| r in s.links && s.links[r] == v;
      assert s'.links[r] == v;
    }
    forall r | r in s'.links ensures LinkOk(s', r) {
      if r != newId {
        assert LinkOk(s, r);
        assert s.links[r] in s.links.Values;
      }
    }
    forall q, r | q in s'.links && r in s'.links && s'.links[q] == s'.links[r] ensures q == r {
      assert q != newId ==> s.links[q] in s.links.Values;
      assert r != newId ==> s.links[r] in s.links.Values;
    }
  }

  function RetryRow(job: Job): Job {
    Job(job.orderId, job.sizeClass, job.maxTokens, Build, None, Queued, 0, None, None)
  }

  lemma LinkedShape(s: State, id: string, newId: string, token: string)
    requires id in s.table.jobs && newId !in s.table.jobs
    ensures var s' := Linked(s, id, newId, token);
            && s'.table == Create(s, newId, RetryRow(s.table.jobs[id]), token).table
            && s'.table.jobs == s.table.jobs[newId := RetryRow(s.table.jobs[id])]
            && s'.links == s.links[newId := id] && s'.due == s.due - {id}
            && s'.held == s.held && s'.trigger == s.trigger && s'.paged == s.paged && s'.lost == s.lost
            && s'.events == InsertRetry(s, id, newId, token).events
  {
  }

  lemma LinkedHeldOk(env: Env, s: State, s': State, id: string, newId: string, other: string)
    requires HeldOk(env, s, other) && SettlingOk(s) && id in s.due && newId !in s.table.jobs
    requires id in s.table.jobs && !IsBudgetFailure(s.table.jobs[id].reason)
    requires s'.links.Values == s.links.Values + {id} && s'.links.Keys == s.links.Keys + {newId}
    requires s'.due == s.due - {id} && s'.trigger == s.trigger && s'.paged == s.paged && s'.lost == s.lost
    requires newId in s'.table.jobs && s'.table.jobs == s.table.jobs[newId := s'.table.jobs[newId]]
    ensures HeldOk(env, s', other)
  {
    assert other != newId;
    assert s'.table.jobs[other] == s.table.jobs[other];
  }

  lemma LinkedStateOk(env: Env, s: State, s': State, id: string, newId: string, token: string)
    requires Inv(env, s) && id in s.due && FailedRow(s, id) && id !in s.links && newId !in s.table.jobs
    requires !IsBudgetFailure(s.table.jobs[id].reason)
    requires TableOk(s'.table) && s'.table.jobs == s.table.jobs[newId := RetryRow(s.table.jobs[id])]
    requires s'.links == s.links[newId := id] && s'.due == s.due - {id}
    requires s'.held == s.held && s'.trigger == s.trigger && s'.paged == s.paged && s'.lost == s.lost
    requires s'.events == InsertRetry(s, id, newId, token).events
    ensures Inv(env, s') && id in s'.links.Values
  {
    NotYetRetried(s, id);
    LinkKeepsLinks(s, s', id, newId);
    LinkedEventsOk(s, s', id, newId, token);
    forall other | other in s'.held ensures HeldOk(env, s', other) {
      LinkedHeldOk(env, s, s', id, newId, other);
    }
  }

  lemma LinkedKeepsInv(env: Env, s: State, id: string, newId: string, token: string)
    requires Inv(env, s) && id in s.due && id in s.table.jobs && Fresh(s, newId, token)
    requires !HasActive(s.table, s.table.jobs[id].orderId)
    requires Candidate(env, s, id, s.table.jobs[id], s.table.jobs[id].reason)
    ensures Inv(env, Linked(s, id, newId, token))
    ensures newId !in s.held && newId in Linked(s, id, newId, token).table.jobs
    ensures IsActive(Linked(s, id, newId, token).table.jobs[newId].status)
    ensures id in Linked(s, id, newId, token).links.Values
  {
    var job := s.table.jobs[id];
    if id in s.links {
      RetryIsNoCandidate(env, s, id, job, job.reason);
    }
    CreateKeepsInv(env, s, newId, RetryRow(job), token);
    LinkedShape(s, id, newId, token);
    LinkedStateOk(env, s, Linked(s, id, newId, token), id, newId, token);
  }

  lemma LinkedEventsOk(s: State, s': State, id: string, newId: string, token: string)
    requires EventsOk(s) && id in s.table.jobs && newId !in s.table.jobs
    requires s'.events == InsertRetry(s, id, newId, token).events
    requires s'.links.Values == s.links.Values + {id} && s'.links.Keys == s.links.Keys + {newId}
    requires s.table.jobs.Keys + {newId} == s'.table.jobs.Keys
    ensures EventsOk(s')
  {
    InsertRetryEvents(s, id, newId, token);
    forall i | 0 <= i < |s'.events| ensures EventOk(s', s'.events[i]) {
      if i < |s.events| {
        assert EventOk(s, s.events[i]);
      }
    }
    forall r | r in s'.links ensures Marked(s'.events, r) {
      assert r in s.links.Keys + {newId};
    }
  }

  lemma NotYetRetried(s: State, id: string)
    requires LinksOk(s) && id in s.due
    ensures id !in s.links.Values
  {
    forall r | r in s.links ensures s.links[r] != id {
      assert LinkOk(s, r);
    }
  }

  lemma RebuildKeepsInv(env: Env, s: State, id: string, newId: string, token: string, fate: RetryFate)
    requires Inv(env, s) && id in s.due && id in s.table.jobs && id in s.trigger && Fresh(s, newId, token)
    ensures Inv(env, RebuildOf(env, s, id, newId, token, s.trigger[id].BySweep?, fate))
  {
    var job := s.table.jobs[id];
    NotYetRetried(s, id);
    if fate.ReadFails? {
      LoseKeepsInv(env, s, id);
    } else if !Candidate(env, s, id, job, job.reason) {
      if id in s.held {
        assert HeldOk(env, s, id);
        UnlinkedHasNoMarker(s, id);
      }
      SettleKeepsInv(env, s, id, s.trigger[id].BySweep?);
    } else if fate.InsertFails? {
      SettleKeepsInv(env, s, id, true);
    } else if HasActive(s.table, job.orderId) {
      SettleKeepsInv(env, s, id, true);
    } else {
      LinkedKeepsInv(env, s, id, newId, token);
      var linked := Linked(s, id, newId, token);
      LaunchKeepsInv(env, linked, newId, fate.launch);
      LaunchedKeepsRest(env, linked, newId, fate.launch);
      LaunchedCommutes(env, s, id, newId, token, fate.launch);
      if env.ecsConfigured && fate.launch.LaunchFails? {
        PagingAnsweredKeepsInv(env, Launched(env, linked, newId, fate.launch), id);
      }
    }
  }

  lemma LaunchedKeepsRest(env: Env, s: State, id: string, launch: Launch)
    ensures var s' := Launched(env, s, id, launch);
            s'.links == s.links && s'.held == s.held && s'.due == s.due && s'.trigger == s.trigger &&
            s'.paged == s.paged && s'.lost == s.lost
    ensures forall other :: other != id && other in s.table.jobs ==>
              other in Launched(env, s, id, launch).table.jobs && Launched(env, s, id, launch).table.jobs[other] == s.table.jobs[other]
  {
  }

  /** Launching the retry and settling its original touch different things */
  lemma LaunchedCommutes(env: Env, s: State, id: string, newId: string, token: string, launch: Launch)
    requires id in s.table.jobs
    ensures var started := Launched(env, InsertRetry(s, id, newId, token), newId, launch);
            started.(due := started.due - {id}) == Launched(env, Linked(s, id, newId, token), newId, launch)
  {
  }

  lemma PagingAnsweredKeepsInv(env: Env, s: State, id: string)
    requires Inv(env, s) && id in s.links.Values && id in s.trigger && id !in s.due
    ensures Inv(env, s.(paged := s.paged + {id}))
  {
    var s' := s.(paged := s.paged + {id});
    LogAndLinksStay(s, s');
    forall other | other in s'.held ensures HeldOk(env, s', other) {
      assert HeldOk(env, s, other);
    }
  }

  // ----- Every call -----

  lemma StartKeepsInv(env: Env, s: State, id: string, job: Job, token: string, launch: Launch)
    requires Inv(env, s) && Fresh(s, id, token) && !HasActive(s.table, job.orderId) && IsActive(job.status)
    ensures Inv(env, Launched(env, Create(s, id, job, token), id, launch))
  {
    CreateKeepsInv(env, s, id, job, token);
    LaunchKeepsInv(env, Create(s, id, job, token), id, launch);
  }

  lemma ReportKeepsInv(env: Env, s: State, step: Step)
    requires Inv(env, s) && step.Report?
    ensures Inv(env, Apply(env, s, step))
  {
    if Authentic(s, step.id, step.token) && !(step.status.Some? && Rank(step.status.value) < Rank(s.table.jobs[step.id].status)) {
      var terminal := step.status.Some? && !IsActive(step.status.value);
      var update := JobUpdate(step.status, step.tokensUsed, step.reason, None, if terminal then Revoke else Keep);
      if step.status == Some(Failed) {
        FailKeepsInv(env, s, step.id, update, ByReport);
      } else {
        WriteKeepsInv(env, s, step.id, update);
      }
    }
  }

  lemma EndingKeepsInv(env: Env, s: State, step: Step)
    requires Inv(env, s) && (step.Kill? || step.SweepDead?)
    ensures Inv(env, Apply(env, s, step))
  {
    var id := step.id;
    if id in s.table.jobs && IsActive(s.table.jobs[id].status) {
      if step.Kill? {
        var update := NO_UPDATE.(status := Some(Killed), reason := Some("killed by admin"), token := Revoke);
        WriteKeepsInv(env, s, id, update);
        AppendKeepsInv(env, Write(s, id, update), Apply(env, s, step));
      } else {
        var appended := Append(s, id, FailedEvent, Reason(step.verdict));
        AppendKeepsInv(env, s, appended);
        FailKeepsInv(env, appended, id, NO_UPDATE.(status := Some(Failed), reason := Some(step.verdict), token := Revoke), BySweep);
      }
    }
  }

  lemma StepKeepsInv(env: Env, s: State, step: Step)
    requires Inv(env, s) && Honest(step)
    ensures Inv(env, Apply(env, s, step))
  {
    match step {
      case Start(id, orderId, sizeClass, token, launch) =>
        if Fresh(s, id, token) && !HasActive(s.table, orderId) {
          var tokens := if orderId in env.demoOrders then TokensFor(S) else TokensFor(sizeClass.GetOr(S));
          StartKeepsInv(env, s, id, Job(orderId, sizeClass, tokens, Build, None, Queued, 0, None, None), token, launch);
        }
      case Redeliver(id, latestId, token, launch) =>
        if Fresh(s, id, token) && latestId in s.table.jobs && !HasActive(s.table, s.table.jobs[latestId].orderId) {
          var latest := s.table.jobs[latestId];
          var sourceId := if latest.mode.Redeliver? && latest.sourceJobId.Some? then latest.sourceJobId.value else latestId;
          if sourceId in s.table.jobs {
            StartKeepsInv(env, s, id,
              Job(latest.orderId, s.table.jobs[sourceId].sizeClass, REDELIVERY_TOKENS, Mode.Redeliver, Some(sourceId), Queued, 0, None, None),
              token, launch);
          }
        }
      case Rotate(id, token, newToken) =>
        if Authentic(s, id, token) && newToken !in s.table.tokens {
          WriteKeepsInv(env, s, id, NO_UPDATE.(token := Replace(newToken)));
        }
      case ReportEvents(id, token, batch) =>
        if Authentic(s, id, token) {
          ReceiveAllKeepsInv(env, s, id, s.table.jobs[id], BatchReason(batch, s.table.jobs[id]), batch);
        }
      case Report(_, _, _, _, _) => ReportKeepsInv(env, s, step);
      case Kill(_) => EndingKeepsInv(env, s, step);
      case SweepDead(_, _) => EndingKeepsInv(env, s, step);
      case Rebuild(id, newId, token, fate) =>
        if id in s.due && id in s.table.jobs && id in s.trigger && Fresh(s, newId, token) {
          RebuildKeepsInv(env, s, id, newId, token, fate);
        }
      case Crash(id) =>
        if id in s.due {
          LoseKeepsInv(env, s, id);
        }
    }
  }

  ghost predicate AllHonest(steps: seq<Step>) {
    forall i :: 0 <= i < |steps| ==> Honest(steps[i])
  }

  lemma {:induction false} RunKeepsInv(env: Env, steps: seq<Step>)
    requires AllHonest(steps)
    ensures Inv(env, Run(env, steps))
  {
    if steps != [] {
      RunKeepsInv(env, steps[..|steps| - 1]);
      StepKeepsInv(env, Run(env, steps[..|steps| - 1]), steps[|steps| - 1]);
    }
  }
}
