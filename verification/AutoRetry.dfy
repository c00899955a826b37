/** Which failures are rebuilt and which failure mails are held (apps/api/src/services/jobService.ts). */
module AutoRetry {
  import opened JobControl
  import opened JobEvents
  import opened JobInvariants
  import opened JobResults
  import opened JobTable
  import opened Wrappers

  // `autoRetryCandidate` over whole runs and call by call, and what a job is allowed to spend.

  // ----- Only the small class, in every run -----

  /** Every rebuilt job and every job with a held mail is one the rebuild is for */
  ghost predicate AllEligible(env: Env, s: State) {
    forall id :: id in s.links.Values || id in s.held ==> id in s.table.jobs && Eligible(env, s.table.jobs[id])
  }

  /** What a step adds to the links and the held mails */
  ghost predicate AddsEligible(env: Env, s: State, s': State) {
    forall id :: (id in s'.links.Values && id !in s.links.Values) || (id in s'.held && id !in s.held) ==>
      id in s.table.jobs && Eligible(env, s.table.jobs[id])
  }

  lemma {:induction false} BatchHolds(env: Env, s: State, id: string, job: Job, reason: Option<string>, batch: seq<ContainerEvent>)
    ensures var s' := ReceiveAll(env, s, id, job, reason, batch);
            s'.links == s.links && s'.held <= s.held + {id} && (id in s'.held && id !in s.held ==> Eligible(env, job))
  {
    if batch != [] {
      BatchHolds(env, s, id, job, reason, batch[..|batch| - 1]);
    }
  }

  lemma RebuildAdds(env: Env, s: State, id: string, newId: string, token: string, swept: bool, fate: RetryFate)
    requires id in s.table.jobs
    ensures AddsEligible(env, s, RebuildOf(env, s, id, newId, token, swept, fate))
  {
  }

  lemma StepAdds(env: Env, s: State, step: Step)
    ensures AddsEligible(env, s, Apply(env, s, step))
  {
    match step
    case ReportEvents(id, token, batch) =>
      if Authentic(s, id, token) {
        BatchHolds(env, s, id, s.table.jobs[id], BatchReason(batch, s.table.jobs[id]), batch);
      }
    case Rebuild(id, newId, token, fate) =>
      if id in s.due && id in s.table.jobs && id in s.trigger {
        RebuildAdds(env, s, id, newId, token, s.trigger[id].BySweep?, fate);
      }
    case _ =>
  }

  lemma {:induction false} RunIsEligible(env: Env, steps: seq<Step>)
    ensures AllEligible(env, Run(env, steps))
  {
    if steps != [] {
      var s := Run(env, steps[..|steps| - 1]);
      RunIsEligible(env, steps[..|steps| - 1]);
      StepAdds(env, s, steps[|steps| - 1]);
      StepMovesOn(env, s, steps[|steps| - 1]);
    }
  }

  /**
   * In every run, whatever the containers post, a job that was rebuilt or whose failure mail was
   * held is of a demo order, or its spec is S-sized or has no size.
   */
  lemma OnlySmallOrDemoJobsAreRebuilt(env: Env, steps: seq<Step>, id: string)
    ensures var s := Run(env, steps);
            id in s.links.Values || id in s.held ==>
              && id in s.table.jobs
              && (s.table.jobs[id].orderId in env.demoOrders || s.table.jobs[id].sizeClass in {None, Some(S)})
  {
    RunIsEligible(env, steps);
    var s := Run(env, steps);
    if id in s.links.Values || id in s.held {
      EligibleIff(env, s.table.jobs[id]);
    }
  }

  // ----- And all of it -----

  /** None of the job's first 500 events is a retry */
  predicate NoRetryIn(events: seq<JobEvent>, id: string) {
    var own := EventsOf(events, id, 0);
    forall i :: 0 <= i < |own| && i < 500 ==> !own[i].kind.Retry?
  }

  lemma PageHasNoRetry(events: seq<JobEvent>, id: string)
    ensures (forall e :: e in FirstPage(EventsOf(events, id, 0)) ==> !e.kind.Retry?) <==> NoRetryIn(events, id)
  {
    var own, page := EventsOf(events, id, 0), FirstPage(EventsOf(events, id, 0));
    if forall e :: e in page ==> !e.kind.Retry? {
      forall i | 0 <= i < |own| && i < 500 ensures !own[i].kind.Retry? {
        assert own[i] == page[i] && page[i] in page;
      }
    }
  }

  lemma EligibleIff(env: Env, job: Job)
    ensures Eligible(env, job) <==> job.orderId in env.demoOrders || job.sizeClass in {None, Some(S)}
  {
  }

  /** What the call rebuilds: a job of that class, for a reason other than its budget, that no retry event mentions */
  lemma CandidateIff(env: Env, s: State, id: string, job: Job, reason: Option<string>)
    ensures Candidate(env, s, id, job, reason) <==>
              !IsBudgetFailure(reason) && (job.orderId in env.demoOrders || job.sizeClass in {None, Some(S)}) && NoRetryIn(s.events, id)
  {
    PageHasNoRetry(s.events, id);
    EligibleIff(env, job);
  }

  lemma LinkedOnlyThen(env: Env, s: State, id: string, newId: string, token: string, swept: bool, fate: RetryFate)
    requires id in s.table.jobs && newId !in s.links && newId !in s.table.jobs
    ensures var s' := RebuildOf(env, s, id, newId, token, swept, fate);
            if fate.Goes? && Candidate(env, s, id, s.table.jobs[id], s.table.jobs[id].reason) && !HasActive(s.table, s.table.jobs[id].orderId)
            then newId in s'.links && s'.links[newId] == id && s'.table == Launched(env, InsertRetry(s, id, newId, token), newId, fate.launch).table
            else s'.table == s.table && s'.links == s.links
  {
  }

  lemma RetryRowLaunched(env: Env, s: State, id: string, newId: string, token: string, launch: Launch)
    requires id in s.table.jobs && newId !in s.table.jobs
    ensures var jobs := Launched(env, InsertRetry(s, id, newId, token), newId, launch).table.jobs;
            && newId in jobs
            && jobs[newId].orderId == s.table.jobs[id].orderId && jobs[newId].sizeClass == s.table.jobs[id].sizeClass
            && jobs[newId].maxTokens == s.table.jobs[id].maxTokens
            && jobs[newId].mode == Build && jobs[newId].tokensUsed == 0
            && jobs[newId].status == if env.ecsConfigured && launch.LaunchFails? then Failed else Queued
  {
  }

  /**
   * A rebuild call that is owed rebuilds the job, as a new queued build of the same order, class and
   * ceiling, if and only if its reads and its insert work, the order has no active job, the job is of
   * that class, its reason is no budget verdict, and none of its first 500 events is a retry.
   */
  lemma RebuiltIff(env: Env, s: State, id: string, newId: string, token: string, fate: RetryFate)
    requires id in s.due && id in s.table.jobs && id in s.trigger
    requires newId !in s.table.jobs && newId !in s.links && token !in s.table.tokens
    ensures var s', job := Apply(env, s, Rebuild(id, newId, token, fate)), s.table.jobs[id];
            if && fate.Goes?
               && (forall other :: other in s.table.jobs && s.table.jobs[other].orderId == job.orderId ==> !IsActive(s.table.jobs[other].status))
               && (job.orderId in env.demoOrders || job.sizeClass in {None, Some(S)})
               && !IsBudgetFailure(job.reason)
               && NoRetryIn(s.events, id)
            then
              && newId in s'.links && s'.links[newId] == id && newId in s'.table.jobs
              && var row := s'.table.jobs[newId];
                 && row.orderId == job.orderId && row.sizeClass == job.sizeClass && row.maxTokens == job.maxTokens
                 && row.mode == Build && row.tokensUsed == 0
                 && row.status == if env.ecsConfigured && fate.launch.LaunchFails? then Failed else Queued
            else s'.table == s.table && s'.links == s.links
  {
    CandidateIff(env, s, id, s.table.jobs[id], s.table.jobs[id].reason);
    LinkedOnlyThen(env, s, id, newId, token, s.trigger[id].BySweep?, fate);
    if fate.Goes? {
      RetryRowLaunched(env, s, id, newId, token, fate.launch);
    }
  }

  /**
   * Whatever comes of it, an owed call is made once, and is lost exactly when its reads fail. Else it
   * pages the admins if and only if the job is one to rebuild and was not, because the insert failed,
   * the order had an active job or the launch failed; or the sweep made the call and it is not.
   */
  lemma PagedIff(env: Env, s: State, id: string, newId: string, token: string, fate: RetryFate)
    requires id in s.due && id in s.table.jobs && id in s.trigger
    requires newId !in s.table.jobs && token !in s.table.tokens
    ensures var s', job := Apply(env, s, Rebuild(id, newId, token, fate)), s.table.jobs[id];
            var rebuilds := !IsBudgetFailure(job.reason) && (job.orderId in env.demoOrders || job.sizeClass in {None, Some(S)}) && NoRetryIn(s.events, id);
            && s'.due == s.due - {id}
            && s'.lost == (if fate.ReadFails? then s.lost + {id} else s.lost)
            && s'.paged ==
               if !fate.ReadFails? &&
                  (if rebuilds then fate.InsertFails? || HasActive(s.table, job.orderId) || (env.ecsConfigured && fate.launch.LaunchFails?)
                   else s.trigger[id] == BySweep)
               then s.paged + {id} else s.paged
  {
    var job := s.table.jobs[id];
    CandidateIff(env, s, id, job, job.reason);
    PageHasNoRetry(s.events, id);
    if fate.Goes? && Candidate(env, s, id, job, job.reason) && !HasActive(s.table, job.orderId) {
      LaunchedKeepsRest(env, InsertRetry(s, id, newId, token), newId, fate.launch);
    }
  }

  // ----- Which notices are held -----

  /** Event `i` of the batch is a failure notice, stored for the first time, of a job that will be rebuilt as far as the log tells */
  ghost predicate HeldAt(env: Env, s: State, id: string, job: Job, reason: Option<string>, batch: seq<ContainerEvent>, i: nat)
    requires i < |batch|
  {
    var before := ReceiveAll(env, s, id, job, reason, batch[..i]).events;
    && batch[i].kind.Notify? && batch[i].payload.FailureNotice?
    && (batch[i].number.Some? ==> !Stored(before, id, batch[i].number.value))
    && NoRetryIn(before, id)
  }

  lemma NoticeLeavesThePage(events: seq<JobEvent>, id: string, number: Option<nat>, payload: Payload)
    ensures NoRetryIn(Appended(events, id, number, Notify, payload), id) <==> NoRetryIn(events, id)
  {
    var e := JobEvent(|events| + 1, id, number, Notify, payload);
    EventsOfOne(events, e, id);
    var own := EventsOf(events, id, 0);
    assert own + [e] == EventsOf(Appended(events, id, number, Notify, payload), id, 0);
    forall k | 0 <= k < |own| ensures own[k] == (own + [e])[k] {
    }
  }

  lemma OneEventHolds(env: Env, s: State, id: string, job: Job, reason: Option<string>, e: ContainerEvent)
    ensures id in Receive(env, s, id, job, reason, e).held <==>
              || id in s.held
              || (&& e.kind.Notify? && e.payload.FailureNotice?
                  && (e.number.Some? ==> !Stored(s.events, id, e.number.value))
                  && NoRetryIn(s.events, id)
                  && !IsBudgetFailure(reason) && Eligible(env, job))
  {
    if e.kind.Notify? {
      NoticeLeavesThePage(s.events, id, e.number, e.payload);
      PageHasNoRetry(Appended(s.events, id, e.number, e.kind, e.payload), id);
    }
  }

  lemma HeldAtLonger(env: Env, s: State, id: string, job: Job, reason: Option<string>, batch: seq<ContainerEvent>, n: nat, i: nat)
    requires i < n <= |batch|
    ensures HeldAt(env, s, id, job, reason, batch[..n], i) <==> HeldAt(env, s, id, job, reason, batch, i)
  {
    assert batch[..n][..i] == batch[..i];
  }

  /** Some event of the batch does, in a shorter batch or as the last */
  lemma LastMayHold(env: Env, s: State, id: string, job: Job, reason: Option<string>, batch: seq<ContainerEvent>)
    requires batch != []
    requires var n := |batch| - 1;
             forall i: nat :: i < n ==> (HeldAt(env, s, id, job, reason, batch[..n], i) <==> HeldAt(env, s, id, job, reason, batch, i))
    ensures var n := |batch| - 1;
            (exists i: nat :: i < |batch| && HeldAt(env, s, id, job, reason, batch, i)) <==>
            HeldAt(env, s, id, job, reason, batch, n) || exists i: nat :: i < n && HeldAt(env, s, id, job, reason, batch[..n], i)
  {
  }

  lemma LastHolds(env: Env, s: State, id: string, job: Job, reason: Option<string>, batch: seq<ContainerEvent>)
    requires batch != []
    ensures var n := |batch| - 1;
            id in ReceiveAll(env, s, id, job, reason, batch).held <==>
              || id in ReceiveAll(env, s, id, job, reason, batch[..n]).held
              || (HeldAt(env, s, id, job, reason, batch, n) && !IsBudgetFailure(reason) && Eligible(env, job))
  {
    var n := |batch| - 1;
    OneEventHolds(env, ReceiveAll(env, s, id, job, reason, batch[..n]), id, job, reason, batch[n]);
  }

  lemma {:induction false} BatchHoldsIff(env: Env, s: State, id: string, job: Job, reason: Option<string>, batch: seq<ContainerEvent>)
    ensures id in ReceiveAll(env, s, id, job, reason, batch).held <==>
              || id in s.held
              || (!IsBudgetFailure(reason) && Eligible(env, job) &&
                  exists i: nat :: i < |batch| && HeldAt(env, s, id, job, reason, batch, i))
  {
    if batch != [] {
      var n := |batch| - 1;
      BatchHoldsIff(env, s, id, job, reason, batch[..n]);
      forall i: nat | i < n ensures HeldAt(env, s, id, job, reason, batch[..n], i) <==> HeldAt(env, s, id, job, reason, batch, i) {
        HeldAtLonger(env, s, id, job, reason, batch, n, i);
      }
      LastMayHold(env, s, id, job, reason, batch);
      LastHolds(env, s, id, job, reason, batch);
    }
  }

  /** The verdict of a batch: the first `failed` event's reason when it carries one, else the row's */
  ghost predicate IsVerdictOf(batch: seq<ContainerEvent>, job: Job, reason: Option<string>) {
    && ((forall i :: 0 <= i < |batch| ==> !batch[i].kind.FailedEvent?) ==> reason == job.reason)
    && forall k :: 0 <= k < |batch| && batch[k].kind.FailedEvent? && (forall i :: 0 <= i < k ==> !batch[i].kind.FailedEvent?) ==>
         reason == if batch[k].payload.Reason? then Some(batch[k].payload.reason) else job.reason
  }

  lemma {:induction false} BatchReasonIsTheVerdict(batch: seq<ContainerEvent>, job: Job)
    ensures IsVerdictOf(batch, job, BatchReason(batch, job))
  {
    if batch != [] && !batch[0].kind.FailedEvent? {
      BatchReasonIsTheVerdict(batch[1..], job);
      var rest := batch[1..];
      var reason := BatchReason(rest, job);
      if forall i :: 0 <= i < |batch| ==> !batch[i].kind.FailedEvent? {
        forall i | 0 <= i < |rest| ensures !rest[i].kind.FailedEvent? {
          assert rest[i] == batch[i + 1];
        }
      }
      forall k | 0 <= k < |batch| && batch[k].kind.FailedEvent? && (forall i :: 0 <= i < k ==> !batch[i].kind.FailedEvent?)
        ensures reason == if batch[k].payload.Reason? then Some(batch[k].payload.reason) else job.reason
      {
        assert rest[k - 1] == batch[k];
        forall i | 0 <= i < k - 1 ensures !rest[i].kind.FailedEvent? {
          assert rest[i] == batch[i + 1];
        }
      }
    }
  }

  /**
   * After a batch a job's failure mail is held if and only if it was before, or the job is of a demo
   * order or S-sized, the batch's own verdict (else the row's) is not about the budget, and the
   * batch brings a failure notice that was not stored before, while none of the job's first 500
   * events is a retry.
   */
  lemma NoticeIsHeldIff(env: Env, s: State, id: string, token: string, batch: seq<ContainerEvent>, reason: Option<string>)
    requires Authentic(s, id, token) && IsVerdictOf(batch, s.table.jobs[id], reason)
    ensures var job := s.table.jobs[id];
            id in Apply(env, s, ReportEvents(id, token, batch)).held <==>
              || id in s.held
              || (&& (job.orderId in env.demoOrders || job.sizeClass in {None, Some(S)})
                  && !IsBudgetFailure(reason)
                  && exists i: nat :: i < |batch| && HeldAt(env, s, id, job, reason, batch, i))
  {
    var job := s.table.jobs[id];
    BatchReasonIsTheVerdict(batch, job);
    OneVerdict(batch, job, reason, BatchReason(batch, job));
    BatchHoldsIff(env, s, id, job, reason, batch);
    EligibleIff(env, job);
  }

  lemma {:induction false} OneVerdict(batch: seq<ContainerEvent>, job: Job, a: Option<string>, b: Option<string>)
    requires IsVerdictOf(batch, job, a) && IsVerdictOf(batch, job, b)
    ensures a == b
  {
    if k :| 0 <= k < |batch| && batch[k].kind.FailedEvent? {
      FirstFailed(batch, k);
    }
  }

  lemma {:induction false} FirstFailed(batch: seq<ContainerEvent>, k: nat)
    requires k < |batch| && batch[k].kind.FailedEvent?
    ensures exists j :: 0 <= j <= k && batch[j].kind.FailedEvent? && forall i :: 0 <= i < j ==> !batch[i].kind.FailedEvent?
  {
    if i: nat :| i < k && batch[i].kind.FailedEvent? {
      FirstFailed(batch, i);
    }
  }

  // ----- What a job may spend -----

  function ClassCeiling(env: Env, orderId: string, sizeClass: Option<SizeClass>): nat {
    if orderId in env.demoOrders || sizeClass in {None, Some(S)} then 9_000_000
    else if sizeClass == Some(M) then 15_000_000
    else 40_000_000
  }

  /** A build that is no rebuild has its class's ceiling, a demo the small one; a redelivery points at a build of its order and class */
  ghost predicate KindOk(env: Env, s: State, id: string)
    requires id in s.table.jobs
  {
    var job := s.table.jobs[id];
    match job.mode
    case Build => id !in s.links ==> job.maxTokens == ClassCeiling(env, job.orderId, job.sizeClass)
    case Redeliver =>
      && job.maxTokens == 3_000_000 && job.sourceJobId.Some? && job.sourceJobId.value in s.table.jobs
      && var source := s.table.jobs[job.sourceJobId.value];
         source.mode.Build? && source.orderId == job.orderId && source.sizeClass == job.sizeClass
  }

  ghost predicate KindsOk(env: Env, s: State) {
    forall id :: id in s.table.jobs ==> KindOk(env, s, id)
  }

  predicate SameKind(a: Job, b: Job) {
    a.orderId == b.orderId && a.sizeClass == b.sizeClass && a.maxTokens == b.maxTokens && a.mode == b.mode && a.sourceJobId == b.sourceJobId
  }

  /** Rows that were there stay of their kind, and rebuilds stay the same ones among them */
  ghost predicate KindsStay(s: State, s': State) {
    forall id :: id in s.table.jobs ==> id in s'.table.jobs && SameKind(s.table.jobs[id], s'.table.jobs[id]) && (id in s'.links <==> id in s.links)
  }

  lemma OldKindOk(env: Env, s: State, s': State, id: string)
    requires KindsOk(env, s) && KindsStay(s, s') && id in s.table.jobs
    ensures id in s'.table.jobs && KindOk(env, s', id)
  {
    assert KindOk(env, s, id);
    var source := s.table.jobs[id].sourceJobId;
    assert source.Some? && source.value in s.table.jobs ==> SameKind(s.table.jobs[source.value], s'.table.jobs[source.value]);
  }

  /** The one row a step may add is of its kind */
  lemma OneNewRow(env: Env, s: State, s': State, id: string)
    requires KindsOk(env, s) && KindsStay(s, s') && s'.table.jobs.Keys <= s.table.jobs.Keys + {id}
    requires id in s'.table.jobs ==> KindOk(env, s', id)
    ensures KindsOk(env, s')
  {
    forall other | other in s'.table.jobs ensures KindOk(env, s', other) {
      if other != id {
        OldKindOk(env, s, s', other);
      }
    }
  }

  lemma LaunchedKinds(env: Env, s: State, id: string, launch: Launch)
    requires id in s.table.jobs
    ensures var s' := Launched(env, s, id, launch);
            KindsStay(s, s') && s'.table.jobs.Keys == s.table.jobs.Keys && s'.links == s.links
  {
  }

  lemma AddedKind(env: Env, s: State, id: string, job: Job, token: string, launch: Launch)
    requires KindsOk(env, s) && id !in s.table.jobs && id !in s.links
    requires KindOk(env, Create(s, id, job, token), id)
    ensures KindsOk(env, Launched(env, Create(s, id, job, token), id, launch))
  {
    var created := Create(s, id, job, token);
    OneNewRow(env, s, created, id);
    LaunchedKinds(env, created, id, launch);
    OneNewRow(env, created, Launched(env, created, id, launch), id) by {
      OldKindOk(env, created, Launched(env, created, id, launch), id);
    }
  }

  lemma RebuildKinds(env: Env, s: State, id: string, newId: string, token: string, swept: bool, fate: RetryFate)
    requires KindsOk(env, s) && id in s.table.jobs && newId !in s.table.jobs && newId !in s.links
    ensures KindsOk(env, RebuildOf(env, s, id, newId, token, swept, fate))
  {
    var s' := RebuildOf(env, s, id, newId, token, swept, fate);
    if fate.Goes? && Candidate(env, s, id, s.table.jobs[id], s.table.jobs[id].reason) && !HasActive(s.table, s.table.jobs[id].orderId) {
      RetryKinds(env, s, id, newId, token, fate.launch);
      KindsGoOn(env, Launched(env, InsertRetry(s, id, newId, token), newId, fate.launch), s');
    } else {
      KindsGoOn(env, s, s');
    }
  }

  lemma RetryKinds(env: Env, s: State, id: string, newId: string, token: string, launch: Launch)
    requires KindsOk(env, s) && id in s.table.jobs && newId !in s.table.jobs && newId !in s.links
    ensures KindsOk(env, Launched(env, InsertRetry(s, id, newId, token), newId, launch))
  {
    var inserted := InsertRetry(s, id, newId, token);
    OneNewRow(env, s, inserted, newId);
    LaunchedKinds(env, inserted, newId, launch);
    KindsGoOn(env, inserted, Launched(env, inserted, newId, launch));
  }

  lemma ReceivedKinds(env: Env, s: State, id: string, job: Job, reason: Option<string>, batch: seq<ContainerEvent>)
    ensures var s' := ReceiveAll(env, s, id, job, reason, batch); s'.table == s.table && s'.links == s.links
  {
    EventsLeaveTheTable(env, s, id, job, reason, batch);
    BatchHolds(env, s, id, job, reason, batch);
  }

  /** The same rows, each of its kind */
  ghost predicate KindsSame(s: State, s': State) {
    KindsStay(s, s') && s'.table.jobs.Keys == s.table.jobs.Keys && s'.links == s.links
  }

  lemma KindsGoOn(env: Env, s: State, s': State)
    requires KindsOk(env, s) && KindsSame(s, s')
    ensures KindsOk(env, s')
  {
    forall id | id in s'.table.jobs ensures KindOk(env, s', id) {
      OldKindOk(env, s, s', id);
    }
  }

  lemma WriteKinds(s: State, s': State, id: string, update: JobUpdate)
    requires id in s.table.jobs && s'.table == Update(s.table, id, update) && s'.links == s.links
    ensures KindsSame(s, s')
  {
  }

  lemma EndingKinds(env: Env, s: State, step: Step)
    requires step.Kill? || step.SweepDead?
    ensures KindsSame(s, Apply(env, s, step))
  {
    var s' := Apply(env, s, step);
    if step.id in s.table.jobs && IsActive(s.table.jobs[step.id].status) {
      if step.Kill? {
        WriteKinds(s, s', step.id, NO_UPDATE.(status := Some(Killed), reason := Some("killed by admin"), token := Revoke));
      } else {
        WriteKinds(s, s', step.id, NO_UPDATE.(status := Some(Failed), reason := Some(step.verdict), token := Revoke));
      }
    }
  }

  lemma ReportKinds(env: Env, s: State, step: Step)
    requires step.Report?
    ensures KindsSame(s, Apply(env, s, step))
  {
    var s' := Apply(env, s, step);
    if Authentic(s, step.id, step.token) && !(step.status.Some? && Rank(step.status.value) < Rank(s.table.jobs[step.id].status)) {
      var terminal := step.status.Some? && !IsActive(step.status.value);
      WriteKinds(s, s', step.id, JobUpdate(step.status, step.tokensUsed, step.reason, None, if terminal then Revoke else Keep));
    }
  }

  /** The steps that neither add a row nor link one */
  lemma OtherKinds(env: Env, s: State, step: Step)
    requires !step.Start? && !step.Redeliver? && !step.Rebuild?
    ensures KindsSame(s, Apply(env, s, step))
  {
    match step
    case ReportEvents(id, token, batch) =>
      if Authentic(s, id, token) {
        ReceivedKinds(env, s, id, s.table.jobs[id], BatchReason(batch, s.table.jobs[id]), batch);
      }
    case Report(_, _, _, _, _) => ReportKinds(env, s, step);
    case Kill(_) => EndingKinds(env, s, step);
    case SweepDead(_, _) => EndingKinds(env, s, step);
    case Rotate(id, token, newToken) =>
      if Authentic(s, id, token) && newToken !in s.table.tokens {
        WriteKinds(s, Apply(env, s, step), id, NO_UPDATE.(token := Replace(newToken)));
      }
    case Crash(_) =>
  }

  lemma RedeliveryKind(env: Env, s: State, step: Step)
    requires KindsOk(env, s) && s.links.Keys <= s.table.jobs.Keys && step.Redeliver?
    ensures KindsOk(env, Apply(env, s, step))
  {
    if Apply(env, s, step) != s {
      var latest := s.table.jobs[step.latestId];
      assert KindOk(env, s, step.latestId);
      var sourceId := if latest.mode.Redeliver? && latest.sourceJobId.Some? then latest.sourceJobId.value else step.latestId;
      var row := Job(latest.orderId, s.table.jobs[sourceId].sizeClass, REDELIVERY_TOKENS, Mode.Redeliver, Some(sourceId), Queued, 0, None, None);
      AddedKind(env, s, step.id, row, step.token, step.launch);
    }
  }

  lemma StartKind(env: Env, s: State, step: Step)
    requires KindsOk(env, s) && s.links.Keys <= s.table.jobs.Keys && step.Start?
    ensures KindsOk(env, Apply(env, s, step))
  {
    if Apply(env, s, step) != s {
      var tokens := if step.orderId in env.demoOrders then TokensFor(S) else TokensFor(step.sizeClass.GetOr(S));
      AddedKind(env, s, step.id, Job(step.orderId, step.sizeClass, tokens, Build, None, Queued, 0, None, None), step.token, step.launch);
    }
  }

  lemma StepKinds(env: Env, s: State, step: Step)
    requires KindsOk(env, s) && s.links.Keys <= s.table.jobs.Keys
    ensures KindsOk(env, Apply(env, s, step))
  {
    if step.Start? {
      StartKind(env, s, step);
    } else if step.Redeliver? {
      RedeliveryKind(env, s, step);
    } else if !step.Rebuild? {
      OtherKinds(env, s, step);
      KindsGoOn(env, s, Apply(env, s, step));
    } else if step.id in s.due && step.id in s.table.jobs && step.id in s.trigger && Fresh(s, step.newId, step.token) {
      RebuildKinds(env, s, step.id, step.newId, step.token, s.trigger[step.id].BySweep?, step.fate);
    }
  }

  /**
   * A start makes a queued build with its class's ceiling and its token, unless the order has a job
   * that has not ended; a launch that fails leaves the row failed, without the token.
   */
  lemma StartedIff(env: Env, s: State, id: string, orderId: string, sizeClass: Option<SizeClass>, token: string, launch: Launch)
    requires id !in s.table.jobs && token !in s.table.tokens
    ensures var s' := Apply(env, s, Start(id, orderId, sizeClass, token, launch));
            if exists other :: other in s.table.jobs && s.table.jobs[other].orderId == orderId && !Ended(s.table, other) then s' == s
            else
              var failed := env.ecsConfigured && launch.LaunchFails?;
              && id in s'.table.jobs && s'.table.jobs[id].orderId == orderId && s'.table.jobs[id].sizeClass == sizeClass
              && s'.table.jobs[id].maxTokens == ClassCeiling(env, orderId, sizeClass)
              && s'.table.jobs[id].mode == Build && s'.table.jobs[id].status == (if failed then Failed else Queued)
              && (token in s'.table.tokens <==> !failed)
              && (!failed ==> s'.table.tokens[token] == id)
  {
    ActiveIff(s.table, orderId);
    StartApplied(env, s, id, orderId, sizeClass, token, launch);
    NewRowLaunched(env, s, id, Job(orderId, sizeClass, ClassCeiling(env, orderId, sizeClass), Build, None, Queued, 0, None, None), token, launch);
  }

  lemma StartApplied(env: Env, s: State, id: string, orderId: string, sizeClass: Option<SizeClass>, token: string, launch: Launch)
    requires id !in s.table.jobs && token !in s.table.tokens
    ensures Apply(env, s, Start(id, orderId, sizeClass, token, launch)) ==
            if HasActive(s.table, orderId) then s
            else Launched(env, Create(s, id, Job(orderId, sizeClass, ClassCeiling(env, orderId, sizeClass), Build, None, Queued, 0, None, None), token), id, launch)
  {
  }

  lemma ActiveIff(t: Table, orderId: string)
    ensures HasActive(t, orderId) <==> exists other :: other in t.jobs && t.jobs[other].orderId == orderId && !Ended(t, other)
  {
  }

  lemma NewRowLaunched(env: Env, s: State, id: string, job: Job, token: string, launch: Launch)
    requires id !in s.table.jobs && token !in s.table.tokens && job.status == Queued
    ensures var t := Launched(env, Create(s, id, job, token), id, launch).table;
            var failed := env.ecsConfigured && launch.LaunchFails?;
            && id in t.jobs && SameKind(t.jobs[id], job) && t.jobs[id].status == (if failed then Failed else Queued)
            && (token in t.tokens <==> !failed) && (!failed ==> t.tokens[token] == id)
  {
  }

  /**
   * A redelivery makes a queued row with its own ceiling and the source's class, for the build that
   * the newest delivered job is, or already redelivered; unless a job of the order has not ended.
   */
  lemma RedeliveredIff(env: Env, steps: seq<Step>, id: string, latestId: string, token: string, launch: Launch)
    requires var t := Run(env, steps).table; id !in t.jobs && token !in t.tokens && latestId in t.jobs
    ensures var s := Run(env, steps);
            var s', latest := Apply(env, s, Step.Redeliver(id, latestId, token, launch)), s.table.jobs[latestId];
            if exists other :: other in s.table.jobs && s.table.jobs[other].orderId == latest.orderId && !Ended(s.table, other) then s' == s
            else
              var failed := env.ecsConfigured && launch.LaunchFails?;
              var sourceId := if latest.mode == Build then latestId else latest.sourceJobId.GetOr(latestId);
              && id in s'.table.jobs && s'.table.jobs[id].orderId == latest.orderId
              && sourceId in s.table.jobs && s'.table.jobs[id].sizeClass == s.table.jobs[sourceId].sizeClass
              && s'.table.jobs[id].mode == Mode.Redeliver && s'.table.jobs[id].sourceJobId == Some(sourceId)
              && s'.table.jobs[id].maxTokens == 3_000_000
              && s'.table.jobs[id].status == (if failed then Failed else Queued)
              && (token in s'.table.tokens <==> !failed)
  {
    RunKinds(env, steps);
    var s := Run(env, steps);
    var latest := s.table.jobs[latestId];
    ActiveIff(s.table, latest.orderId);
    assert KindOk(env, s, latestId);
    if !HasActive(s.table, latest.orderId) {
      var sourceId := if latest.mode == Build then latestId else latest.sourceJobId.GetOr(latestId);
      NewRowLaunched(env, s, id,
        Job(latest.orderId, s.table.jobs[sourceId].sizeClass, 3_000_000, Mode.Redeliver, Some(sourceId), Queued, 0, None, None), token, launch);
    }
  }

  lemma NewJobLinks(env: Env, s: State, step: Step)
    requires step.Start? || step.Redeliver?
    ensures Apply(env, s, step).links == s.links
  {
  }

  lemma RebuildLinks(env: Env, s: State, step: Step)
    requires s.links.Keys <= s.table.jobs.Keys && step.Rebuild?
    ensures Apply(env, s, step).links.Keys <= s.table.jobs.Keys + {step.newId}
    ensures step.newId in Apply(env, s, step).links ==> step.newId in Apply(env, s, step).table.jobs
  {
    if step.id in s.due && step.id in s.table.jobs && step.id in s.trigger && Fresh(s, step.newId, step.token) {
      LinkedOnlyThen(env, s, step.id, step.newId, step.token, s.trigger[step.id].BySweep?, step.fate);
      if step.fate.Goes? {
        RetryRowLaunched(env, s, step.id, step.newId, step.token, step.fate.launch);
      }
    }
  }

  lemma StepLinks(env: Env, s: State, step: Step)
    requires s.links.Keys <= s.table.jobs.Keys
    ensures Apply(env, s, step).links.Keys <= Apply(env, s, step).table.jobs.Keys
  {
    StepMovesOn(env, s, step);
    if step.Rebuild? {
      RebuildLinks(env, s, step);
    } else if step.Start? || step.Redeliver? {
      NewJobLinks(env, s, step);
    } else {
      OtherKinds(env, s, step);
    }
  }

  lemma {:induction false} RunKinds(env: Env, steps: seq<Step>)
    ensures KindsOk(env, Run(env, steps)) && Run(env, steps).links.Keys <= Run(env, steps).table.jobs.Keys
  {
    if steps != [] {
      var n := |steps| - 1;
      RunKinds(env, steps[..n]);
      StepKinds(env, Run(env, steps[..n]), steps[n]);
      StepLinks(env, Run(env, steps[..n]), steps[n]);
    }
  }

  /**
   * What a job may spend, in every run: a build that is no rebuild has the ceiling of its class, or
   * of the small class when its order is a demo; a redelivery has three million tokens, and what it
   * redelivers is a build, never another redelivery, of its order and class.
   */
  lemma CeilingsAreByClass(env: Env, steps: seq<Step>, id: string)
    requires id in Run(env, steps).table.jobs
    ensures var s := Run(env, steps);
            var job := s.table.jobs[id];
            && (job.mode.Build? && id !in s.links ==>
                  job.maxTokens == (if job.orderId in env.demoOrders || job.sizeClass in {None, Some(S)} then 9_000_000
                                    else if job.sizeClass == Some(M) then 15_000_000 else 40_000_000))
            && (job.mode.Redeliver? ==>
                  && job.maxTokens == 3_000_000 && job.sourceJobId.Some? && job.sourceJobId.value in s.table.jobs
                  && s.table.jobs[job.sourceJobId.value].mode.Build?
                  && s.table.jobs[job.sourceJobId.value].orderId == job.orderId
                  && s.table.jobs[job.sourceJobId.value].sizeClass == job.sizeClass)
  {
    RunKinds(env, steps);
    assert KindOk(env, Run(env, steps), id);
  }

  // ----- Budget verdicts -----

  /** From position `k` the text is one of the two verdicts, and the word ends there */
  predicate SaysAt(reason: string, k: nat)
    requires k <= |reason|
  {
    || ("budget exceeded" <= reason[k..] && (|reason| == k + 15 || !IsWordChar(reason[k + 15])))
    || ("budget exhausted" <= reason[k..] && (|reason| == k + 16 || !IsWordChar(reason[k + 16])))
  }

  predicate BlankTo(reason: string, k: nat)
    requires k <= |reason|
  {
    forall i :: 0 <= i < k ==> IsSpace(reason[i])
  }

  lemma {:induction false} TrimStartDrops(s: string, k: nat)
    requires k <= |s| && BlankTo(s, k) && (k < |s| ==> !IsSpace(s[k]))
    ensures TrimStart(s) == s[k..]
  {
    if k > 0 {
      TrimStartDrops(s[1..], k - 1);
    }
  }

  lemma {:induction false} TrimmedTo(s: string) returns (k: nat)
    ensures k <= |s| && BlankTo(s, k) && (k < |s| ==> !IsSpace(s[k]))
  {
    k := 0;
    if s != "" && IsSpace(s[0]) {
      var n := TrimmedTo(s[1..]);
      k := n + 1;
      assert forall i :: 1 <= i < k ==> s[i] == s[1..][i - 1];
    }
  }

  lemma SaysIff(reason: string, k: nat)
    requires k <= |reason|
    ensures SaysAt(reason, k) <==> StartsWithWords(reason[k..], "budget exceeded") || StartsWithWords(reason[k..], "budget exhausted")
    ensures SaysAt(reason, k) ==> k < |reason| && reason[k] == 'b'
  {
  }

  /** A reason is a budget verdict if and only if it says so after white space alone. */
  lemma BudgetFailureIff(reason: string)
    ensures IsBudgetFailure(Some(reason)) <==> exists k: nat :: k <= |reason| && BlankTo(reason, k) && SaysAt(reason, k)
  {
    var n := TrimmedTo(reason);
    TrimStartDrops(reason, n);
    SaysIff(reason, n);
    if k: nat :| k <= |reason| && BlankTo(reason, k) && SaysAt(reason, k) {
      SaysIff(reason, k);
      TrimStartDrops(reason, k);
    }
  }

  /** The two verdicts as the orchestrator words them, whatever gate and findings follow */
  lemma OrchestratorVerdicts(rest: string)
    ensures IsBudgetFailure(Some("budget exceeded"))
    ensures IsBudgetFailure(Some("budget exhausted before the " + rest))
    ensures !IsBudgetFailure(None)
  {
    var exceeded, exhausted := "budget exceeded", "budget exhausted before the " + rest;
    assert exhausted[16] == ' ' && exhausted[..16] == "budget exhausted";
    BudgetFailureIff(exceeded);
    BudgetFailureIff(exhausted);
    assert BlankTo(exceeded, 0) && SaysAt(exceeded, 0);
    assert BlankTo(exhausted, 0) && SaysAt(exhausted, 0);
  }
}
