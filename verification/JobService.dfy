/**
 * The job-control calls as the service makes them (apps/api/src/services/jobService.ts): statement
 * by statement over the jobs table and the event log. Each method is one step of `JobControl`.
 */
module JobService {
  import AutoRetry
  import opened JobControl
  import opened JobEvents
  import opened JobTable
  import opened Wrappers

  class JobService {
    const env: Env
    const jobs: MemoryJobs
    const log: EventLog
    /** What the calls leave behind, for the statements about whole runs */
    ghost var links: map<string, string>
    ghost var held: set<string>
    ghost var due: set<string>
    ghost var trigger: map<string, Trigger>
    ghost var paged: set<string>
    ghost var lost: set<string>

    ghost function View(): State
      reads this, jobs, log
    {
      State(jobs.View(), log.events, links, held, due, trigger, paged, lost)
    }

    constructor (env: Env)
      ensures this.env == env && View() == INITIAL && log.Valid() && fresh(jobs) && fresh(log)
    {
      this.env := env;
      jobs := new MemoryJobs();
      log := new EventLog();
      links, held, due, trigger, paged, lost := map[], {}, {}, map[], {}, {};
    }

    /** `authenticateReport`: a finished job's token is worthless even if a row still carries it. */
    method AuthenticateReport(id: string, token: string) returns (job: Option<Job>)
      ensures job.Some? <==> Authentic(View(), id, token)
      ensures job.Some? <==>
                && token in jobs.reportTokens && jobs.reportTokens[token] == id
                && id in jobs.jobs && jobs.jobs[id].status !in {Delivered, Failed, Killed}
      ensures job.Some? ==> job.value == jobs.jobs[id]
    {
      if token !in jobs.reportTokens || jobs.reportTokens[token] !in jobs.jobs {
        return None;
      }
      var owner := jobs.reportTokens[token];
      if !IsActive(jobs.jobs[owner].status) || owner != id {
        return None;
      }
      job := Some(jobs.jobs[owner]);
    }

    method HasRetryEvent(id: string) returns (found: bool)
      ensures found == exists e :: e in FirstPage(EventsOf(log.events, id, 0)) && e.kind.Retry?
    {
      var page := log.ListEvents(id, 0);
      for i := 0 to |page|
        invariant forall k :: 0 <= k < i ==> !page[k].kind.Retry?
      {
        if page[i].kind.Retry? {
          return true;
        }
      }
      found := false;
    }

    method AutoRetryCandidate(id: string, job: Job, reason: Option<string>) returns (candidate: bool)
      ensures candidate == Candidate(env, View(), id, job, reason)
      ensures candidate <==>
                && !IsBudgetFailure(reason)
                && (job.orderId in env.demoOrders || job.sizeClass in {None, Some(S)})
                && AutoRetry.NoRetryIn(log.events, id)
    {
      AutoRetry.CandidateIff(env, View(), id, job, reason);
      if IsBudgetFailure(reason) || !Eligible(env, job) {
        return false;
      }
      var retried := HasRetryEvent(id);
      candidate := !retried;
    }

    /** One event of a batch: `storeEvent`, then the mail decision for a notice stored for the first time */
    method ReceiveEvent(id: string, job: Job, reason: Option<string>, e: ContainerEvent)
      requires log.Valid()
      modifies this, log
      ensures log.Valid() && View() == Receive(env, old(View()), id, job, reason, e)
      ensures log.events == if e.number.Some? && Stored(old(log.events), id, e.number.value) then old(log.events)
                            else old(log.events) + [JobEvent(|old(log.events)| + 1, id, e.number, e.kind, e.payload)]
    {
      if e.number.Some? {
        var _, duplicate := log.AppendEventOnce(id, e.number.value, e.kind, e.payload);
        if duplicate {
          return;
        }
      } else {
        var _ := log.AppendEvent(id, e.kind, e.payload);
      }
      if e.kind.Notify? && e.payload.FailureNotice? {
        var candidate := AutoRetryCandidate(id, job, reason);
        if candidate {
          held := held + {id};
        }
      }
    }

    /** `reportEvents`: the reason comes off the first `failed` event of this very batch. */
    method ReportEvents(id: string, token: string, batch: seq<ContainerEvent>)
      requires log.Valid()
      modifies this, log
      ensures log.Valid() && View() == Apply(env, old(View()), Step.ReportEvents(id, token, batch))
    {
      var authentic := AuthenticateReport(id, token);
      if authentic.None? {
        return;
      }
      var job := authentic.value;
      var reason := BatchReason(batch, job);
      ghost var before := View();
      for i := 0 to |batch|
        invariant log.Valid()
        invariant View() == ReceiveAll(env, before, id, job, reason, batch[..i])
      {
        assert batch[..i + 1][..i] == batch[..i];
        ReceiveEvent(id, job, reason, batch[i]);
      }
      assert batch[..|batch|] == batch;
    }

    /** `reportUpdate` up to the row write; a failed row is owed its rebuild call. */
    method ReportUpdate(id: string, token: string, status: Option<JobStatus>, tokensUsed: Option<nat>, reason: Option<string>)
      modifies this, jobs
      ensures View() == Apply(env, old(View()), Report(id, token, status, tokensUsed, reason))
    {
      var authentic := AuthenticateReport(id, token);
      if authentic.None? {
        return;
      }
      if status.Some? && Rank(status.value) < Rank(authentic.value.status) {
        return;
      }
      var terminal := status.Some? && !IsActive(status.value);
      var row := jobs.UpdateJob(id, JobUpdate(status, tokensUsed, reason, None, if terminal then Revoke else Keep));
      if row.Some? && row.value.status == Failed {
        due, trigger := due + {id}, trigger[id := ByReport];
      }
    }

    method Kill(id: string)
      requires log.Valid()
      modifies jobs, log
      ensures log.Valid() && View() == Apply(env, old(View()), Step.Kill(id))
      ensures if id in old(jobs.jobs) && old(jobs.jobs)[id].status !in {Delivered, Failed, Killed} then
                && jobs.jobs == old(jobs.jobs)[id := old(jobs.jobs)[id].(status := Killed, reason := Some("killed by admin"))]
                && (forall token :: token in jobs.reportTokens ==> jobs.reportTokens[token] != id)
                && log.events == old(log.events) + [JobEvent(|old(log.events)| + 1, id, None, KilledEvent, Reason("killed by admin"))]
              else View() == old(View())
    {
      if id !in jobs.jobs || !IsActive(jobs.jobs[id].status) {
        return;
      }
      var _ := jobs.UpdateJob(id, NO_UPDATE.(status := Some(Killed), reason := Some("killed by admin"), token := Revoke));
      var _ := log.AppendEvent(id, KilledEvent, Reason("killed by admin"));
    }

    /** `failDeadJob`: the verdict of the liveness sweep on a job that is still active. */
    method FailDeadJob(id: string, verdict: string) returns (failed: bool)
      requires log.Valid()
      modifies this, jobs, log
      ensures log.Valid() && View() == Apply(env, old(View()), SweepDead(id, verdict))
      ensures failed <==> id in old(jobs.jobs) && old(jobs.jobs)[id].status !in {Delivered, Failed, Killed}
      ensures failed ==>
                && jobs.jobs == old(jobs.jobs)[id := old(jobs.jobs)[id].(status := Failed, reason := Some(verdict))]
                && (forall token :: token in jobs.reportTokens ==> jobs.reportTokens[token] != id)
                && id in due && id in trigger && trigger[id] == BySweep
                && log.events == old(log.events) + [JobEvent(|old(log.events)| + 1, id, None, FailedEvent, Reason(verdict))]
      ensures !failed ==> View() == old(View())
    {
      if id !in jobs.jobs || !IsActive(jobs.jobs[id].status) {
        return false;
      }
      var row := jobs.UpdateJob(id, NO_UPDATE.(status := Some(Failed), reason := Some(verdict), token := Revoke));
      var _ := log.AppendEvent(id, FailedEvent, Reason(verdict));
      due, trigger := due + {id}, trigger[id := BySweep];
      failed := true;
    }

    /** `launch`: the task, or a failed row that no rebuild is owed. */
    method Launch(id: string, launch: JobControl.Launch)
      requires log.Valid()
      modifies jobs, log
      ensures log.Valid() && View() == Launched(env, old(View()), id, launch)
      ensures env.ecsConfigured && id in old(jobs.jobs) && !old(jobs.jobs)[id].status.Killed? ==>
                if launch.Task? then jobs.jobs == old(jobs.jobs)[id := old(jobs.jobs)[id].(taskArn := Some(launch.arn))] && log.events == old(log.events)
                else
                  && jobs.jobs == old(jobs.jobs)[id := old(jobs.jobs)[id].(status := Failed, reason := Some(launch.message))]
                  && (forall token :: token in jobs.reportTokens ==> jobs.reportTokens[token] != id)
                  && log.events == old(log.events) + [JobEvent(|old(log.events)| + 1, id, None, FailedEvent, Reason(launch.message))]
    {
      if !env.ecsConfigured {
        return;
      }
      match launch
      case Task(arn) =>
        var _ := jobs.UpdateJob(id, NO_UPDATE.(taskArn := Some(arn)));
      case LaunchFails(message) =>
        var _ := log.AppendEvent(id, FailedEvent, Reason(message));
        var _ := jobs.UpdateJob(id, NO_UPDATE.(status := Some(Failed), reason := Some(message), token := Revoke));
    }

    /** `insertRetry`: refused while another job of the order is active, else row and both links at once. */
    method InsertRetryRow(id: string, newId: string, token: string) returns (inserted: bool)
      requires log.Valid() && id in jobs.jobs && newId !in jobs.jobs
      modifies this, jobs, log
      ensures log.Valid() && inserted == !HasActive(old(jobs.View()), old(jobs.jobs)[id].orderId)
      ensures View() == if inserted then InsertRetry(old(View()), id, newId, token) else old(View())
      ensures inserted ==>
                && links == old(links)[newId := id]
                && log.events == old(log.events) + [JobEvent(|old(log.events)| + 1, id, None, Retry, RetriedBy(newId)),
                                                    JobEvent(|old(log.events)| + 2, newId, None, Retry, RetryOf(id))]
    {
      var job := jobs.jobs[id];
      var row := Job(job.orderId, job.sizeClass, job.maxTokens, Build, None, Queued, 0, None, None);
      inserted := jobs.InsertJob(newId, row, Some(token));
      if inserted {
        var _ := log.AppendEvent(id, Retry, RetriedBy(newId));
        var _ := log.AppendEvent(newId, Retry, RetryOf(id));
        links := links[newId := id];
      }
    }

    ghost method Settled(id: string, page: bool)
      modifies this
      ensures View() == Settle(old(View()), id, page)
    {
      due := due - {id};
      if page {
        paged := paged + {id};
      }
    }

    method StartRetry(id: string, newId: string, token: string, swept: bool, rereads: bool, launch: JobControl.Launch)
      returns (started: bool)
      requires log.Valid() && id in jobs.jobs && newId !in jobs.jobs
      modifies this, jobs, log
      ensures log.Valid() && View() == Rebuilt(env, old(View()), id, newId, token, swept, rereads, launch)
      ensures started <==> newId in jobs.jobs
      ensures started <==> !HasActive(old(jobs.View()), old(jobs.jobs)[id].orderId)
    {
      started := InsertRetryRow(id, newId, token);
      if !started {
        var known := false;
        if rereads {
          known := HasRetryEvent(id);
        }
        Settled(id, !known || swept);
        return;
      }
      Launch(newId, launch);
      Settled(id, env.ecsConfigured && launch.LaunchFails?);
    }

    /**
     * `retryFailedBuild`, and for a job the sweep failed the sweep's own mail when the call came
     * back with no rebuild. Says whether a rebuild was started; a job that has not failed is left
     * alone. For a failure that is owed its call this is the step of the protocol.
     */
    method RetryFailedBuild(id: string, newId: string, token: string, swept: bool, fate: RetryFate) returns (started: bool)
      requires log.Valid() && id in jobs.jobs && Fresh(View(), newId, token)
      modifies this, jobs, log
      ensures log.Valid()
      ensures View() == if old(jobs.jobs)[id].status == Failed then RebuildOf(env, old(View()), id, newId, token, swept, fate) else old(View())
      ensures old(jobs.jobs)[id].status == Failed && id in old(due) && id in old(trigger) && swept == old(trigger)[id].BySweep? ==>
                View() == Apply(env, old(View()), Rebuild(id, newId, token, fate))
      ensures started <==> newId in jobs.jobs
      ensures started <==>
                var job := old(jobs.jobs)[id];
                && job.status == Failed && fate.Goes?
                && (job.orderId in env.demoOrders || job.sizeClass in {None, Some(S)})
                && !IsBudgetFailure(job.reason) && AutoRetry.NoRetryIn(old(log.events), id)
                && !HasActive(old(jobs.View()), job.orderId)
    {
      started := false;
      if jobs.jobs[id].status != Failed {
        return;
      }
      if fate.ReadFails? {
        due, lost := due - {id}, lost + {id};
        return;
      }
      var job := jobs.jobs[id];
      var candidate := AutoRetryCandidate(id, job, job.reason);
      if !candidate {
        Settled(id, swept);
        return;
      }
      if fate.InsertFails? {
        Settled(id, true);
        return;
      }
      started := StartRetry(id, newId, token, swept, fate.rereads, fate.launch);
    }
  }
}
