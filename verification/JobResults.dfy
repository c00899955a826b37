/** What a whole run of the job-control calls comes to: one-way statuses, paired rebuilds, answered mails. */
module JobResults {
  import opened JobControl
  import opened JobEvents
  import opened JobInvariants
  import opened JobTable
  import opened Wrappers

  // ----- Statuses only move forward -----

  lemma MovesOnTwice(a: Table, b: Table, c: Table)
    requires MovesOn(a, b) && MovesOn(b, c)
    ensures MovesOn(a, c)
  {
  }

  lemma UpdateMovesOn(t: Table, id: string, update: JobUpdate)
    requires id in t.jobs && IsActive(t.jobs[id].status)
    requires update.status.Some? ==> Rank(t.jobs[id].status) <= Rank(update.status.value)
    ensures MovesOn(t, Update(t, id, update))
  {
  }

  lemma LaunchMovesOn(env: Env, s: State, id: string, launch: Launch)
    requires id in s.table.jobs && IsActive(s.table.jobs[id].status)
    ensures MovesOn(s.table, Launched(env, s, id, launch).table)
  {
    if env.ecsConfigured {
      match launch
      case Task(arn) => UpdateMovesOn(s.table, id, NO_UPDATE.(taskArn := Some(arn)));
      case LaunchFails(message) =>
        UpdateMovesOn(s.table, id, NO_UPDATE.(status := Some(Failed), reason := Some(message), token := Revoke));
    }
  }

  lemma StartMovesOn(env: Env, s: State, id: string, job: Job, token: string, launch: Launch)
    requires id !in s.table.jobs && IsActive(job.status)
    ensures MovesOn(s.table, Launched(env, Create(s, id, job, token), id, launch).table)
  {
    var created := Create(s, id, job, token);
    assert MovesOn(s.table, created.table);
    LaunchMovesOn(env, created, id, launch);
    MovesOnTwice(s.table, created.table, Launched(env, created, id, launch).table);
  }

  lemma {:induction false} EventsLeaveTheTable(env: Env, s: State, id: string, job: Job, reason: Option<string>, batch: seq<ContainerEvent>)
    ensures ReceiveAll(env, s, id, job, reason, batch).table == s.table
  {
    if batch != [] {
      EventsLeaveTheTable(env, s, id, job, reason, batch[..|batch| - 1]);
    }
  }

  lemma RebuildMovesOn(env: Env, s: State, id: string, newId: string, token: string, swept: bool, fate: RetryFate)
    requires id in s.table.jobs && Fresh(s, newId, token)
    ensures MovesOn(s.table, RebuildOf(env, s, id, newId, token, swept, fate).table)
  {
    var job := s.table.jobs[id];
    if !fate.ReadFails? && Candidate(env, s, id, job, job.reason) && fate.Goes? && !HasActive(s.table, job.orderId) {
      var inserted := InsertRetry(s, id, newId, token);
      assert MovesOn(s.table, inserted.table);
      LaunchMovesOn(env, inserted, newId, fate.launch);
      MovesOnTwice(s.table, inserted.table, Launched(env, inserted, newId, fate.launch).table);
    }
  }

  lemma NewJobMovesOn(env: Env, s: State, step: Step)
    requires step.Start? || step.Redeliver?
    ensures MovesOn(s.table, Apply(env, s, step).table)
  {
    match step
    case Start(id, orderId, sizeClass, token, launch) =>
      if Fresh(s, id, token) && !HasActive(s.table, orderId) {
        var tokens := if orderId in env.demoOrders then TokensFor(S) else TokensFor(sizeClass.GetOr(S));
        StartMovesOn(env, s, id, Job(orderId, sizeClass, tokens, Build, None, Queued, 0, None, None), token, launch);
      }
    case Redeliver(id, latestId, token, launch) =>
      if Fresh(s, id, token) && latestId in s.table.jobs && !HasActive(s.table, s.table.jobs[latestId].orderId) {
        var latest := s.table.jobs[latestId];
        var sourceId := if latest.mode.Redeliver? && latest.sourceJobId.Some? then latest.sourceJobId.value else latestId;
        if sourceId in s.table.jobs {
          StartMovesOn(env, s, id,
            Job(latest.orderId, s.table.jobs[sourceId].sizeClass, REDELIVERY_TOKENS, Mode.Redeliver, Some(sourceId), Queued, 0, None, None),
            token, launch);
        }
      }
    case _ =>
  }

  lemma RowWriteMovesOn(env: Env, s: State, step: Step)
    requires step.Rotate? || step.Report? || step.Kill? || step.SweepDead?
    ensures MovesOn(s.table, Apply(env, s, step).table)
  {
    var id := step.id;
    if id in s.table.jobs && IsActive(s.table.jobs[id].status) {
      match step
      case Rotate(_, _, newToken) => UpdateMovesOn(s.table, id, NO_UPDATE.(token := Replace(newToken)));
      case Report(_, _, status, tokensUsed, reason) =>
        if !(status.Some? && Rank(status.value) < Rank(s.table.jobs[id].status)) {
          var terminal := status.Some? && !IsActive(status.value);
          UpdateMovesOn(s.table, id, JobUpdate(status, tokensUsed, reason, None, if terminal then Revoke else Keep));
        }
      case Kill(_) =>
        UpdateMovesOn(s.table, id, NO_UPDATE.(status := Some(Killed), reason := Some("killed by admin"), token := Revoke));
      case SweepDead(_, verdict) =>
        UpdateMovesOn(s.table, id, NO_UPDATE.(status := Some(Failed), reason := Some(verdict), token := Revoke));
    }
  }

  lemma StepMovesOn(env: Env, s: State, step: Step)
    ensures MovesOn(s.table, Apply(env, s, step).table)
  {
    if step.Start? || step.Redeliver? {
      NewJobMovesOn(env, s, step);
    } else if step.ReportEvents? {
      if Authentic(s, step.id, step.token) {
        EventsLeaveTheTable(env, s, step.id, s.table.jobs[step.id], BatchReason(step.batch, s.table.jobs[step.id]), step.batch);
      }
    } else if step.Rebuild? {
      if step.id in s.due && step.id in s.table.jobs && step.id in s.trigger && Fresh(s, step.newId, step.token) {
        RebuildMovesOn(env, s, step.id, step.newId, step.token, s.trigger[step.id].BySweep?, step.fate);
      }
    } else if !step.Crash? {
      RowWriteMovesOn(env, s, step);
    }
  }

  /** The phases of a build in order; anything may follow that is not an earlier one, and nothing an end */
  predicate MayFollow(before: JobStatus, after: JobStatus) {
    match before
    case Queued => true
    case Planning => after != Queued
    case Building => after !in {Queued, Planning}
    case Verifying => after !in {Queued, Planning, Building}
    case _ => after == before
  }

  /** Over any two moments of a run a job's status goes on in that order, and a job that has ended keeps its row unchanged. */
  lemma StatusOnlyMovesForward(env: Env, steps: seq<Step>, more: seq<Step>, id: string)
    requires id in Run(env, steps).table.jobs
    ensures var jobs := Run(env, steps + more).table.jobs;
            && id in jobs
            && var before, after := Run(env, steps).table.jobs[id], jobs[id];
               && after.orderId == before.orderId && after.sizeClass == before.sizeClass && after.maxTokens == before.maxTokens
               && MayFollow(before.status, after.status)
               && (before.status in {Delivered, Failed, Killed} ==> after == before)
  {
    RunsMoveOn(env, steps, more);
  }

  lemma {:induction false} RunsMoveOn(env: Env, steps: seq<Step>, more: seq<Step>)
    ensures MovesOn(Run(env, steps).table, Run(env, steps + more).table)
  {
    if more == [] {
      assert steps + more == steps;
    } else {
      var n := |more| - 1;
      RunsMoveOn(env, steps, more[..n]);
      StepMovesOn(env, Run(env, steps + more[..n]), more[n]);
      assert (steps + more)[..|steps + more| - 1] == steps + more[..n];
      MovesOnTwice(Run(env, steps).table, Run(env, steps + more[..n]).table, Run(env, steps + more).table);
    }
  }

  /** At most one job of an order has not ended, a job has one token at most, and an ended one none, in every run. */
  lemma OneActiveJobOneToken(env: Env, steps: seq<Step>, a: string, b: string)
    requires AllHonest(steps)
    ensures var t := Run(env, steps).table;
            && (a in t.jobs && b in t.jobs && t.jobs[a].orderId == t.jobs[b].orderId && !Ended(t, a) && !Ended(t, b) ==> a == b)
            && (a in t.tokens ==> t.tokens[a] in t.jobs && !Ended(t, t.tokens[a]))
            && (a in t.tokens && b in t.tokens && t.tokens[a] == t.tokens[b] ==> a == b)
  {
    RunKeepsInv(env, steps);
    var t := Run(env, steps).table;
    if a in t.jobs && b in t.jobs && t.jobs[a].orderId == t.jobs[b].orderId && IsActive(t.jobs[a].status) && IsActive(t.jobs[b].status) {
      assert ActiveOf(t, a, t.jobs[a].orderId) && ActiveOf(t, b, t.jobs[a].orderId);
    }
  }

  predicate Ended(t: Table, id: string)
    requires id in t.jobs
  {
    t.jobs[id].status.Delivered? || t.jobs[id].status.Failed? || t.jobs[id].status.Killed?
  }

  // ----- What a container's token is good for -----

  /** The token is the job's own, and the job has not ended */
  predicate Speaks(s: State, id: string, token: string) {
    && token in s.table.tokens && s.table.tokens[token] == id
    && id in s.table.jobs && s.table.jobs[id].status in {Queued, Planning, Building, Verifying}
  }

  /** Any other token changes nothing. */
  lemma OnlyItsOwnTokenSpeaks(env: Env, s: State, step: Step)
    requires step.ReportEvents? || step.Report? || step.Rotate?
    requires !Speaks(s, step.id, step.token)
    ensures Apply(env, s, step) == s
  {
  }

  /**
   * A report under the job's token is refused if and only if it names an earlier phase; else the row
   * takes what it carries, an end revokes the token, and a failure is owed its rebuild call.
   */
  lemma ReportLandsIff(env: Env, s: State, id: string, token: string, status: Option<JobStatus>, tokensUsed: Option<nat>, reason: Option<string>)
    requires Speaks(s, id, token)
    ensures var s' := Apply(env, s, Report(id, token, status, tokensUsed, reason));
            var job := s.table.jobs[id];
            if status.Some? && !MayFollow(job.status, status.value) then s' == s
            else
              && s'.table.jobs == s.table.jobs[id := job.(status := status.GetOr(job.status), tokensUsed := tokensUsed.GetOr(job.tokensUsed),
                                                           reason := if reason.Some? then reason else job.reason)]
              && (token in s'.table.tokens <==> status !in {Some(Delivered), Some(Failed), Some(Killed)})
              && s'.due == (if status == Some(Failed) then s.due + {id} else s.due)
              && (status == Some(Failed) ==> id in s'.trigger && s'.trigger[id] == ByReport)
              && s'.events == s.events && s'.held == s.held && s'.links == s.links && s'.paged == s.paged
  {
    var job := s.table.jobs[id];
    PhaseOrder(job.status, status.GetOr(job.status));
    ReportApplied(env, s, id, token, status, tokensUsed, reason);
    if !(status.Some? && Rank(status.value) < Rank(job.status)) {
      var terminal := status in {Some(Delivered), Some(Failed), Some(Killed)};
      ReportedRow(s, id, token, JobUpdate(status, tokensUsed, reason, None, if terminal then Revoke else Keep));
    }
  }

  lemma ReportApplied(env: Env, s: State, id: string, token: string, status: Option<JobStatus>, tokensUsed: Option<nat>, reason: Option<string>)
    requires Speaks(s, id, token)
    ensures var terminal := status in {Some(Delivered), Some(Failed), Some(Killed)};
            var written := Write(s, id, JobUpdate(status, tokensUsed, reason, None, if terminal then Revoke else Keep));
            Apply(env, s, Report(id, token, status, tokensUsed, reason)) ==
            if status.Some? && Rank(status.value) < Rank(s.table.jobs[id].status) then s
            else if status == Some(Failed) then Fail(written, id, ByReport) else written
  {
  }

  /** A rotation hands the job a token of its own and ends the old one. */
  lemma RotatedIff(env: Env, s: State, id: string, token: string, newToken: string)
    requires Speaks(s, id, token)
    ensures var s' := Apply(env, s, Rotate(id, token, newToken));
            && s'.table.jobs == s.table.jobs && s'.events == s.events
            && if newToken in s.table.tokens then s' == s else Speaks(s', id, newToken) && !Speaks(s', id, token)
  {
    if newToken !in s.table.tokens {
      assert Update(s.table, id, NO_UPDATE.(token := Replace(newToken))).jobs == s.table.jobs;
    }
  }

  lemma PhaseOrder(before: JobStatus, after: JobStatus)
    requires before in {Queued, Planning, Building, Verifying}
    ensures Rank(after) < Rank(before) <==> !MayFollow(before, after)
  {
  }

  lemma ReportedRow(s: State, id: string, token: string, update: JobUpdate)
    requires Speaks(s, id, token) && update.taskArn.None? && !update.token.Replace?
    ensures var t, job := Update(s.table, id, update), s.table.jobs[id];
            && t.jobs == s.table.jobs[id := job.(status := update.status.GetOr(job.status), tokensUsed := update.tokensUsed.GetOr(job.tokensUsed),
                                                 reason := if update.reason.Some? then update.reason else job.reason)]
            && (token in t.tokens <==> update.token.Keep?)
  {
  }

  // ----- Rebuilds form pairs -----

  /** The token ceilings of a set of jobs, added up */
  ghost function Ceiling(jobs: map<string, Job>, ids: set<string>): nat
    requires ids <= jobs.Keys
  {
    if ids == {} then 0
    else
      var id :| id in ids;
      jobs[id].maxTokens + Ceiling(jobs, ids - {id})
  }

  lemma {:induction false} CeilingWithout(jobs: map<string, Job>, ids: set<string>, id: string)
    requires ids <= jobs.Keys && id in ids
    ensures Ceiling(jobs, ids) == jobs[id].maxTokens + Ceiling(jobs, ids - {id})
    decreases |ids|
  {
    var first :| first in ids && Ceiling(jobs, ids) == jobs[first].maxTokens + Ceiling(jobs, ids - {first});
    if first != id {
      CeilingWithout(jobs, ids - {first}, id);
      CeilingWithout(jobs, ids - {id}, first);
      assert ids - {first} - {id} == ids - {id} - {first};
    }
  }

  lemma {:induction false} CeilingSplit(jobs: map<string, Job>, a: set<string>, b: set<string>)
    requires a <= jobs.Keys && b <= jobs.Keys && a !! b
    ensures Ceiling(jobs, a + b) == Ceiling(jobs, a) + Ceiling(jobs, b)
    decreases |a|
  {
    if a == {} {
      assert a + b == b;
    } else {
      var id :| id in a;
      CeilingWithout(jobs, a, id);
      CeilingWithout(jobs, a + b, id);
      assert a + b - {id} == a - {id} + b;
      CeilingSplit(jobs, a - {id}, b);
    }
  }

  /** The jobs that the given retries retry */
  ghost function Originals(links: map<string, string>, retries: set<string>): set<string>
    requires retries <= links.Keys
  {
    set r | r in retries :: links[r]
  }

  /** What the links of a run are like: one per original, between jobs that exist, with equal ceilings */
  ghost predicate Paired(jobs: map<string, Job>, links: map<string, string>) {
    && links.Keys <= jobs.Keys
    && (forall r :: r in links ==> links[r] in jobs && links[r] !in links && jobs[r].maxTokens == jobs[links[r]].maxTokens)
    && (forall q, r :: q in links && r in links && links[q] == links[r] ==> q == r)
  }

  lemma LinksArePaired(s: State)
    requires LinksOk(s)
    ensures Paired(s.table.jobs, s.links)
  {
    forall r | r in s.links
      ensures r in s.table.jobs && s.links[r] in s.table.jobs && s.links[r] !in s.links
      ensures s.table.jobs[r].maxTokens == s.table.jobs[s.links[r]].maxTokens
    {
      assert LinkOk(s, r);
    }
  }

  lemma {:induction false} OriginalsMatch(jobs: map<string, Job>, links: map<string, string>, retries: set<string>)
    requires Paired(jobs, links) && retries <= links.Keys
    ensures var originals := Originals(links, retries);
            && originals <= jobs.Keys - links.Keys && |originals| == |retries|
            && Ceiling(jobs, originals) == Ceiling(jobs, retries)
    decreases |retries|
  {
    if retries != {} {
      var r :| r in retries;
      var originals := Originals(links, retries);
      OriginalsMatch(jobs, links, retries - {r});
      assert links[r] in originals;
      assert originals - {links[r]} == Originals(links, retries - {r});
      CeilingWithout(jobs, retries, r);
      CeilingWithout(jobs, originals, links[r]);
    }
  }

  /** No job is rebuilt twice and no rebuild is rebuilt; a rebuild's ceiling and order are its original's. */
  lemma {:induction false} RetriesFormPairs(env: Env, steps: seq<Step>, q: string, r: string)
    requires AllHonest(steps)
    ensures var s := Run(env, steps);
            r in s.links ==>
              var id := s.links[r];
              && (q in s.links && s.links[q] == id ==> q == r)
              && id !in s.links && FailedRow(s, id)
              && r in s.table.jobs
              && s.table.jobs[r].maxTokens == s.table.jobs[id].maxTokens
              && s.table.jobs[r].orderId == s.table.jobs[id].orderId
  {
    RunKeepsInv(env, steps);
    var s := Run(env, steps);
    if r in s.links {
      assert LinkOk(s, r);
    }
  }

  lemma {:induction false} SubsetIsNoLarger(a: set<string>, b: set<string>)
    requires a <= b
    ensures |a| <= |b|
  {
    if a != {} {
      var x :| x in a;
      SubsetIsNoLarger(a - {x}, b - {x});
    }
  }

  /** Retries matched by as many originals among the other jobs, with the same ceilings */
  lemma MatchedAtMostDouble(jobs: map<string, Job>, retries: set<string>, firsts: set<string>, originals: set<string>)
    requires retries !! firsts && jobs.Keys == retries + firsts && originals <= firsts
    requires |originals| == |retries| && Ceiling(jobs, originals) == Ceiling(jobs, retries)
    ensures |retries| <= |firsts|
    ensures Ceiling(jobs, jobs.Keys) <= 2 * Ceiling(jobs, firsts)
  {
    SubsetIsNoLarger(originals, firsts);
    assert firsts == originals + (firsts - originals);
    CeilingSplit(jobs, originals, firsts - originals);
    CeilingSplit(jobs, retries, firsts);
  }

  lemma PairedAtMostDouble(jobs: map<string, Job>, retries: set<string>, firsts: set<string>, links: map<string, string>)
    requires Paired(jobs, links) && retries == links.Keys && firsts == jobs.Keys - retries
    ensures |retries| <= |firsts| && Ceiling(jobs, jobs.Keys) <= 2 * Ceiling(jobs, firsts)
  {
    var originals := Match(jobs, retries, firsts, links);
    AllAreRetriesOrFirsts(jobs.Keys, retries, firsts);
    MatchedAtMostDouble(jobs, retries, firsts, originals);
  }

  lemma Match(jobs: map<string, Job>, retries: set<string>, firsts: set<string>, links: map<string, string>)
    returns (originals: set<string>)
    requires Paired(jobs, links) && retries == links.Keys && firsts == jobs.Keys - retries
    ensures retries <= jobs.Keys && originals <= firsts && |originals| == |retries|
    ensures Ceiling(jobs, originals) == Ceiling(jobs, retries)
  {
    OriginalsMatch(jobs, links, retries);
    originals := Originals(links, retries);
  }

  lemma AllAreRetriesOrFirsts(ids: set<string>, retries: set<string>, firsts: set<string>)
    requires retries <= ids && firsts == ids - retries
    ensures ids == retries + firsts && retries !! firsts
  {
  }

  lemma {:induction false} RunIsPaired(env: Env, steps: seq<Step>)
    requires AllHonest(steps)
    ensures Paired(Run(env, steps).table.jobs, Run(env, steps).links)
  {
    RunKeepsInv(env, steps);
    LinksArePaired(Run(env, steps));
  }

  /** So rebuilds never outnumber first attempts, and at most double the tokens they may spend. */
  lemma {:induction false} RebuildsAtMostDoubleTheCeiling(env: Env, steps: seq<Step>)
    requires AllHonest(steps)
    ensures var s := Run(env, steps);
            var retries := s.links.Keys;
            var firsts := s.table.jobs.Keys - retries;
            && |retries| <= |firsts|
            && Ceiling(s.table.jobs, s.table.jobs.Keys) <= 2 * Ceiling(s.table.jobs, firsts)
  {
    RunIsPaired(env, steps);
    var s := Run(env, steps);
    PairedAtMostDouble(s.table.jobs, s.links.Keys, s.table.jobs.Keys - s.links.Keys, s.links);
  }

  // ----- Two rebuild calls that both read the candidate first -----

  /** After a rebuild was inserted the order has an active job exactly when its launch did not fail. */
  lemma InsertedIsActive(env: Env, s: State, id: string, newId: string, token: string, launch: Launch)
    requires id in s.table.jobs && newId !in s.table.jobs && !HasActive(s.table, s.table.jobs[id].orderId)
    ensures var after := Launched(env, InsertRetry(s, id, newId, token), newId, launch);
            HasActive(after.table, s.table.jobs[id].orderId) <==> !(env.ecsConfigured && launch.LaunchFails?)
  {
    var orderId := s.table.jobs[id].orderId;
    var after := Launched(env, InsertRetry(s, id, newId, token), newId, launch);
    LaunchedKeepsRest(env, InsertRetry(s, id, newId, token), newId, launch);
    assert newId in after.table.jobs && after.table.jobs[newId].orderId == orderId;
    assert IsActive(after.table.jobs[newId].status) <==> !(env.ecsConfigured && launch.LaunchFails?);
    forall other | other in after.table.jobs && other != newId && after.table.jobs[other].orderId == orderId
      ensures !IsActive(after.table.jobs[other].status)
    {
      assert other in s.table.jobs && after.table.jobs[other] == s.table.jobs[other];
    }
  }

  /** The state after more steps */
  ghost function RunFrom(env: Env, s: State, steps: seq<Step>): State {
    if steps == [] then s else Apply(env, RunFrom(env, s, steps[..|steps| - 1]), steps[|steps| - 1])
  }

  lemma {:induction false} RunFromMovesOn(env: Env, s: State, steps: seq<Step>)
    ensures MovesOn(s.table, RunFrom(env, s, steps).table)
  {
    if steps != [] {
      var before := RunFrom(env, s, steps[..|steps| - 1]);
      RunFromMovesOn(env, s, steps[..|steps| - 1]);
      StepMovesOn(env, before, steps[|steps| - 1]);
      MovesOnTwice(s.table, before.table, RunFrom(env, s, steps).table);
    }
  }

  /** The first call's rebuild, and whatever happens until the second call inserts */
  ghost function Between(env: Env, s: State, id: string, firstId: string, token: string, launch: Launch, between: seq<Step>): State
    requires id in s.table.jobs
  {
    RunFrom(env, Settle(Launched(env, InsertRetry(s, id, firstId, token), firstId, launch), id, env.ecsConfigured && launch.LaunchFails?), between)
  }

  lemma BetweenMovesOn(env: Env, s: State, id: string, firstId: string, token: string, launch: Launch, between: seq<Step>)
    requires id in s.table.jobs && firstId !in s.table.jobs
    ensures var s' := Between(env, s, id, firstId, token, launch, between);
            && MovesOn(s.table, s'.table) && firstId in s'.table.jobs
            && s'.table.jobs[firstId].orderId == s.table.jobs[id].orderId
  {
    var inserted := InsertRetry(s, id, firstId, token);
    var started := Launched(env, inserted, firstId, launch);
    assert MovesOn(s.table, inserted.table);
    LaunchMovesOn(env, inserted, firstId, launch);
    MovesOnTwice(s.table, inserted.table, started.table);
    var first := Settle(started, id, env.ecsConfigured && launch.LaunchFails?);
    RunFromMovesOn(env, first, between);
    MovesOnTwice(s.table, started.table, RunFrom(env, first, between).table);
  }

  /**
   * Of two overlapping calls for one job, whatever happens in between, the second rebuilds it again
   * if and only if the order has no active job when its insert runs.
   */
  lemma RacingCallRebuildsAgain(env: Env, s: State, id: string, firstId: string, token: string, launch: Launch, between: seq<Step>,
                                secondId: string, otherToken: string, swept: bool, rereads: bool, relaunch: Launch)
    requires id in s.table.jobs && firstId !in s.table.jobs
    requires secondId !in Between(env, s, id, firstId, token, launch, between).links
    ensures var s' := Between(env, s, id, firstId, token, launch, between);
            && id in s'.table.jobs
            && (secondId in Rebuilt(env, s', id, secondId, otherToken, swept, rereads, relaunch).links
                <==> !HasActive(s'.table, s.table.jobs[id].orderId))
  {
    BetweenMovesOn(env, s, id, firstId, token, launch, between);
    var s' := Between(env, s, id, firstId, token, launch, between);
    if !HasActive(s'.table, s.table.jobs[id].orderId) {
      LaunchedKeepsRest(env, InsertRetry(s', id, secondId, otherToken), secondId, relaunch);
    }
  }

  /** The order got no other job until then */
  predicate NoOtherJob(s: State, s': State, orderId: string, firstId: string) {
    forall other :: other in s'.table.jobs && other != firstId && s'.table.jobs[other].orderId == orderId ==> other in s.table.jobs
  }

  /** So if the order got no other job, it does exactly when the first rebuild has ended by then: failed to launch, was killed, swept or reported. */
  lemma RacingCallNeedsTheFirstToEnd(env: Env, s: State, id: string, firstId: string, token: string, launch: Launch, between: seq<Step>)
    requires id in s.table.jobs && firstId !in s.table.jobs && !HasActive(s.table, s.table.jobs[id].orderId)
    requires NoOtherJob(s, Between(env, s, id, firstId, token, launch, between), s.table.jobs[id].orderId, firstId)
    ensures var s' := Between(env, s, id, firstId, token, launch, between);
            && firstId in s'.table.jobs
            && (HasActive(s'.table, s.table.jobs[id].orderId) <==> IsActive(s'.table.jobs[firstId].status))
  {
    BetweenMovesOn(env, s, id, firstId, token, launch, between);
    var s' := Between(env, s, id, firstId, token, launch, between);
    var orderId := s.table.jobs[id].orderId;
    forall other | other in s'.table.jobs && other != firstId && s'.table.jobs[other].orderId == orderId
      ensures !IsActive(s'.table.jobs[other].status)
    {
      assert other in s.table.jobs && RowMovesOn(s.table.jobs[other], s'.table.jobs[other]);
    }
  }

  /** With nothing in between, that is when its launch failed. */
  lemma RacingCallAtOnce(env: Env, s: State, id: string, firstId: string, token: string, launch: Launch)
    requires id in s.table.jobs && firstId !in s.table.jobs && !HasActive(s.table, s.table.jobs[id].orderId)
    ensures HasActive(Between(env, s, id, firstId, token, launch, []).table, s.table.jobs[id].orderId)
            <==> !(env.ecsConfigured && launch.LaunchFails?)
  {
    InsertedIsActive(env, s, id, firstId, token, launch);
  }

  lemma {:induction false} ReceiveAllGrows(env: Env, s: State, id: string, job: Job, reason: Option<string>, batch: seq<ContainerEvent>)
    ensures s.events <= ReceiveAll(env, s, id, job, reason, batch).events
  {
    if batch != [] {
      ReceiveAllGrows(env, s, id, job, reason, batch[..|batch| - 1]);
    }
  }

  lemma RebuildGrows(env: Env, s: State, id: string, newId: string, token: string, swept: bool, fate: RetryFate)
    requires id in s.table.jobs
    ensures s.events <= RebuildOf(env, s, id, newId, token, swept, fate).events
  {
  }

  lemma LogGrows(env: Env, s: State, step: Step)
    ensures s.events <= Apply(env, s, step).events
  {
    match step
    case ReportEvents(id, token, batch) =>
      if Authentic(s, id, token) {
        ReceiveAllGrows(env, s, id, s.table.jobs[id], BatchReason(batch, s.table.jobs[id]), batch);
      }
    case Rebuild(id, newId, token, fate) =>
      if id in s.due && id in s.table.jobs && id in s.trigger {
        RebuildGrows(env, s, id, newId, token, s.trigger[id].BySweep?, fate);
      }
    case _ =>
  }

  lemma {:induction false} RunFromGrows(env: Env, s: State, steps: seq<Step>)
    ensures s.events <= RunFrom(env, s, steps).events
  {
    if steps != [] {
      RunFromGrows(env, s, steps[..|steps| - 1]);
      LogGrows(env, RunFrom(env, s, steps[..|steps| - 1]), steps[|steps| - 1]);
    }
  }

  lemma {:induction false} OwnEventsGrow(events: seq<JobEvent>, more: seq<JobEvent>, id: string)
    requires events <= more
    ensures EventsOf(events, id, 0) <= EventsOf(more, id, 0)
    decreases |more|
  {
    if |events| < |more| {
      OwnEventsGrow(events, more[..|more| - 1], id);
    } else {
      assert events == more;
    }
  }

  /**
   * When the index refuses it, the second call stays silent if and only if its re-read works and
   * shows the first call's marker, no sweep mails for it. The marker is the first retry event of the
   * failed job, so it shows exactly when fewer than 500 events came before it.
   */
  lemma RacingCallStaysSilent(env: Env, s: State, id: string, firstId: string, token: string, launch: Launch, between: seq<Step>,
                              secondId: string, otherToken: string, swept: bool, rereads: bool, relaunch: Launch)
    requires id in s.table.jobs && firstId !in s.table.jobs
    requires forall e :: e in EventsOf(s.events, id, 0) ==> !e.kind.Retry?
    requires HasActive(Between(env, s, id, firstId, token, launch, between).table, s.table.jobs[id].orderId)
    ensures var s' := Between(env, s, id, firstId, token, launch, between);
            && id in s'.table.jobs
            && Rebuilt(env, s', id, secondId, otherToken, swept, rereads, relaunch).paged ==
               if rereads && |EventsOf(s.events, id, 0)| < 500 && !swept then s'.paged else s'.paged + {id}
  {
    BetweenMovesOn(env, s, id, firstId, token, launch, between);
    MarkerShows(env, s, id, firstId, token, launch, between);
  }

  lemma MarkerShows(env: Env, s: State, id: string, firstId: string, token: string, launch: Launch, between: seq<Step>)
    requires id in s.table.jobs && firstId !in s.table.jobs
    requires forall e :: e in EventsOf(s.events, id, 0) ==> !e.kind.Retry?
    ensures var page := FirstPage(EventsOf(Between(env, s, id, firstId, token, launch, between).events, id, 0));
            (exists e :: e in page && e.kind.Retry?) <==> |EventsOf(s.events, id, 0)| < 500
  {
    var inserted := InsertRetry(s, id, firstId, token);
    var first := Settle(Launched(env, inserted, firstId, launch), id, env.ecsConfigured && launch.LaunchFails?);
    RunFromGrows(env, first, between);
    var events := RunFrom(env, first, between).events;
    assert inserted.events <= first.events;
    OwnEventsGrow(inserted.events, events, id);
    MarkerIsLast(s, id, firstId, token);
    MarkerInPage(EventsOf(s.events, id, 0), EventsOf(inserted.events, id, 0), EventsOf(events, id, 0));
  }

  lemma MarkerInPage(own: seq<JobEvent>, marked: seq<JobEvent>, later: seq<JobEvent>)
    requires |marked| == |own| + 1 && own <= marked <= later
    requires marked[|own|].kind.Retry? && forall e :: e in own ==> !e.kind.Retry?
    ensures (exists e :: e in FirstPage(later) && e.kind.Retry?) <==> |own| < 500
  {
    if |own| < 500 {
      assert FirstPage(later)[|own|] == marked[|own|];
    } else {
      forall e | e in FirstPage(later) ensures !e.kind.Retry? {
        var i :| 0 <= i < |FirstPage(later)| && FirstPage(later)[i] == e;
        assert own[i] == e;
      }
    }
  }

  /** The failed job's own events, with the marker as the last */
  lemma MarkerIsLast(s: State, id: string, firstId: string, token: string)
    requires id in s.table.jobs && firstId !in s.table.jobs
    ensures var own, marked := EventsOf(s.events, id, 0), EventsOf(InsertRetry(s, id, firstId, token).events, id, 0);
            |marked| == |own| + 1 && own <= marked && marked[|own|].kind.Retry?
  {
    var a := JobEvent(|s.events| + 1, id, None, Retry, RetriedBy(firstId));
    var b := JobEvent(|s.events| + 2, firstId, None, Retry, RetryOf(id));
    EventsOfOne(s.events, a, id);
    EventsOfOne(s.events + [a], b, id);
    assert InsertRetry(s, id, firstId, token).events == s.events + [a] + [b];
  }

  // ----- Held failure mails -----

  /**
   * Once the rebuild call of a failed job has run, its held mail was answered (the job was rebuilt
   * or the admins were paged) exactly when that call did not crash or fail to read, and the failure
   * was not a budget verdict that the container itself reported.
   */
  lemma {:induction false} HeldMailIsAnswered(env: Env, steps: seq<Step>, id: string)
    requires AllHonest(steps)
    requires var s := Run(env, steps); id in s.held && FailedRow(s, id) && id !in s.due
    ensures var s := Run(env, steps);
            && id in s.trigger
            && (Answered(s, id) <==>
                id !in s.lost && (s.trigger[id].BySweep? || !IsBudgetFailure(s.table.jobs[id].reason)))
  {
    RunKeepsInv(env, steps);
    assert HeldOk(env, Run(env, steps), id);
  }

  /** A failure that is not owed a rebuild call any more, without rebuild or page */
  ghost predicate Forgotten(s: State, id: string) {
    FailedRow(s, id) && id !in s.due && id !in s.links.Values && id !in s.paged
  }

  lemma {:induction false} BatchForgets(env: Env, s: State, id: string, job: Job, reason: Option<string>, batch: seq<ContainerEvent>)
    ensures var s' := ReceiveAll(env, s, id, job, reason, batch);
            s'.table == s.table && s'.links == s.links && s'.due == s.due && s'.paged == s.paged
  {
    if batch != [] {
      BatchForgets(env, s, id, job, reason, batch[..|batch| - 1]);
    }
  }

  lemma RebuildForgets(env: Env, s: State, id: string, other: string, newId: string, token: string, swept: bool, fate: RetryFate)
    requires id != other && other in s.table.jobs
    ensures var s' := RebuildOf(env, s, other, newId, token, swept, fate);
            (id !in s.links.Values ==> id !in s'.links.Values) && (id !in s.paged ==> id !in s'.paged) && (id !in s.due ==> id !in s'.due)
  {
  }

  lemma NewJobForgets(env: Env, s: State, step: Step)
    requires step.Start? || step.Redeliver?
    ensures var s' := Apply(env, s, step); s'.links == s.links && s'.due == s.due && s'.paged == s.paged
  {
  }

  lemma StepForgets(env: Env, s: State, step: Step, id: string)
    requires Forgotten(s, id)
    ensures Forgotten(Apply(env, s, step), id)
  {
    StepMovesOn(env, s, step);
    match step
    case ReportEvents(other, token, batch) =>
      if Authentic(s, other, token) {
        BatchForgets(env, s, other, s.table.jobs[other], BatchReason(batch, s.table.jobs[other]), batch);
      }
    case Rebuild(other, newId, token, fate) =>
      if other in s.due && other in s.table.jobs && other in s.trigger && Fresh(s, newId, token) {
        RebuildForgets(env, s, id, other, newId, token, s.trigger[other].BySweep?, fate);
      }
    case Start(_, _, _, _, _) => NewJobForgets(env, s, step);
    case Redeliver(_, _, _, _) => NewJobForgets(env, s, step);
    case _ =>
  }

  lemma {:induction false} RunForgets(env: Env, steps: seq<Step>, more: seq<Step>, id: string)
    requires Forgotten(Run(env, steps), id)
    ensures Forgotten(Run(env, steps + more), id)
  {
    if more == [] {
      assert steps + more == steps;
    } else {
      var n := |more| - 1;
      RunForgets(env, steps, more[..n], id);
      assert (steps + more)[..|steps + more| - 1] == steps + more[..n];
      StepForgets(env, Run(env, steps + more[..n]), more[n], id);
    }
  }

  /**
   * A process that dies between a failure and its rebuild call forgets both the rebuild and the page:
   * whatever is called afterwards, the job is never rebuilt and nobody is ever told.
   */
  lemma CrashForgetsTheRebuild(env: Env, steps: seq<Step>, id: string, more: seq<Step>)
    requires AllHonest(steps) && id in Run(env, steps).due
    ensures var s := Run(env, steps + [Crash(id)] + more);
            && FailedRow(s, id) && id !in s.links.Values && id !in s.paged
  {
    RunKeepsInv(env, steps);
    NotYetRetried(Run(env, steps), id);
    RunAppend(env, steps, Crash(id));
    RunForgets(env, steps + [Crash(id)], more, id);
  }

  lemma BudgetReason()
    ensures IsBudgetFailure(Some("budget exceeded")) && !IsBudgetFailure(None)
  {
    SaidPlainly("budget exceeded");
  }

  lemma SaidPlainly(words: string)
    requires words != "" && !IsSpace(words[0])
    ensures TrimStart(words) == words && StartsWithWords(words, words)
  {
  }

  lemma OneOwnEvent(e: JobEvent, id: string)
    requires e.jobId == id && e.id > 0
    ensures EventsOf([e], id, 0) == [e]
  {
    assert [e][..0] == [];
  }

  lemma FirstNoticeIsACandidate(env: Env, s: State, id: string, row: Job)
    requires s.events == [JobEvent(1, id, Some(1), Notify, FailureNotice)] && Eligible(env, row)
    ensures Candidate(env, s, id, row, None)
  {
    BudgetReason();
    OneOwnEvent(s.events[0], id);
  }

  lemma NoticeIsReceived(env: Env, s: State, id: string, row: Job)
    requires s.events == [] && Eligible(env, row)
    ensures Receive(env, s, id, row, None, ContainerEvent(Some(1), Notify, FailureNotice))
            == s.(events := [JobEvent(1, id, Some(1), Notify, FailureNotice)], held := s.held + {id})
  {
    var stored := s.(events := [JobEvent(1, id, Some(1), Notify, FailureNotice)]);
    FirstNoticeIsACandidate(env, stored, id, row);
    assert Appended([], id, Some(1), Notify, FailureNotice) == stored.events;
  }

  /** A first notice, posted in a batch of its own, is held whatever the verdict will be */
  lemma NoticeIsHeld(env: Env, s: State, id: string, row: Job)
    requires s.events == [] && Eligible(env, row) && row.reason == None
    ensures var batch := [ContainerEvent(Some(1), Notify, FailureNotice)];
            && BatchReason(batch, row) == None
            && ReceiveAll(env, s, id, row, None, batch)
               == s.(events := [JobEvent(1, id, Some(1), Notify, FailureNotice)], held := s.held + {id})
  {
    var notice := ContainerEvent(Some(1), Notify, FailureNotice);
    assert [notice][1..] == [] && [notice][..0] == [];
    NoticeIsReceived(env, s, id, row);
  }

  function LostStart(): Step {
    Start("job", "order", Some(S), "token", Task("arn"))
  }

  function LostEvents(): Step {
    ReportEvents("job", "token", [ContainerEvent(Some(1), Notify, FailureNotice)])
  }

  function LostReport(): Step {
    Report("job", "token", Some(Failed), None, Some("budget exceeded"))
  }

  function LostRebuild(): Step {
    Rebuild("job", "retry", "other", Goes(true, Task("arn")))
  }

  lemma LostRunStarts(env: Env, row: Job)
    requires env == Env({}, false) && row == Job("order", Some(S), TokensFor(S), Build, None, Queued, 0, None, None)
    ensures Apply(env, INITIAL, LostStart()) == INITIAL.(table := Table(map["job" := row], map["token" := "job"]))
  {
  }

  lemma LostVerdict(env: Env, s: State, row: Job)
    requires s.table == Table(map["job" := row], map["token" := "job"]) && row.status == Queued
    ensures var failed := row.(status := Failed, reason := Some("budget exceeded"));
            Apply(env, s, LostReport()) == Fail(s.(table := Table(map["job" := failed], map[])), "job", ByReport)
  {
    var failed := row.(status := Failed, reason := Some("budget exceeded"));
    var update := JobUpdate(Some(Failed), None, Some("budget exceeded"), None, Revoke);
    assert WriteRow(row, update) == failed;
    assert WriteToken(s.table.tokens, "job", Revoke) == map[];
    assert Update(s.table, "job", update) == Table(map["job" := failed], map[]);
  }

  /** A budget verdict only settles: the call pages nobody unless the sweep made it */
  lemma BudgetRulesOut(env: Env, s: State, id: string, newId: string, token: string, fate: RetryFate)
    requires id in s.due && id in s.table.jobs && id in s.trigger && Fresh(s, newId, token)
    requires IsBudgetFailure(s.table.jobs[id].reason) && !fate.ReadFails?
    ensures Apply(env, s, Rebuild(id, newId, token, fate)) == Settle(s, id, s.trigger[id].BySweep?)
  {
    assert !Candidate(env, s, id, s.table.jobs[id], s.table.jobs[id].reason);
  }

  lemma LostCall(env: Env, s: State)
    requires s.table.jobs.Keys == {"job"} && s.table.tokens == map[] && "job" in s.due && "job" in s.trigger
    requires s.table.jobs["job"].reason == Some("budget exceeded") && s.trigger["job"].ByReport?
    ensures Apply(env, s, LostRebuild()) == Settle(s, "job", false)
  {
    BudgetReason();
    assert |"retry"| != |"job"|;
    BudgetRulesOut(env, s, "job", "retry", "other", Goes(true, Task("arn")));
  }

  lemma {:induction false} RunAppend(env: Env, steps: seq<Step>, step: Step)
    ensures Run(env, steps + [step]) == Apply(env, Run(env, steps), step)
  {
    assert (steps + [step])[..|steps + [step]| - 1] == steps;
  }

  /**
   * The reporter posts a failure notice in a request of its own, before the verdict is on the row,
   * so a budget failure's mail is held too. The verdict then rules the rebuild out, and no mail is
   * ever sent.
   */
  lemma BudgetVerdictMailIsLost()
    ensures var env := Env({}, false);
            var steps := [LostStart(), LostEvents(), LostReport(), LostRebuild()];
            var s := Run(env, steps);
            && AllHonest(steps) && "job" in s.held && FailedRow(s, "job") && "job" !in s.due && "job" !in s.lost
            && !Answered(s, "job")
  {
    var env := Env({}, false);
    var a, b, c, d := LostStart(), LostEvents(), LostReport(), LostRebuild();
    var failed := Job("order", Some(S), TokensFor(S), Build, None, Failed, 0, Some("budget exceeded"), None);
    LostSoFar(env);
    var s := Run(env, [a, b]);
    RunAppend(env, [a, b], c);
    RunAppend(env, [a, b, c], d);
    assert [a, b] + [c] == [a, b, c] && [a, b, c] + [d] == [a, b, c, d];
    LostVerdict(env, s, failed.(status := Queued, reason := None));
    LostCall(env, Run(env, [a, b, c]));
  }

  lemma LostSoFar(env: Env)
    requires env == Env({}, false)
    ensures var s := Run(env, [LostStart(), LostEvents()]);
            var row := Job("order", Some(S), TokensFor(S), Build, None, Queued, 0, None, None);
            s.table == Table(map["job" := row], map["token" := "job"]) && s.held == {"job"} &&
            s.due == {} && s.links == map[] && s.paged == {} && s.lost == {}
  {
    var row := Job("order", Some(S), TokensFor(S), Build, None, Queued, 0, None, None);
    RunAppend(env, [], LostStart());
    RunAppend(env, [LostStart()], LostEvents());
    assert [] + [LostStart()] == [LostStart()] && [LostStart()] + [LostEvents()] == [LostStart(), LostEvents()];
    LostRunStarts(env, row);
    NoticeIsHeld(env, Run(env, [LostStart()]), "job", row);
  }
}
