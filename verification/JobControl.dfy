/**
 * Build-job control (apps/api/src/services/jobService.ts, apps/api/src/lib/jobSweep.ts): starts,
 * redeliveries, container reports, kills, liveness sweeps and the one automatic rebuild of a failed
 * job. Each service call is one step; the rebuild is a step of its own after the failure that
 * triggers it, and a crash in between forgets it.
 */
module JobControl {
  import opened JobEvents
  import opened JobTable
  import opened Wrappers

  const REDELIVERY_TOKENS: nat := 3_000_000

  function TokensFor(size: SizeClass): nat {
    match size
    case S => 9_000_000
    case M => 15_000_000
    case L => 40_000_000
  }

  // ----- Budget verdicts -----

  predicate IsSpace(c: char) {
    c in " \t\n\r" || c in ['\U{000B}', '\U{000C}', '\U{00A0}', '\U{1680}', '\U{2028}', '\U{2029}', '\U{202F}', '\U{205F}', '\U{3000}', '\U{FEFF}']
    || '\U{2000}' <= c <= '\U{200A}'
  }

  predicate IsWordChar(c: char) {
    'a' <= c <= 'z' || 'A' <= c <= 'Z' || '0' <= c <= '9' || c == '_'
  }

  function TrimStart(s: string): string {
    if s != "" && IsSpace(s[0]) then TrimStart(s[1..]) else s
  }

  predicate StartsWithWords(s: string, words: string) {
    words <= s && (|s| == |words| || !IsWordChar(s[|words|]))
  }

  /** `/^budget (exceeded|exhausted)\b/` on the trimmed reason */
  predicate IsBudgetFailure(reason: Option<string>) {
    var s := TrimStart(reason.GetOr(""));
    StartsWithWords(s, "budget exceeded") || StartsWithWords(s, "budget exhausted")
  }

  // ----- State -----

  /** What the calls read and never write: which orders are voucher demos, and whether ECS is configured */
  datatype Env = Env(demoOrders: set<string>, ecsConfigured: bool)

  datatype Trigger = ByReport | BySweep

  /**
   * The rows and events, and what a run leaves behind: `links` maps a retry to the job it retries,
   * `held` are the jobs whose failure mail was held, `due` the failures whose rebuild call has not
   * run yet, `paged` those the admins were mailed about instead, `lost` those whose call crashed or
   * could not read.
   */
  datatype State = State(
    table: Table,
    events: seq<JobEvent>,
    links: map<string, string>,
    held: set<string>,
    due: set<string>,
    trigger: map<string, Trigger>,
    paged: set<string>,
    lost: set<string>)

  const INITIAL := State(Table(map[], map[]), [], map[], {}, {}, map[], {}, {})

  datatype Launch = Task(arn: string) | LaunchFails(message: string)

  /** How a rebuild call goes: its reads may fail, the insert may fail, the conflict re-read may fail */
  datatype RetryFate = ReadFails | InsertFails | Goes(rereads: bool, launch: Launch)

  datatype ContainerEvent = ContainerEvent(number: Option<nat>, kind: EventType, payload: Payload)

  datatype Step =
    | Start(id: string, orderId: string, sizeClass: Option<SizeClass>, token: string, launch: Launch)
    | Redeliver(id: string, latestId: string, token: string, launch: Launch)
    | Rotate(id: string, token: string, newToken: string)
    | ReportEvents(id: string, token: string, batch: seq<ContainerEvent>)
    | Report(id: string, token: string, status: Option<JobStatus>, tokensUsed: Option<nat>, reason: Option<string>)
    | Kill(id: string)
    | SweepDead(id: string, verdict: string)
    | Rebuild(id: string, newId: string, token: string, fate: RetryFate)
    | Crash(id: string)

  // ----- The calls -----

  function Append(s: State, id: string, kind: EventType, payload: Payload): State {
    s.(events := Appended(s.events, id, None, kind, payload))
  }

  function Write(s: State, id: string, update: JobUpdate): State {
    s.(table := Update(s.table, id, update))
  }

  function Create(s: State, id: string, job: Job, token: string): State {
    s.(table := Insert(s.table, id, job, Some(token)))
  }

  /** A fresh uuid and a fresh token */
  predicate Fresh(s: State, id: string, token: string) {
    id !in s.table.jobs && token !in s.table.tokens
  }

  predicate Authentic(s: State, id: string, token: string) {
    && token in s.table.tokens && s.table.tokens[token] == id
    && id in s.table.jobs && IsActive(s.table.jobs[id].status)
  }

  /** `ecs:RunTask`, or a terminal failed row when the launch itself fails */
  function Launched(env: Env, s: State, id: string, launch: Launch): State {
    if !env.ecsConfigured then s
    else
      match launch
      case Task(arn) => Write(s, id, NO_UPDATE.(taskArn := Some(arn)))
      case LaunchFails(message) =>
        var failed := Append(s, id, FailedEvent, Reason(message));
        Write(failed, id, NO_UPDATE.(status := Some(Failed), reason := Some(message), token := Revoke))
  }

  /** The class that gets one automatic rebuild: a demo order, or an S-sized spec */
  predicate Eligible(env: Env, job: Job) {
    job.orderId in env.demoOrders || job.sizeClass.GetOr(S) == S
  }

  /** `autoRetryCandidate`, which reads the first 500 events */
  predicate Candidate(env: Env, s: State, id: string, job: Job, reason: Option<string>) {
    && !IsBudgetFailure(reason)
    && Eligible(env, job)
    && forall e :: e in FirstPage(EventsOf(s.events, id, 0)) ==> !e.kind.Retry?
  }

  function BatchReason(batch: seq<ContainerEvent>, job: Job): Option<string> {
    if batch == [] then job.reason
    else if batch[0].kind.FailedEvent? then
      if batch[0].payload.Reason? then Some(batch[0].payload.reason) else job.reason
    else BatchReason(batch[1..], job)
  }

  /** One event of a batch: stored once; a new failure notice is held when a rebuild will page instead */
  ghost function Receive(env: Env, s: State, id: string, job: Job, reason: Option<string>, e: ContainerEvent): State {
    if e.number.Some? && Stored(s.events, id, e.number.value) then s
    else
      var stored := s.(events := Appended(s.events, id, e.number, e.kind, e.payload));
      if e.kind.Notify? && e.payload.FailureNotice? && Candidate(env, stored, id, job, reason) then
        stored.(held := stored.held + {id})
      else stored
  }

  ghost function ReceiveAll(env: Env, s: State, id: string, job: Job, reason: Option<string>, batch: seq<ContainerEvent>): State {
    if batch == [] then s
    else Receive(env, ReceiveAll(env, s, id, job, reason, batch[..|batch| - 1]), id, job, reason, batch[|batch| - 1])
  }

  function Fail(s: State, id: string, trigger: Trigger): State {
    s.(due := s.due + {id}, trigger := s.trigger[id := trigger])
  }

  function Settle(s: State, id: string, page: bool): State {
    s.(due := s.due - {id}, paged := if page then s.paged + {id} else s.paged)
  }

  /** `insertRetry`: the row and both linking events in one transaction */
  function InsertRetry(s: State, id: string, newId: string, token: string): State
    requires id in s.table.jobs
  {
    var job := s.table.jobs[id];
    var row := Job(job.orderId, job.sizeClass, job.maxTokens, Build, None, Queued, 0, None, None);
    var created := Create(s, newId, row, token);
    Append(Append(created, id, Retry, RetriedBy(newId)), newId, Retry, RetryOf(id)).(links := s.links[newId := id])
  }

  /** `retryFailedBuild` and, for a swept job, the sweep's own mail when no rebuild was started */
  function RebuildOf(env: Env, s: State, id: string, newId: string, token: string, swept: bool, fate: RetryFate): State
    requires id in s.table.jobs
  {
    var job := s.table.jobs[id];
    if fate.ReadFails? then s.(due := s.due - {id}, lost := s.lost + {id})
    else if !Candidate(env, s, id, job, job.reason) then Settle(s, id, swept)
    else if fate.InsertFails? then Settle(s, id, true)
    else Rebuilt(env, s, id, newId, token, swept, fate.rereads, fate.launch)
  }

  function Rebuilt(env: Env, s: State, id: string, newId: string, token: string, swept: bool, rereads: bool, launch: Launch): State
    requires id in s.table.jobs
  {
    if HasActive(s.table, s.table.jobs[id].orderId) then
      // 23505: a page unless the re-read shows a rebuild of this very job
      var known := rereads && exists e :: e in FirstPage(EventsOf(s.events, id, 0)) && e.kind.Retry?;
      Settle(s, id, !known || swept)
    else
      var started := Launched(env, InsertRetry(s, id, newId, token), newId, launch);
      Settle(started, id, env.ecsConfigured && launch.LaunchFails?)
  }

  ghost function Apply(env: Env, s: State, step: Step): State {
    match step
    case Start(id, orderId, sizeClass, token, launch) =>
      if !Fresh(s, id, token) || HasActive(s.table, orderId) then s
      else
        var tokens := if orderId in env.demoOrders then TokensFor(S) else TokensFor(sizeClass.GetOr(S));
        var row := Job(orderId, sizeClass, tokens, Build, None, Queued, 0, None, None);
        Launched(env, Create(s, id, row, token), id, launch)
    case Redeliver(id, latestId, token, launch) =>
      if !Fresh(s, id, token) || latestId !in s.table.jobs || HasActive(s.table, s.table.jobs[latestId].orderId) then s
      else
        var latest := s.table.jobs[latestId];
        var sourceId := if latest.mode.Redeliver? && latest.sourceJobId.Some? then latest.sourceJobId.value else latestId;
        if sourceId !in s.table.jobs then s
        else
          var row := Job(latest.orderId, s.table.jobs[sourceId].sizeClass, REDELIVERY_TOKENS, Mode.Redeliver, Some(sourceId), Queued, 0, None, None);
          Launched(env, Create(s, id, row, token), id, launch)
    case Rotate(id, token, newToken) =>
      if !Authentic(s, id, token) || newToken in s.table.tokens then s
      else Write(s, id, NO_UPDATE.(token := Replace(newToken)))
    case ReportEvents(id, token, batch) =>
      if !Authentic(s, id, token) then s
      else
        var job := s.table.jobs[id];
        ReceiveAll(env, s, id, job, BatchReason(batch, job), batch)
    case Report(id, token, status, tokensUsed, reason) =>
      if !Authentic(s, id, token) then s
      else if status.Some? && Rank(status.value) < Rank(s.table.jobs[id].status) then s
      else
        var terminal := status.Some? && !IsActive(status.value);
        var written := Write(s, id, JobUpdate(status, tokensUsed, reason, None, if terminal then Revoke else Keep));
        if status == Some(Failed) then Fail(written, id, ByReport) else written
    case Kill(id) =>
      if id !in s.table.jobs || !IsActive(s.table.jobs[id].status) then s
      else Append(Write(s, id, NO_UPDATE.(status := Some(Killed), reason := Some("killed by admin"), token := Revoke)),
                  id, KilledEvent, Reason("killed by admin"))
    case SweepDead(id, verdict) =>
      if id !in s.table.jobs || !IsActive(s.table.jobs[id].status) then s
      else Fail(Append(Write(s, id, NO_UPDATE.(status := Some(Failed), reason := Some(verdict), token := Revoke)),
                       id, FailedEvent, Reason(verdict)), id, BySweep)
    case Rebuild(id, newId, token, fate) =>
      if id !in s.due || id !in s.table.jobs || id !in s.trigger || !Fresh(s, newId, token) then s
      else RebuildOf(env, s, id, newId, token, s.trigger[id].BySweep?, fate)
    case Crash(id) =>
      if id !in s.due then s else s.(due := s.due - {id}, lost := s.lost + {id})
  }

  ghost function Run(env: Env, steps: seq<Step>): State {
    if steps == [] then INITIAL
    else Apply(env, Run(env, steps[..|steps| - 1]), steps[|steps| - 1])
  }

  /** The container posts no `retry` events of its own */
  ghost predicate Honest(step: Step) {
    step.ReportEvents? ==> forall i :: 0 <= i < |step.batch| ==> !step.batch[i].kind.Retry?
  }
}
