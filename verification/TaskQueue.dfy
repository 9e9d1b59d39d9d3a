/**
 * The Postgres task queue and pipeline runs. Tables are maps; each `connection()` block of the
 * source is one atomic function on them. `State` adds what workers hold locally between two blocks,
 * and `Apply` is one step of any worker, the scheduler or the clock.
 */
module TaskQueue {
  import opened Common

  type TaskId = nat
  type RunId = nat
  type DomainId = nat
  type ClaimId = nat

  const DEFAULT_CAP := 1000000
  const MAX_DEFERS := 40
  const FINALIZE_PRIORITY := 20
  const REFRESH_PRIORITY := 10
  const DEFAULT_MAX_ATTEMPTS := 3
  const STALE_RUN_S := 24 * 3600
  const SWEEP_LIMIT := 100
  const LISTS := Collector("lists")

  datatype Kind = Collector(name: string) | Finalize | ListRefresh

  datatype Status = Queued | Running | Succeeded | Failed | Skipped

  datatype RunStatus = RunQueued | RunRunning | RunCompleted | RunFailed

  /** tasks.dedupe_key: "run:<run>:<kind>" or "list_refresh:<provider>:<day or hour>". */
  datatype DedupeKey = RunTask(run: RunId, kind: Kind) | Refresh(provider: string, window: string)

  /** lockedBy names the claim, not just the worker: a worker may claim the same task twice. */
  datatype Task = Task(run: Option<RunId>, kind: Kind, status: Status, priority: int, attempts: nat, maxAttempts: int,
                       runAfter: nat, leaseUntil: nat, lockedBy: Option<ClaimId>, defers: nat, dedupe: Option<DedupeKey>)

  datatype Run = Run(domain: DomainId, status: RunStatus, collectors: seq<Kind>, createdAt: nat)

  /** What `claim` returns to the worker: a snapshot of the row. */
  datatype Claim = Claim(task: TaskId, run: Option<RunId>, kind: Kind, attempts: nat, maxAttempts: int, defers: nat)

  datatype Config = Config(caps: map<Kind, int>, kinds: set<Kind>, maxAttempts: int, retryBase: nat, lease: nat)

  datatype Db = Db(tasks: map<TaskId, Task>, runs: map<RunId, Run>, nextTask: TaskId, nextRun: RunId)

  predicate Terminal(t: Task) { t.status.Succeeded? || t.status.Failed? || t.status.Skipped? }

  predicate Open(t: Task) { t.status.Queued? || t.status.Running? }

  predicate Active(r: Run) { r.status.RunQueued? || r.status.RunRunning? }

  // ------------------------------------------------------------------ queue.py

  function NewTask(run: Option<RunId>, kind: Kind, key: Option<DedupeKey>, priority: int, maxAttempts: int, runAfter: nat): Task {
    Task(run, kind, Queued, priority, 0, maxAttempts, runAfter, 0, None, 0, key)
  }

  predicate KeyTaken(tasks: map<TaskId, Task>, key: Option<DedupeKey>) {
    key.Some? && exists id :: id in tasks && tasks[id].dedupe == key
  }

  /** INSERT ... ON CONFLICT (dedupe_key) DO NOTHING. */
  function Enqueue(d: Db, t: Task): Db {
    if KeyTaken(d.tasks, t.dedupe) then d
    else d.(tasks := d.tasks[d.nextTask := t], nextTask := d.nextTask + 1)
  }

  function RunningOf(tasks: map<TaskId, Task>, kind: Kind): set<TaskId> {
    set id | id in tasks && tasks[id].kind == kind && tasks[id].status == Running
  }

  function Cap(cfg: Config, kind: Kind): int { if kind in cfg.caps then cfg.caps[kind] else DEFAULT_CAP }

  /** A row the claim query may pick. SKIP LOCKED may hide any of them, so a claim may take any one. */
  predicate Claimable(cfg: Config, d: Db, now: nat, id: TaskId) {
    && id in d.tasks && d.tasks[id].status == Queued && d.tasks[id].runAfter <= now && d.tasks[id].kind in cfg.kinds
    && |RunningOf(d.tasks, d.tasks[id].kind)| < Cap(cfg, d.tasks[id].kind)
  }

  function ClaimTask(cfg: Config, d: Db, now: nat, id: TaskId, cid: ClaimId): Db
    requires id in d.tasks
  {
    var t := d.tasks[id];
    d.(tasks := d.tasks[id := t.(status := Running, lockedBy := Some(cid), leaseUntil := now + cfg.lease, attempts := t.attempts + 1)])
  }

  function Snapshot(id: TaskId, t: Task): Claim { Claim(id, t.run, t.kind, t.attempts, t.maxAttempts, t.defers) }

  function ExtendLease(cfg: Config, d: Db, now: nat, id: TaskId): Db {
    if id in d.tasks && d.tasks[id].status == Running
    then d.(tasks := d.tasks[id := d.tasks[id].(leaseUntil := now + cfg.lease)])
    else d
  }

  function Complete(d: Db, id: TaskId, status: Status): Db {
    if id in d.tasks then d.(tasks := d.tasks[id := d.tasks[id].(status := status, lockedBy := None, leaseUntil := 0)]) else d
  }

  predicate WillRetry(c: Claim, retry: bool) { retry && c.attempts < c.maxAttempts }

  /** The retry decision uses the claim's snapshot, the update goes by task id alone. */
  function Fail(cfg: Config, d: Db, now: nat, c: Claim, retry: bool): Db {
    if WillRetry(c, retry) then
      if c.task in d.tasks then
        var delay := cfg.retryBase * Pow2(Max(0, c.attempts - 1));
        d.(tasks := d.tasks[c.task := d.tasks[c.task].(status := Queued, lockedBy := None, leaseUntil := 0, runAfter := now + delay)])
      else d
    else Complete(d, c.task, Failed)
  }

  predicate Expired(t: Task, now: nat) { t.status == Running && t.leaseUntil < now }

  function Recovered(t: Task, now: nat): Task {
    if Expired(t, now)
    then t.(status := if t.attempts < t.maxAttempts then Queued else Failed, lockedBy := None, leaseUntil := 0)
    else t
  }

  function RecoverLost(d: Db, now: nat): Db { d.(tasks := map id | id in d.tasks :: Recovered(d.tasks[id], now)) }

  // ------------------------------------------------------------------ worker.py

  /** Worker._defer: put the task back without using up an attempt. */
  function Defer(d: Db, now: nat, id: TaskId, seconds: nat): Db {
    if id in d.tasks then
      var t := d.tasks[id];
      d.(tasks := d.tasks[id := t.(status := Queued, attempts := Max(t.attempts - 1, 0), lockedBy := None, leaseUntil := 0,
                                   runAfter := now + Max(seconds, 5), defers := t.defers + 1)])
    else d
  }

  /** Worker._fail: a finalize task that failed for good also fails its run, in the same transaction. */
  function FailTask(cfg: Config, d: Db, now: nat, c: Claim, retry: bool): Db {
    var d' := Fail(cfg, d, now, c, retry);
    if !WillRetry(c, retry) && c.kind == Finalize && c.run.Some? then SetRunStatus(d', c.run.value, RunFailed) else d'
  }

  // ------------------------------------------------------------------ pipeline.py

  function SetRunStatus(d: Db, r: RunId, status: RunStatus): Db {
    if r in d.runs then d.(runs := d.runs[r := d.runs[r].(status := status)]) else d
  }

  /** The first transaction of run_collector_task. */
  function StartRun(d: Db, r: Option<RunId>): Db {
    if r.Some? && r.value in d.runs && d.runs[r.value].status == RunQueued then SetRunStatus(d, r.value, RunRunning) else d
  }

  function EnqueueFinalize(d: Db, r: RunId, priority: int, now: nat): Db {
    Enqueue(d, NewTask(Some(r), Finalize, Some(RunTask(r, Finalize)), priority, DEFAULT_MAX_ATTEMPTS, now))
  }

  /** Enqueues one task per collector name, in order. */
  function EnqueueCollectors(cfg: Config, d: Db, r: RunId, collectors: seq<Kind>, now: nat): Db {
    if collectors == [] then d
    else
      var n := |collectors| - 1;
      var k := collectors[n];
      Enqueue(EnqueueCollectors(cfg, d, r, collectors[..n], now), NewTask(Some(r), k, Some(RunTask(r, k)), 0, cfg.maxAttempts, now))
  }

  function CreateRun(cfg: Config, d: Db, domain: DomainId, collectors: seq<Kind>, now: nat): Db {
    var r := d.nextRun;
    var d1 := d.(runs := d.runs[r := Run(domain, RunQueued, collectors, now)], nextRun := r + 1);
    if collectors == [] then EnqueueFinalize(d1, r, 0, now) else EnqueueCollectors(cfg, d1, r, collectors, now)
  }

  predicate CollectorsClosed(tasks: map<TaskId, Task>, r: RunId) {
    forall id :: id in tasks && tasks[id].run == Some(r) && tasks[id].kind != Finalize ==> !Open(tasks[id])
  }

  /** maybe_finalize: enqueue the finalize task once no collector task of the run is open. */
  function MaybeFinalize(d: Db, r: RunId, now: nat): Db {
    if CollectorsClosed(d.tasks, r) then EnqueueFinalize(d, r, FINALIZE_PRIORITY, now) else d
  }

  // ------------------------------------------------------------------ scheduler.py

  predicate Stale(d: Db, now: nat, r: RunId) {
    && r in d.runs && Active(d.runs[r]) && d.runs[r].createdAt + STALE_RUN_S < now
    && forall id :: id in d.tasks && d.tasks[id].run == Some(r) ==> !Open(d.tasks[id])
  }

  function Sweep(d: Db, picked: seq<RunId>, now: nat): Db {
    if picked == [] then d
    else MaybeFinalize(Sweep(d, picked[..|picked| - 1], now), picked[|picked| - 1], now)
  }

  // ------------------------------------------------------------------ transition system

  /**
   * A claim a worker still works on: before its report, for a finalize task between the commit of the estimate and the
   * report, for a collector between the report and the after-collector check.
   */
  datatype Work = Executing(claim: Claim) | Committed(claim: Claim) | Checking(claim: Claim)

  datatype State = State(db: Db, pending: map<ClaimId, Work>, nextClaim: ClaimId, now: nat)

  datatype Outcome = Finished(status: Status) | Failure(retry: bool) | Deferred(seconds: nat)

  datatype Step =
    | Ingest(domain: DomainId, collectors: seq<Kind>)
    | ScheduleRefresh(provider: string, window: string)
    | ClaimStep(id: TaskId)
    | Start(cid: ClaimId)
    | Report(cid: ClaimId, outcome: Outcome)      // _finish, _fail or _defer
    | Raise(cid: ClaimId)                         // an exception before or in the check: _fail with retry, no check after it
    | Check(cid: ClaimId)                         // _after_collector
    | CommitEstimate(cid: ClaimId)                // finalize_run's last transaction
    | Heartbeat(cid: ClaimId)
    | Crash(cid: ClaimId)                         // the worker is gone
    | Recover
    | SweepRuns(picked: seq<RunId>)
    | Tick

  predicate IsExecuting(s: State, cid: ClaimId) { cid in s.pending && s.pending[cid].Executing? }

  /**
   * What a worker may report. A collector defers only while its payload's counter allows it; a finalize task succeeds
   * once its estimate is committed, and fails only through an exception, as a list refresh does.
   */
  predicate Reports(w: Work, outcome: Outcome) {
    match w.claim.kind
    case Collector(_) =>
      && w.Executing?
      && (outcome.Finished? ==> outcome.status in {Succeeded, Skipped})
      && (outcome.Deferred? ==> w.claim.kind == LISTS && w.claim.defers < MAX_DEFERS)
    case Finalize => w.Committed? && outcome == Finished(Succeeded)
    case ListRefresh => w.Executing? && (outcome == Finished(Succeeded) || outcome == Finished(Skipped))
  }

  /** When the source can take a step. */
  predicate Enabled(cfg: Config, s: State, step: Step) {
    match step
    case Ingest(domain, collectors) =>
      && (forall k | k in collectors :: k.Collector?)
      && forall r :: r in s.db.runs && s.db.runs[r].domain == domain ==> !Active(s.db.runs[r])
    case ScheduleRefresh(_, _) => true
    case ClaimStep(id) => Claimable(cfg, s.db, s.now, id)
    case Start(cid) => IsExecuting(s, cid) && s.pending[cid].claim.kind.Collector?
    case Report(cid, outcome) => cid in s.pending && Reports(s.pending[cid], outcome)
    case Raise(cid) => cid in s.pending
    case Check(cid) => cid in s.pending && s.pending[cid].Checking?
    case CommitEstimate(cid) => IsExecuting(s, cid) && s.pending[cid].claim.kind == Finalize
    case Heartbeat(cid) => cid in s.pending
    case Crash(cid) => cid in s.pending
    case Recover => true
    case SweepRuns(picked) =>
      && |picked| <= SWEEP_LIMIT && forall i | 0 <= i < |picked| :: Stale(s.db, s.now, picked[i])
    case Tick => true
  }

  function ReportTask(cfg: Config, d: Db, now: nat, c: Claim, outcome: Outcome): Db {
    match outcome
    case Finished(status) =>
      var d' := Complete(d, c.task, status);
      if status == Failed && c.kind == Finalize && c.run.Some? then SetRunStatus(d', c.run.value, RunFailed) else d'
    case Failure(retry) => FailTask(cfg, d, now, c, retry)
    case Deferred(seconds) => Defer(d, now, c.task, seconds)
  }

  /** A reported collector still has its after-collector check to do, unless it deferred. */
  function AfterReport(s: State, cid: ClaimId, outcome: Outcome): map<ClaimId, Work>
    requires cid in s.pending
  {
    var c := s.pending[cid].claim;
    if c.kind.Collector? && !outcome.Deferred? then s.pending[cid := Checking(c)] else s.pending - {cid}
  }

  function CheckRun(d: Db, c: Claim, now: nat): Db {
    if c.run.Some? && c.task in d.tasks && Terminal(d.tasks[c.task]) then MaybeFinalize(d, c.run.value, now) else d
  }

  function CommitRun(d: Db, r: Option<RunId>): Db { if r.Some? then SetRunStatus(d, r.value, RunCompleted) else d }

  function Apply(cfg: Config, s: State, step: Step): State
    requires Enabled(cfg, s, step)
  {
    match step
    case Ingest(domain, collectors) => s.(db := CreateRun(cfg, s.db, domain, collectors, s.now))
    case ScheduleRefresh(provider, window) =>
      s.(db := Enqueue(s.db, NewTask(None, ListRefresh, Some(Refresh(provider, window)), REFRESH_PRIORITY, DEFAULT_MAX_ATTEMPTS, s.now)))
    case ClaimStep(id) =>
      var d := ClaimTask(cfg, s.db, s.now, id, s.nextClaim);
      s.(db := d, pending := s.pending[s.nextClaim := Executing(Snapshot(id, d.tasks[id]))], nextClaim := s.nextClaim + 1)
    case Start(cid) => s.(db := StartRun(s.db, s.pending[cid].claim.run))
    case Report(cid, outcome) =>
      s.(db := ReportTask(cfg, s.db, s.now, s.pending[cid].claim, outcome), pending := AfterReport(s, cid, outcome))
    case Raise(cid) => s.(db := FailTask(cfg, s.db, s.now, s.pending[cid].claim, true), pending := s.pending - {cid})
    case Check(cid) => s.(db := CheckRun(s.db, s.pending[cid].claim, s.now), pending := s.pending - {cid})
    case CommitEstimate(cid) => s.(db := CommitRun(s.db, s.pending[cid].claim.run), pending := s.pending[cid := Committed(s.pending[cid].claim)])
    case Heartbeat(cid) => s.(db := ExtendLease(cfg, s.db, s.now, s.pending[cid].claim.task))
    case Crash(cid) => s.(pending := s.pending - {cid})
    case Recover => s.(db := RecoverLost(s.db, s.now))
    case SweepRuns(picked) => s.(db := Sweep(s.db, picked, s.now))
    case Tick => s.(now := s.now + 1)
  }

  const EMPTY := State(Db(map[], map[], 0, 0), map[], 0, 0)

  /**
   * The environment assumption: whoever reports on a task still holds the claim it was given. A worker that is past its
   * report no longer does, so an exception in its after-collector check is excluded as well.
   */
  predicate FromHolder(s: State, step: Step) {
    (step.Report? || step.Raise?) && step.cid in s.pending ==>
      var c := s.pending[step.cid].claim;
      && !s.pending[step.cid].Checking?
      && c.task in s.db.tasks && s.db.tasks[c.task].status == Running && s.db.tasks[c.task].lockedBy == Some(step.cid)
  }

  /** A run of the system: every step is one the source can take. */
  ghost predicate IsRun(cfg: Config, states: seq<State>, steps: seq<Step>) {
    && |states| == |steps| + 1 && states[0] == EMPTY
    && forall i | 0 <= i < |steps| :: Enabled(cfg, states[i], steps[i]) && states[i + 1] == Apply(cfg, states[i], steps[i])
  }

  ghost predicate AllFromHolder(states: seq<State>, steps: seq<Step>)
    requires |states| == |steps| + 1
  {
    forall i | 0 <= i < |steps| :: FromHolder(states[i], steps[i])
  }
}
