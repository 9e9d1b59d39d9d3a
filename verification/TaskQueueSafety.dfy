/** What every step of the task queue keeps, in every interleaving of workers, scheduler and clock. */
module TaskQueueSafety {
  import opened Common
  import opened TaskQueue

  // ------------------------------------------------------------------ identity of rows

  ghost predicate WellKeyed(d: Db, t: Task) {
    match t.run
    case Some(r) => r in d.runs && t.kind != ListRefresh && t.dedupe == Some(RunTask(r, t.kind))
    case None => t.kind == ListRefresh && (t.dedupe.Some? ==> t.dedupe.value.Refresh?)
  }

  ghost predicate UniqueKeys(tasks: map<TaskId, Task>) {
    forall a, b | a in tasks && b in tasks && tasks[a].dedupe.Some? && tasks[a].dedupe == tasks[b].dedupe :: a == b
  }

  ghost predicate WellFormed(d: Db) {
    && (forall id | id in d.tasks :: id < d.nextTask && WellKeyed(d, d.tasks[id]))
    && (forall r | r in d.runs :: r < d.nextRun)
    && UniqueKeys(d.tasks)
  }

  ghost predicate SameIdentity(t: Task, u: Task) {
    t.run == u.run && t.kind == u.kind && t.maxAttempts == u.maxAttempts && t.dedupe == u.dedupe
  }

  /** d2 only rewrites the mutable columns of d's task rows and keeps every run. */
  ghost predicate Rewrites(d: Db, e: Db) {
    && e.tasks.Keys == d.tasks.Keys && e.nextTask == d.nextTask && e.nextRun == d.nextRun && e.runs.Keys == d.runs.Keys
    && forall id | id in d.tasks :: SameIdentity(d.tasks[id], e.tasks[id])
  }

  lemma RewritesWellFormed(d: Db, e: Db)
    requires WellFormed(d) && Rewrites(d, e)
    ensures WellFormed(e)
  {
  }

  /** e keeps every task row of d and adds only new, never-claimed ones. */
  ghost predicate Appends(d: Db, e: Db) {
    && d.tasks.Keys <= e.tasks.Keys && d.nextTask <= e.nextTask && d.runs.Keys <= e.runs.Keys && d.nextRun <= e.nextRun
    && (forall id | id in d.tasks :: e.tasks[id] == d.tasks[id])
    && (forall id | id in e.tasks && id !in d.tasks :: Untouched(e.tasks[id]) && id >= d.nextTask)
  }

  ghost predicate Untouched(t: Task) {
    t.status == Queued && t.attempts == 0 && t.defers == 0 && t.lockedBy == None
  }

  lemma AppendsTransitive(d: Db, e: Db, f: Db)
    requires Appends(d, e) && Appends(e, f)
    ensures Appends(d, f)
  {
  }

  lemma EnqueueKeeps(d: Db, t: Task)
    requires WellFormed(d) && WellKeyed(d, t) && Untouched(t)
    ensures WellFormed(Enqueue(d, t)) && Appends(d, Enqueue(d, t)) && Enqueue(d, t).runs == d.runs
    ensures t.dedupe.Some? ==> KeyTaken(Enqueue(d, t).tasks, t.dedupe)
  {
    var e := Enqueue(d, t);
    if !KeyTaken(d.tasks, t.dedupe) {
      assert d.nextTask !in d.tasks;
      assert d.nextTask in e.tasks && e.tasks[d.nextTask].dedupe == t.dedupe;
    }
  }

  lemma {:induction false} EnqueueCollectorsKeeps(cfg: Config, d: Db, r: RunId, collectors: seq<Kind>, now: nat)
    requires WellFormed(d) && r in d.runs && forall k | k in collectors :: k.Collector?
    ensures var e := EnqueueCollectors(cfg, d, r, collectors, now);
            WellFormed(e) && Appends(d, e) && e.runs == d.runs
    ensures var e := EnqueueCollectors(cfg, d, r, collectors, now);
            forall id | id in e.tasks && id !in d.tasks :: e.tasks[id].run == Some(r) && e.tasks[id].kind.Collector?
  {
    if collectors != [] {
      var n := |collectors| - 1;
      EnqueueCollectorsKeeps(cfg, d, r, collectors[..n], now);
      var m := EnqueueCollectors(cfg, d, r, collectors[..n], now);
      var t := NewTask(Some(r), collectors[n], Some(RunTask(r, collectors[n])), 0, cfg.maxAttempts, now);
      assert collectors[n] in collectors;
      EnqueueKeeps(m, t);
      AppendsTransitive(d, m, Enqueue(m, t));
    }
  }

  /**
   * The run's tasks are one fresh row for each of the kinds, with the kind's key, and no other: not claimed yet, free to be
   * claimed from `now` on.
   */
  ghost predicate TasksFor(tasks: map<TaskId, Task>, r: RunId, kinds: seq<Kind>, maxAttempts: int, now: nat) {
    && (forall k | k in kinds :: exists id ::
          id in tasks && tasks[id] == Task(Some(r), k, Queued, 0, 0, maxAttempts, now, 0, None, 0, Some(RunTask(r, k))))
    && (forall id | id in tasks && tasks[id].run == Some(r) :: tasks[id].kind in kinds)
    && forall a, b | a in tasks && b in tasks && tasks[a].run == tasks[b].run == Some(r) && tasks[a].kind == tasks[b].kind :: a == b
  }

  lemma TasksForNext(d: Db, r: RunId, kinds: seq<Kind>, k: Kind, maxAttempts: int, now: nat)
    requires WellFormed(d) && r in d.runs && k != ListRefresh && TasksFor(d.tasks, r, kinds, maxAttempts, now)
    ensures TasksFor(Enqueue(d, NewTask(Some(r), k, Some(RunTask(r, k)), 0, maxAttempts, now)).tasks, r, kinds + [k], maxAttempts, now)
  {
    var t := NewTask(Some(r), k, Some(RunTask(r, k)), 0, maxAttempts, now);
    var e := Enqueue(d, t);
    if KeyTaken(d.tasks, t.dedupe) {
      var id :| id in d.tasks && d.tasks[id].dedupe == t.dedupe;
      assert WellKeyed(d, d.tasks[id]);
    } else {
      forall id | id in d.tasks && d.tasks[id].run == Some(r) ensures d.tasks[id].kind != k { assert WellKeyed(d, d.tasks[id]); }
      assert d.nextTask !in d.tasks && e.tasks[d.nextTask] == t;
      forall c | c in kinds + [k]
        ensures exists id :: id in e.tasks && e.tasks[id] == Task(Some(r), c, Queued, 0, 0, maxAttempts, now, 0, None, 0, Some(RunTask(r, c)))
      {
        if c in kinds {
          var id :| id in d.tasks && d.tasks[id] == Task(Some(r), c, Queued, 0, 0, maxAttempts, now, 0, None, 0, Some(RunTask(r, c)));
          assert e.tasks[id] == d.tasks[id];
        }
      }
    }
  }

  lemma {:induction false} CollectorsHaveTasks(cfg: Config, d: Db, r: RunId, collectors: seq<Kind>, now: nat)
    requires WellFormed(d) && r in d.runs && (forall k | k in collectors :: k.Collector?)
    requires forall id | id in d.tasks :: d.tasks[id].run != Some(r)
    ensures TasksFor(EnqueueCollectors(cfg, d, r, collectors, now).tasks, r, collectors, cfg.maxAttempts, now)
  {
    if collectors != [] {
      var n := |collectors| - 1;
      CollectorsHaveTasks(cfg, d, r, collectors[..n], now);
      EnqueueCollectorsKeeps(cfg, d, r, collectors[..n], now);
      assert collectors[n] in collectors && collectors == collectors[..n] + [collectors[n]];
      TasksForNext(EnqueueCollectors(cfg, d, r, collectors[..n], now), r, collectors[..n], collectors[n], cfg.maxAttempts, now);
    }
  }

  /** A new run has exactly one task for each of its collectors, or, without any, exactly its finalize task. */
  ghost predicate StartsWith(tasks: map<TaskId, Task>, r: RunId, collectors: seq<Kind>, maxAttempts: int, now: nat) {
    if collectors == [] then TasksFor(tasks, r, [Finalize], 3, now) else TasksFor(tasks, r, collectors, maxAttempts, now)
  }

  lemma CreatedTasks(cfg: Config, d: Db, domain: DomainId, collectors: seq<Kind>, now: nat)
    requires WellFormed(d) && forall k | k in collectors :: k.Collector?
    ensures var e := CreateRun(cfg, d, domain, collectors, now);
            && StartsWith(e.tasks, d.nextRun, collectors, cfg.maxAttempts, now)
            && (forall id | id in d.tasks :: id in e.tasks && e.tasks[id] == d.tasks[id])
            && forall id | id in e.tasks && id !in d.tasks :: e.tasks[id].run == Some(d.nextRun)
  {
    var d1 := WithRun(d, domain, collectors, now);
    forall id | id in d1.tasks ensures d1.tasks[id].run != Some(d.nextRun) { assert WellKeyed(d, d.tasks[id]); }
    CreateRunKeeps(cfg, d, domain, collectors, now);
    if collectors == [] {
      TasksForNext(d1, d.nextRun, [], Finalize, 3, now);
      assert [] + [Finalize] == [Finalize];
    } else {
      CollectorsHaveTasks(cfg, d1, d.nextRun, collectors, now);
    }
  }

  function WithRun(d: Db, domain: DomainId, collectors: seq<Kind>, now: nat): Db {
    d.(runs := d.runs[d.nextRun := Run(domain, RunQueued, collectors, now)], nextRun := d.nextRun + 1)
  }

  lemma CreateRunKeeps(cfg: Config, d: Db, domain: DomainId, collectors: seq<Kind>, now: nat)
    requires WellFormed(d) && forall k | k in collectors :: k.Collector?
    ensures var e := CreateRun(cfg, d, domain, collectors, now);
            WellFormed(e) && Appends(d, e) && e.runs == WithRun(d, domain, collectors, now).runs
    ensures var e := CreateRun(cfg, d, domain, collectors, now);
            forall id | id in e.tasks && id !in d.tasks ::
              e.tasks[id].run == Some(d.nextRun) && (collectors != [] ==> e.tasks[id].kind.Collector?)
  {
    var d1 := WithRun(d, domain, collectors, now);
    assert WellFormed(d1) && Appends(d, d1);
    if collectors == [] {
      EnqueueKeeps(d1, NewTask(Some(d.nextRun), Finalize, Some(RunTask(d.nextRun, Finalize)), 0, DEFAULT_MAX_ATTEMPTS, now));
    } else {
      EnqueueCollectorsKeeps(cfg, d1, d.nextRun, collectors, now);
    }
    AppendsTransitive(d, d1, CreateRun(cfg, d, domain, collectors, now));
  }

  lemma MaybeFinalizeKeeps(d: Db, r: RunId, now: nat)
    requires WellFormed(d) && r in d.runs
    ensures WellFormed(MaybeFinalize(d, r, now)) && Appends(d, MaybeFinalize(d, r, now)) && MaybeFinalize(d, r, now).runs == d.runs
    ensures CollectorsClosed(d.tasks, r) ==> HasFinalize(MaybeFinalize(d, r, now), r)
    ensures forall id | id in MaybeFinalize(d, r, now).tasks && id !in d.tasks ::
              CollectorsClosed(d.tasks, r) &&
              MaybeFinalize(d, r, now).tasks[id].run == Some(r) && MaybeFinalize(d, r, now).tasks[id].kind == Finalize
  {
    EnqueueKeeps(d, NewTask(Some(r), Finalize, Some(RunTask(r, Finalize)), FINALIZE_PRIORITY, DEFAULT_MAX_ATTEMPTS, now));
    if CollectorsClosed(d.tasks, r) {
      var e := MaybeFinalize(d, r, now);
      var id :| id in e.tasks && e.tasks[id].dedupe == Some(RunTask(r, Finalize));
      assert WellKeyed(e, e.tasks[id]) && IsFinalize(e, r, id);
    }
  }

  ghost predicate IsFinalize(d: Db, r: RunId, id: TaskId) {
    id in d.tasks && d.tasks[id].run == Some(r) && d.tasks[id].kind == Finalize
  }

  ghost predicate HasFinalize(d: Db, r: RunId) { exists id :: IsFinalize(d, r, id) }

  lemma {:induction false} SweepKeeps(d: Db, picked: seq<RunId>, now: nat)
    requires WellFormed(d) && forall i | 0 <= i < |picked| :: picked[i] in d.runs
    ensures WellFormed(Sweep(d, picked, now)) && Appends(d, Sweep(d, picked, now)) && Sweep(d, picked, now).runs == d.runs
    ensures forall id | id in Sweep(d, picked, now).tasks && id !in d.tasks :: Sweep(d, picked, now).tasks[id].kind == Finalize
  {
    if picked != [] {
      var n := |picked| - 1;
      SweepKeeps(d, picked[..n], now);
      var m := Sweep(d, picked[..n], now);
      MaybeFinalizeKeeps(m, picked[n], now);
      AppendsTransitive(d, m, Sweep(d, picked, now));
    }
  }

  // ------------------------------------------------------------------ claims and rows

  ghost predicate ClaimMatches(d: Db, c: Claim) {
    && c.task in d.tasks && d.tasks[c.task].run == c.run && d.tasks[c.task].kind == c.kind
    && d.tasks[c.task].maxAttempts == c.maxAttempts
  }

  ghost predicate ClaimsMatch(s: State) {
    && (forall c | c in s.pending :: c < s.nextClaim && ClaimMatches(s.db, s.pending[c].claim))
    && (forall c | c in s.pending && s.pending[c].Checking? :: s.pending[c].claim.kind.Collector?)
  }

  ghost predicate Consistent(s: State) { WellFormed(s.db) && ClaimsMatch(s) }

  /** e rewrites at most the row `id` of d. */
  ghost predicate Touches(d: Db, e: Db, id: TaskId) {
    Rewrites(d, e) && forall k | k in d.tasks && k != id :: e.tasks[k] == d.tasks[k]
  }

  lemma TouchesTransitive(d: Db, e: Db, f: Db, id: TaskId)
    requires Touches(d, e, id) && Touches(e, f, id)
    ensures Touches(d, f, id)
  {
  }

  lemma CompleteTouches(d: Db, id: TaskId, status: Status)
    ensures Touches(d, Complete(d, id, status), id)
  {
  }

  lemma SetRunTouches(d: Db, r: RunId, status: RunStatus, id: TaskId)
    ensures Touches(d, SetRunStatus(d, r, status), id) && SetRunStatus(d, r, status).tasks == d.tasks
  {
  }

  lemma FailTouches(cfg: Config, d: Db, now: nat, c: Claim, retry: bool)
    ensures Touches(d, Fail(cfg, d, now, c, retry), c.task)
  {
    if !WillRetry(c, retry) { CompleteTouches(d, c.task, Failed); }
  }

  lemma FailTaskTouches(cfg: Config, d: Db, now: nat, c: Claim, retry: bool)
    ensures Touches(d, FailTask(cfg, d, now, c, retry), c.task)
    ensures FailTask(cfg, d, now, c, retry).tasks == Fail(cfg, d, now, c, retry).tasks
  {
    FailTouches(cfg, d, now, c, retry);
    var e := Fail(cfg, d, now, c, retry);
    if c.run.Some? {
      SetRunTouches(e, c.run.value, RunFailed, c.task);
      TouchesTransitive(d, e, SetRunStatus(e, c.run.value, RunFailed), c.task);
    }
  }

  lemma DeferTouches(d: Db, now: nat, id: TaskId, seconds: nat)
    ensures Touches(d, Defer(d, now, id, seconds), id)
  {
  }

  lemma ReportTouches(cfg: Config, d: Db, now: nat, c: Claim, outcome: Outcome)
    ensures Touches(d, ReportTask(cfg, d, now, c, outcome), c.task)
    ensures outcome.Finished? ==> ReportTask(cfg, d, now, c, outcome).tasks == Complete(d, c.task, outcome.status).tasks
  {
    match outcome
    case Finished(status) =>
      var e := Complete(d, c.task, status);
      CompleteTouches(d, c.task, status);
      if c.run.Some? {
        SetRunTouches(e, c.run.value, RunFailed, c.task);
        TouchesTransitive(d, e, SetRunStatus(e, c.run.value, RunFailed), c.task);
      }
    case Failure(retry) => FailTaskTouches(cfg, d, now, c, retry);
    case Deferred(seconds) => DeferTouches(d, now, c.task, seconds);
  }

  predicate Adds(step: Step) {
    step.Ingest? || step.ScheduleRefresh? || step.Check? || step.SweepRuns? || step.Tick? || step.Crash?
  }

  /** Ingestion, scheduling, checks and sweeps only append untouched rows. */
  lemma StepAppends(cfg: Config, s: State, step: Step)
    requires Consistent(s) && Enabled(cfg, s, step) && Adds(step)
    ensures WellFormed(Apply(cfg, s, step).db) && Appends(s.db, Apply(cfg, s, step).db)
  {
    match step
    case Ingest(domain, collectors) => CreateRunKeeps(cfg, s.db, domain, collectors, s.now);
    case ScheduleRefresh(p, w) =>
      EnqueueKeeps(s.db, NewTask(None, ListRefresh, Some(Refresh(p, w)), REFRESH_PRIORITY, DEFAULT_MAX_ATTEMPTS, s.now));
    case Check(c) =>
      var k := s.pending[c].claim;
      assert WellKeyed(s.db, s.db.tasks[k.task]);
      if k.run.Some? { MaybeFinalizeKeeps(s.db, k.run.value, s.now); }
    case SweepRuns(picked) => SweepKeeps(s.db, picked, s.now);
    case _ =>
  }

  lemma LeaseTouches(cfg: Config, d: Db, now: nat, id: TaskId)
    ensures Touches(d, ExtendLease(cfg, d, now, id), id)
  {
  }

  lemma ClaimTouches(cfg: Config, d: Db, now: nat, id: TaskId, cid: ClaimId)
    requires id in d.tasks
    ensures Touches(d, ClaimTask(cfg, d, now, id, cid), id)
  {
  }

  lemma RecoverRewrites(d: Db, now: nat)
    ensures Rewrites(d, RecoverLost(d, now))
  {
  }

  lemma StartTouches(d: Db, r: Option<RunId>, id: TaskId)
    ensures Touches(d, StartRun(d, r), id) && StartRun(d, r).tasks == d.tasks
  {
    if r.Some? { SetRunTouches(d, r.value, RunRunning, id); }
  }

  /** Claims, reports, heartbeats and recovery rewrite rows in place. */
  lemma StepRewrites(cfg: Config, s: State, step: Step)
    requires Consistent(s) && Enabled(cfg, s, step) && !Adds(step)
    ensures WellFormed(Apply(cfg, s, step).db) && Rewrites(s.db, Apply(cfg, s, step).db)
  {
    match step {
      case Report(c, outcome) => ReportTouches(cfg, s.db, s.now, s.pending[c].claim, outcome);
      case Raise(c) => FailTaskTouches(cfg, s.db, s.now, s.pending[c].claim, true);
      case CommitEstimate(c) =>
        if s.pending[c].claim.run.Some? { SetRunTouches(s.db, s.pending[c].claim.run.value, RunCompleted, 0); }
      case Start(c) => StartTouches(s.db, s.pending[c].claim.run, 0);
      case Heartbeat(c) => LeaseTouches(cfg, s.db, s.now, s.pending[c].claim.task);
      case ClaimStep(id) => ClaimTouches(cfg, s.db, s.now, id, s.nextClaim);
      case Recover => RecoverRewrites(s.db, s.now);
      case _ =>
    }
    RewritesWellFormed(s.db, Apply(cfg, s, step).db);
  }

  /** Local work only moves on from executing to checking, ends, or starts from a fresh claim. */
  ghost predicate PendingFollows(s: State, s': State) {
    && s.nextClaim <= s'.nextClaim
    && forall c | c in s'.pending ::
         if c in s.pending then
           s'.pending[c].claim == s.pending[c].claim
           && (s'.pending[c].Checking? ==> s.pending[c].Checking? || s.pending[c].claim.kind.Collector?)
         else s'.pending[c].Executing? && c < s'.nextClaim && ClaimMatches(s.db, s'.pending[c].claim)
  }

  lemma StepPending(cfg: Config, s: State, step: Step)
    requires Consistent(s) && Enabled(cfg, s, step)
    ensures PendingFollows(s, Apply(cfg, s, step))
  {
  }

  /** Claims keep pointing at their own rows while rows keep their identity. */
  lemma ClaimsStayMatched(s: State, s': State)
    requires ClaimsMatch(s) && WellFormed(s.db) && (Appends(s.db, s'.db) || Rewrites(s.db, s'.db)) && PendingFollows(s, s')
    ensures ClaimsMatch(s')
  {
    forall c | c in s'.pending ensures ClaimMatches(s'.db, s'.pending[c].claim) {
      assert ClaimMatches(s.db, s'.pending[c].claim);
    }
  }

  lemma StepDb(cfg: Config, s: State, step: Step)
    requires Consistent(s) && Enabled(cfg, s, step)
    ensures var e := Apply(cfg, s, step).db; WellFormed(e) && (Appends(s.db, e) || Rewrites(s.db, e))
  {
    if Adds(step) { StepAppends(cfg, s, step); } else { StepRewrites(cfg, s, step); }
  }

  /** No assumption on who reports: rows stay well keyed and claims point at their own task. */
  lemma ConsistentStep(cfg: Config, s: State, step: Step)
    requires Consistent(s) && Enabled(cfg, s, step)
    ensures Consistent(Apply(cfg, s, step))
  {
    var s' := Apply(cfg, s, step);
    StepDb(cfg, s, step);
    StepPending(cfg, s, step);
    ClaimsStayMatched(s, s');
  }

  /** What an ingest adds to the tables: one run, one task per collector or the finalize task, and nothing else. */
  lemma IngestCreates(cfg: Config, s: State, domain: DomainId, collectors: seq<Kind>)
    requires Consistent(s) && Enabled(cfg, s, Ingest(domain, collectors))
    ensures var (d, e, r) := (s.db, Apply(cfg, s, Ingest(domain, collectors)).db, s.db.nextRun);
            && r !in d.runs && e.runs == d.runs[r := Run(domain, RunQueued, collectors, s.now)]
            && StartsWith(e.tasks, r, collectors, cfg.maxAttempts, s.now)
            && (forall id | id in d.tasks :: id in e.tasks && e.tasks[id] == d.tasks[id])
            && forall id | id in e.tasks && id !in d.tasks :: e.tasks[id].run == Some(r)
  {
    CreateRunKeeps(cfg, s.db, domain, collectors, s.now);
    CreatedTasks(cfg, s.db, domain, collectors, s.now);
  }

  /** dedupe_key makes (run, kind) unique: a run never has two tasks of one kind, in particular two finalize tasks. */
  lemma OneTaskPerKind(d: Db, r: RunId, a: TaskId, b: TaskId)
    requires WellFormed(d) && a in d.tasks && b in d.tasks
    requires d.tasks[a].run == d.tasks[b].run == Some(r) && d.tasks[a].kind == d.tasks[b].kind
    ensures a == b
  {
    assert WellKeyed(d, d.tasks[a]) && WellKeyed(d, d.tasks[b]);
  }

  // ------------------------------------------------------------------ per-kind caps

  ghost predicate CapsHold(cfg: Config, s: State) {
    forall k :: |RunningOf(s.db.tasks, k)| <= Max(0, Cap(cfg, k))
  }

  /** No row is running in e that was not running in d. */
  ghost predicate StartsNone(d: Db, e: Db) {
    forall id | id in e.tasks && e.tasks[id].status == Running ::
      id in d.tasks && d.tasks[id].status == Running && d.tasks[id].kind == e.tasks[id].kind
  }

  lemma ReportStartsNone(cfg: Config, d: Db, now: nat, c: Claim, outcome: Outcome)
    requires outcome.Finished? ==> outcome.status != Running
    ensures StartsNone(d, ReportTask(cfg, d, now, c, outcome))
  {
    ReportTouches(cfg, d, now, c, outcome);
    if outcome.Failure? { FailStartsNone(cfg, d, now, c, outcome.retry); }
  }

  lemma FailStartsNone(cfg: Config, d: Db, now: nat, c: Claim, retry: bool)
    ensures StartsNone(d, FailTask(cfg, d, now, c, retry))
  {
    FailTaskTouches(cfg, d, now, c, retry);
  }

  lemma StepStartsNone(cfg: Config, s: State, step: Step)
    requires Consistent(s) && Enabled(cfg, s, step) && !step.ClaimStep?
    ensures StartsNone(s.db, Apply(cfg, s, step).db)
  {
    if Adds(step) {
      StepAppends(cfg, s, step);
    } else {
      match step
      case Report(c, outcome) => ReportStartsNone(cfg, s.db, s.now, s.pending[c].claim, outcome);
      case Raise(c) => FailStartsNone(cfg, s.db, s.now, s.pending[c].claim, true);
      case Start(c) => StartTouches(s.db, s.pending[c].claim.run, 0);
      case Heartbeat(c) => LeaseTouches(cfg, s.db, s.now, s.pending[c].claim.task);
      case _ =>
    }
  }

  /** One more running task of its kind. */
  lemma RunningWith(tasks: map<TaskId, Task>, id: TaskId, t: Task, k: Kind)
    requires id in tasks && t.kind == tasks[id].kind && t.status == Running
    ensures RunningOf(tasks[id := t], k) == if t.kind == k then RunningOf(tasks, k) + {id} else RunningOf(tasks, k)
  {
  }

  lemma CapsClaim(cfg: Config, s: State, id: TaskId, k: Kind)
    requires CapsHold(cfg, s) && Enabled(cfg, s, ClaimStep(id))
    ensures |RunningOf(Apply(cfg, s, ClaimStep(id)).db.tasks, k)| <= Max(0, Cap(cfg, k))
  {
    RunningWith(s.db.tasks, id, ClaimTask(cfg, s.db, s.now, id, s.nextClaim).tasks[id], k);
    assert ClaimTask(cfg, s.db, s.now, id, s.nextClaim).tasks == s.db.tasks[id := ClaimTask(cfg, s.db, s.now, id, s.nextClaim).tasks[id]];
  }

  /** The claim query keeps every kind within its cap, whoever reports on what. A cap of 0 admits nothing. */
  lemma CapsStep(cfg: Config, s: State, step: Step)
    requires Consistent(s) && CapsHold(cfg, s) && Enabled(cfg, s, step)
    ensures CapsHold(cfg, Apply(cfg, s, step))
  {
    var s' := Apply(cfg, s, step);
    forall k ensures |RunningOf(s'.db.tasks, k)| <= Max(0, Cap(cfg, k)) {
      if step.ClaimStep? {
        CapsClaim(cfg, s, step.id, k);
      } else {
        StepStartsNone(cfg, s, step);
        SubsetSize(RunningOf(s'.db.tasks, k), RunningOf(s.db.tasks, k));
      }
    }
  }

  // ------------------------------------------------------------------ attempts, under the holder assumption

  ghost predicate Holds(s: State, c: ClaimId, id: TaskId) {
    id in s.db.tasks && s.db.tasks[id].status == Running && s.db.tasks[id].lockedBy == Some(c)
  }

  ghost predicate AttemptsOk(t: Task) {
    && t.attempts <= Max(1, t.maxAttempts)
    && (t.status == Queued ==> t.attempts < Max(1, t.maxAttempts))
    && (t.status == Running ==> t.attempts >= 1 && t.lockedBy.Some?)
    && t.defers <= MAX_DEFERS && (t.kind != LISTS ==> t.defers == 0)
  }

  ghost predicate FreshLocks(s: State) {
    forall id | id in s.db.tasks && s.db.tasks[id].lockedBy.Some? :: s.db.tasks[id].lockedBy.value < s.nextClaim
  }

  /** The holder's snapshot still shows the row's counters. */
  ghost predicate SnapshotsCurrent(s: State) {
    forall c | c in s.pending && !s.pending[c].Checking? && Holds(s, c, s.pending[c].claim.task) ::
      var t := s.db.tasks[s.pending[c].claim.task];
      s.pending[c].claim.attempts == t.attempts && s.pending[c].claim.defers == t.defers
  }

  ghost predicate Disciplined(s: State) {
    && Consistent(s) && FreshLocks(s) && SnapshotsCurrent(s)
    && forall id | id in s.db.tasks :: AttemptsOk(s.db.tasks[id])
  }

  ghost predicate CurrentSnapshot(c: Claim, t: Task) {
    c.attempts == t.attempts && c.defers == t.defers && c.maxAttempts == t.maxAttempts && c.kind == t.kind
  }

  /** What a holder's report makes of its row: unlocked, with attempts left if it is queued again. */
  lemma ReportedRow(cfg: Config, d: Db, now: nat, c: Claim, outcome: Outcome)
    requires c.task in d.tasks && d.tasks[c.task].status == Running && AttemptsOk(d.tasks[c.task])
    requires CurrentSnapshot(c, d.tasks[c.task])
    requires outcome.Finished? ==> outcome.status in {Succeeded, Skipped, Failed}
    requires outcome.Deferred? ==> c.kind == LISTS && c.defers < MAX_DEFERS
    ensures var e := ReportTask(cfg, d, now, c, outcome);
            Touches(d, e, c.task) && AttemptsOk(e.tasks[c.task]) && e.tasks[c.task].lockedBy == None
  {
    ReportTouches(cfg, d, now, c, outcome);
    if outcome.Failure? { FailTaskTouches(cfg, d, now, c, outcome.retry); }
  }

  function OutcomeOf(step: Step): Outcome
    requires step.Report? || step.Raise?
  {
    if step.Report? then step.outcome else Failure(true)
  }

  lemma ReportEffect(cfg: Config, s: State, step: Step, s': State)
    requires Enabled(cfg, s, step) && s' == Apply(cfg, s, step) && (step.Report? || step.Raise?)
    ensures s'.db == ReportTask(cfg, s.db, s.now, s.pending[step.cid].claim, OutcomeOf(step))
    ensures s'.nextClaim == s.nextClaim && NoNewWork(s, s')
  {
  }

  lemma DisciplinedReport(cfg: Config, s: State, step: Step, s': State)
    requires Disciplined(s) && Enabled(cfg, s, step) && s' == Apply(cfg, s, step) && FromHolder(s, step) && (step.Report? || step.Raise?)
    ensures Disciplined(s')
  {
    var c := s.pending[step.cid].claim;
    assert Consistent(s') by { ConsistentStep(cfg, s, step); }
    ReportEffect(cfg, s, step, s');
    assert ClaimMatches(s.db, c) && Holds(s, step.cid, c.task);
    ReportedRow(cfg, s.db, s.now, c, OutcomeOf(step));
    KeepsDiscipline(s, s', c.task);
  }

  ghost predicate NoNewWork(s: State, s': State) {
    forall c | c in s'.pending && !s'.pending[c].Checking? ::
      c in s.pending && !s.pending[c].Checking? && s.pending[c].claim == s'.pending[c].claim
  }

  /** Rewriting one row to an unlocked, in-bounds one keeps the discipline. */
  lemma KeepsDiscipline(s: State, s': State, id: TaskId)
    requires Disciplined(s) && Consistent(s') && Touches(s.db, s'.db, id) && id in s.db.tasks
    requires AttemptsOk(s'.db.tasks[id]) && s'.db.tasks[id].lockedBy == None
    requires s'.nextClaim == s.nextClaim && NoNewWork(s, s')
    ensures Disciplined(s')
  {
    forall c | c in s'.pending && !s'.pending[c].Checking? && Holds(s', c, s'.pending[c].claim.task)
      ensures var t := s'.db.tasks[s'.pending[c].claim.task];
              s'.pending[c].claim.attempts == t.attempts && s'.pending[c].claim.defers == t.defers
    {
      assert Holds(s, c, s.pending[c].claim.task);
    }
  }

  lemma DisciplinedClaim(cfg: Config, s: State, id: TaskId)
    requires Disciplined(s) && Enabled(cfg, s, ClaimStep(id))
    ensures Disciplined(Apply(cfg, s, ClaimStep(id)))
  {
    ConsistentStep(cfg, s, ClaimStep(id));
  }

  lemma KeepsDisciplineAppending(s: State, s': State)
    requires Disciplined(s) && Consistent(s') && Appends(s.db, s'.db) && s'.nextClaim == s.nextClaim && NoNewWork(s, s')
    ensures Disciplined(s')
  {
    forall c | c in s'.pending && !s'.pending[c].Checking? && Holds(s', c, s'.pending[c].claim.task)
      ensures Holds(s, c, s.pending[c].claim.task)
    {
      assert ClaimMatches(s.db, s.pending[c].claim);
    }
  }

  lemma DisciplinedAppend(cfg: Config, s: State, step: Step, s': State)
    requires Disciplined(s) && Enabled(cfg, s, step) && s' == Apply(cfg, s, step) && Adds(step)
    ensures Disciplined(s')
  {
    assert Consistent(s') by { ConsistentStep(cfg, s, step); }
    assert Appends(s.db, s'.db) by { StepAppends(cfg, s, step); }
    assert NoNewWork(s, s');
    KeepsDisciplineAppending(s, s');
  }

  /** Steps that neither lock, unlock nor count: only leases, statuses of expired rows and run rows change. */
  ghost predicate KeepsLocks(d: Db, e: Db) {
    && Rewrites(d, e)
    && forall id | id in d.tasks ::
         && e.tasks[id].attempts == d.tasks[id].attempts && e.tasks[id].defers == d.tasks[id].defers
         && (e.tasks[id].lockedBy == d.tasks[id].lockedBy || e.tasks[id].lockedBy == None)
         && (e.tasks[id].status == Running ==> d.tasks[id].status == Running && e.tasks[id].lockedBy == d.tasks[id].lockedBy)
         && (e.tasks[id].status == Queued ==> d.tasks[id].status == Queued || d.tasks[id].attempts < d.tasks[id].maxAttempts)
  }

  lemma RecoverKeepsLocks(d: Db, now: nat)
    ensures KeepsLocks(d, RecoverLost(d, now))
  {
  }

  lemma LeaseKeepsLocks(cfg: Config, d: Db, now: nat, id: TaskId)
    ensures KeepsLocks(d, ExtendLease(cfg, d, now, id))
  {
  }

  lemma SetRunKeepsLocks(d: Db, r: RunId, status: RunStatus)
    ensures KeepsLocks(d, SetRunStatus(d, r, status))
  {
  }

  lemma StepKeepsLocks(cfg: Config, s: State, step: Step)
    requires Enabled(cfg, s, step) && (step.Start? || step.CommitEstimate? || step.Heartbeat? || step.Recover?)
    ensures KeepsLocks(s.db, Apply(cfg, s, step).db)
  {
    match step
    case Recover => RecoverKeepsLocks(s.db, s.now);
    case Heartbeat(c) => LeaseKeepsLocks(cfg, s.db, s.now, s.pending[c].claim.task);
    case Start(c) => if s.pending[c].claim.run.Some? { SetRunKeepsLocks(s.db, s.pending[c].claim.run.value, RunRunning); }
    case CommitEstimate(c) => if s.pending[c].claim.run.Some? { SetRunKeepsLocks(s.db, s.pending[c].claim.run.value, RunCompleted); }
  }

  lemma DisciplinedLocks(s: State, s': State)
    requires Disciplined(s) && Consistent(s') && KeepsLocks(s.db, s'.db) && NoNewWork(s, s') && s'.nextClaim == s.nextClaim
    ensures Disciplined(s')
  {
    forall c | c in s'.pending && !s'.pending[c].Checking? && Holds(s', c, s'.pending[c].claim.task)
      ensures Holds(s, c, s.pending[c].claim.task)
    {
    }
  }

  lemma QuietWork(cfg: Config, s: State, step: Step, s': State)
    requires Enabled(cfg, s, step) && s' == Apply(cfg, s, step)
    requires step.Start? || step.CommitEstimate? || step.Heartbeat? || step.Recover?
    ensures NoNewWork(s, s') && s'.nextClaim == s.nextClaim
  {
  }

  lemma DisciplinedQuiet(cfg: Config, s: State, step: Step, s': State)
    requires Disciplined(s) && Enabled(cfg, s, step) && s' == Apply(cfg, s, step)
    requires step.Start? || step.CommitEstimate? || step.Heartbeat? || step.Recover?
    ensures Disciplined(s')
  {
    ConsistentStep(cfg, s, step);
    StepKeepsLocks(cfg, s, step);
    QuietWork(cfg, s, step, s');
    DisciplinedLocks(s, s');
  }

  /** With reports only from holders: queued tasks have attempts left, running tasks are within their attempts. */
  lemma DisciplinedStep(cfg: Config, s: State, step: Step)
    requires Disciplined(s) && Enabled(cfg, s, step) && FromHolder(s, step)
    ensures Disciplined(Apply(cfg, s, step))
  {
    if step.Report? || step.Raise? {
      DisciplinedReport(cfg, s, step, Apply(cfg, s, step));
    } else if step.ClaimStep? {
      DisciplinedClaim(cfg, s, step.id);
    } else if Adds(step) {
      DisciplinedAppend(cfg, s, step, Apply(cfg, s, step));
    } else {
      DisciplinedQuiet(cfg, s, step, Apply(cfg, s, step));
    }
  }
}
