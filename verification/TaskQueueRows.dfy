/** The steps of the queue seen from one row: what a task, a run or a worker's claim becomes, whatever else the tables hold. */
module TaskQueueRows {
  import opened Common
  import opened TaskQueue
  import opened TaskQueueSafety

  /** The task whose claim the step speaks for. */
  function OwnClaim(s: State, step: Step): Option<Claim> {
    match step
    case Report(c, _) => if c in s.pending then Some(s.pending[c].claim) else None
    case Raise(c) => if c in s.pending then Some(s.pending[c].claim) else None
    case Heartbeat(c) => if c in s.pending then Some(s.pending[c].claim) else None
    case Start(c) => if c in s.pending then Some(s.pending[c].claim) else None
    case Check(c) => if c in s.pending then Some(s.pending[c].claim) else None
    case CommitEstimate(c) => if c in s.pending then Some(s.pending[c].claim) else None
    case _ => None
  }

  /** How long the n-th attempt's failure keeps a task waiting: the base, doubled with every attempt before. */
  function Backoff(cfg: Config, attempt: nat): nat { cfg.retryBase * Pow2(Max(0, attempt - 1)) }

  function Released(t: Task, status: Status): Task { t.(status := status, lockedBy := None, leaseUntil := 0) }

  /** What a failure reported for the claim leaves of the row. */
  function Failing(cfg: Config, now: nat, t: Task, c: Claim, retry: bool): Task {
    if retry && c.attempts < c.maxAttempts then Released(t, Queued).(runAfter := now + Backoff(cfg, c.attempts)) else Released(t, Failed)
  }

  /** A task row after the step. */
  function RowAfter(cfg: Config, s: State, step: Step, id: TaskId, t: Task): Task {
    var c := OwnClaim(s, step);
    var own := c.Some? && c.value.task == id;
    match step
    case ClaimStep(x) =>
      if x == id then t.(status := Running, attempts := t.attempts + 1, lockedBy := Some(s.nextClaim), leaseUntil := s.now + cfg.lease) else t
    case Report(_, Finished(status)) => if own then Released(t, status) else t
    case Report(_, Failure(retry)) => if own then Failing(cfg, s.now, t, c.value, retry) else t
    case Report(_, Deferred(seconds)) =>
      if !own then t
      else
        var later := if seconds < 5 then 5 else seconds;
        Released(t, Queued).(attempts := if t.attempts == 0 then 0 else t.attempts - 1, defers := t.defers + 1, runAfter := s.now + later)
    case Raise(_) => if own then Failing(cfg, s.now, t, c.value, true) else t
    case Heartbeat(_) => if own && t.status == Running then t.(leaseUntil := s.now + cfg.lease) else t
    case Recover =>
      if t.status != Running || t.leaseUntil >= s.now then t
      else if t.attempts < t.maxAttempts then Released(t, Queued) else Released(t, Failed)
    case _ => t
  }

  /** A run row after the step: only the first collector starts it, only the estimate completes it, only its finalize task fails it. */
  function RunAfter(s: State, step: Step, r: RunId, run: Run): Run {
    var c := OwnClaim(s, step);
    if c.None? || c.value.run != Some(r) then run
    else
      match step
      case Start(_) => if run.status == RunQueued then run.(status := RunRunning) else run
      case CommitEstimate(_) => run.(status := RunCompleted)
      case Raise(_) => if c.value.kind == Finalize && c.value.attempts >= c.value.maxAttempts then run.(status := RunFailed) else run
      case _ => run
  }

  /** What a worker still has to do for a claim after the step. */
  function WorkAfter(s: State, step: Step, c: ClaimId): Option<Work> {
    var before := if c in s.pending then Some(s.pending[c]) else None;
    match step
    case ClaimStep(id) =>
      if c == s.nextClaim && id in s.db.tasks
      then var t := s.db.tasks[id]; Some(Executing(Claim(id, t.run, t.kind, t.attempts + 1, t.maxAttempts, t.defers)))
      else before
    case Report(x, outcome) =>
      if x != c || before.None? then before
      else if before.value.claim.kind.Collector? && !outcome.Deferred? then Some(Checking(before.value.claim)) else None
    case CommitEstimate(x) => if x == c && before.Some? then Some(Committed(before.value.claim)) else before
    case Raise(x) => if x == c then None else before
    case Check(x) => if x == c then None else before
    case Crash(x) => if x == c then None else before
    case _ => before
  }

  /** No step does anything else to a task row. */
  lemma RowFollows(cfg: Config, s: State, step: Step, id: TaskId)
    requires WellFormed(s.db) && Enabled(cfg, s, step) && id in s.db.tasks
    ensures var tasks := Apply(cfg, s, step).db.tasks; id in tasks && tasks[id] == RowAfter(cfg, s, step, id, s.db.tasks[id])
  {
    match step {
      case Ingest(domain, collectors) => CreateRunKeeps(cfg, s.db, domain, collectors, s.now);
      case SweepRuns(picked) => SweptRow(s.db, picked, s.now, id);
      case Report(c, outcome) => ReportedRow(cfg, s, c, outcome, id);
      case Raise(c) => FailedRow(cfg, s.db, s.now, s.pending[c].claim, true, id);
      case _ =>
    }
  }

  lemma FailedRow(cfg: Config, d: Db, now: nat, c: Claim, retry: bool, id: TaskId)
    requires id in d.tasks
    ensures var tasks := FailTask(cfg, d, now, c, retry).tasks;
            id in tasks && tasks[id] == if c.task == id then Failing(cfg, now, d.tasks[id], c, retry) else d.tasks[id]
  {
  }

  lemma ReportedRow(cfg: Config, s: State, c: ClaimId, outcome: Outcome, id: TaskId)
    requires Enabled(cfg, s, Report(c, outcome)) && id in s.db.tasks
    ensures var tasks := Apply(cfg, s, Report(c, outcome)).db.tasks;
            id in tasks && tasks[id] == RowAfter(cfg, s, Report(c, outcome), id, s.db.tasks[id])
  {
    match outcome {
      case Failure(retry) => FailedRow(cfg, s.db, s.now, s.pending[c].claim, retry, id);
      case _ =>
    }
  }

  lemma {:induction false} SweptRow(d: Db, picked: seq<RunId>, now: nat, id: TaskId)
    requires id < d.nextTask && id in d.tasks
    ensures var e := Sweep(d, picked, now); id < e.nextTask && id in e.tasks && e.tasks[id] == d.tasks[id] && e.runs == d.runs
  {
    if picked != [] { SweptRow(d, picked[..|picked| - 1], now, id); }
  }

  /** No step does anything else to a run row. */
  lemma RunFollows(cfg: Config, s: State, step: Step, r: RunId)
    requires WellFormed(s.db) && Enabled(cfg, s, step) && r in s.db.runs
    ensures var runs := Apply(cfg, s, step).db.runs; r in runs && runs[r] == RunAfter(s, step, r, s.db.runs[r])
  {
    match step {
      case Ingest(domain, collectors) => CreateRunKeeps(cfg, s.db, domain, collectors, s.now);
      case SweepRuns(picked) => SweptRuns(s.db, picked, s.now);
      case _ =>
    }
  }

  lemma {:induction false} SweptRuns(d: Db, picked: seq<RunId>, now: nat)
    ensures Sweep(d, picked, now).runs == d.runs
  {
    if picked != [] { SweptRuns(d, picked[..|picked| - 1], now); }
  }

  lemma WorkFollows(cfg: Config, s: State, step: Step, c: ClaimId)
    requires Enabled(cfg, s, step)
    ensures var pending := Apply(cfg, s, step).pending; WorkAfter(s, step, c) == if c in pending then Some(pending[c]) else None
  {
  }

  /** The only row a check or the sweep adds for a run, which must have no open collector task. */
  ghost predicate FinalizeRow(tasks: map<TaskId, Task>, t: Task, r: RunId, now: nat) {
    && t == Task(Some(r), Finalize, Queued, 20, 0, 3, now, 0, None, 0, Some(RunTask(r, Finalize)))
    && forall id | id in tasks && tasks[id].run == Some(r) && tasks[id].kind != Finalize :: tasks[id].status in {Succeeded, Failed, Skipped}
  }

  /** Which rows a step adds, ingestion aside. */
  lemma RowsAdded(cfg: Config, s: State, step: Step, id: TaskId)
    requires WellFormed(s.db) && Enabled(cfg, s, step) && !step.Ingest?
    requires id in Apply(cfg, s, step).db.tasks && id !in s.db.tasks
    ensures var t := Apply(cfg, s, step).db.tasks[id];
            match step
            case ScheduleRefresh(p, w) => t == Task(None, ListRefresh, Queued, 10, 0, 3, s.now, 0, None, 0, Some(Refresh(p, w)))
            case Check(c) => s.pending[c].claim.run.Some? && FinalizeRow(s.db.tasks, t, s.pending[c].claim.run.value, s.now)
            case SweepRuns(picked) => exists i :: 0 <= i < |picked| && FinalizeRow(s.db.tasks, t, picked[i], s.now)
            case _ => false
  {
    match step {
      case SweepRuns(picked) => SweptAdds(s.db, picked, s.now, id);
      case _ =>
    }
  }

  lemma {:induction false} SweptAdds(d: Db, picked: seq<RunId>, now: nat, id: TaskId)
    requires WellFormed(d) && forall i | 0 <= i < |picked| :: picked[i] in d.runs
    requires id in Sweep(d, picked, now).tasks && id !in d.tasks
    ensures exists i :: 0 <= i < |picked| && FinalizeRow(d.tasks, Sweep(d, picked, now).tasks[id], picked[i], now)
  {
    var n := |picked| - 1;
    if picked != [] {
      var m := Sweep(d, picked[..n], now);
      forall x | x in d.tasks ensures x in m.tasks && m.tasks[x] == d.tasks[x] { SweptRow(d, picked[..n], now, x); }
      if id in m.tasks {
        SweptAdds(d, picked[..n], now, id);
      } else {
        assert FinalizeRow(d.tasks, Sweep(d, picked, now).tasks[id], picked[n], now);
      }
    }
  }

  /** A check whose task is over enqueues its run's finalize task once the other collectors are over as well. */
  lemma CheckFinalizes(cfg: Config, s: State, c: ClaimId, r: RunId)
    requires Enabled(cfg, s, Check(c)) && s.pending[c].claim.run == Some(r)
    requires s.pending[c].claim.task in s.db.tasks && s.db.tasks[s.pending[c].claim.task].status in {Succeeded, Failed, Skipped}
    requires forall id | id in s.db.tasks && s.db.tasks[id].run == Some(r) && s.db.tasks[id].kind != Finalize ::
               s.db.tasks[id].status in {Succeeded, Failed, Skipped}
    ensures var tasks := Apply(cfg, s, Check(c)).db.tasks; exists id :: id in tasks && tasks[id].dedupe == Some(RunTask(r, Finalize))
  {
    var tasks := Apply(cfg, s, Check(c)).db.tasks;
    if !KeyTaken(s.db.tasks, Some(RunTask(r, Finalize))) {
      assert s.db.nextTask in tasks && tasks[s.db.nextTask].dedupe == Some(RunTask(r, Finalize));
    }
  }

  /** The numbers the steps obey: the lists collector's 40 deferrals, the sweep's 100 runs, the day after which a run is stale. */
  lemma StepLimits(cfg: Config, s: State, step: Step)
    requires Enabled(cfg, s, step)
    ensures step.Report? && step.outcome.Deferred? ==>
              s.pending[step.cid].claim.kind == Collector("lists") && s.pending[step.cid].claim.defers < 40
    ensures step.SweepRuns? ==> |step.picked| <= 100
    ensures step.SweepRuns? ==> forall i | 0 <= i < |step.picked| ::
              step.picked[i] in s.db.runs && s.db.runs[step.picked[i]].createdAt + 86400 < s.now
              && s.db.runs[step.picked[i]].status in {RunQueued, RunRunning}
    ensures step.ClaimStep? ==> step.id in s.db.tasks && s.db.tasks[step.id].status == Queued && s.db.tasks[step.id].runAfter <= s.now
  {
  }
}
