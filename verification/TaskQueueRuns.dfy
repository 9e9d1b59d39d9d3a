/** Theorems over whole runs of the queue: caps, claim counts, finalize tasks, active runs, stuck runs. */
module TaskQueueRuns {
  import opened Common
  import opened TaskQueue
  import opened TaskQueueSafety

  // ------------------------------------------------------------------ caps and attempts in every reachable state

  /** Every interleaving keeps every kind's running tasks within its cap and a run's tasks unique by kind. */
  lemma {:induction false} RunKeepsCaps(cfg: Config, states: seq<State>, steps: seq<Step>, i: nat)
    requires IsRun(cfg, states, steps) && i <= |steps|
    ensures Consistent(states[i]) && CapsHold(cfg, states[i])
  {
    if i == 0 {
      forall k ensures RunningOf(EMPTY.db.tasks, k) == {} { }
    } else {
      RunKeepsCaps(cfg, states, steps, i - 1);
      ConsistentStep(cfg, states[i - 1], steps[i - 1]);
      CapsStep(cfg, states[i - 1], steps[i - 1]);
    }
  }

  lemma {:induction false} RunIsDisciplined(cfg: Config, states: seq<State>, steps: seq<Step>, i: nat)
    requires IsRun(cfg, states, steps) && AllFromHolder(states, steps) && i <= |steps|
    ensures Disciplined(states[i])
  {
    if i > 0 {
      RunIsDisciplined(cfg, states, steps, i - 1);
      DisciplinedStep(cfg, states[i - 1], steps[i - 1]);
    }
  }

  // ------------------------------------------------------------------ how often a task is claimed

  function ClaimsOf(steps: seq<Step>, id: TaskId): nat {
    if steps == [] then 0
    else
      var n := |steps| - 1;
      ClaimsOf(steps[..n], id) + if steps[n] == ClaimStep(id) then 1 else 0
  }

  /** attempts + defers of one row, 0 while it does not exist. */
  function Spent(d: Db, id: TaskId): nat { if id in d.tasks then d.tasks[id].attempts + d.tasks[id].defers else 0 }

  lemma RowSpends(cfg: Config, d: Db, now: nat, c: Claim, outcome: Outcome, id: TaskId)
    requires c.task in d.tasks && d.tasks[c.task].attempts >= 1
    ensures Spent(ReportTask(cfg, d, now, c, outcome), id) == Spent(d, id)
  {
    match outcome
    case Finished(status) => ReportTouches(cfg, d, now, c, outcome);
    case Failure(retry) => FailTaskTouches(cfg, d, now, c, retry);
    case Deferred(seconds) =>
  }

  lemma ReportSpends(cfg: Config, s: State, step: Step, s': State, id: TaskId)
    requires Disciplined(s) && Enabled(cfg, s, step) && FromHolder(s, step) && s' == Apply(cfg, s, step)
    requires step.Report? || step.Raise?
    ensures Spent(s'.db, id) == Spent(s.db, id)
  {
    var c := s.pending[step.cid].claim;
    ReportEffect(cfg, s, step, s');
    assert Holds(s, step.cid, c.task) && AttemptsOk(s.db.tasks[c.task]);
    RowSpends(cfg, s.db, s.now, c, OutcomeOf(step), id);
  }

  /** A claim spends one unit of attempts + defers; nothing gives one back. */
  lemma StepSpends(cfg: Config, s: State, step: Step, s': State, id: TaskId)
    requires Disciplined(s) && Enabled(cfg, s, step) && FromHolder(s, step) && s' == Apply(cfg, s, step)
    ensures Spent(s'.db, id) == Spent(s.db, id) + if step == ClaimStep(id) then 1 else 0
  {
    if step.Report? || step.Raise? {
      ReportSpends(cfg, s, step, s', id);
    } else if step.ClaimStep? {
      ClaimSpends(cfg, s.db, s.now, step.id, s.nextClaim, id);
    } else if Adds(step) {
      StepAppends(cfg, s, step);
      AppendSpends(s.db, s'.db, id);
    } else {
      StepKeepsLocks(cfg, s, step);
    }
  }

  lemma ClaimSpends(cfg: Config, d: Db, now: nat, claimed: TaskId, cid: ClaimId, id: TaskId)
    requires claimed in d.tasks
    ensures Spent(ClaimTask(cfg, d, now, claimed, cid), id) == Spent(d, id) + if id == claimed then 1 else 0
  {
  }

  lemma AppendSpends(d: Db, e: Db, id: TaskId)
    requires Appends(d, e)
    ensures Spent(e, id) == Spent(d, id)
  {
  }

  /** In every run, a task has been claimed exactly attempts + defers times. */
  lemma {:induction false} ClaimsAreSpent(cfg: Config, states: seq<State>, steps: seq<Step>, i: nat, id: TaskId)
    requires IsRun(cfg, states, steps) && AllFromHolder(states, steps) && i <= |steps|
    ensures ClaimsOf(steps[..i], id) == Spent(states[i].db, id)
  {
    if i > 0 {
      ClaimsAreSpent(cfg, states, steps, i - 1, id);
      RunIsDisciplined(cfg, states, steps, i - 1);
      StepSpends(cfg, states[i - 1], steps[i - 1], states[i], id);
      assert steps[..i][..i - 1] == steps[..i - 1];
    }
  }

  /** Hence a bound on every task's claims: its attempts, and 40 deferrals for the lists collector. */
  lemma ClaimsAreBounded(cfg: Config, states: seq<State>, steps: seq<Step>, i: nat, id: TaskId)
    requires IsRun(cfg, states, steps) && AllFromHolder(states, steps) && i <= |steps| && id in states[i].db.tasks
    ensures var t := states[i].db.tasks[id];
            ClaimsOf(steps[..i], id) <= Max(1, t.maxAttempts) + if t.kind == LISTS then MAX_DEFERS else 0
  {
    ClaimsAreSpent(cfg, states, steps, i, id);
    RunIsDisciplined(cfg, states, steps, i);
    assert AttemptsOk(states[i].db.tasks[id]);
  }

  // ------------------------------------------------------------------ finalize only after every collector

  ghost predicate CollectingRun(d: Db, r: RunId) { r in d.runs && d.runs[r].collectors != [] }

  /** A run with collectors has a finalize task only once all its collector tasks are terminal. */
  ghost predicate FinalizeLast(d: Db) {
    forall r | CollectingRun(d, r) && HasFinalize(d, r) :: CollectorsClosed(d.tasks, r)
  }

  /** e's terminal rows include d's, and e adds no row to a run of d other than finalize rows of closed runs. */
  ghost predicate ClosesOnly(d: Db, e: Db) {
    && (forall r | r in d.runs :: r in e.runs && e.runs[r].collectors == d.runs[r].collectors)
    && (forall id | id in d.tasks :: id in e.tasks && SameIdentity(d.tasks[id], e.tasks[id]) && (!Open(d.tasks[id]) ==> !Open(e.tasks[id])))
    && (forall id, r | id in e.tasks && id !in d.tasks && r in d.runs && e.tasks[id].run == Some(r) ::
          e.tasks[id].kind == Finalize && CollectorsClosed(e.tasks, r))
    && (forall r | r in e.runs && r !in d.runs && e.runs[r].collectors != [] :: !HasFinalize(e, r))
  }

  lemma FinalizeStaysLast(d: Db, e: Db)
    requires FinalizeLast(d) && ClosesOnly(d, e)
    ensures FinalizeLast(e)
  {
    forall r | CollectingRun(e, r) && HasFinalize(e, r) ensures CollectorsClosed(e.tasks, r) {
      assert r in d.runs;
      var f :| IsFinalize(e, r, f);
      if f in d.tasks {
        assert IsFinalize(d, r, f);
        assert CollectorsClosed(d.tasks, r);
      }
    }
  }

  lemma AppendsCloses(d: Db, e: Db)
    requires WellFormed(d) && Appends(d, e) && e.runs == d.runs
    requires forall id | id in e.tasks && id !in d.tasks ::
               e.tasks[id].run.Some? ==> e.tasks[id].kind == Finalize && CollectorsClosed(e.tasks, e.tasks[id].run.value)
    ensures ClosesOnly(d, e)
  {
  }

  lemma MaybeFinalizeCloses(d: Db, r: RunId, now: nat)
    requires WellFormed(d) && r in d.runs
    ensures ClosesOnly(d, MaybeFinalize(d, r, now))
  {
    MaybeFinalizeKeeps(d, r, now);
    AppendsCloses(d, MaybeFinalize(d, r, now));
  }

  lemma {:induction false} SweepKeepsLast(d: Db, picked: seq<RunId>, now: nat)
    requires WellFormed(d) && FinalizeLast(d) && forall i | 0 <= i < |picked| :: picked[i] in d.runs
    ensures FinalizeLast(Sweep(d, picked, now))
  {
    if picked != [] {
      var n := |picked| - 1;
      SweepKeeps(d, picked[..n], now);
      SweepKeepsLast(d, picked[..n], now);
      var m := Sweep(d, picked[..n], now);
      MaybeFinalizeCloses(m, picked[n], now);
      FinalizeStaysLast(m, MaybeFinalize(m, picked[n], now));
    }
  }

  lemma IngestCloses(cfg: Config, d: Db, domain: DomainId, collectors: seq<Kind>, now: nat)
    requires WellFormed(d) && forall k | k in collectors :: k.Collector?
    ensures ClosesOnly(d, CreateRun(cfg, d, domain, collectors, now))
  {
    CreateRunKeeps(cfg, d, domain, collectors, now);
    var e := CreateRun(cfg, d, domain, collectors, now);
    assert d.nextRun !in d.runs;
    forall r | r in e.runs && r !in d.runs && e.runs[r].collectors != [] ensures !HasFinalize(e, r) {
      forall id ensures !IsFinalize(e, r, id) {
        if id in d.tasks { assert WellKeyed(d, d.tasks[id]); }
      }
    }
  }

  ghost predicate RunsKept(d: Db, e: Db) {
    forall r | r in d.runs ::
      r in e.runs && e.runs[r].collectors == d.runs[r].collectors && e.runs[r].domain == d.runs[r].domain
      && (Active(e.runs[r]) ==> Active(d.runs[r]))
  }

  lemma RewritesCloses(d: Db, e: Db)
    requires Rewrites(d, e) && RunsKept(d, e) && forall id | id in d.tasks && !Open(d.tasks[id]) :: !Open(e.tasks[id])
    ensures ClosesOnly(d, e)
  {
  }

  // ------------------------------------------------------------------ run rows

  lemma ReportKeepsRuns(cfg: Config, d: Db, now: nat, c: Claim, outcome: Outcome)
    ensures RunsKept(d, ReportTask(cfg, d, now, c, outcome))
  {
    match outcome
    case Finished(status) => if c.run.Some? { SetRunKeepsRuns(Complete(d, c.task, status), c.run.value, RunFailed); }
    case Failure(retry) => if c.run.Some? { SetRunKeepsRuns(Fail(cfg, d, now, c, retry), c.run.value, RunFailed); }
    case Deferred(seconds) =>
  }

  lemma SetRunKeepsRuns(d: Db, r: RunId, status: RunStatus)
    requires status == RunRunning ==> r in d.runs && Active(d.runs[r])
    requires status != RunQueued
    ensures RunsKept(d, SetRunStatus(d, r, status))
  {
  }

  /** Ingestion adds a run row; checks and sweeps add tasks alone. */
  lemma AppendKeepsRuns(cfg: Config, s: State, step: Step, s': State)
    requires Consistent(s) && Enabled(cfg, s, step) && s' == Apply(cfg, s, step) && Adds(step)
    ensures forall r | r in s.db.runs :: r in s'.db.runs && s'.db.runs[r] == s.db.runs[r]
    ensures !step.Ingest? ==> s'.db.runs == s.db.runs
  {
    match step
    case Ingest(domain, collectors) => CreateRunKeeps(cfg, s.db, domain, collectors, s.now);
    case Check(c) =>
      if s.pending[c].claim.run.Some? {
        assert WellKeyed(s.db, s.db.tasks[s.pending[c].claim.task]);
        MaybeFinalizeKeeps(s.db, s.pending[c].claim.run.value, s.now);
      }
    case SweepRuns(picked) => SweepKeeps(s.db, picked, s.now);
    case _ =>
  }

  lemma QuietKeepsRuns(cfg: Config, s: State, step: Step, s': State)
    requires Enabled(cfg, s, step) && s' == Apply(cfg, s, step) && !Adds(step) && !step.Report? && !step.Raise?
    ensures RunsKept(s.db, s'.db)
  {
    match step
    case Start(c) =>
      var r := s.pending[c].claim.run;
      if r.Some? && r.value in s.db.runs && s.db.runs[r.value].status == RunQueued { SetRunKeepsRuns(s.db, r.value, RunRunning); }
    case CommitEstimate(c) => if s.pending[c].claim.run.Some? { SetRunKeepsRuns(s.db, s.pending[c].claim.run.value, RunCompleted); }
    case _ =>
  }

  /** Every step keeps a run's domain and collectors, and a closed run is never active again. */
  lemma StepKeepsRuns(cfg: Config, s: State, step: Step, s': State)
    requires Consistent(s) && Enabled(cfg, s, step) && s' == Apply(cfg, s, step)
    ensures RunsKept(s.db, s'.db)
  {
    if step.Report? || step.Raise? {
      ReportEffect(cfg, s, step, s');
      ReportKeepsRuns(cfg, s.db, s.now, s.pending[step.cid].claim, OutcomeOf(step));
    } else if Adds(step) {
      AppendKeepsRuns(cfg, s, step, s');
    } else {
      QuietKeepsRuns(cfg, s, step, s');
    }
  }

  /** Ingestion never starts a second run for a domain whose run is still queued or running. */
  ghost predicate OneActiveRun(d: Db) {
    forall a, b | a in d.runs && b in d.runs && Active(d.runs[a]) && Active(d.runs[b]) && d.runs[a].domain == d.runs[b].domain :: a == b
  }

  lemma OneActiveRunStep(cfg: Config, s: State, step: Step, s': State)
    requires Consistent(s) && OneActiveRun(s.db) && Enabled(cfg, s, step) && s' == Apply(cfg, s, step)
    ensures OneActiveRun(s'.db)
  {
    StepKeepsRuns(cfg, s, step, s');
    if step.Ingest? {
      CreateRunKeeps(cfg, s.db, step.domain, step.collectors, s.now);
      assert forall r | r in s'.db.runs && r !in s.db.runs :: s'.db.runs[r].domain == step.domain && r == s.db.nextRun;
    } else {
      NoNewRuns(cfg, s, step, s');
    }
  }

  lemma NoNewRuns(cfg: Config, s: State, step: Step, s': State)
    requires Consistent(s) && Enabled(cfg, s, step) && s' == Apply(cfg, s, step) && !step.Ingest?
    ensures s'.db.runs.Keys == s.db.runs.Keys
  {
    if Adds(step) { AppendKeepsRuns(cfg, s, step, s'); } else { StepRewrites(cfg, s, step); }
  }

  // ------------------------------------------------------------------ terminal rows stay terminal

  /** With reports only from holders, a terminal task never opens again. */
  lemma TerminalStays(cfg: Config, s: State, step: Step, s': State, id: TaskId)
    requires Disciplined(s) && Enabled(cfg, s, step) && FromHolder(s, step) && s' == Apply(cfg, s, step)
    requires id in s.db.tasks && !Open(s.db.tasks[id])
    ensures id in s'.db.tasks && s'.db.tasks[id] == s.db.tasks[id]
  {
    if step.Report? || step.Raise? {
      ReportEffect(cfg, s, step, s');
      ReportTouches(cfg, s.db, s.now, s.pending[step.cid].claim, OutcomeOf(step));
      assert Holds(s, step.cid, s.pending[step.cid].claim.task);
    } else if Adds(step) {
      StepAppends(cfg, s, step);
    } else if step.Start? {
      StartTouches(s.db, s.pending[step.cid].claim.run, 0);
    }
  }

  /** FinalizeLast holds in every run with reports only from holders. */
  lemma FinalizeLastStep(cfg: Config, s: State, step: Step, s': State)
    requires Disciplined(s) && FinalizeLast(s.db) && Enabled(cfg, s, step) && FromHolder(s, step) && s' == Apply(cfg, s, step)
    ensures FinalizeLast(s'.db)
  {
    if !Adds(step) {
      StepRewrites(cfg, s, step);
      StepKeepsRuns(cfg, s, step, s');
      forall id | id in s.db.tasks && !Open(s.db.tasks[id]) ensures !Open(s'.db.tasks[id]) {
        TerminalStays(cfg, s, step, s', id);
      }
      RewritesCloses(s.db, s'.db);
      FinalizeStaysLast(s.db, s'.db);
    } else {
      FinalizeLastAppend(cfg, s, step, s');
    }
  }

  lemma FinalizeLastAppend(cfg: Config, s: State, step: Step, s': State)
    requires Consistent(s) && FinalizeLast(s.db) && Enabled(cfg, s, step) && Adds(step) && s' == Apply(cfg, s, step)
    ensures FinalizeLast(s'.db)
  {
    match step
    case Ingest(domain, collectors) =>
      IngestCloses(cfg, s.db, domain, collectors, s.now);
      FinalizeStaysLast(s.db, s'.db);
    case ScheduleRefresh(p, w) =>
      StepAppends(cfg, s, step);
      AppendsCloses(s.db, s'.db);
      FinalizeStaysLast(s.db, s'.db);
    case Check(c) =>
      var k := s.pending[c].claim;
      assert WellKeyed(s.db, s.db.tasks[k.task]);
      if k.run.Some? && Terminal(s.db.tasks[k.task]) {
        MaybeFinalizeCloses(s.db, k.run.value, s.now);
        FinalizeStaysLast(s.db, s'.db);
      }
    case SweepRuns(picked) => SweepKeepsLast(s.db, picked, s.now);
    case _ =>
  }

  /** Whole runs: unique active runs per domain always; finalize last under the holder assumption. */
  lemma {:induction false} RunIsOrderly(cfg: Config, states: seq<State>, steps: seq<Step>, i: nat)
    requires IsRun(cfg, states, steps) && i <= |steps|
    ensures OneActiveRun(states[i].db)
    ensures AllFromHolder(states, steps) ==> FinalizeLast(states[i].db)
  {
    if i > 0 {
      RunIsOrderly(cfg, states, steps, i - 1);
      RunKeepsCaps(cfg, states, steps, i - 1);
      OneActiveRunStep(cfg, states[i - 1], steps[i - 1], states[i]);
      if AllFromHolder(states, steps) {
        RunIsDisciplined(cfg, states, steps, i - 1);
        FinalizeLastStep(cfg, states[i - 1], steps[i - 1], states[i]);
      }
    }
  }
}
