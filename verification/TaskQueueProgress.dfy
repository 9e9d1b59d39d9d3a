/** When a run gets its finalize task, when only the sweep creates it, and when nothing ever closes the run. */
module TaskQueueProgress {
  import opened Common
  import opened TaskQueue
  import opened TaskQueueSafety
  import opened TaskQueueRuns

  /** Claim c still has to make the after-collector check for run r. */
  ghost predicate Checks(s: State, r: RunId, c: ClaimId) {
    c in s.pending && s.pending[c].Checking? && s.pending[c].claim.run == Some(r)
  }

  ghost predicate CheckDue(s: State, r: RunId) { exists c :: Checks(s, r, c) }

  /** All collectors are terminal, but there is no finalize task and no check due that would create it. */
  ghost predicate Orphaned(s: State, r: RunId) {
    CollectingRun(s.db, r) && CollectorsClosed(s.db.tasks, r) && !HasFinalize(s.db, r) && !CheckDue(s, r)
  }

  /** Once every collector task of a run is terminal, its finalize task exists or a check that will create it is due. */
  ghost predicate Progress(s: State) { forall r :: !Orphaned(s, r) }

  // ------------------------------------------------------------------ exactly the steps that orphan a run

  /** c is the one check still due for r. */
  ghost predicate OnlyCheck(s: State, r: RunId, c: ClaimId) { Checks(s, r, c) && forall x :: Checks(s, r, x) ==> x == c }

  /** k's task has no attempt left and is the last of r's collector tasks that may be open. */
  ghost predicate EndsLast(s: State, r: RunId, k: Claim) {
    && k.run == Some(r) && k.kind.Collector? && !WillRetry(k, true)
    && forall id | CollectorTask(s.db, r, id) && id != k.task :: !Open(s.db.tasks[id])
  }

  /** Some collector task of r is open, and recovery fails every one that is. */
  ghost predicate LosesRest(s: State, r: RunId) {
    && !CollectorsClosed(s.db.tasks, r)
    && forall id | CollectorTask(s.db, r, id) && Open(s.db.tasks[id]) ::
         Expired(s.db.tasks[id], s.now) && s.db.tasks[id].attempts >= s.db.tasks[id].maxAttempts
  }

  /**
   * The step leaves r orphaned: the worker with its only check dies, an exception ends its last collector task, or
   * recovery gives up all that is left of it.
   */
  ghost predicate Orphans(s: State, step: Step, r: RunId) {
    && CollectingRun(s.db, r) && !HasFinalize(s.db, r)
    && match step
       case Crash(c) => CollectorsClosed(s.db.tasks, r) && OnlyCheck(s, r, c)
       case Raise(c) => !CheckDue(s, r) && c in s.pending && EndsLast(s, r, s.pending[c].claim)
       case Recover => !CheckDue(s, r) && LosesRest(s, r)
       case _ => false
  }

  predicate Losing(step: Step) { step.Crash? || step.Raise? || step.Recover? }

  ghost predicate CollectorTask(d: Db, r: RunId, id: TaskId) {
    id in d.tasks && d.tasks[id].run == Some(r) && d.tasks[id].kind != Finalize
  }

  lemma FinalizeKept(d: Db, e: Db, r: RunId)
    requires HasFinalize(d, r) && (Appends(d, e) || Rewrites(d, e))
    ensures HasFinalize(e, r)
  {
    var f :| IsFinalize(d, r, f);
    assert IsFinalize(e, r, f);
  }

  /** Open collector tasks stay open unless their worker reports. */
  lemma OpenStays(cfg: Config, s: State, step: Step, s': State, id: TaskId)
    requires Consistent(s) && Enabled(cfg, s, step) && !Losing(step) && s' == Apply(cfg, s, step)
    requires !step.Report? && id in s.db.tasks && Open(s.db.tasks[id]) && s.db.tasks[id].kind.Collector?
    ensures id in s'.db.tasks && Open(s'.db.tasks[id])
  {
    if Adds(step) {
      StepAppends(cfg, s, step);
    } else if step.Start? {
      StartTouches(s.db, s.pending[step.cid].claim.run, 0);
    }
  }

  lemma IngestOpens(cfg: Config, d: Db, domain: DomainId, collectors: seq<Kind>, now: nat)
    requires WellFormed(d) && collectors != [] && forall k | k in collectors :: k.Collector?
    ensures !CollectorsClosed(CreateRun(cfg, d, domain, collectors, now).tasks, d.nextRun)
  {
    CreateRunKeeps(cfg, d, domain, collectors, now);
    var (e, r, n) := (CreateRun(cfg, d, domain, collectors, now), d.nextRun, |collectors| - 1);
    var d1 := WithRun(d, domain, collectors, now);
    EnqueueCollectorsKeeps(cfg, d1, r, collectors[..n], now);
    assert collectors[n] in collectors;
    EnqueueKeeps(EnqueueCollectors(cfg, d1, r, collectors[..n], now),
                 NewTask(Some(r), collectors[n], Some(RunTask(r, collectors[n])), 0, cfg.maxAttempts, now));
    NewRunIsOpen(d, e, r, collectors[n]);
  }

  lemma NewRunIsOpen(d: Db, e: Db, r: RunId, kind: Kind)
    requires WellFormed(d) && WellFormed(e) && Appends(d, e) && r !in d.runs && kind.Collector? && KeyTaken(e.tasks, Some(RunTask(r, kind)))
    ensures !CollectorsClosed(e.tasks, r)
  {
    var id :| id in e.tasks && e.tasks[id].dedupe == Some(RunTask(r, kind));
    assert WellKeyed(e, e.tasks[id]);
    forall x | x in d.tasks ensures d.tasks[x].run != Some(r) { assert WellKeyed(d, d.tasks[x]); }
  }

  lemma ProgressIngest(cfg: Config, s: State, domain: DomainId, collectors: seq<Kind>, s': State, r: RunId)
    requires Consistent(s) && Progress(s) && Enabled(cfg, s, Ingest(domain, collectors)) && s' == Apply(cfg, s, Ingest(domain, collectors))
    requires CollectingRun(s'.db, r) && CollectorsClosed(s'.db.tasks, r)
    ensures HasFinalize(s'.db, r) || CheckDue(s', r)
  {
    CreateRunKeeps(cfg, s.db, domain, collectors, s.now);
    if r in s.db.runs {
      assert CollectorsClosed(s.db.tasks, r);
      assert !Orphaned(s, r);
      if HasFinalize(s.db, r) { FinalizeKept(s.db, s'.db, r); } else { CheckStaysDue(s, s', r); }
    } else {
      assert r == s.db.nextRun && collectors != [];
      IngestOpens(cfg, s.db, domain, collectors, s.now);
    }
  }

  ghost predicate ReportStep(cfg: Config, s: State, step: Step, s': State) {
    Disciplined(s) && Enabled(cfg, s, step) && FromHolder(s, step) && step.Report? && s' == Apply(cfg, s, step)
  }

  /** A report on a collector either leaves its task open or leaves a check behind. */
  lemma ReportOwnRun(cfg: Config, s: State, step: Step, s': State, r: RunId)
    requires ReportStep(cfg, s, step, s') && CollectorsClosed(s'.db.tasks, r)
    requires s.pending[step.cid].claim.run == Some(r) && s.pending[step.cid].claim.kind.Collector?
    ensures CheckDue(s', r)
  {
    var c := s.pending[step.cid].claim;
    ReportEffect(cfg, s, step, s');
    ReportTouches(cfg, s.db, s.now, c, OutcomeOf(step));
    assert ClaimMatches(s.db, c) && Holds(s, step.cid, c.task);
    assert CollectorTask(s'.db, r, c.task) && !Open(s'.db.tasks[c.task]);
    assert !step.outcome.Deferred?;
    assert Checks(s', r, step.cid);
  }

  lemma ReportOtherRun(cfg: Config, s: State, step: Step, s': State, r: RunId)
    requires ReportStep(cfg, s, step, s') && Progress(s) && CollectingRun(s.db, r) && CollectorsClosed(s'.db.tasks, r)
    requires s.pending[step.cid].claim.run != Some(r) || !s.pending[step.cid].claim.kind.Collector?
    ensures HasFinalize(s'.db, r) || CheckDue(s', r)
  {
    var c := s.pending[step.cid].claim;
    ReportEffect(cfg, s, step, s');
    ReportTouches(cfg, s.db, s.now, c, OutcomeOf(step));
    ReportLeavesChecks(cfg, s, step, s', r);
    assert ClaimMatches(s.db, c);
    OtherRunStays(s, s', r, c);
  }

  /** A report ends no check. */
  lemma ReportLeavesChecks(cfg: Config, s: State, step: Step, s': State, r: RunId)
    requires Enabled(cfg, s, step) && step.Report? && s' == Apply(cfg, s, step)
    ensures forall x | Checks(s, r, x) :: x in s'.pending && s'.pending[x] == s.pending[x]
  {
  }

  lemma OtherRunStays(s: State, s': State, r: RunId, c: Claim)
    requires Consistent(s) && Progress(s) && Touches(s.db, s'.db, c.task) && ClaimMatches(s.db, c)
    requires CollectingRun(s.db, r) && CollectorsClosed(s'.db.tasks, r) && (c.run != Some(r) || !c.kind.Collector?)
    requires forall x | Checks(s, r, x) :: x in s'.pending && s'.pending[x] == s.pending[x]
    ensures HasFinalize(s'.db, r) || CheckDue(s', r)
  {
    OthersClosed(s, s', r, c);
    if HasFinalize(s.db, r) {
      FinalizeKept(s.db, s'.db, r);
    } else {
      assert !Orphaned(s, r);
      CheckStaysDue(s, s', r);
    }
  }

  lemma CheckStaysDue(s: State, s': State, r: RunId)
    requires CheckDue(s, r)
    requires forall c | Checks(s, r, c) :: c in s'.pending && s'.pending[c] == s.pending[c]
    ensures CheckDue(s', r)
  {
    var c :| Checks(s, r, c);
    assert Checks(s', r, c);
  }

  lemma ProgressReport(cfg: Config, s: State, step: Step, s': State, r: RunId)
    requires ReportStep(cfg, s, step, s') && Progress(s)
    requires CollectingRun(s'.db, r) && CollectorsClosed(s'.db.tasks, r)
    ensures HasFinalize(s'.db, r) || CheckDue(s', r)
  {
    var c := s.pending[step.cid].claim;
    if c.run == Some(r) && c.kind.Collector? {
      ReportOwnRun(cfg, s, step, s', r);
    } else {
      NoNewRuns(cfg, s, step, s');
      StepKeepsRuns(cfg, s, step, s');
      ReportOtherRun(cfg, s, step, s', r);
    }
  }

  lemma OthersClosed(s: State, s': State, r: RunId, c: Claim)
    requires Consistent(s) && Touches(s.db, s'.db, c.task) && CollectorsClosed(s'.db.tasks, r) && ClaimMatches(s.db, c)
    requires c.run != Some(r) || !c.kind.Collector?
    ensures CollectorsClosed(s.db.tasks, r)
  {
    assert WellKeyed(s.db, s.db.tasks[c.task]);
    forall id | CollectorTask(s.db, r, id) ensures !Open(s.db.tasks[id]) {
      assert id != c.task;
      assert CollectorTask(s'.db, r, id);
    }
  }

  lemma ProgressCheck(cfg: Config, s: State, cid: ClaimId, s': State, r: RunId)
    requires Consistent(s) && Progress(s) && Enabled(cfg, s, Check(cid)) && s' == Apply(cfg, s, Check(cid))
    requires CollectingRun(s'.db, r) && CollectorsClosed(s'.db.tasks, r)
    ensures HasFinalize(s'.db, r) || CheckDue(s', r)
  {
    StepAppends(cfg, s, Check(cid));
    AppendKeepsRuns(cfg, s, Check(cid), s');
    ClosedBefore(cfg, s, Check(cid), s', r);
    if s.pending[cid].claim.run == Some(r) {
      OwnCheck(cfg, s, cid, r);
    } else if HasFinalize(s.db, r) {
      FinalizeKept(s.db, s'.db, r);
    } else {
      assert !Orphaned(s, r);
      CheckStaysDue(s, s', r);
    }
  }

  /** The check of a closed run creates its finalize task unless it is there. */
  lemma OwnCheck(cfg: Config, s: State, cid: ClaimId, r: RunId)
    requires Consistent(s) && Enabled(cfg, s, Check(cid)) && s.pending[cid].claim.run == Some(r) && CollectorsClosed(s.db.tasks, r)
    ensures HasFinalize(Apply(cfg, s, Check(cid)).db, r)
  {
    var c := s.pending[cid].claim;
    assert ClaimMatches(s.db, c) && WellKeyed(s.db, s.db.tasks[c.task]);
    MaybeFinalizeKeeps(s.db, r, s.now);
    assert CollectorTask(s.db, r, c.task) && !Open(s.db.tasks[c.task]);
  }

  lemma ClosedBefore(cfg: Config, s: State, step: Step, s': State, r: RunId)
    requires Consistent(s) && Enabled(cfg, s, step) && !Losing(step) && s' == Apply(cfg, s, step)
    requires !step.Report?
    ensures CollectorsClosed(s'.db.tasks, r) ==> CollectorsClosed(s.db.tasks, r)
  {
    if !CollectorsClosed(s.db.tasks, r) {
      var id :| id in s.db.tasks && s.db.tasks[id].run == Some(r) && s.db.tasks[id].kind != Finalize && Open(s.db.tasks[id]);
      assert WellKeyed(s.db, s.db.tasks[id]);
      StepDb(cfg, s, step);
      OpenStays(cfg, s, step, s', id);
    }
  }

  lemma ProgressOther(cfg: Config, s: State, step: Step, s': State, r: RunId)
    requires Consistent(s) && Progress(s) && Enabled(cfg, s, step) && !Losing(step) && s' == Apply(cfg, s, step)
    requires !step.Report? && !step.Check? && !step.Ingest?
    requires CollectingRun(s'.db, r) && CollectorsClosed(s'.db.tasks, r)
    ensures HasFinalize(s'.db, r) || CheckDue(s', r)
  {
    assert CollectingRun(s.db, r) by { NoNewRuns(cfg, s, step, s'); StepKeepsRuns(cfg, s, step, s'); }
    ClosedBefore(cfg, s, step, s', r);
    if HasFinalize(s.db, r) {
      StepDb(cfg, s, step);
      FinalizeKept(s.db, s'.db, r);
    } else {
      assert !Orphaned(s, r);
      CheckStaysDue(s, s', r);
    }
  }

  /** Steps that lose nothing keep the progress of every run. */
  lemma OthersKeepProgress(cfg: Config, s: State, step: Step, s': State, r: RunId)
    requires Disciplined(s) && Progress(s) && Enabled(cfg, s, step) && FromHolder(s, step) && !Losing(step) && s' == Apply(cfg, s, step)
    ensures !Orphaned(s', r)
  {
    if CollectingRun(s'.db, r) && CollectorsClosed(s'.db.tasks, r) {
      if step.Report? {
        ProgressReport(cfg, s, step, s', r);
      } else if step.Check? {
        ProgressCheck(cfg, s, step.cid, s', r);
      } else if step.Ingest? {
        ProgressIngest(cfg, s, step.domain, step.collectors, s', r);
      } else {
        ProgressOther(cfg, s, step, s', r);
      }
    }
  }

  lemma CrashOrphans(cfg: Config, s: State, c: ClaimId, s': State, r: RunId)
    requires Progress(s) && Enabled(cfg, s, Crash(c)) && s' == Apply(cfg, s, Crash(c))
    ensures Orphaned(s', r) <==> Orphans(s, Crash(c), r)
  {
    assert forall x :: Checks(s', r, x) <==> Checks(s, r, x) && x != c;
    assert !Orphaned(s, r);
  }

  /** Recovery neither adds nor removes finalize tasks, and touches no worker's memory. */
  lemma RecoverOrphans(cfg: Config, s: State, s': State, r: RunId)
    requires Progress(s) && s' == Apply(cfg, s, Recover)
    ensures Orphaned(s', r) <==> Orphans(s, Recover, r)
  {
    assert forall x :: Checks(s', r, x) <==> Checks(s, r, x);
    assert forall f :: IsFinalize(s'.db, r, f) <==> IsFinalize(s.db, r, f);
    assert !Orphaned(s, r);
    assert forall id :: CollectorTask(s'.db, r, id) <==> CollectorTask(s.db, r, id);
  }

  /** What an exception leaves of its own task, and that it leaves everything else. */
  lemma RaiseEffect(cfg: Config, s: State, c: ClaimId, s': State)
    requires Disciplined(s) && Enabled(cfg, s, Raise(c)) && FromHolder(s, Raise(c)) && s' == Apply(cfg, s, Raise(c))
    ensures var k := s.pending[c].claim;
            && Touches(s.db, s'.db, k.task) && k.task in s.db.tasks && ClaimMatches(s.db, k)
            && (Open(s'.db.tasks[k.task]) <==> WillRetry(k, true))
    ensures forall r, x :: Checks(s', r, x) <==> Checks(s, r, x)
  {
    var k := s.pending[c].claim;
    ReportTouches(cfg, s.db, s.now, k, Failure(true));
    FailTaskTouches(cfg, s.db, s.now, k, true);
  }

  lemma RaiseOrphans(cfg: Config, s: State, c: ClaimId, s': State, r: RunId)
    requires Disciplined(s) && Progress(s) && Enabled(cfg, s, Raise(c)) && FromHolder(s, Raise(c)) && s' == Apply(cfg, s, Raise(c))
    ensures Orphaned(s', r) <==> Orphans(s, Raise(c), r)
  {
    var k := s.pending[c].claim;
    RaiseEffect(cfg, s, c, s');
    NoNewRuns(cfg, s, Raise(c), s');
    StepKeepsRuns(cfg, s, Raise(c), s');
    assert !Orphaned(s, r);
    assert forall f :: IsFinalize(s'.db, r, f) <==> IsFinalize(s.db, r, f);
    assert CheckDue(s', r) <==> CheckDue(s, r);
    ClosedByRaise(s, s', r, k);
  }

  /** The collectors of a run are closed after its claim's exception if no retry is left and the others were. */
  lemma ClosedByRaise(s: State, s': State, r: RunId, k: Claim)
    requires Consistent(s) && Touches(s.db, s'.db, k.task) && ClaimMatches(s.db, k) && (Open(s'.db.tasks[k.task]) <==> WillRetry(k, true))
    ensures CollectorsClosed(s'.db.tasks, r) <==>
              if k.run == Some(r) && k.kind.Collector? then EndsLast(s, r, k) else CollectorsClosed(s.db.tasks, r)
  {
    assert forall id :: CollectorTask(s'.db, r, id) <==> CollectorTask(s.db, r, id);
    assert CollectorTask(s.db, r, k.task) <==> k.run == Some(r) && k.kind.Collector? by { assert WellKeyed(s.db, s.db.tasks[k.task]); }
  }

  /** A step leaves a run without a finalize task and without a check due exactly when the guard names it. */
  lemma StepOrphans(cfg: Config, s: State, step: Step, s': State, r: RunId)
    requires Disciplined(s) && Progress(s) && Enabled(cfg, s, step) && FromHolder(s, step) && s' == Apply(cfg, s, step)
    ensures Orphaned(s', r) <==> Orphans(s, step, r)
  {
    if step.Crash? {
      CrashOrphans(cfg, s, step.cid, s', r);
    } else if step.Raise? {
      RaiseOrphans(cfg, s, step.cid, s', r);
    } else if step.Recover? {
      RecoverOrphans(cfg, s, s', r);
    } else {
      OthersKeepProgress(cfg, s, step, s', r);
      assert !Orphans(s, step, r);
    }
  }

  /** Hence a step keeps the progress of every run exactly when it orphans none. */
  lemma ProgressStep(cfg: Config, s: State, step: Step, s': State)
    requires Disciplined(s) && Progress(s) && Enabled(cfg, s, step) && FromHolder(s, step) && s' == Apply(cfg, s, step)
    ensures Progress(s') <==> forall r :: !Orphans(s, step, r)
  {
    forall r ensures Orphaned(s', r) <==> Orphans(s, step, r) { StepOrphans(cfg, s, step, s', r); }
  }

  /** No step before the n-th orphans a run. */
  ghost predicate Lossless(states: seq<State>, steps: seq<Step>, n: nat)
    requires |states| == |steps| + 1 && n <= |steps|
  {
    forall i | 0 <= i < n :: forall r :: !Orphans(states[i], steps[i], r)
  }

  ghost predicate AlwaysProgress(states: seq<State>, n: nat)
    requires n < |states|
  {
    forall i | 0 <= i <= n :: Progress(states[i])
  }

  /** Along a run with reports only from holders, every moment up to n has progress exactly when no step orphaned a run. */
  lemma {:induction false} RunMakesProgress(cfg: Config, states: seq<State>, steps: seq<Step>, n: nat)
    requires IsRun(cfg, states, steps) && AllFromHolder(states, steps) && n <= |steps|
    ensures AlwaysProgress(states, n) <==> Lossless(states, steps, n)
  {
    if n > 0 {
      RunMakesProgress(cfg, states, steps, n - 1);
      RunIsDisciplined(cfg, states, steps, n - 1);
      if AlwaysProgress(states, n - 1) { ProgressStep(cfg, states[n - 1], steps[n - 1], states[n]); }
    }
  }

  // ------------------------------------------------------------------ without that: the exception path

  const DNS := Collector("dns")
  const ONE_ATTEMPT := Config(map[], {DNS}, 1, 30, 600)

  const QUEUED := NewTask(Some(0), DNS, Some(RunTask(0, DNS)), 0, 1, 0)
  const ROW := Run(0, RunQueued, [DNS], 0)
  const CLAIMED := QUEUED.(status := Running, attempts := 1, lockedBy := Some(0), leaseUntil := 600)
  const ENDED := CLAIMED.(status := Failed, lockedBy := None, leaseUntil := 0)
  const INGESTED := State(Db(map[0 := QUEUED], map[0 := ROW], 1, 1), map[], 0, 0)
  const EXECUTED := State(Db(map[0 := CLAIMED], map[0 := ROW], 1, 1), map[0 := Executing(Snapshot(0, CLAIMED))], 1, 0)
  const RAISED := State(Db(map[0 := ENDED], map[0 := ROW], 1, 1), map[], 1, 0)

  lemma RaisedSteps()
    ensures Enabled(ONE_ATTEMPT, EMPTY, Ingest(0, [DNS])) && INGESTED == Apply(ONE_ATTEMPT, EMPTY, Ingest(0, [DNS]))
    ensures Enabled(ONE_ATTEMPT, INGESTED, ClaimStep(0)) && EXECUTED == Apply(ONE_ATTEMPT, INGESTED, ClaimStep(0))
    ensures Enabled(ONE_ATTEMPT, EXECUTED, Raise(0)) && RAISED == Apply(ONE_ATTEMPT, EXECUTED, Raise(0))
  {
    var d1 := Db(map[], map[0 := ROW], 0, 1);
    assert [DNS][..0] == [];
    assert EnqueueCollectors(ONE_ATTEMPT, d1, 0, [], 0) == d1;
    assert EnqueueCollectors(ONE_ATTEMPT, d1, 0, [DNS], 0) == Enqueue(d1, QUEUED);
    assert RunningOf(INGESTED.db.tasks, DNS) == {};
  }

  /** The exception path skips the after-collector check: with nobody dead, the run has no finalize task and no check due. */
  lemma RaiseSkipsTheCheck()
    ensures var (states, steps) := ([EMPTY, INGESTED, EXECUTED, RAISED], [Ingest(0, [DNS]), ClaimStep(0), Raise(0)]);
            IsRun(ONE_ATTEMPT, states, steps) && AllFromHolder(states, steps)
    ensures Orphaned(RAISED, 0) && Orphans(EXECUTED, Raise(0), 0)
  {
    RaisedSteps();
  }

  // ------------------------------------------------------------------ the sweep

  lemma {:induction false} SweepCreates(d: Db, picked: seq<RunId>, now: nat, i: nat)
    requires WellFormed(d) && i < |picked|
    requires forall j | 0 <= j < |picked| :: picked[j] in d.runs && CollectorsClosed(d.tasks, picked[j])
    ensures HasFinalize(Sweep(d, picked, now), picked[i])
  {
    var n := |picked| - 1;
    var m := Sweep(d, picked[..n], now);
    SweepKeeps(d, picked[..n], now);
    MaybeFinalizeKeeps(m, picked[n], now);
    if i < n {
      SweepCreates(d, picked[..n], now, i);
      FinalizeKept(m, Sweep(d, picked, now), picked[i]);
    } else {
      assert CollectorsClosed(m.tasks, picked[n]);
    }
  }

  /** Every run the scheduler's sweep picks has a finalize task afterwards. */
  lemma SweptRunsHaveFinalize(cfg: Config, s: State, picked: seq<RunId>, i: nat)
    requires Consistent(s) && Enabled(cfg, s, SweepRuns(picked)) && i < |picked|
    ensures HasFinalize(Apply(cfg, s, SweepRuns(picked)).db, picked[i])
  {
    forall j | 0 <= j < |picked| ensures picked[j] in s.db.runs && CollectorsClosed(s.db.tasks, picked[j]) {
      assert Stale(s.db, s.now, picked[j]);
    }
    SweepCreates(s.db, picked, s.now, i);
  }

  /** A run that is completed or failed has a finalize task: only that task closes a run. */
  ghost predicate ClosedByFinalize(d: Db) { forall r | r in d.runs && !Active(d.runs[r]) :: HasFinalize(d, r) }

  lemma ReportCloses(cfg: Config, d: Db, now: nat, c: Claim, outcome: Outcome, r: RunId)
    requires r in d.runs && r in ReportTask(cfg, d, now, c, outcome).runs
    ensures Active(d.runs[r]) && !Active(ReportTask(cfg, d, now, c, outcome).runs[r]) ==> c.kind == Finalize && c.run == Some(r)
  {
  }

  /** Only a worker on a run's finalize task closes the run, whether or not it still holds the task. */
  lemma StepCloses(cfg: Config, s: State, step: Step, s': State, r: RunId)
    requires Consistent(s) && Enabled(cfg, s, step) && s' == Apply(cfg, s, step) && r in s'.db.runs && !Active(s'.db.runs[r])
    ensures r in s.db.runs
    ensures !Active(s.db.runs[r]) || HasFinalize(s.db, r)
  {
    if step.Report? || step.Raise? {
      ReportEffect(cfg, s, step, s');
      ClosesThroughClaim(cfg, s, s.pending[step.cid].claim, OutcomeOf(step), r);
    } else if step.Ingest? {
      CreateRunKeeps(cfg, s.db, step.domain, step.collectors, s.now);
    } else if Adds(step) {
      AppendKeepsRuns(cfg, s, step, s');
    } else if step.CommitEstimate? {
      var k := s.pending[step.cid].claim;
      assert ClaimMatches(s.db, k) && IsFinalize(s.db, k.run.value, k.task);
    }
  }

  lemma ClosesThroughClaim(cfg: Config, s: State, c: Claim, outcome: Outcome, r: RunId)
    requires Consistent(s) && ClaimMatches(s.db, c) && r in ReportTask(cfg, s.db, s.now, c, outcome).runs
    requires !Active(ReportTask(cfg, s.db, s.now, c, outcome).runs[r])
    ensures r in s.db.runs && (!Active(s.db.runs[r]) || HasFinalize(s.db, r))
  {
    ReportTouches(cfg, s.db, s.now, c, outcome);
    ReportCloses(cfg, s.db, s.now, c, outcome, r);
    if c.kind == Finalize && c.run == Some(r) { assert IsFinalize(s.db, r, c.task); }
  }

  lemma ClosedByFinalizeStep(cfg: Config, s: State, step: Step, s': State)
    requires Consistent(s) && ClosedByFinalize(s.db) && Enabled(cfg, s, step) && s' == Apply(cfg, s, step)
    ensures ClosedByFinalize(s'.db)
  {
    StepDb(cfg, s, step);
    forall r | r in s'.db.runs && !Active(s'.db.runs[r]) ensures HasFinalize(s'.db, r) {
      StepCloses(cfg, s, step, s', r);
      FinalizeKept(s.db, s'.db, r);
    }
  }

  lemma {:induction false} RunIsClosedByFinalize(cfg: Config, states: seq<State>, steps: seq<Step>, i: nat)
    requires IsRun(cfg, states, steps) && i <= |steps|
    ensures ClosedByFinalize(states[i].db)
  {
    if i > 0 {
      RunIsClosedByFinalize(cfg, states, steps, i - 1);
      RunKeepsCaps(cfg, states, steps, i - 1);
      ClosedByFinalizeStep(cfg, states[i - 1], steps[i - 1], states[i]);
    }
  }

  /** A run left without a finalize task is one the sweep may pick, 24 hours after its creation. */
  lemma OrphansBecomeStale(cfg: Config, states: seq<State>, steps: seq<Step>, i: nat, r: RunId)
    requires IsRun(cfg, states, steps) && i <= |steps| && r in states[i].db.runs
    requires CollectorsClosed(states[i].db.tasks, r) && !HasFinalize(states[i].db, r)
    ensures Stale(states[i].db, states[i].now, r) <==> states[i].db.runs[r].createdAt + STALE_RUN_S < states[i].now
  {
    var s := states[i];
    RunIsClosedByFinalize(cfg, states, steps, i);
    forall id | id in s.db.tasks && s.db.tasks[id].run == Some(r) ensures !Open(s.db.tasks[id]) {
      assert !IsFinalize(s.db, r, id);
    }
  }

  // ------------------------------------------------------------------ runs nothing closes any more

  /** Claim c executes r's finalize task and has not committed its estimate. */
  ghost predicate Executes(s: State, r: RunId, c: ClaimId) {
    IsExecuting(s, c) && s.pending[c].claim.kind == Finalize && s.pending[c].claim.run == Some(r)
  }

  ghost predicate FinalizeOver(d: Db, r: RunId) { exists f :: IsFinalize(d, r, f) && !Open(d.tasks[f]) }

  /** An active run whose finalize task is terminal, with nobody executing it. */
  ghost predicate Stuck(s: State, r: RunId) {
    r in s.db.runs && Active(s.db.runs[r]) && FinalizeOver(s.db, r) && forall c :: !Executes(s, r, c)
  }

  /** The task is out of lease and out of attempts: recovery fails it. */
  predicate Lost(t: Task, now: nat) { Expired(t, now) && t.attempts >= t.maxAttempts }

  /**
   * The step leaves r stuck: recovery fails its finalize task after the last worker died, or the worker dies after recovery
   * failed the task.
   */
  ghost predicate Sticks(s: State, step: Step, r: RunId) {
    && r in s.db.runs && Active(s.db.runs[r])
    && match step
       case Recover => (forall c :: !Executes(s, r, c)) && exists f :: IsFinalize(s.db, r, f) && Lost(s.db.tasks[f], s.now)
       case Crash(c) => Executes(s, r, c) && (forall x | Executes(s, r, x) :: x == c) && FinalizeOver(s.db, r)
       case _ => false
  }

  /** Whoever has committed the estimate of a run has closed the run. */
  ghost predicate CommittedClosed(s: State) {
    forall c | c in s.pending && s.pending[c].Committed? ::
      var k := s.pending[c].claim;
      k.kind == Finalize && k.run.Some? && k.run.value in s.db.runs && !Active(s.db.runs[k.run.value])
  }

  /** A claim is committed because it was, or because this step commits it. */
  lemma CommittedBefore(cfg: Config, s: State, step: Step, c: ClaimId)
    requires Enabled(cfg, s, step) && c in Apply(cfg, s, step).pending && Apply(cfg, s, step).pending[c].Committed?
    ensures c in s.pending && s.pending[c].claim == Apply(cfg, s, step).pending[c].claim
    ensures s.pending[c].Committed? || step == CommitEstimate(c)
  {
  }

  lemma CommitCloses(cfg: Config, s: State, c: ClaimId)
    requires Consistent(s) && Enabled(cfg, s, CommitEstimate(c))
    ensures var (k, d) := (s.pending[c].claim, Apply(cfg, s, CommitEstimate(c)).db);
            k.run.Some? && k.run.value in d.runs && d.runs[k.run.value].status == RunCompleted
  {
    assert ClaimMatches(s.db, s.pending[c].claim) && WellKeyed(s.db, s.db.tasks[s.pending[c].claim.task]);
  }

  lemma CommittedStep(cfg: Config, s: State, step: Step, s': State)
    requires Consistent(s) && CommittedClosed(s) && Enabled(cfg, s, step) && s' == Apply(cfg, s, step)
    ensures CommittedClosed(s')
  {
    StepKeepsRuns(cfg, s, step, s');
    forall c | c in s'.pending && s'.pending[c].Committed?
      ensures var k := s'.pending[c].claim;
              k.kind == Finalize && k.run.Some? && k.run.value in s'.db.runs && !Active(s'.db.runs[k.run.value])
    {
      CommittedBefore(cfg, s, step, c);
      if step == CommitEstimate(c) { CommitCloses(cfg, s, c); }
    }
  }

  lemma {:induction false} RunIsCommitted(cfg: Config, states: seq<State>, steps: seq<Step>, i: nat)
    requires IsRun(cfg, states, steps) && i <= |steps|
    ensures CommittedClosed(states[i])
  {
    if i > 0 {
      RunIsCommitted(cfg, states, steps, i - 1);
      RunKeepsCaps(cfg, states, steps, i - 1);
      CommittedStep(cfg, states[i - 1], steps[i - 1], states[i]);
    }
  }

  // ------------------------------------------------------------------ exactly the steps that leave a run stuck

  /** Every worker on a run's finalize task works on the same task. */
  lemma ExecutesIts(s: State, r: RunId, c: ClaimId, f: TaskId)
    requires Consistent(s) && Executes(s, r, c) && IsFinalize(s.db, r, f)
    ensures s.pending[c].claim.task == f
  {
    assert ClaimMatches(s.db, s.pending[c].claim);
    OneTaskPerKind(s.db, r, s.pending[c].claim.task, f);
  }

  /** A report on a run's finalize task comes from a worker that committed, so the run is closed. */
  lemma ReportedClosed(cfg: Config, s: State, c: ClaimId, outcome: Outcome, r: RunId)
    requires Consistent(s) && CommittedClosed(s) && Enabled(cfg, s, Report(c, outcome)) && IsFinalize(s.db, r, s.pending[c].claim.task)
    ensures r in s.db.runs && !Active(s.db.runs[r])
  {
    assert ClaimMatches(s.db, s.pending[c].claim);
  }

  /** An exception on a run's finalize task puts the task back or closes the run. */
  lemma RaisedCloses(cfg: Config, s: State, c: ClaimId, r: RunId)
    requires Consistent(s) && Enabled(cfg, s, Raise(c)) && IsFinalize(s.db, r, s.pending[c].claim.task)
    ensures var e := Apply(cfg, s, Raise(c)).db;
            && s.pending[c].claim.task in e.tasks
            && (Open(e.tasks[s.pending[c].claim.task]) || (r in e.runs && !Active(e.runs[r])))
  {
    var k := s.pending[c].claim;
    assert ClaimMatches(s.db, k) && WellKeyed(s.db, s.db.tasks[k.task]);
  }

  /** The only ways a finalize task of a run that stays active is over afterwards: it was, or recovery failed it. */
  lemma OverBefore(cfg: Config, s: State, step: Step, s': State, r: RunId, f: TaskId)
    requires Consistent(s) && CommittedClosed(s) && Enabled(cfg, s, step) && s' == Apply(cfg, s, step)
    requires IsFinalize(s'.db, r, f) && !Open(s'.db.tasks[f]) && r in s'.db.runs && Active(s'.db.runs[r]) && !step.Recover?
    ensures IsFinalize(s.db, r, f) && !Open(s.db.tasks[f])
  {
    FinalizeBefore(cfg, s, step, s', r, f);
    if step.Report? || step.Raise? {
      OverByReport(cfg, s, step, s', r, f);
    } else if !Adds(step) && Open(s.db.tasks[f]) {
      QuietLeavesOpen(cfg, s, step, f);
    }
  }

  /** A terminal task was there before the step, and an active run was active before it. */
  lemma FinalizeBefore(cfg: Config, s: State, step: Step, s': State, r: RunId, f: TaskId)
    requires Consistent(s) && Enabled(cfg, s, step) && s' == Apply(cfg, s, step)
    requires IsFinalize(s'.db, r, f) && !Open(s'.db.tasks[f]) && r in s'.db.runs && Active(s'.db.runs[r])
    ensures IsFinalize(s.db, r, f) && r in s.db.runs && Active(s.db.runs[r])
    ensures Adds(step) ==> s.db.tasks[f] == s'.db.tasks[f]
  {
    if Adds(step) { StepAppends(cfg, s, step); } else { StepRewrites(cfg, s, step); }
    StepKeepsRuns(cfg, s, step, s');
    assert f in s.db.tasks && IsFinalize(s.db, r, f);
    assert WellKeyed(s.db, s.db.tasks[f]);
  }

  lemma OverByReport(cfg: Config, s: State, step: Step, s': State, r: RunId, f: TaskId)
    requires Consistent(s) && CommittedClosed(s) && Enabled(cfg, s, step) && (step.Report? || step.Raise?) && s' == Apply(cfg, s, step)
    requires IsFinalize(s.db, r, f) && r in s.db.runs && Active(s.db.runs[r])
    requires f in s'.db.tasks && !Open(s'.db.tasks[f]) && r in s'.db.runs && Active(s'.db.runs[r])
    ensures !Open(s.db.tasks[f])
  {
    ReportEffect(cfg, s, step, s');
    ReportTouches(cfg, s.db, s.now, s.pending[step.cid].claim, OutcomeOf(step));
    if s.pending[step.cid].claim.task == f {
      if step.Report? { ReportedClosed(cfg, s, step.cid, step.outcome, r); } else { RaisedCloses(cfg, s, step.cid, r); }
    }
  }

  lemma QuietLeavesOpen(cfg: Config, s: State, step: Step, f: TaskId)
    requires Enabled(cfg, s, step) && !Adds(step) && !step.Report? && !step.Raise? && !step.Recover?
    requires f in s.db.tasks && Open(s.db.tasks[f])
    ensures f in Apply(cfg, s, step).db.tasks && Open(Apply(cfg, s, step).db.tasks[f])
  {
    if step.Start? { StartTouches(s.db, s.pending[step.cid].claim.run, 0); }
  }

  /** A worker on the finalize task of a run that stays active with the task over is there afterwards, unless it dies. */
  lemma StillExecutes(cfg: Config, s: State, step: Step, s': State, r: RunId, c: ClaimId)
    requires Consistent(s) && Enabled(cfg, s, step) && s' == Apply(cfg, s, step) && step != Crash(c)
    requires Executes(s, r, c) && r in s'.db.runs && Active(s'.db.runs[r])
    requires step == Raise(c) ==> !Open(s'.db.tasks[s.pending[c].claim.task])
    ensures Executes(s', r, c)
  {
    assert ClaimMatches(s.db, s.pending[c].claim);
    if step == Raise(c) {
      RaisedCloses(cfg, s, c, r);
    } else if step == CommitEstimate(c) {
      CommitCloses(cfg, s, c);
    }
  }

  /** Nobody executes a run's finalize task that did not before, unless the task was open. */
  lemma ExecutedBefore(cfg: Config, s: State, step: Step, s': State, r: RunId, c: ClaimId)
    requires Consistent(s) && Enabled(cfg, s, step) && s' == Apply(cfg, s, step) && Executes(s', r, c)
    ensures Executes(s, r, c) || (step.ClaimStep? && IsFinalize(s.db, r, step.id) && Open(s.db.tasks[step.id]))
  {
  }

  lemma StuckBefore(cfg: Config, s: State, step: Step, s': State, r: RunId)
    requires Consistent(s) && CommittedClosed(s) && Enabled(cfg, s, step) && s' == Apply(cfg, s, step)
    requires !step.Recover? && !step.Crash? && Stuck(s', r)
    ensures Stuck(s, r)
  {
    var f :| IsFinalize(s'.db, r, f) && !Open(s'.db.tasks[f]);
    FinalizeBefore(cfg, s, step, s', r, f);
    OverBefore(cfg, s, step, s', r, f);
    forall c | Executes(s, r, c) ensures false {
      ExecutesIts(s, r, c, f);
      StillExecutes(cfg, s, step, s', r, c);
    }
  }

  lemma RecoverSticks(cfg: Config, s: State, s': State, r: RunId)
    requires s' == Apply(cfg, s, Recover)
    ensures Stuck(s', r) <==> Stuck(s, r) || Sticks(s, Recover, r)
  {
    assert forall c :: Executes(s', r, c) <==> Executes(s, r, c);
    assert forall f :: IsFinalize(s'.db, r, f) <==> IsFinalize(s.db, r, f);
    assert forall f | IsFinalize(s.db, r, f) :: !Open(s'.db.tasks[f]) <==> !Open(s.db.tasks[f]) || Lost(s.db.tasks[f], s.now);
  }

  lemma CrashSticks(cfg: Config, s: State, c: ClaimId, s': State, r: RunId)
    requires Enabled(cfg, s, Crash(c)) && s' == Apply(cfg, s, Crash(c))
    ensures Stuck(s', r) <==> Stuck(s, r) || Sticks(s, Crash(c), r)
  {
    assert forall x :: Executes(s', r, x) <==> Executes(s, r, x) && x != c;
  }

  /** A step leaves a run stuck exactly when the run was, or the guard names the step. */
  lemma StepSticks(cfg: Config, s: State, step: Step, s': State, r: RunId)
    requires Disciplined(s) && CommittedClosed(s) && Enabled(cfg, s, step) && FromHolder(s, step) && s' == Apply(cfg, s, step)
    ensures Stuck(s', r) <==> Stuck(s, r) || Sticks(s, step, r)
  {
    if step.Recover? {
      RecoverSticks(cfg, s, s', r);
    } else if step.Crash? {
      CrashSticks(cfg, s, step.cid, s', r);
    } else {
      assert !Sticks(s, step, r);
      if Stuck(s', r) { StuckBefore(cfg, s, step, s', r); }
      if Stuck(s, r) { StuckStep(cfg, s, step, s', r); }
    }
  }

  lemma StepInRunSticks(cfg: Config, states: seq<State>, steps: seq<Step>, i: nat, r: RunId)
    requires IsRun(cfg, states, steps) && AllFromHolder(states, steps) && i < |steps|
    ensures Stuck(states[i + 1], r) <==> Stuck(states[i], r) || Sticks(states[i], steps[i], r)
  {
    RunIsDisciplined(cfg, states, steps, i);
    RunIsCommitted(cfg, states, steps, i);
    var (s, step, s') := (states[i], steps[i], states[i + 1]);
    StepSticks(cfg, s, step, s', r);
  }

  /** One of the first n steps sticks r. */
  ghost predicate StuckBySome(states: seq<State>, steps: seq<Step>, n: nat, r: RunId)
    requires n <= |steps| <= |states|
  {
    exists i :: 0 <= i < n && Sticks(states[i], steps[i], r)
  }

  lemma OneMoreStep(states: seq<State>, steps: seq<Step>, n: nat, r: RunId)
    requires n < |steps| <= |states|
    ensures StuckBySome(states, steps, n + 1, r) <==> StuckBySome(states, steps, n, r) || Sticks(states[n], steps[n], r)
  {
  }

  /** Along a run with reports only from holders, a pipeline run is stuck exactly when some step has stuck it. */
  lemma {:induction false} RunSticks(cfg: Config, states: seq<State>, steps: seq<Step>, n: nat, r: RunId)
    requires IsRun(cfg, states, steps) && AllFromHolder(states, steps) && n <= |steps|
    ensures Stuck(states[n], r) <==> StuckBySome(states, steps, n, r)
  {
    if n > 0 {
      RunSticks(cfg, states, steps, n - 1, r);
      StepInRunSticks(cfg, states, steps, n - 1, r);
      OneMoreStep(states, steps, n - 1, r);
    }
  }

  /** So no pipeline run is stuck exactly when no step has stuck one. */
  lemma RunNeverSticks(cfg: Config, states: seq<State>, steps: seq<Step>, n: nat)
    requires IsRun(cfg, states, steps) && AllFromHolder(states, steps) && n <= |steps|
    ensures (forall r :: !Stuck(states[n], r)) <==> forall r :: !StuckBySome(states, steps, n, r)
  {
    forall r ensures Stuck(states[n], r) <==> StuckBySome(states, steps, n, r) { RunSticks(cfg, states, steps, n, r); }
  }

  // ------------------------------------------------------------------ a run of the system that gets there

  /** Some run with reports only from holders ends in s. */
  ghost predicate Reached(cfg: Config, s: State) {
    exists states, steps :: IsRun(cfg, states, steps) && AllFromHolder(states, steps) && states[|steps|] == s
  }

  lemma ReachNext(cfg: Config, s: State, step: Step)
    requires Reached(cfg, s) && Enabled(cfg, s, step) && FromHolder(s, step)
    ensures Reached(cfg, Apply(cfg, s, step))
  {
    var states, steps :| IsRun(cfg, states, steps) && AllFromHolder(states, steps) && states[|steps|] == s;
    OneMore(cfg, states, steps, step);
    assert (states + [Apply(cfg, s, step)])[|steps| + 1] == Apply(cfg, s, step);
  }

  lemma OneMore(cfg: Config, states: seq<State>, steps: seq<Step>, step: Step)
    requires IsRun(cfg, states, steps) && AllFromHolder(states, steps)
    requires Enabled(cfg, states[|steps|], step) && FromHolder(states[|steps|], step)
    ensures var (more, path) := (states + [Apply(cfg, states[|steps|], step)], steps + [step]);
            IsRun(cfg, more, path) && AllFromHolder(more, path)
  {
  }

  lemma {:induction false} ReachLater(cfg: Config, s: State, n: nat)
    requires Reached(cfg, s)
    ensures Reached(cfg, s.(now := s.now + n))
  {
    if n > 0 {
      ReachLater(cfg, s, n - 1);
      ReachNext(cfg, s.(now := s.now + n - 1), Tick);
    } else {
      assert s.(now := s.now + n) == s;
    }
  }

  const FINALIZE := NewTask(Some(0), Finalize, Some(RunTask(0, Finalize)), 0, DEFAULT_MAX_ATTEMPTS, 0)

  /** A run without collectors whose finalize task was claimed n times, each time by a worker that died. */
  function Waiting(n: nat, now: nat): State {
    var task := FINALIZE.(attempts := n, status := if n < DEFAULT_MAX_ATTEMPTS then Queued else Failed);
    State(Db(map[0 := task], map[0 := Run(0, RunQueued, [], 0)], 1, 1), map[], n, now)
  }

  /** The same run once its next worker, claim n, is dead, with the lease still on the task. */
  function Left(n: nat, leaseUntil: nat, now: nat): State {
    var task := FINALIZE.(status := Running, attempts := n + 1, lockedBy := Some(n), leaseUntil := leaseUntil);
    State(Db(map[0 := task], map[0 := Run(0, RunQueued, [], 0)], 1, 1), map[], n + 1, now)
  }

  lemma ClaimsAndDies(cfg: Config, n: nat, now: nat)
    requires Finalize in cfg.kinds && Cap(cfg, Finalize) >= 1 && n < DEFAULT_MAX_ATTEMPTS
    ensures Enabled(cfg, Waiting(n, now), ClaimStep(0))
    ensures var s := Apply(cfg, Waiting(n, now), ClaimStep(0));
            && Enabled(cfg, s, Crash(n)) && Apply(cfg, s, Crash(n)) == Left(n, now + cfg.lease, now)
            && s.pending == map[n := Executing(Claim(0, Some(0), Finalize, n + 1, DEFAULT_MAX_ATTEMPTS, 0))]
  {
    var s := Waiting(n, now);
    assert RunningOf(s.db.tasks, Finalize) == {};
    var claimed := Apply(cfg, s, ClaimStep(0));
    assert claimed.db.tasks == Left(n, now + cfg.lease, now).db.tasks;
    assert claimed.pending.Keys == {n};
  }

  lemma RecoversLeft(cfg: Config, n: nat, leaseUntil: nat, now: nat)
    requires n < DEFAULT_MAX_ATTEMPTS && leaseUntil < now
    ensures Apply(cfg, Left(n, leaseUntil, now), Recover) == Waiting(n + 1, now)
  {
    assert Apply(cfg, Left(n, leaseUntil, now), Recover).db.tasks == Waiting(n + 1, now).db.tasks;
  }

  lemma WorkerDies(cfg: Config, n: nat, now: nat)
    requires Finalize in cfg.kinds && Cap(cfg, Finalize) >= 1 && n < DEFAULT_MAX_ATTEMPTS && Reached(cfg, Waiting(n, now))
    ensures Reached(cfg, Waiting(n + 1, now + cfg.lease + 1))
  {
    ClaimsAndDies(cfg, n, now);
    ReachNext(cfg, Waiting(n, now), ClaimStep(0));
    ReachNext(cfg, Apply(cfg, Waiting(n, now), ClaimStep(0)), Crash(n));
    ReachLater(cfg, Left(n, now + cfg.lease, now), cfg.lease + 1);
    ReachNext(cfg, Left(n, now + cfg.lease, now + cfg.lease + 1), Recover);
    RecoversLeft(cfg, n, now + cfg.lease, now + cfg.lease + 1);
  }

  lemma BeginsWaiting(cfg: Config)
    ensures Reached(cfg, Waiting(0, 0))
  {
    var steps: seq<Step> := [];
    assert IsRun(cfg, [EMPTY], steps) && AllFromHolder([EMPTY], steps) && [EMPTY][|steps|] == EMPTY;
    ReachNext(cfg, EMPTY, Ingest(0, []));
    assert Apply(cfg, EMPTY, Ingest(0, [])) == Waiting(0, 0);
  }

  lemma WaitsForTheThird(cfg: Config)
    requires Finalize in cfg.kinds && Cap(cfg, Finalize) >= 1
    ensures Reached(cfg, Waiting(2, 2 * (cfg.lease + 1)))
  {
    BeginsWaiting(cfg);
    WorkerDies(cfg, 0, 0);
    WorkerDies(cfg, 1, cfg.lease + 1);
  }

  /** Wherever finalize tasks are processed at all, three dead workers leave a run stuck. */
  lemma StuckIsReached(cfg: Config)
    requires Finalize in cfg.kinds && Cap(cfg, Finalize) >= 1
    ensures exists s :: Reached(cfg, s) && Stuck(s, 0)
  {
    WaitsForTheThird(cfg);
    WorkerDies(cfg, 2, 2 * (cfg.lease + 1));
    var s := Waiting(3, 3 * (cfg.lease + 1));
    assert IsFinalize(s.db, 0, 0) && Stuck(s, 0);
  }

  /** The same run with its last worker still there when recovery fails the task. */
  lemma RecoversHeld(cfg: Config, s: State, n: nat, leaseUntil: nat)
    requires n + 1 == DEFAULT_MAX_ATTEMPTS && s == Left(n, leaseUntil, s.now).(pending := s.pending) && leaseUntil < s.now
    requires s.pending == map[n := Executing(Claim(0, Some(0), Finalize, n + 1, DEFAULT_MAX_ATTEMPTS, 0))]
    ensures var e := Apply(cfg, s, Recover);
            && e == Waiting(n + 1, s.now).(pending := s.pending)
            && !Stuck(e, 0) && Enabled(cfg, e, Crash(n)) && Sticks(e, Crash(n), 0)
  {
    var e := Apply(cfg, s, Recover);
    assert e.db.tasks == Waiting(n + 1, s.now).db.tasks;
    assert IsFinalize(e.db, 0, 0) && Executes(e, 0, n);
  }

  lemma HeldIsReached(cfg: Config, t: nat)
    requires Finalize in cfg.kinds && Cap(cfg, Finalize) >= 1 && Reached(cfg, Waiting(2, t))
    ensures Enabled(cfg, Waiting(2, t), ClaimStep(0))
    ensures var held := Apply(cfg, Waiting(2, t), ClaimStep(0));
            && Reached(cfg, held.(now := t + cfg.lease + 1))
            && held == Left(2, t + cfg.lease, t).(pending := held.pending)
            && held.pending == map[2 := Executing(Claim(0, Some(0), Finalize, 3, DEFAULT_MAX_ATTEMPTS, 0))]
  {
    ClaimsAndDies(cfg, 2, t);
    ReachNext(cfg, Waiting(2, t), ClaimStep(0));
    ReachLater(cfg, Apply(cfg, Waiting(2, t), ClaimStep(0)), cfg.lease + 1);
  }

  /** So do two dead workers and a third that dies after recovery has given up its task. */
  lemma DeathAfterRecovery(cfg: Config)
    requires Finalize in cfg.kinds && Cap(cfg, Finalize) >= 1
    ensures exists s :: Reached(cfg, s) && !Stuck(s, 0) && Enabled(cfg, s, Crash(2)) && Sticks(s, Crash(2), 0)
  {
    WaitsForTheThird(cfg);
    var t := 2 * (cfg.lease + 1);
    HeldIsReached(cfg, t);
    var late := Apply(cfg, Waiting(2, t), ClaimStep(0)).(now := t + cfg.lease + 1);
    ReachNext(cfg, late, Recover);
    RecoversHeld(cfg, late, 2, t + cfg.lease);
  }

  lemma ReportLeavesRun(cfg: Config, d: Db, now: nat, c: Claim, outcome: Outcome, r: RunId)
    requires r in d.runs && !(c.kind == Finalize && c.run == Some(r))
    ensures r in ReportTask(cfg, d, now, c, outcome).runs && ReportTask(cfg, d, now, c, outcome).runs[r] == d.runs[r]
  {
  }

  lemma ActiveThroughReport(cfg: Config, s: State, step: Step, s': State, r: RunId)
    requires Consistent(s) && Stuck(s, r) && Enabled(cfg, s, step) && FromHolder(s, step) && (step.Report? || step.Raise?)
    requires s' == Apply(cfg, s, step)
    ensures r in s'.db.runs && Active(s'.db.runs[r])
  {
    var k := s.pending[step.cid].claim;
    var f :| IsFinalize(s.db, r, f) && !Open(s.db.tasks[f]);
    assert ClaimMatches(s.db, k);
    if k.kind == Finalize && k.run == Some(r) { OneTaskPerKind(s.db, r, k.task, f); }
    ReportEffect(cfg, s, step, s');
    ReportLeavesRun(cfg, s.db, s.now, k, OutcomeOf(step), r);
  }

  lemma ActiveStays(cfg: Config, s: State, step: Step, s': State, r: RunId)
    requires Consistent(s) && Stuck(s, r) && Enabled(cfg, s, step) && FromHolder(s, step) && s' == Apply(cfg, s, step)
    ensures r in s'.db.runs && Active(s'.db.runs[r])
  {
    if step.Report? || step.Raise? {
      ActiveThroughReport(cfg, s, step, s', r);
    } else if Adds(step) {
      AppendKeepsRuns(cfg, s, step, s');
    } else if step.CommitEstimate? {
      assert !Executes(s, r, step.cid);
    }
  }

  /** A stuck run stays stuck: no worker, recovery or sweep ever closes it. */
  lemma StuckStep(cfg: Config, s: State, step: Step, s': State, r: RunId)
    requires Disciplined(s) && Stuck(s, r) && Enabled(cfg, s, step) && FromHolder(s, step) && s' == Apply(cfg, s, step)
    ensures Stuck(s', r)
  {
    var f :| IsFinalize(s.db, r, f) && !Open(s.db.tasks[f]);
    ActiveStays(cfg, s, step, s', r);
    TerminalStays(cfg, s, step, s', f);
    assert IsFinalize(s'.db, r, f);
    forall c | Executes(s', r, c) ensures false {
      ExecutedBefore(cfg, s, step, s', r, c);
      OneTaskPerKind(s.db, r, step.id, f);
    }
  }

  lemma StuckNext(cfg: Config, states: seq<State>, steps: seq<Step>, i: nat, r: RunId)
    requires IsRun(cfg, states, steps) && AllFromHolder(states, steps) && i < |steps| && Stuck(states[i], r)
    ensures Stuck(states[i + 1], r)
  {
    var (s, step, s') := (states[i], steps[i], states[i + 1]);
    RunIsDisciplined(cfg, states, steps, i);
    StuckStep(cfg, s, step, s', r);
  }

  lemma {:induction false} StuckForever(cfg: Config, states: seq<State>, steps: seq<Step>, i: nat, j: nat, r: RunId)
    requires IsRun(cfg, states, steps) && AllFromHolder(states, steps) && i <= j <= |steps| && Stuck(states[i], r)
    ensures Stuck(states[j], r)
    decreases j - i
  {
    if i < j {
      StuckNext(cfg, states, steps, i, r);
      StuckForever(cfg, states, steps, i + 1, j, r);
    }
  }
}
