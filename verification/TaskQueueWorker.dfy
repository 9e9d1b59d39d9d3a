/** The workers and the scheduler over the mutable tables: every step of the transition system, and a worker's routine. */
module TaskQueueWorker {
  import opened Common
  import opened TaskQueue
  import opened TaskQueueSafety
  import opened TaskQueueDb

  /** The steps lead from s to t, each one the system can take. */
  ghost predicate Leads(cfg: Config, s: State, steps: seq<Step>, t: State)
    decreases |steps|
  {
    if steps == [] then s == t
    else Enabled(cfg, s, steps[0]) && Leads(cfg, Apply(cfg, s, steps[0]), steps[1..], t)
  }

  lemma {:induction false} LeadsOn(cfg: Config, s: State, a: seq<Step>, m: State, b: seq<Step>, t: State)
    requires Leads(cfg, s, a, m) && Leads(cfg, m, b, t)
    ensures Leads(cfg, s, a + b, t)
    decreases |a|
  {
    if a == [] {
      assert a + b == b;
    } else {
      LeadsOn(cfg, Apply(cfg, s, a[0]), a[1..], m, b, t);
      assert (a + b)[0] == a[0] && (a + b)[1..] == a[1..] + b;
    }
  }

  lemma LeadsOne(cfg: Config, s: State, step: Step)
    requires Enabled(cfg, s, step)
    ensures Leads(cfg, s, [step], Apply(cfg, s, step))
  {
    assert Leads(cfg, Apply(cfg, s, step), [], Apply(cfg, s, step));
  }

  /** The step is work on claim c. */
  predicate WorksOn(step: Step, c: ClaimId) {
    match step
    case Start(x) => x == c
    case Report(x, _) => x == c
    case Raise(x) => x == c
    case Check(x) => x == c
    case CommitEstimate(x) => x == c
    case Crash(x) => x == c
    case _ => false
  }

  /** Work on other claims leaves this claim's worker where it is. */
  lemma OthersLeaveIt(cfg: Config, s: State, step: Step, c: ClaimId)
    requires Consistent(s) && Enabled(cfg, s, step) && !WorksOn(step, c) && c in s.pending
    ensures c in Apply(cfg, s, step).pending && Apply(cfg, s, step).pending[c] == s.pending[c]
  {
    assert c < s.nextClaim;
  }

  /** Two stretches of a routine, each quiet after its first step and the second before its last, one after the other. */
  lemma QuietBetween(first: seq<Step>, rest: seq<Step>, c: ClaimId)
    requires first != [] && |rest| >= 2
    requires forall k | 0 < k < |first| :: !WorksOn(first[k], c)
    requires forall k | 0 < k < |rest| - 1 :: !WorksOn(rest[k], c)
    ensures var steps := first + rest;
            && steps[0] == first[0] && steps[|first|] == rest[0] && steps[|steps| - 1] == rest[|rest| - 1]
            && forall k | 0 < k < |steps| - 1 && k != |first| :: !WorksOn(steps[k], c)
  {
  }

  class System {
    const db: Database
    var pending: map<ClaimId, Work>
    var nextClaim: ClaimId
    var now: nat

    function Value(): State
      reads this, db
    {
      State(db.Value(), pending, nextClaim, now)
    }

    constructor ()
      ensures fresh(db) && Value() == EMPTY
    {
      db := new Database();
      pending, nextClaim, now := map[], 0, 0;
    }

    /** The claim query, with every row but this one locked by others. */
    method ClaimTaskRow(cfg: Config, id: TaskId)
      requires Enabled(cfg, Value(), ClaimStep(id))
      modifies this, db
      ensures Value() == Apply(cfg, old(Value()), ClaimStep(id))
    {
      var locked := db.tasks.Keys - {id};
      DueIsClaimable(cfg, db.Value(), now, id);
      assert (set x | x in db.tasks && Due(cfg, db.tasks, now, x) && x !in locked) == {id};
      var claim := db.ClaimNext(cfg, now, nextClaim, locked);
      pending, nextClaim := pending[nextClaim := Executing(claim.value)], nextClaim + 1;
    }

    /** A worker's report, whatever it found. */
    method ReportOutcome(cfg: Config, cid: ClaimId, outcome: Outcome)
      requires Enabled(cfg, Value(), Report(cid, outcome))
      modifies this, db
      ensures Value() == Apply(cfg, old(Value()), Report(cid, outcome))
    {
      var c := pending[cid].claim;
      match outcome {
        case Finished(status) => db.FinishClaim(cfg, now, c, status);
        case Failure(retry) => db.FailClaim(cfg, now, c, retry);
        case Deferred(seconds) => db.DeferClaim(cfg, now, c.task, seconds);
      }
      pending := if c.kind.Collector? && !outcome.Deferred? then pending[cid := Checking(c)] else pending - {cid};
    }

    /** Every step of the transition system is what these statements do to the tables. */
    method Perform(cfg: Config, step: Step)
      requires Enabled(cfg, Value(), step)
      modifies this, db
      ensures Value() == Apply(cfg, old(Value()), step)
    {
      match step {
        case Ingest(domain, collectors) => var _ := db.StartNewRun(cfg, domain, collectors, now);
        case ScheduleRefresh(provider, window) =>
          var _ := db.Insert(NewTask(None, ListRefresh, Some(Refresh(provider, window)), REFRESH_PRIORITY, DEFAULT_MAX_ATTEMPTS, now));
        case ClaimStep(id) => ClaimTaskRow(cfg, id);
        case Start(cid) => db.MarkStarted(pending[cid].claim.run);
        case Report(cid, outcome) => ReportOutcome(cfg, cid, outcome);
        case Raise(cid) =>
          db.FailClaim(cfg, now, pending[cid].claim, true);
          pending := pending - {cid};
        case Check(cid) =>
          db.CheckAfter(pending[cid].claim, now);
          pending := pending - {cid};
        case CommitEstimate(cid) =>
          if pending[cid].claim.run.Some? { db.SetStatus(pending[cid].claim.run.value, RunCompleted); }
          pending := pending[cid := Committed(pending[cid].claim)];
        case Heartbeat(cid) => db.Extend(cfg, now, pending[cid].claim.task);
        case Crash(cid) => pending := pending - {cid};
        case Recover => db.Recover(now);
        case SweepRuns(picked) => db.SweepStale(picked, now);
        case Tick => now := now + 1;
      }
    }

    /** Any steps of the scheduler, the clock and the other workers, while a worker is busy with claim c. */
    method Others(cfg: Config, c: ClaimId) returns (ghost steps: seq<Step>)
      requires Consistent(Value()) && c in pending
      modifies this, db
      ensures Consistent(Value()) && c in pending && pending[c] == old(pending)[c]
      ensures Leads(cfg, old(Value()), steps, Value()) && forall step | step in steps :: !WorksOn(step, c)
    {
      steps := [];
      var n: int := *;
      for i := 0 to Max(0, n)
        invariant Consistent(Value()) && c in pending && pending[c] == old(pending)[c]
        invariant Leads(cfg, old(Value()), steps, Value()) && forall step | step in steps :: !WorksOn(step, c)
      {
        var step: Step := *;
        if Enabled(cfg, Value(), step) && !WorksOn(step, c) {
          ghost var s := Value();
          ConsistentStep(cfg, s, step);
          OthersLeaveIt(cfg, s, step, c);
          Perform(cfg, step);
          LeadsOne(cfg, s, step);
          LeadsOn(cfg, old(Value()), steps, s, [step], Value());
          steps := steps + [step];
        }
      }
    }

    /** One own step of the routine, and what others do after it. */
    method Advance(cfg: Config, c: ClaimId, step: Step) returns (ghost steps: seq<Step>)
      requires Consistent(Value()) && Enabled(cfg, Value(), step) && c in Apply(cfg, Value(), step).pending
      modifies this, db
      ensures Consistent(Value()) && c in pending && pending[c] == Apply(cfg, old(Value()), step).pending[c]
      ensures Leads(cfg, old(Value()), steps, Value()) && steps != [] && steps[0] == step
      ensures forall i | 0 < i < |steps| :: !WorksOn(steps[i], c)
    {
      ghost var s := Value();
      ConsistentStep(cfg, s, step);
      Perform(cfg, step);
      ghost var m := Value();
      var rest := Others(cfg, c);
      LeadsOne(cfg, s, step);
      LeadsOn(cfg, s, [step], m, rest, Value());
      steps := [step] + rest;
    }

    /** The last own step of a routine. */
    method Conclude(cfg: Config, step: Step, ghost s: State, ghost steps: seq<Step>)
      requires Consistent(Value()) && Enabled(cfg, Value(), step) && Leads(cfg, s, steps, Value())
      modifies this, db
      ensures Consistent(Value()) && Value() == Apply(cfg, old(Value()), step) && Leads(cfg, s, steps + [step], Value())
    {
      ghost var m := Value();
      ConsistentStep(cfg, m, step);
      Perform(cfg, step);
      LeadsOne(cfg, m, step);
      LeadsOn(cfg, s, steps, m, [step], Value());
    }

    /** A collector's report and the check after it. */
    method ReportAndCheck(cfg: Config, cid: ClaimId, outcome: Outcome) returns (ghost steps: seq<Step>)
      requires Consistent(Value()) && IsExecuting(Value(), cid) && pending[cid].claim.kind.Collector? && !outcome.Deferred?
      requires Enabled(cfg, Value(), Report(cid, outcome))
      modifies this, db
      ensures Consistent(Value()) && cid !in pending && Leads(cfg, old(Value()), steps, Value())
      ensures |steps| >= 2 && steps[0] == Report(cid, outcome) && steps[|steps| - 1] == Check(cid)
      ensures forall j | 0 < j < |steps| - 1 :: !WorksOn(steps[j], cid)
    {
      ghost var s := Value();
      var first := Advance(cfg, cid, Report(cid, outcome));
      Conclude(cfg, Check(cid), s, first);
      steps := first + [Check(cid)];
    }

    /** A collector that ends with its report and the check. */
    method RunToCheck(cfg: Config, cid: ClaimId, outcome: Outcome) returns (ghost steps: seq<Step>, ghost i: nat)
      requires Consistent(Value()) && IsExecuting(Value(), cid) && pending[cid].claim.kind.Collector? && !outcome.Deferred?
      requires Enabled(cfg, Value(), Report(cid, outcome))
      modifies this, db
      ensures Consistent(Value()) && cid !in pending && Leads(cfg, old(Value()), steps, Value())
      ensures 0 < i < |steps| && steps[0] == Start(cid) && steps[i] == Report(cid, outcome) && steps[|steps| - 1] == Check(cid)
      ensures forall j | 0 < j < |steps| - 1 && j != i :: !WorksOn(steps[j], cid)
    {
      ghost var s := Value();
      var first := Advance(cfg, cid, Start(cid));
      ghost var m := Value();
      var rest := ReportAndCheck(cfg, cid, outcome);
      LeadsOn(cfg, s, first, m, rest, Value());
      QuietBetween(first, rest, cid);
      steps, i := first + rest, |first|;
    }

    /** A collector that ends with its deferral. */
    method RunToDeferral(cfg: Config, cid: ClaimId, outcome: Outcome) returns (ghost steps: seq<Step>, ghost i: nat)
      requires Consistent(Value()) && IsExecuting(Value(), cid) && pending[cid].claim.kind.Collector? && outcome.Deferred?
      requires Enabled(cfg, Value(), Report(cid, outcome))
      modifies this, db
      ensures Consistent(Value()) && cid !in pending && Leads(cfg, old(Value()), steps, Value())
      ensures 0 < i == |steps| - 1 && steps[0] == Start(cid) && steps[i] == Report(cid, outcome)
      ensures forall j | 0 < j < i :: !WorksOn(steps[j], cid)
    {
      ghost var s := Value();
      var first := Advance(cfg, cid, Start(cid));
      Conclude(cfg, Report(cid, outcome), s, first);
      steps, i := first + [Report(cid, outcome)], |first|;
    }

    /**
     * The collector routine of a worker: mark the run started, report the outcome, check whether the run can be finalized.
     * A deferral ends without the check. Its own steps come in this order, with any others in between.
     */
    method RunCollector(cfg: Config, cid: ClaimId, outcome: Outcome) returns (ghost steps: seq<Step>, ghost i: nat)
      requires Consistent(Value()) && IsExecuting(Value(), cid) && pending[cid].claim.kind.Collector?
      requires Enabled(cfg, Value(), Report(cid, outcome))
      modifies this, db
      ensures Consistent(Value()) && cid !in pending && Leads(cfg, old(Value()), steps, Value())
      ensures 0 < i < |steps| && steps[0] == Start(cid) && steps[i] == Report(cid, outcome)
      ensures steps[|steps| - 1] == if outcome.Deferred? then Report(cid, outcome) else Check(cid)
      ensures forall j | 0 < j < |steps| - 1 && j != i :: !WorksOn(steps[j], cid)
    {
      if outcome.Deferred? {
        steps, i := RunToDeferral(cfg, cid, outcome);
      } else {
        steps, i := RunToCheck(cfg, cid, outcome);
      }
    }

    /** The finalize routine: commit the estimate and the run's completion in one transaction, then report. */
    method RunFinalize(cfg: Config, cid: ClaimId) returns (ghost steps: seq<Step>)
      requires Consistent(Value()) && IsExecuting(Value(), cid) && pending[cid].claim.kind == Finalize
      modifies this, db
      ensures Consistent(Value()) && cid !in pending && Leads(cfg, old(Value()), steps, Value())
      ensures |steps| >= 2 && steps[0] == CommitEstimate(cid) && steps[|steps| - 1] == Report(cid, Finished(Succeeded))
      ensures forall j | 0 < j < |steps| - 1 :: !WorksOn(steps[j], cid)
    {
      ghost var s := Value();
      var first := Advance(cfg, cid, CommitEstimate(cid));
      Conclude(cfg, Report(cid, Finished(Succeeded)), s, first);
      steps := first + [Report(cid, Finished(Succeeded))];
    }
  }
}
