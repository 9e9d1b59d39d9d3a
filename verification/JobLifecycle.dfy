/**
 * One scrape or crawl job raced by dispatchers, user cancels and reconcilers. Each database statement
 * is one atomic step; what an actor remembers between two statements is its program counter.
 */
module JobLifecycle {
  import opened Common
  import opened CrawlIngest

  datatype JobKind = Scrape | Crawl

  datatype JobStatus = Queued | Running | Completed | Failed | Cancelled

  datatype Job = Job(kind: JobKind, status: JobStatus, engineJob: Option<nat>,
                     discovered: nat, processed: nat, succeeded: nat, failed: nat, cursor: nat)

  datatype Counts = Counts(discovered: nat, processed: nat, succeeded: nat, failed: nat, cursor: nat)

  datatype Pc =
    // dispatch
    | Claimed                                   // claimed the row, engine not yet asked
    | Scraping                                  // waiting for engine.scrape
    | Scraped(page: Page)                       // the status check is next
    | Storing(page: Page)                       // saw the job running; persistPage is next
    | Stored(page: Page)                        // updateProgress is next
    | Starting                                  // waiting for engine.crawl
    | Started(engineJob: nat)                   // setEngineJobId is next
    // reconciler
    | Leased(seen: Job)
    | Pulling(seen: Job)                        // pullPages from the cursor
    | Pulled(seen: Job, discovered: nat, processed: nat, cursor: nat, next: Option<JobStatus>)
    | Writing(seen: Job, counts: Counts, next: Option<JobStatus>)
    | Draining(seen: Job, discovered: nat, outcome: JobStatus)
    | Drained(seen: Job, discovered: nat, outcome: JobStatus)
    | Closing(counts: Counts, outcome: JobStatus)
    // anyone
    | Finishing(status: JobStatus, guarded: bool)   // guarded: an exception here is still caught by dispatch

  /** handoffs and finishes count the engine calls made and the terminal transitions that succeeded. */
  datatype State = State(job: Job, rows: Rows, actors: map<nat, Pc>, handoffs: nat, finishes: nat)

  datatype Step =
    | Dispatch(a: nat)
    | HandOff(a: nat)
    | Answer(a: nat, page: Page)
    | CheckRunning(a: nat)
    | Persist(a: nat)
    | Report(a: nat)
    | CrawlAccepted(a: nat, engineJob: nat)
    | SetEngineJob(a: nat)
    | Throw(a: nat)                             // an exception in dispatch, its terminal update included: fail(job)
    | Cancel(a: nat)                            // the route read a non-terminal job
    | Lease(a: nat)
    | Expire(a: nat)                            // interrupted scrape, crawl never started, engine lost for too long
    | BeginPull(a: nat)
    | Ingest(a: nat, page: Page)
    | EndPull(a: nat, discovered: nat, processed: nat, cursor: nat, next: Option<JobStatus>)
    | Count(a: nat)
    | Write(a: nat)
    | BeginDrain(a: nat)                        // over the time budget
    | EndDrain(a: nat, discovered: nat)
    | CountDrained(a: nat)
    | WriteDrained(a: nat)
    | Finish(a: nat)
    | Gone(a: nat)                              // a crash, a released lease, an error that only logs

  predicate Terminal(s: JobStatus) { s in {Completed, Failed, Cancelled} }

  function Successes(rows: Rows): nat { |set u | u in rows && rows[u]| }

  function Failures(rows: Rows): nat { |set u | u in rows && !rows[u]| }

  /** jobs.updateProgress: only while running, discovered and processed only upwards. */
  function UpdateProgress(job: Job, c: Counts): Job {
    if job.status == Running then
      job.(discovered := Max(job.discovered, c.discovered), processed := Max(job.processed, c.processed),
           succeeded := c.succeeded, failed := c.failed, cursor := c.cursor)
    else job
  }

  predicate Enabled(s: State, step: Step) {
    match step
    case Dispatch(a) => a !in s.actors && s.job.status == Queued
    case Cancel(a) => a !in s.actors && !Terminal(s.job.status)
    case Lease(a) => a !in s.actors && !Terminal(s.job.status)
    case HandOff(a) => a in s.actors && s.actors[a].Claimed?
    case Answer(a, _) => a in s.actors && s.actors[a].Scraping?
    case CheckRunning(a) => a in s.actors && s.actors[a].Scraped?
    case Persist(a) => a in s.actors && s.actors[a].Storing?
    case Report(a) => a in s.actors && s.actors[a].Stored?
    case CrawlAccepted(a, _) => a in s.actors && s.actors[a].Starting?
    case SetEngineJob(a) => a in s.actors && s.actors[a].Started?
    case Throw(a) => a in s.actors && (InDispatch(s.actors[a]) || (s.actors[a].Finishing? && s.actors[a].guarded))
    case Expire(a) => a in s.actors && ((s.actors[a].Leased? || s.actors[a].Pulling?) && s.actors[a].seen.status == Running)
    case BeginPull(a) => a in s.actors && s.actors[a].Leased? && s.actors[a].seen.status == Running && s.actors[a].seen.kind == Crawl && s.actors[a].seen.engineJob.Some?
    case Ingest(a, _) => a in s.actors && (s.actors[a].Pulling? || s.actors[a].Draining?)
    case EndPull(a, _, _, _, next) => a in s.actors && s.actors[a].Pulling? && (next.Some? ==> Terminal(next.value))
    case Count(a) => a in s.actors && s.actors[a].Pulled?
    case Write(a) => a in s.actors && s.actors[a].Writing?
    case BeginDrain(a) => a in s.actors && s.actors[a].Leased? && s.actors[a].seen.status == Running && s.actors[a].seen.kind == Crawl && s.actors[a].seen.engineJob.Some?
    case EndDrain(a, _) => a in s.actors && s.actors[a].Draining?
    case CountDrained(a) => a in s.actors && s.actors[a].Drained?
    case WriteDrained(a) => a in s.actors && s.actors[a].Closing?
    case Finish(a) => a in s.actors && s.actors[a].Finishing?
    case Gone(a) => a in s.actors
  }

  function ActorOf(step: Step): nat { step.a }

  function Goto(s: State, a: nat, pc: Pc): State { s.(actors := s.actors[a := pc]) }

  function Leave(s: State, a: nat): State { s.(actors := s.actors - {a}) }

  function Apply(s: State, step: Step): State
    requires Enabled(s, step)
  {
    match step
    case Dispatch(a) => Goto(s, a, Claimed).(job := s.job.(status := Running))
    case HandOff(a) => Goto(s, a, if s.job.kind == Scrape then Scraping else Starting).(handoffs := s.handoffs + 1)
    case Answer(a, page) => Goto(s, a, Scraped(page))
    case CheckRunning(a) => if s.job.status == Running then Goto(s, a, Storing(s.actors[a].page)) else Leave(s, a)
    case Persist(a) => Goto(s, a, Stored(s.actors[a].page)).(rows := Insert(s.rows, s.actors[a].page))
    case Report(a) =>
      var ok := s.actors[a].page.success;
      Goto(s, a, Finishing(if ok then Completed else Failed, true)).(
        job := UpdateProgress(s.job, Counts(1, 1, if ok then 1 else 0, if ok then 0 else 1, 1)))
    case CrawlAccepted(a, e) => Goto(s, a, Started(e))
    case SetEngineJob(a) => Leave(s, a).(job := s.job.(engineJob := Some(s.actors[a].engineJob)))
    case Throw(a) => Goto(s, a, Finishing(Failed, false))
    case Cancel(a) => Goto(s, a, Finishing(Cancelled, false))
    case Lease(a) => Goto(s, a, Leased(s.job))
    case Expire(a) => Goto(s, a, Finishing(Failed, false))
    case BeginPull(a) => Goto(s, a, Pulling(s.actors[a].seen))
    case Ingest(a, page) => s.(rows := Insert(s.rows, page))
    case EndPull(a, d, p, c, next) => Goto(s, a, Pulled(s.actors[a].seen, d, p, c, next))
    case Count(a) =>
      var pc := s.actors[a];
      var (ok, bad) := (Successes(s.rows), Failures(s.rows));
      Goto(s, a, Writing(pc.seen, Counts(Max(pc.discovered, ok + bad), Max(pc.processed, ok + bad), ok, bad, pc.cursor), pc.next))
    case Write(a) =>
      var pc := s.actors[a];
      var s' := s.(job := UpdateProgress(s.job, pc.counts));
      if pc.next.None? then Leave(s', a) else Goto(s', a, Draining(pc.seen, pc.seen.discovered, pc.next.value))
    case BeginDrain(a) => Goto(s, a, Draining(s.actors[a].seen, s.actors[a].seen.discovered, Failed))
    case EndDrain(a, d) => Goto(s, a, Drained(s.actors[a].seen, Max(s.actors[a].discovered, d), s.actors[a].outcome))
    case CountDrained(a) =>
      var pc := s.actors[a];
      var (ok, bad) := (Successes(s.rows), Failures(s.rows));
      // A crawl without a successful page is a failure for the user.
      var outcome := if pc.outcome == Completed && ok == 0 then Failed else pc.outcome;
      Goto(s, a, Closing(Counts(Max(pc.discovered, ok + bad), ok + bad, ok, bad, pc.seen.cursor), outcome))
    case WriteDrained(a) => Goto(s, a, Finishing(s.actors[a].outcome, false)).(job := UpdateProgress(s.job, s.actors[a].counts))
    case Finish(a) =>
      var s' := Leave(s, a);
      if Terminal(s.job.status) then s'
      else s'.(job := s.job.(status := s.actors[a].status), finishes := s.finishes + 1)
    case Gone(a) => Leave(s, a)
  }

  // ------------------------------------------------------------------ invariant

  predicate InDispatch(p: Pc) { p.Claimed? || p.Scraping? || p.Scraped? || p.Storing? || p.Stored? || p.Starting? || p.Started? }

  predicate BeforeStore(p: Pc) { p.Claimed? || p.Scraping? || p.Scraped? || p.Storing? }

  ghost predicate HasSuccess(rows: Rows) { exists u :: u in rows && rows[u] }

  ghost predicate CountsOk(c: Counts) { c.discovered >= c.succeeded + c.failed && c.processed >= c.succeeded + c.failed }

  /** What an actor's memory guarantees. */
  ghost predicate PcOk(s: State, p: Pc) {
    && (p.Claimed? ==> s.handoffs == 0)
    && (InDispatch(p) ==> s.job.status != Queued)
    && (p.Scraping? || p.Scraped? || p.Storing? || p.Stored? ==> s.job.kind == Scrape)
    && (p.Starting? || p.Started? ==> s.job.kind == Crawl)
    && (BeforeStore(p) && s.job.kind == Scrape ==> s.rows == map[])
    && (p.Stored? && p.page.success ==> HasSuccess(s.rows))
    && (p.Leased? ==> p.seen.kind == s.job.kind && (p.seen.status != Queued ==> s.job.status != Queued))
    && (p.Pulling? || p.Pulled? || p.Writing? || p.Draining? || p.Drained? || p.Closing? ==> s.job.kind == Crawl && s.job.status != Queued)
    && (p.Pulling? ==> p.seen.status == Running)
    && ((p.Pulled? || p.Writing?) && p.next.Some? ==> Terminal(p.next.value))
    && (p.Draining? || p.Drained? || p.Closing? ==> Terminal(p.outcome))
    && (p.Writing? || p.Closing? ==> CountsOk(p.counts))
    && (p.Closing? && p.outcome == Completed ==> HasSuccess(s.rows))
    && (p.Finishing? ==> Terminal(p.status) && (p.status == Completed ==> HasSuccess(s.rows)))
  }

  ghost predicate JobOk(s: State) {
    && (s.job.status == Queued ==> s.handoffs == 0 && s.rows == map[])
    && s.handoffs <= 1
    && s.finishes == (if Terminal(s.job.status) then 1 else 0)
    && s.job.discovered >= s.job.succeeded + s.job.failed && s.job.processed >= s.job.succeeded + s.job.failed
    && (s.job.status == Completed ==> HasSuccess(s.rows))
  }

  ghost predicate OneDispatcher(s: State) {
    forall a, b | a in s.actors && b in s.actors && InDispatch(s.actors[a]) && InDispatch(s.actors[b]) :: a == b
  }

  ghost predicate Inv(s: State) {
    JobOk(s) && OneDispatcher(s) && forall a | a in s.actors :: PcOk(s, s.actors[a])
  }

  function Fresh(kind: JobKind): State { State(Job(kind, Queued, None, 0, 0, 0, 0, 0), map[], map[], 0, 0) }

  /** The facts other actors rely on: nothing goes back. */
  ghost predicate Forward(s: State, s': State) {
    && s'.job.kind == s.job.kind && (s'.job.status == Queued ==> s.job.status == Queued)
    && (HasSuccess(s.rows) ==> HasSuccess(s'.rows))
    && s.handoffs <= s'.handoffs
  }

  lemma InsertKeepsSuccess(rows: Rows, p: Page)
    ensures HasSuccess(rows) ==> HasSuccess(Insert(rows, p))
    ensures rows == map[] && p.success ==> HasSuccess(Insert(rows, p))
  {
    if HasSuccess(rows) {
      var u :| u in rows && rows[u];
      assert u in Insert(rows, p) && Insert(rows, p)[u];
    } else if rows == map[] && p.success {
      assert Key(p) in Insert(rows, p) && Insert(rows, p)[Key(p)];
    }
  }

  lemma CountsAreRows(rows: Rows)
    ensures Successes(rows) > 0 <==> HasSuccess(rows)
  {
    var ok := set u | u in rows && rows[u];
    if Successes(rows) > 0 {
      var u :| u in ok;
      assert u in rows && rows[u];
    } else {
      assert ok == {};
      assert forall u | u in rows :: rows[u] ==> u in ok;
    }
  }

  /** The counters a step writes to the job row, if it writes any. */
  function Written(s: State, step: Step): Option<Counts>
    requires Enabled(s, step)
  {
    match step
    case Report(a) => var ok := s.actors[a].page.success; Some(Counts(1, 1, if ok then 1 else 0, if ok then 0 else 1, 1))
    case Write(a) => Some(s.actors[a].counts)
    case WriteDrained(a) => Some(s.actors[a].counts)
    case _ => None
  }

  /** What a step does to the job row. */
  ghost predicate JobMoves(s: State, step: Step, j: Job)
    requires Enabled(s, step)
  {
    if Written(s, step).Some? then j == UpdateProgress(s.job, Written(s, step).value)
    else if step.Dispatch? then s.job.status == Queued && j == s.job.(status := Running)
    else if step.SetEngineJob? then j == s.job.(engineJob := j.engineJob)
    else if step.Finish? && !Terminal(s.job.status) then j == s.job.(status := s.actors[step.a].status)
    else j == s.job
  }

  lemma JobAfter(s: State, step: Step, s': State)
    requires Enabled(s, step) && s' == Apply(s, step)
    ensures JobMoves(s, step, s'.job)
  {
  }

  lemma OthersStay(s: State, step: Step, s': State, b: nat)
    requires Enabled(s, step) && s' == Apply(s, step) && b != ActorOf(step)
    ensures b in s'.actors <==> b in s.actors
    ensures b in s.actors ==> s'.actors[b] == s.actors[b]
  {
  }

  /** A step inserts at most one row. */
  lemma RowsAfter(s: State, step: Step, s': State)
    requires Enabled(s, step) && s' == Apply(s, step)
    ensures s'.rows == if step.Persist? then Insert(s.rows, s.actors[step.a].page) else if step.Ingest? then Insert(s.rows, step.page) else s.rows
    ensures s.handoffs <= s'.handoffs
  {
  }

  lemma JobForward(s: State, step: Step, j: Job)
    requires Inv(s) && Enabled(s, step) && JobMoves(s, step, j)
    ensures j.kind == s.job.kind && (j.status == Queued ==> s.job.status == Queued)
  {
    if step.Finish? { assert PcOk(s, s.actors[step.a]); }
  }

  lemma StepForward(s: State, step: Step)
    requires Inv(s) && Enabled(s, step)
    ensures Forward(s, Apply(s, step))
  {
    var s' := Apply(s, step);
    JobAfter(s, step, s');
    JobForward(s, step, s'.job);
    RowsAfter(s, step, s');
    if step.Persist? { InsertKeepsSuccess(s.rows, s.actors[step.a].page); }
    if step.Ingest? { InsertKeepsSuccess(s.rows, step.page); }
  }

  /** An actor's memory stays valid through the others' steps. */
  lemma OtherPcOk(s: State, s': State, p: Pc)
    requires PcOk(s, p) && Forward(s, s')
    requires InDispatch(p) ==> s'.handoffs == s.handoffs && (s.job.kind == Scrape ==> s'.rows == s.rows)
    ensures PcOk(s', p)
  {
  }

  /** The job row, the result rows and the counters after a step. */
  lemma StepJobOk(s: State, step: Step, s': State)
    requires Inv(s) && Enabled(s, step) && s' == Apply(s, step)
    ensures JobOk(s')
  {
    if ActorOf(step) in s.actors { assert PcOk(s, s.actors[ActorOf(step)]); }
    StepForward(s, step);
  }

  /** The moving actor's own memory after its step. */
  lemma StepPcOk(s: State, step: Step, s': State)
    requires Inv(s) && Enabled(s, step) && s' == Apply(s, step) && ActorOf(step) in s'.actors
    ensures PcOk(s', s'.actors[ActorOf(step)])
  {
    if ActorOf(step) in s.actors { assert PcOk(s, s.actors[ActorOf(step)]); }
    match step
    case Persist(a) => InsertKeepsSuccess(s.rows, s.actors[a].page);
    case Ingest(_, page) => InsertKeepsSuccess(s.rows, page);
    case CountDrained(a) => CountsAreRows(s.rows);
    case _ =>
  }

  /** Only a claim of the queued row brings an actor into dispatch. */
  lemma NewDispatcher(s: State, step: Step, s': State, b: nat)
    requires Enabled(s, step) && s' == Apply(s, step) && b in s'.actors && InDispatch(s'.actors[b])
    ensures if b in s.actors then InDispatch(s.actors[b]) else step == Dispatch(b)
  {
  }

  lemma StepOneDispatcher(s: State, step: Step, s': State)
    requires Inv(s) && Enabled(s, step) && s' == Apply(s, step)
    ensures OneDispatcher(s')
  {
    forall x, y | x in s'.actors && y in s'.actors && InDispatch(s'.actors[x]) && InDispatch(s'.actors[y]) ensures x == y {
      NewDispatcher(s, step, s', x);
      NewDispatcher(s, step, s', y);
      assert x in s.actors ==> PcOk(s, s.actors[x]);
      assert y in s.actors ==> PcOk(s, s.actors[y]);
    }
  }

  lemma StepOthersOk(s: State, step: Step, s': State, b: nat)
    requires Inv(s) && Enabled(s, step) && s' == Apply(s, step) && b in s'.actors && b != ActorOf(step)
    ensures PcOk(s', s'.actors[b])
  {
    StepForward(s, step);
    if ActorOf(step) in s.actors { assert PcOk(s, s.actors[ActorOf(step)]); }
    OthersStay(s, step, s', b);
    assert PcOk(s, s.actors[b]);
    OtherPcOk(s, s', s.actors[b]);
  }

  lemma InvStep(s: State, step: Step, s': State)
    requires Inv(s) && Enabled(s, step) && s' == Apply(s, step)
    ensures Inv(s')
  {
    StepJobOk(s, step, s');
    StepOneDispatcher(s, step, s');
    forall b | b in s'.actors ensures PcOk(s', s'.actors[b]) {
      if b == ActorOf(step) { StepPcOk(s, step, s'); } else { StepOthersOk(s, step, s', b); }
    }
  }

  // ------------------------------------------------------------------ how jobs end

  /** A scrape asks to end completed exactly if its page was fetched. */
  lemma ScrapeOutcome(s: State, a: nat)
    requires Enabled(s, Report(a))
    ensures var t := Apply(s, Report(a));
            Enabled(t, Finish(a)) && t.actors[a].status == if s.actors[a].page.success then Completed else Failed
  {
  }

  /**
   * A drain asks to end the job as the engine ended the crawl, except that a completed one counts as failed if no row was
   * successful when it counted.
   */
  lemma DrainOutcome(s: State, a: nat)
    requires Enabled(s, CountDrained(a))
    ensures var counted := Apply(s, CountDrained(a));
            && Enabled(counted, WriteDrained(a))
            && var written := Apply(counted, WriteDrained(a));
               && Enabled(written, Finish(a))
               && (s.actors[a].outcome == Completed ==>
                     written.actors[a].status == if exists u :: u in s.rows && s.rows[u] then Completed else Failed)
               && (s.actors[a].outcome != Completed ==> written.actors[a].status == s.actors[a].outcome)
  {
    CountsAreRows(s.rows);
  }

  /** A finish ends a job that has not ended with the status asked for, and leaves an ended one alone. */
  lemma FinishEnds(s: State, a: nat)
    requires Enabled(s, Finish(a))
    ensures var t := Apply(s, Finish(a));
            t.job == if s.job.status == Queued || s.job.status == Running then s.job.(status := s.actors[a].status) else s.job
  {
    assert Terminal(s.job.status) <==> !(s.job.status == Queued || s.job.status == Running);
  }

  /** What an actor is about to end the job with: a user's cancel cancels it, an exception or an expiry fails it. */
  lemma EndAsked(s: State, step: Step)
    requires Enabled(s, step) && step.a in Apply(s, step).actors && Apply(s, step).actors[step.a].Finishing?
    ensures Apply(s, step).actors[step.a].status ==
            match step
            case Cancel(_) => Cancelled
            case Report(a) => if s.actors[a].page.success then Completed else Failed
            case WriteDrained(a) => s.actors[a].outcome
            case _ => Failed
    ensures step.Cancel? || step.Report? || step.WriteDrained? || step.Throw? || step.Expire?
  {
  }

  /** The job row after a step. Counters are only written while it runs, and two of them only upwards. */
  lemma JobIs(s: State, step: Step)
    requires Enabled(s, step)
    ensures var (j, k) := (s.job, Apply(s, step).job);
            match step
            case Dispatch(_) => j.status == Queued && k == j.(status := Running)
            case SetEngineJob(a) => k == j.(engineJob := Some(s.actors[a].engineJob))
            case Report(a) =>
              var ok := if s.actors[a].page.success then 1 else 0;
              k == if j.status != Running then j
                   else j.(discovered := if j.discovered > 1 then j.discovered else 1, processed := if j.processed > 1 then j.processed else 1,
                           succeeded := ok, failed := 1 - ok, cursor := 1)
            case Write(a) => IsWritten(j, s.actors[a].counts, k)
            case WriteDrained(a) => IsWritten(j, s.actors[a].counts, k)
            case Finish(a) => k == if j.status == Queued || j.status == Running then j.(status := s.actors[a].status) else j
            case _ => k == j
  {
  }

  ghost predicate IsWritten(j: Job, c: Counts, k: Job) {
    k == if j.status != Running then j
         else j.(discovered := if c.discovered > j.discovered then c.discovered else j.discovered,
                 processed := if c.processed > j.processed then c.processed else j.processed,
                 succeeded := c.succeeded, failed := c.failed, cursor := c.cursor)
  }

  /** What a reconciler is about to write: the rows as they are now, and what the engine reported if that is more. */
  lemma CountsAre(s: State, step: Step)
    requires Enabled(s, step) && (step.Count? || step.CountDrained?)
    ensures var (p, q, ok, bad) := (s.actors[step.a], Apply(s, step).actors[step.a], |set u | u in s.rows && s.rows[u]|, |set u | u in s.rows && !s.rows[u]|);
            && q.counts.succeeded == ok && q.counts.failed == bad && q.counts.discovered == Max(p.discovered, ok + bad)
            && (step.Count? ==> q.Writing? && q.counts.processed == Max(p.processed, ok + bad) && q.counts.cursor == p.cursor && q.next == p.next)
            && (step.CountDrained? ==> q.Closing? && q.counts.processed == ok + bad && q.counts.cursor == p.seen.cursor)
  {
  }

  // ------------------------------------------------------------------ whole runs

  ghost predicate IsRun(kind: JobKind, states: seq<State>, steps: seq<Step>) {
    && |states| == |steps| + 1 && states[0] == Fresh(kind)
    && forall i | 0 <= i < |steps| :: Enabled(states[i], steps[i]) && states[i + 1] == Apply(states[i], steps[i])
  }

  lemma {:induction false} RunInv(kind: JobKind, states: seq<State>, steps: seq<Step>, i: nat)
    requires IsRun(kind, states, steps) && i <= |steps|
    ensures Inv(states[i])
  {
    if i > 0 {
      RunInv(kind, states, steps, i - 1);
      InvStep(states[i - 1], steps[i - 1], states[i]);
    }
  }

  /** discovered and processed never go down; a terminal job's status and counters never change. */
  predicate Later(j: Job, k: Job) {
    j.discovered <= k.discovered && j.processed <= k.processed && (Terminal(j.status) ==> k == j.(engineJob := k.engineJob))
  }

  lemma StepMonotone(s: State, step: Step, s': State)
    requires Inv(s) && Enabled(s, step) && s' == Apply(s, step)
    ensures Later(s.job, s'.job)
  {
    JobAfter(s, step, s');
  }

  lemma NextMonotone(kind: JobKind, states: seq<State>, steps: seq<Step>, i: nat)
    requires IsRun(kind, states, steps) && i < |steps|
    ensures Later(states[i].job, states[i + 1].job)
  {
    RunInv(kind, states, steps, i);
    StepMonotone(states[i], steps[i], states[i + 1]);
  }

  lemma {:induction false} RunMonotone(kind: JobKind, states: seq<State>, steps: seq<Step>, i: nat, j: nat)
    requires IsRun(kind, states, steps) && i <= j <= |steps|
    ensures Later(states[i].job, states[j].job)
    decreases j - i
  {
    if i < j {
      NextMonotone(kind, states, steps, i);
      RunMonotone(kind, states, steps, i + 1, j);
    }
  }

  function HandOffs(steps: seq<Step>): nat {
    if steps == [] then 0 else HandOffs(steps[..|steps| - 1]) + if steps[|steps| - 1].HandOff? then 1 else 0
  }

  lemma {:induction false} HandOffsCounted(kind: JobKind, states: seq<State>, steps: seq<Step>, i: nat)
    requires IsRun(kind, states, steps) && i <= |steps|
    ensures HandOffs(steps[..i]) == states[i].handoffs
  {
    if i > 0 {
      HandOffsCounted(kind, states, steps, i - 1);
      assert steps[..i][..i - 1] == steps[..i - 1];
    }
  }

  /**
   * Over every race: at most one hand-off to the engine, at most one terminal transition (exactly one once the
   * job is terminal), counters that cover the reported outcomes, and a successful row behind every completed job.
   */
  lemma RaceSafety(kind: JobKind, states: seq<State>, steps: seq<Step>, i: nat)
    requires IsRun(kind, states, steps) && i <= |steps|
    ensures HandOffs(steps[..i]) <= 1
    ensures states[i].finishes == if Terminal(states[i].job.status) then 1 else 0
    ensures states[i].job.discovered >= states[i].job.succeeded + states[i].job.failed
    ensures states[i].job.processed >= states[i].job.succeeded + states[i].job.failed
    ensures states[i].job.status == Completed ==> HasSuccess(states[i].rows)
  {
    RunInv(kind, states, steps, i);
    HandOffsCounted(kind, states, steps, i);
  }
}
