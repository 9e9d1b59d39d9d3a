/**
 * The job row's counters and cursor under overlapping reconcilers: what may go down, and that pages_succeeded and
 * pages_failed do only where another reconciler wrote between this one's count and its write.
 */
module JobCounters {
  import opened Common
  import opened CrawlIngest
  import opened JobLifecycle

  // ------------------------------------------------------------------ what a step may lower

  /** A field goes down in exactly the writes to a running job that carry a smaller value. */
  lemma LowersExactly(s: State, step: Step)
    requires Enabled(s, step)
    ensures var (job, w) := (Apply(s, step).job, Written(s, step));
            && (job.succeeded < s.job.succeeded <==> s.job.status == Running && w.Some? && w.value.succeeded < s.job.succeeded)
            && (job.failed < s.job.failed <==> s.job.status == Running && w.Some? && w.value.failed < s.job.failed)
            && (job.cursor < s.job.cursor <==> s.job.status == Running && w.Some? && w.value.cursor < s.job.cursor)
  {
  }

  /** A drain writes the cursor its reconciler leased, so it moves back exactly what has been saved since. */
  lemma DrainRestoresCursor(s: State, a: nat)
    requires Enabled(s, CountDrained(a))
    ensures var drained := Apply(s, CountDrained(a));
            && Enabled(drained, WriteDrained(a))
            && (Apply(drained, WriteDrained(a)).job.cursor < s.job.cursor <==>
                s.job.status == Running && s.actors[a].seen.cursor < s.job.cursor)
  {
  }

  // ------------------------------------------------------------------ counters never exceed the rows

  /** The job's counters, and those a reconciler is about to write, were counted on rows that are still there. */
  ghost predicate Covered(s: State) {
    && s.job.succeeded <= Successes(s.rows) && s.job.failed <= Failures(s.rows)
    && (forall a | a in s.actors :: PcCovered(s, s.actors[a]))
    && forall a | a in s.actors && InDispatch(s.actors[a]) && s.job.kind == Scrape :: s.job.succeeded == s.job.failed == 0
  }

  ghost predicate PcCovered(s: State, p: Pc) {
    && (p.Writing? || p.Closing? ==> p.counts.succeeded <= Successes(s.rows) && p.counts.failed <= Failures(s.rows))
    && (p.Stored? ==> if p.page.success then Successes(s.rows) >= 1 else Failures(s.rows) >= 1)
  }

  lemma InsertGrows(rows: Rows, p: Page)
    ensures Successes(rows) <= Successes(Insert(rows, p)) && Failures(rows) <= Failures(Insert(rows, p))
  {
    var more := Insert(rows, p);
    SubsetSize(set u | u in rows && rows[u], set u | u in more && more[u]);
    SubsetSize(set u | u in rows && !rows[u], set u | u in more && !more[u]);
  }

  /** No step takes a row away. */
  lemma RowsGrow(s: State, step: Step)
    requires Enabled(s, step)
    ensures Successes(s.rows) <= Successes(Apply(s, step).rows) && Failures(s.rows) <= Failures(Apply(s, step).rows)
  {
    match step
    case Persist(a) => InsertGrows(s.rows, s.actors[a].page);
    case Ingest(_, page) => InsertGrows(s.rows, page);
    case _ =>
  }

  /** Whatever a step writes is covered by the rows. */
  lemma WrittenIsCovered(s: State, step: Step)
    requires Covered(s) && Enabled(s, step) && Written(s, step).Some?
    ensures Written(s, step).value.succeeded <= Successes(s.rows) && Written(s, step).value.failed <= Failures(s.rows)
  {
    assert PcCovered(s, s.actors[ActorOf(step)]);
  }

  lemma CoveredJob(s: State, step: Step)
    requires Covered(s) && Enabled(s, step)
    ensures Apply(s, step).job.succeeded <= Successes(s.rows) && Apply(s, step).job.failed <= Failures(s.rows)
  {
    if Written(s, step).Some? { WrittenIsCovered(s, step); }
  }

  /** An actor is about to write what it counted in this step, or is past a page it stored in this step. */
  lemma OwnCounts(s: State, step: Step)
    requires Enabled(s, step) && ActorOf(step) in Apply(s, step).actors
    ensures var p := Apply(s, step).actors[ActorOf(step)];
            && (p.Writing? || p.Closing? ==>
                  (step.Count? || step.CountDrained?) && p.counts.succeeded == Successes(s.rows) && p.counts.failed == Failures(s.rows))
            && (p.Stored? ==> step.Persist? && p.page == s.actors[step.a].page)
            && (step.Count? || step.CountDrained? ==> Apply(s, step).rows == s.rows)
  {
  }

  lemma CoveredOwn(s: State, step: Step, s': State)
    requires Inv(s) && Enabled(s, step) && s' == Apply(s, step) && ActorOf(step) in s'.actors
    ensures PcCovered(s', s'.actors[ActorOf(step)])
  {
    OwnCounts(s, step);
    if step.Persist? {
      assert PcOk(s, s.actors[step.a]);
      OneRow(s.actors[step.a].page);
    }
  }

  lemma CoveredOther(s: State, step: Step, s': State, b: nat)
    requires Covered(s) && Enabled(s, step) && s' == Apply(s, step) && b in s'.actors && b != ActorOf(step)
    ensures PcCovered(s', s'.actors[b])
  {
    RowsGrow(s, step);
    assert b in s.actors && s'.actors[b] == s.actors[b] && PcCovered(s, s.actors[b]);
  }

  /** Whatever writes counters of a scrape is its dispatcher, and then nobody is in dispatch any more. */
  lemma ScrapeUnwritten(s: State, step: Step, s': State, a: nat)
    requires Inv(s) && Covered(s) && Enabled(s, step) && s' == Apply(s, step)
    requires a in s'.actors && InDispatch(s'.actors[a]) && s'.job.kind == Scrape
    ensures s'.job.succeeded == s'.job.failed == 0
  {
    NewDispatcher(s, step, s', a);
    if a !in s.actors {
      assert Successes(map[]) == 0 && Failures(map[]) == 0 by { OneRow(Page("", true)); }
    } else if Written(s, step).Some? {
      assert PcOk(s, s.actors[ActorOf(step)]);
      assert InDispatch(s.actors[ActorOf(step)]);
    }
  }

  lemma CoveredStep(s: State, step: Step, s': State)
    requires Inv(s) && Covered(s) && Enabled(s, step) && s' == Apply(s, step)
    ensures Covered(s')
  {
    RowsGrow(s, step);
    CoveredJob(s, step);
    forall a | a in s'.actors ensures PcCovered(s', s'.actors[a]) {
      if a == ActorOf(step) { CoveredOwn(s, step, s'); } else { CoveredOther(s, step, s', a); }
    }
    forall a | a in s'.actors && InDispatch(s'.actors[a]) && s'.job.kind == Scrape ensures s'.job.succeeded == s'.job.failed == 0 {
      ScrapeUnwritten(s, step, s', a);
    }
  }

  lemma {:induction false} RunIsCovered(kind: JobKind, states: seq<State>, steps: seq<Step>, i: nat)
    requires IsRun(kind, states, steps) && i <= |steps|
    ensures Covered(states[i])
  {
    if i > 0 {
      RunInv(kind, states, steps, i - 1);
      RunIsCovered(kind, states, steps, i - 1);
      CoveredStep(states[i - 1], steps[i - 1], states[i]);
    }
  }

  // ------------------------------------------------------------------ only overlapping writers lower the counters

  predicate Writes(step: Step) { step.Report? || step.Write? || step.WriteDrained? }

  /** Somebody else wrote counters after a's last count. */
  predicate WroteSince(steps: seq<Step>, a: nat) {
    steps != [] &&
    var last := steps[|steps| - 1];
    last != Count(a) && last != CountDrained(a) && ((Writes(last) && last.a != a) || WroteSince(steps[..|steps| - 1], a))
  }

  /** While nobody else writes, the job's counters are at most those a reconciler counted. */
  ghost predicate UpToDate(s: State, a: nat) {
    a in s.actors && (s.actors[a].Writing? || s.actors[a].Closing?) ==>
      s.job.succeeded <= s.actors[a].counts.succeeded && s.job.failed <= s.actors[a].counts.failed
  }

  lemma UpToDateStep(s: State, step: Step, s': State, a: nat)
    requires Covered(s) && Enabled(s, step) && s' == Apply(s, step)
    requires step == Count(a) || step == CountDrained(a) || (UpToDate(s, a) && !(Writes(step) && step.a != a))
    ensures UpToDate(s', a)
  {
    JobAfter(s, step, s');
    if ActorOf(step) != a {
      OthersStay(s, step, s', a);
    } else if a in s'.actors {
      OwnCounts(s, step);
    }
  }

  lemma {:induction false} CountsUpToDate(kind: JobKind, states: seq<State>, steps: seq<Step>, i: nat, a: nat)
    requires IsRun(kind, states, steps) && i <= |steps| && !WroteSince(steps[..i], a)
    ensures UpToDate(states[i], a)
  {
    if i > 0 {
      var (s, step, s') := (states[i - 1], steps[i - 1], states[i]);
      assert steps[..i][..i - 1] == steps[..i - 1];
      if step != Count(a) && step != CountDrained(a) { CountsUpToDate(kind, states, steps, i - 1, a); }
      RunIsCovered(kind, states, steps, i - 1);
      UpToDateStep(s, step, s', a);
    }
  }

  predicate Lowers(j: Job, k: Job) { k.succeeded < j.succeeded || k.failed < j.failed }

  /** Only a reconciler's write lowers succeeded or failed, and only below what its counts still say. */
  lemma LoweringWrite(s: State, step: Step, s': State)
    requires Inv(s) && Covered(s) && Enabled(s, step) && s' == Apply(s, step) && Lowers(s.job, s'.job)
    ensures (step.Write? || step.WriteDrained?) && !UpToDate(s, step.a)
  {
    LowersExactly(s, step);
    if step.Report? { assert PcOk(s, s.actors[step.a]) && InDispatch(s.actors[step.a]); }
  }

  /** In every run, pages_succeeded or pages_failed goes down only where another wrote between a count and its write. */
  lemma LowersOnlyBehind(kind: JobKind, states: seq<State>, steps: seq<Step>, i: nat)
    requires IsRun(kind, states, steps) && i < |steps| && Lowers(states[i].job, states[i + 1].job)
    ensures (steps[i].Write? || steps[i].WriteDrained?) && WroteSince(steps[..i], steps[i].a)
  {
    RunInv(kind, states, steps, i);
    RunIsCovered(kind, states, steps, i);
    var (s, step, s') := (states[i], steps[i], states[i + 1]);
    LoweringWrite(s, step, s');
    if !WroteSince(steps[..i], step.a) { CountsUpToDate(kind, states, steps, i, step.a); }
  }

  ghost predicate NoOverlap(steps: seq<Step>) { forall i | 0 <= i < |steps| && Writes(steps[i]) :: !WroteSince(steps[..i], steps[i].a) }

  /** So along a run whose writers do not overlap both are monotone. */
  lemma {:induction false} MonotoneWithoutOverlap(kind: JobKind, states: seq<State>, steps: seq<Step>, i: nat, j: nat)
    requires IsRun(kind, states, steps) && NoOverlap(steps) && i <= j <= |steps|
    ensures states[i].job.succeeded <= states[j].job.succeeded && states[i].job.failed <= states[j].job.failed
    decreases j - i
  {
    if i < j {
      if Lowers(states[i].job, states[i + 1].job) { LowersOnlyBehind(kind, states, steps, i); }
      MonotoneWithoutOverlap(kind, states, steps, i + 1, j);
    }
  }

  // ------------------------------------------------------------------ runs in which they do go down

  ghost predicate Reached(kind: JobKind, s: State) {
    exists states, steps :: IsRun(kind, states, steps) && states[|steps|] == s
  }

  lemma ReachNext(kind: JobKind, s: State, step: Step)
    requires Reached(kind, s) && Enabled(s, step)
    ensures Reached(kind, Apply(s, step))
  {
    var states, steps :| IsRun(kind, states, steps) && states[|steps|] == s;
    var (more, path) := (states + [Apply(s, step)], steps + [step]);
    OneMore(kind, states, steps, step);
    assert more[|path|] == Apply(s, step);
  }

  lemma OneMore(kind: JobKind, states: seq<State>, steps: seq<Step>, step: Step)
    requires IsRun(kind, states, steps) && Enabled(states[|steps|], step)
    ensures IsRun(kind, states + [Apply(states[|steps|], step)], steps + [step])
  {
  }

  const ACCEPTED := Job(Crawl, Running, Some(0), 0, 0, 0, 0, 0)

  function CrawlWith(job: Job, rows: Rows, actors: map<nat, Pc>): State { State(job, rows, actors, 1, 0) }

  lemma ReachStarting()
    ensures Reached(Crawl, State(ACCEPTED.(engineJob := None), map[], map[0 := Starting], 1, 0))
  {
    var steps: seq<Step> := [];
    assert IsRun(Crawl, [Fresh(Crawl)], steps) && [Fresh(Crawl)][|steps|] == Fresh(Crawl);
    var claimed := State(ACCEPTED.(engineJob := None), map[], map[0 := Claimed], 0, 0);
    ReachNext(Crawl, Fresh(Crawl), Dispatch(0));
    assert Apply(Fresh(Crawl), Dispatch(0)) == claimed;
    ReachNext(Crawl, claimed, HandOff(0));
    assert Apply(claimed, HandOff(0)) == State(ACCEPTED.(engineJob := None), map[], map[0 := Starting], 1, 0);
  }

  lemma ReachAccepted()
    ensures Reached(Crawl, CrawlWith(ACCEPTED, map[], map[]))
  {
    ReachStarting();
    var starting := State(ACCEPTED.(engineJob := None), map[], map[0 := Starting], 1, 0);
    var started := State(ACCEPTED.(engineJob := None), map[], map[0 := Started(0)], 1, 0);
    ReachNext(Crawl, starting, CrawlAccepted(0, 0));
    assert Apply(starting, CrawlAccepted(0, 0)) == started;
    ReachNext(Crawl, started, SetEngineJob(0));
    assert Apply(started, SetEngineJob(0)) == CrawlWith(ACCEPTED, map[], map[]);
  }

  /** A reconciler leases the job as it is and starts to pull. */
  lemma ReachPulling(job: Job, rows: Rows, actors: map<nat, Pc>, a: nat)
    requires Reached(Crawl, CrawlWith(job, rows, actors)) && a !in actors
    requires job.status == Running && job.kind == Crawl && job.engineJob.Some?
    ensures Reached(Crawl, CrawlWith(job, rows, actors[a := Pulling(job)]))
  {
    var (s, leased) := (CrawlWith(job, rows, actors), CrawlWith(job, rows, actors[a := Leased(job)]));
    ReachNext(Crawl, s, Step.Lease(a));
    assert Apply(s, Step.Lease(a)) == leased;
    ReachNext(Crawl, leased, BeginPull(a));
    assert Apply(leased, BeginPull(a)) == CrawlWith(job, rows, actors[a := Pulling(job)]);
  }

  /** It has pulled n pages in all and counts the rows. */
  lemma ReachWriting(job: Job, seen: Job, rows: Rows, actors: map<nat, Pc>, a: nat, n: nat, next: Option<JobStatus>)
    requires Reached(Crawl, CrawlWith(job, rows, actors)) && a in actors && actors[a] == Pulling(seen)
    requires Successes(rows) + Failures(rows) <= n && (next.Some? ==> Terminal(next.value))
    ensures Reached(Crawl, CrawlWith(job, rows, actors[a := Writing(seen, Counts(n, n, Successes(rows), Failures(rows), n), next)]))
  {
    var (s, pulled) := (CrawlWith(job, rows, actors), CrawlWith(job, rows, actors[a := Pulled(seen, n, n, n, next)]));
    ReachNext(Crawl, s, EndPull(a, n, n, n, next));
    assert Apply(s, EndPull(a, n, n, n, next)) == pulled;
    ReachNext(Crawl, pulled, Count(a));
    assert Apply(pulled, Count(a)) == CrawlWith(job, rows, actors[a := Writing(seen, Counts(n, n, Successes(rows), Failures(rows), n), next)]);
  }

  lemma OneRow(p: Page)
    ensures Insert(map[], p) == map[Key(p) := p.success]
    ensures Successes(Insert(map[], p)) == (if p.success then 1 else 0) && Failures(Insert(map[], p)) == if p.success then 0 else 1
    ensures Successes(map[]) == Failures(map[]) == 0
  {
    var rows: Rows := map[Key(p) := p.success];
    assert (set u | u in rows && rows[u]) == if p.success then {Key(p)} else {};
    assert (set u | u in rows && !rows[u]) == if p.success then {} else {Key(p)};
  }

  /** The first page arrives in a pull. */
  lemma ReachIngested(job: Job, actors: map<nat, Pc>, a: nat, p: Page)
    requires Reached(Crawl, CrawlWith(job, map[], actors)) && a in actors && actors[a].Pulling?
    ensures Reached(Crawl, CrawlWith(job, Insert(map[], p), actors))
  {
    ReachNext(Crawl, CrawlWith(job, map[], actors), Ingest(a, p));
    assert Apply(CrawlWith(job, map[], actors), Ingest(a, p)) == CrawlWith(job, Insert(map[], p), actors);
  }

  /** Reconciler 1 is about to write that it saw nothing over a job that shows the one page there is. */
  ghost predicate AboutToLose(s: State, p: Page) {
    && Enabled(s, Write(1)) && s.job.status == Running && s.job.cursor == 1 && s.actors[1].counts == Counts(0, 0, 0, 0, 0)
    && s.job.succeeded == (if p.success then 1 else 0) && s.job.failed == if p.success then 0 else 1
  }

  const FIRST := map[1 := Writing(ACCEPTED, Counts(0, 0, 0, 0, 0), None)]

  lemma ReachFirst()
    ensures Reached(Crawl, CrawlWith(ACCEPTED, map[], FIRST))
  {
    OneRow(Page("", true));
    ReachAccepted();
    ReachPulling(ACCEPTED, map[], map[], 1);
    ReachWriting(ACCEPTED, ACCEPTED, map[], map[1 := Pulling(ACCEPTED)], 1, 0, None);
    assert map[1 := Pulling(ACCEPTED)][1 := Writing(ACCEPTED, Counts(0, 0, 0, 0, 0), None)] == FIRST;
  }

  /**
   * It happens: two reconcilers overlap; the one that counted before the other's page arrived writes last. Its write
   * takes the page back out of the counters, the successful or the failed one, and moves the cursor back.
   */
  lemma OldCountsWin(p: Page)
    ensures exists s :: Reached(Crawl, s) && AboutToLose(s, p) && Apply(s, Write(1)).job == ACCEPTED.(discovered := 1, processed := 1)
  {
    OneRow(p);
    ReachFirst();
    ReachPulling(ACCEPTED, map[], FIRST, 2);
    ReachIngested(ACCEPTED, FIRST[2 := Pulling(ACCEPTED)], 2, p);
    ReachWriting(ACCEPTED, ACCEPTED, Insert(map[], p), FIRST[2 := Pulling(ACCEPTED)], 2, 1, None);
    SecondWrites(p);
  }

  /** Reconciler 2 has seen the page and writes first. */
  function SecondWriting(rows: Rows, pulling: map<nat, Pc>): State {
    CrawlWith(ACCEPTED, rows, pulling[2 := Writing(ACCEPTED, Counts(1, 1, Successes(rows), Failures(rows), 1), None)])
  }

  lemma FirstWritesLast(p: Page)
    ensures var both := SecondWriting(Insert(map[], p), FIRST[2 := Pulling(ACCEPTED)]);
            && Enabled(both, Write(2)) && AboutToLose(Apply(both, Write(2)), p)
            && Apply(Apply(both, Write(2)), Write(1)).job == ACCEPTED.(discovered := 1, processed := 1)
  {
    OneRow(p);
  }

  lemma SecondWrites(p: Page)
    requires Reached(Crawl, SecondWriting(Insert(map[], p), FIRST[2 := Pulling(ACCEPTED)]))
    ensures exists s :: Reached(Crawl, s) && AboutToLose(s, p) && Apply(s, Write(1)).job == ACCEPTED.(discovered := 1, processed := 1)
  {
    FirstWritesLast(p);
    ReachNext(Crawl, SecondWriting(Insert(map[], p), FIRST[2 := Pulling(ACCEPTED)]), Write(2));
  }

  /** It happens: a single reconciler saves its cursor, drains, and writes the cursor it leased back. */
  lemma DrainLosesCursor(p: Page)
    ensures exists s :: Reached(Crawl, s) && Enabled(s, WriteDrained(1)) && s.job.cursor == 1 && Apply(s, WriteDrained(1)).job.cursor == 0
  {
    OneRow(p);
    ReachAccepted();
    ReachPulling(ACCEPTED, map[], map[], 1);
    var (rows, pulling) := (Insert(map[], p), map[1 := Pulling(ACCEPTED)]);
    ReachIngested(ACCEPTED, pulling, 1, p);
    ReachWriting(ACCEPTED, ACCEPTED, rows, pulling, 1, 1, Some(Completed));
    var counts := Counts(1, 1, Successes(rows), Failures(rows), 1);
    var writing := CrawlWith(ACCEPTED, rows, pulling[1 := Writing(ACCEPTED, counts, Some(Completed))]);
    ReachNext(Crawl, writing, Write(1));
    ReachDrained(Apply(writing, Write(1)));
  }

  lemma ReachDrained(s: State)
    requires Reached(Crawl, s) && s.job.status == Running && s.job.cursor == 1
    requires 1 in s.actors && s.actors[1] == Draining(ACCEPTED, 0, Completed)
    ensures exists t :: Reached(Crawl, t) && Enabled(t, WriteDrained(1)) && t.job.cursor == 1 && Apply(t, WriteDrained(1)).job.cursor == 0
  {
    ReachNext(Crawl, s, EndDrain(1, 1));
    var ended := Apply(s, EndDrain(1, 1));
    ReachNext(Crawl, ended, CountDrained(1));
    DrainRestoresCursor(ended, 1);
    var t := Apply(ended, CountDrained(1));
    assert Reached(Crawl, t) && Enabled(t, WriteDrained(1));
  }

  /** A crawl can end completed: one page, fetched, pulled and drained. */
  lemma CrawlCompletes(p: Page)
    requires p.success
    ensures exists s :: Reached(Crawl, s) && s.job.status == Completed && s.job.succeeded == 1 && s.rows == map[Key(p) := true]
  {
    OneRow(p);
    ReachAccepted();
    ReachPulling(ACCEPTED, map[], map[], 1);
    var (rows, pulling) := (Insert(map[], p), map[1 := Pulling(ACCEPTED)]);
    ReachIngested(ACCEPTED, pulling, 1, p);
    ReachWriting(ACCEPTED, ACCEPTED, rows, pulling, 1, 1, Some(Completed));
    var counts := Counts(1, 1, Successes(rows), Failures(rows), 1);
    var writing := CrawlWith(ACCEPTED, rows, pulling[1 := Writing(ACCEPTED, counts, Some(Completed))]);
    ReachNext(Crawl, writing, Write(1));
    DrainCompletes(Apply(writing, Write(1)), p);
  }

  lemma DrainCompletes(s: State, p: Page)
    requires Reached(Crawl, s) && s.job.status == Running && s.rows == map[Key(p) := true]
    requires 1 in s.actors && s.actors[1].Draining? && s.actors[1].outcome == Completed
    ensures exists t :: Reached(Crawl, t) && t.job.status == Completed && t.job.succeeded == 1 && t.rows == map[Key(p) := true]
  {
    ReachNext(Crawl, s, EndDrain(1, 1));
    var ended := Apply(s, EndDrain(1, 1));
    assert ended.rows[Key(p)];
    DrainOutcome(ended, 1);
    ReachNext(Crawl, ended, CountDrained(1));
    var counted := Apply(ended, CountDrained(1));
    ReachNext(Crawl, counted, WriteDrained(1));
    var written := Apply(counted, WriteDrained(1));
    ReachNext(Crawl, written, Finish(1));
    FinishEnds(written, 1);
    OneRow(Page(p.url, true));
    assert Successes(map[Key(p) := true]) == 1;
    assert Reached(Crawl, Apply(written, Finish(1)));
  }
}
