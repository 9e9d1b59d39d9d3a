/** The jobs and results tables for one job, and the service routines over them while other actors interfere. */
module JobStore {
  import opened Common
  import opened CrawlIngest
  import opened JobLifecycle

  class Store {
    var job: Job
    var rows: Rows

    constructor (kind: JobKind)
      ensures job == Fresh(kind).job && rows == map[]
    {
      job, rows := Fresh(kind).job, map[];
    }

    // ---------------------------------------------------------------- repos.ts

    method Claim() returns (claimed: bool)
      modifies this`job
      ensures claimed <==> old(job).status == Queued
      ensures job == if claimed then old(job).(status := Running) else old(job)
    {
      claimed := job.status == Queued;
      if claimed {
        job := job.(status := Running);
      }
    }

    /** Unguarded: a job that was cancelled in the meantime gets the id too, and stays cancelled. */
    method SetEngineJobId(id: nat)
      modifies this`job
      ensures job.engineJob == Some(id) && job.status == old(job).status && Later(old(job), job)
      ensures job == old(job).(engineJob := Some(id))
    {
      job := job.(engineJob := Some(id));
    }

    method WriteProgress(c: Counts)
      modifies this`job
      ensures job == UpdateProgress(old(job), c)
      ensures old(job).status == Running ==>
                && job.succeeded == c.succeeded && job.failed == c.failed && job.cursor == c.cursor
                && job.discovered == Max(old(job).discovered, c.discovered) && job.processed == Max(old(job).processed, c.processed)
                && job.status == Running && job.engineJob == old(job).engineJob && job.kind == old(job).kind
      ensures old(job).status != Running ==> job == old(job)
    {
      if job.status == Running {
        job := job.(discovered := Max(job.discovered, c.discovered), processed := Max(job.processed, c.processed),
                    succeeded := c.succeeded, failed := c.failed, cursor := c.cursor);
      }
    }

    method FinishJob(status: JobStatus) returns (done: bool)
      requires JobLifecycle.Terminal(status)
      modifies this`job
      ensures done <==> !JobLifecycle.Terminal(old(job).status)
      ensures job == if done then old(job).(status := status) else old(job)
      ensures JobLifecycle.Terminal(job.status)
    {
      done := job.status == Queued || job.status == Running;
      if done {
        job := job.(status := status);
      }
    }

    method InsertResult(page: Page) returns (inserted: bool)
      modifies this`rows
      ensures inserted <==> Key(page) !in old(rows)
      ensures rows == Insert(old(rows), page)
    {
      inserted := Key(page) !in rows;
      if inserted {
        rows := rows[Key(page) := page.success];
      }
    }

    // ---------------------------------------------------------------- interference

    /** Any steps of other actors: what RunMonotone and the row inserts allow. */
    method Others()
      modifies this
      ensures Later(old(job), job) && (old(job).status != Queued ==> job.status != Queued)
      ensures forall u | u in old(rows) :: u in rows && rows[u] == old(rows)[u]
    {
      var j: Job, more: Rows := *, *;
      if Later(job, j) && (job.status != Queued ==> j.status != Queued) {
        job := j;
      }
      rows := more + rows;
    }

    // ---------------------------------------------------------------- jobs.ts, reconciler.ts

    /** The progress of a scrape: its one page, fetched or failed. */
    method RecordPage(page: Page)
      modifies this`job
      ensures Later(old(job), job) && job.status == old(job).status
      ensures old(job).status == Running ==>
                job.succeeded == (if page.success then 1 else 0) && job.failed == (if page.success then 0 else 1)
                && job.discovered >= 1 && job.processed >= 1 && job.cursor == 1
    {
      WriteProgress(Counts(1, 1, if page.success then 1 else 0, if page.success then 0 else 1, 1));
    }

    /** The progress of a drained crawl: its rows as counted, written over the job as others have left it since. */
    method RecordCounts(discovered: nat, cursor: nat) returns (ok: nat, ghost middle: Job)
      modifies this
      ensures ok == |set u | u in old(rows) && old(rows)[u]|
      ensures Later(old(job), middle) && (old(job).status != Queued ==> middle.status != Queued)
      ensures forall u | u in old(rows) :: u in rows && rows[u] == old(rows)[u]
      ensures middle.status != Running ==> job == middle
      ensures var bad := |set u | u in old(rows) && !old(rows)[u]|;
              middle.status == Running ==>
                job == middle.(succeeded := ok, failed := bad, processed := Max(middle.processed, ok + bad),
                               discovered := Max(middle.discovered, Max(discovered, ok + bad)), cursor := cursor)
    {
      var bad := Failures(rows);
      ok := Successes(rows);
      Others();
      middle := job;
      WriteProgress(Counts(Max(discovered, ok + bad), ok + bad, ok, bad, cursor));
    }

    /** runScrape after the engine answered: whatever interferes, the job is terminal when it returns. */
    method RunScrape(page: Page) returns (finished: bool)
      requires job.status != Queued
      modifies this
      ensures JobLifecycle.Terminal(job.status) && Later(old(job), job)
      ensures finished ==> job.status == if page.success then Completed else Failed
      ensures finished ==> Key(page) in rows && (Key(page) !in old(rows) || rows[Key(page)] == old(rows)[Key(page)])
    {
      Others();
      if job.status != Running {
        return false;
      }
      var _ := InsertResult(page);
      Others();
      RecordPage(page);
      Others();
      finished := FinishJob(if page.success then Completed else Failed);
    }

    /** startCrawl after the engine accepted: whatever interferes, the row names the engine's job, and an ended job stays ended. */
    method StartCrawl(engineJob: nat)
      requires job.status != Queued
      modifies this
      ensures job.engineJob == Some(engineJob) && job.status != Queued && Later(old(job), job)
      ensures JobLifecycle.Terminal(old(job).status) ==> job.status == old(job).status
      ensures forall u | u in old(rows) :: u in rows && rows[u] == old(rows)[u]
    {
      Others();
      SetEngineJobId(engineJob);
    }

    /**
     * drainAndFinish after the ingestion: counts, progress, then the terminal transition. A crawl the engine completed ends
     * completed exactly if there was a successful row to count.
     */
    method CloseCrawl(discovered: nat, cursor: nat, outcome: JobStatus) returns (finished: bool)
      requires job.status != Queued && JobLifecycle.Terminal(outcome)
      modifies this
      ensures JobLifecycle.Terminal(job.status) && Later(old(job), job)
      ensures finished && job.status == Completed ==> outcome == Completed && HasSuccess(rows)
      ensures finished && outcome != Completed ==> job.status == outcome
      ensures finished && outcome == Completed ==> job.status == if HasSuccess(old(rows)) then Completed else Failed
    {
      CountsAreRows(rows);
      ghost var seen := rows;
      var ok, middle := RecordCounts(discovered, cursor);
      assert ok == Successes(seen);
      Others();
      finished := FinishJob(if outcome == Completed && ok == 0 then Failed else outcome);
      if HasSuccess(seen) {
        ghost var u :| u in seen && seen[u];
        assert u in rows && rows[u];
      }
    }

    /**
     * JobService.cancel: None is the thrown JOB_NOT_CANCELLABLE, otherwise the status the caller gets back. `seen` is the
     * job as the terminal update found it: cancelled, unless others had ended it.
     */
    method CancelJob() returns (status: Option<JobStatus>, ghost seen: Job)
      modifies this
      ensures JobLifecycle.Terminal(job.status) && Later(old(job), job) && Later(old(job), seen)
      ensures status == None <==> JobLifecycle.Terminal(old(job).status)
      ensures status.Some? ==> status.value == job.status
      ensures status.Some? ==> job == if seen.status in {Completed, Failed, Cancelled} then seen else seen.(status := Cancelled)
      ensures status == None ==> job == old(job)
    {
      seen := job;
      if job.status != Queued && job.status != Running {
        return None, job;
      }
      Others();
      seen := job;
      var _ := FinishJob(Cancelled);
      status := Some(job.status);
    }
  }
}
