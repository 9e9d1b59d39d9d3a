/** The paging loops themselves: getJobStatus, pullPages, syncCrawl's pull and the final drain. */
module CrawlSync {
  import opened Common
  import opened CrawlIngest

  datatype EngineStatus = Running | Completed | Failed | Cancelled

  datatype Response = Batch(data: seq<Page>, total: nat, completed: nat, status: EngineStatus) | NotFound | Unavailable

  /**
   * The engine as the adapter sees it. Documents may arrive before any answer until it is closed.
   * Assumed of its answers: a batch is the requested slice, and total counts every document it has.
   */
  class Engine {
    var docs: seq<Page>
    var closed: bool
    ghost var last: Response   // the latest answer

    method Poll(skip: nat) returns (r: Response)
      modifies this`docs, this`last
      ensures old(docs) <= docs && (closed ==> docs == old(docs)) && last == r
      ensures r.Batch? ==> r.total >= |docs| && r.data == docs[Min(skip, |docs|)..Min(skip + 50, |docs|)]
    {
      if !closed {
        var arrived: seq<Page> := *;
        docs := docs + arrived;
      }
      var pending: nat, completed: nat, status: EngineStatus := *, *, *;
      if {
        case true =>
          r := Batch(docs[Min(skip, |docs|)..Min(skip + STATUS_PAGE_SIZE, |docs|)], |docs| + pending, completed, status);
        case true => r := NotFound;
        case true => r := Unavailable;
      }
      last := r;
    }
  }

  datatype Snapshot = Snapshot(status: EngineStatus, discovered: nat, processed: nat, pages: seq<Page>, nextCursor: nat, hasMore: bool, lost: bool)

  /** What a call reports is what the engine last said: an error is thrown, a 404 is a lost job, else its counts and status. */
  ghost predicate Told(r: Option<Snapshot>, last: Response) {
    match last
    case Unavailable => r == None
    case NotFound => r.Some? && r.value.lost && r.value.status == Failed
    case Batch(_, total, completed, status) =>
      r.Some? && !r.value.lost && r.value.discovered == total && r.value.processed == completed && r.value.status == status
  }

  /** One getJobStatus call; None is the thrown EngineUnavailableError. `lost` marks a 404. */
  method GetJobStatus(engine: Engine, cursor: nat) returns (r: Option<Snapshot>)
    requires cursor <= |engine.docs|
    modifies engine`docs, engine`last
    ensures Told(r, engine.last)
    ensures old(engine.docs) <= engine.docs && (engine.closed ==> engine.docs == old(engine.docs))
    ensures r.Some? ==> cursor <= r.value.nextCursor <= |engine.docs| && r.value.pages == engine.docs[cursor..r.value.nextCursor]
    ensures r.Some? && r.value.lost ==> r.value.status == Failed && !r.value.hasMore
    ensures r.Some? && !r.value.lost && !r.value.hasMore ==> r.value.nextCursor == |engine.docs|
    ensures r.Some? && !r.value.lost && engine.closed ==> r.value.nextCursor == Min(cursor + 200, |engine.docs|)
  {
    var pages: seq<Page> := [];
    var skip: nat := cursor;
    var status, hasMore := Running, false;
    var discovered: nat, processed: nat := 0, 0;
    for i := 0 to MAX_BATCHES_PER_CALL
      invariant old(engine.docs) <= engine.docs && (engine.closed ==> engine.docs == old(engine.docs))
      invariant cursor <= skip <= |engine.docs| && pages == engine.docs[cursor..skip]
      invariant i > 0 ==> hasMore && Told(Some(Snapshot(status, discovered, processed, pages, skip, hasMore, false)), engine.last)
      invariant engine.closed ==> skip == Min(cursor + i * STATUS_PAGE_SIZE, |engine.docs|)
    {
      var res := engine.Poll(skip);
      assert engine.docs[cursor..skip] == pages;
      match res
      case Unavailable => return None;
      case NotFound => return Some(Snapshot(Failed, 0, 0, pages, skip, false, true));
      case Batch(data, total, completed, st) =>
        status, discovered, processed := st, total, completed;
        Appended(engine.docs, cursor, skip, data);
        pages := pages + data;
        skip := skip + |data|;
        hasMore := |data| > 0 && skip < total;
        if !hasMore {
          return Some(Snapshot(status, discovered, processed, pages, skip, false, false));
        }
    }
    return Some(Snapshot(status, discovered, processed, pages, skip, hasMore, false));
  }

  lemma Appended(docs: seq<Page>, from: nat, at: nat, data: seq<Page>)
    requires from <= at <= |docs| && data == docs[at..Min(at + 50, |docs|)]
    ensures at + |data| == Min(at + 50, |docs|) && docs[from..at] + data == docs[from..at + |data|]
  {
  }

  /** One crawl job's rows and cursor, and the engine they are copied from. */
  class SyncedCrawl {
    const engine: Engine
    var rows: Rows
    var cursor: nat
    ghost var frontier: nat

    constructor (engine: Engine)
      ensures this.engine == engine && Valid() && cursor == 0 && rows == map[]
    {
      this.engine, rows, cursor, frontier := engine, map[], 0, 0;
    }

    ghost predicate Valid()
      reads this, engine
    {
      Ingested(engine.docs, rows, frontier) && cursor <= frontier
    }

    /** persistPage for every page of a snapshot. */
    method PersistAll(pages: seq<Page>)
      modifies this`rows
      ensures rows == FirstWins(old(rows), pages)
    {
      for i := 0 to |pages|
        invariant rows == FirstWins(old(rows), pages[..i])
      {
        assert pages[..i + 1][..i] == pages[..i];
        rows := Insert(rows, pages[i]);
      }
      assert pages[..|pages|] == pages;
    }

    /** pullPages: up to 21 calls. None: the engine was unavailable, rows inserted so far stay. */
    method PullPages(from: nat) returns (r: Option<Snapshot>)
      requires Valid() && from <= frontier
      modifies this`rows, this`frontier, engine`docs, engine`last
      ensures Told(r, engine.last)
      ensures Valid() && frontier >= old(frontier) && cursor == old(cursor)
      ensures old(engine.docs) <= engine.docs && (engine.closed ==> engine.docs == old(engine.docs))
      ensures r.Some? ==> from <= r.value.nextCursor <= frontier
      ensures r.Some? && engine.closed && !r.value.lost ==>
                r.value.nextCursor == Min(from + 4200, |engine.docs|) && frontier == Max(old(frontier), r.value.nextCursor)
    {
      var at := from;
      var round := 0;
      while true
        invariant Valid() && from <= at <= frontier && frontier >= old(frontier) && round <= MAX_SYNC_ROUNDS
        invariant cursor == old(cursor)
        invariant old(engine.docs) <= engine.docs && (engine.closed ==> engine.docs == old(engine.docs))
        invariant engine.closed ==> at == Min(from + round * CALL_PAGES, |engine.docs|) && frontier == Max(old(frontier), at)
        decreases MAX_SYNC_ROUNDS - round
      {
        ghost var docs := engine.docs;
        var snap := GetJobStatus(engine, at);
        IngestedGrows(docs, engine.docs, rows, frontier);
        if snap.None? {
          return None;
        }
        InsertRange(engine.docs, rows, frontier, at, snap.value.nextCursor);
        PersistAll(snap.value.pages);
        frontier := Max(frontier, snap.value.nextCursor);
        if !snap.value.hasMore || round >= MAX_SYNC_ROUNDS {
          return snap;
        }
        at := snap.value.nextCursor;
        round := round + 1;
      }
    }

    /** The pull of one reconciler tick: ingest from sync_cursor and save how far it came. */
    method SyncTick() returns (r: Option<Snapshot>)
      requires Valid()
      modifies this, engine`docs, engine`last
      ensures Valid() && old(engine.docs) <= engine.docs && frontier >= old(frontier)
      ensures r.Some? ==> cursor == r.value.nextCursor >= old(cursor)
      ensures r == None ==> cursor == old(cursor)
      ensures Told(r, engine.last)
    {
      r := PullPages(cursor);
      if r.Some? {
        cursor := r.value.nextCursor;
      }
    }

    /**
     * drainAndFinish's ingestion: a full re-scan from 0, then the engine's failures. `failures` is None
     * when asking for them failed; an engine error on the way ends the drain early, a forgotten job (404)
     * only ends the re-scan.
     */
    method Drain(failures: Option<seq<Page>>) returns (snap: Option<Snapshot>)
      requires Valid()
      modifies this, engine`docs, engine`last
      ensures old(engine.docs) <= engine.docs && old(frontier) <= frontier <= |engine.docs|
      ensures rows == FirstWins(map[], engine.docs[..frontier] + if snap.Some? && failures.Some? then failures.value else [])
      ensures Told(snap, engine.last)
      ensures snap.Some? && !snap.value.lost && engine.closed ==> frontier == Max(old(frontier), Min(4200, |engine.docs|))
    {
      snap := PullPages(0);
      assert engine.docs[..frontier] + [] == engine.docs[..frontier];
      if snap.Some? && failures.Some? {
        FirstWinsConcat(map[], engine.docs[..frontier], failures.value);
        PersistAll(failures.value);
      }
    }

    /**
     * A crawl from the first tick to the end: any number of ticks while documents arrive, then the engine is through and
     * the drain runs. Up to 4200 documents every one is in the rows, and the failures come after all of them.
     */
    method SyncToTheEnd(ticks: nat, failures: seq<Page>) returns (snap: Option<Snapshot>)
      requires Valid()
      modifies this, engine
      ensures old(engine.docs) <= engine.docs && frontier <= |engine.docs|
      ensures snap.Some? ==> rows == FirstWins(map[], engine.docs[..frontier] + failures)
      ensures snap.Some? && !snap.value.lost ==> frontier >= Min(4200, |engine.docs|)
      ensures snap.Some? && !snap.value.lost && |engine.docs| <= 4200 ==> rows == FirstWins(map[], engine.docs + failures)
      ensures snap.Some? ==> RowsOf(rows, engine.docs[..frontier] + failures)
      ensures snap.Some? && !snap.value.lost && |engine.docs| <= 4200 ==> RowsOf(rows, engine.docs + failures)
    {
      for t := 0 to ticks
        invariant Valid() && old(engine.docs) <= engine.docs
      {
        var _ := SyncTick();
      }
      engine.closed := true;
      snap := Drain(Some(failures));
      assert |engine.docs| <= 4200 && frontier == |engine.docs| ==> engine.docs[..frontier] == engine.docs;
      FirstWinsByUrl(engine.docs[..frontier] + failures);
      FirstWinsByUrl(engine.docs + failures);
    }
  }

  ghost predicate Mentions(pages: seq<Page>, u: string) { exists i :: 0 <= i < |pages| && Key(pages[i]) == u }

  lemma {:induction false} RowsMention(pages: seq<Page>, u: string)
    ensures u in FirstWins(map[], pages) <==> Mentions(pages, u)
  {
    if pages != [] {
      var (front, last) := (pages[..|pages| - 1], pages[|pages| - 1]);
      RowsMention(front, u);
      if Mentions(front, u) { var i :| 0 <= i < |front| && Key(front[i]) == u; assert Key(pages[i]) == u; }
      if Mentions(pages, u) && Key(last) != u { var i :| 0 <= i < |pages| && Key(pages[i]) == u; assert Key(front[i]) == u; }
    }
  }

  /** The documents that first mention their URL behind the frontier have the row a complete drain would give them. */
  ghost predicate NothingMissing(docs: seq<Page>, frontier: nat, failures: seq<Page>)
    requires frontier <= |docs|
  {
    var f := FirstWins(map[], failures);
    forall j | frontier <= j < |docs| && !Mentions(docs[..j], Key(docs[j])) :: Key(docs[j]) in f && f[Key(docs[j])] == docs[j].success
  }

  /** How the rows of a part of the documents and of all of them relate at one URL. */
  ghost predicate Agrees(docs: seq<Page>, frontier: nat, part: Rows, all: Rows, u: string)
    requires frontier <= |docs|
  {
    && (u in part ==> u in all && all[u] == part[u])
    && (u in all && u !in part ==> exists j :: frontier <= j < |docs| && Key(docs[j]) == u && !Mentions(docs[..j], u))
    && forall j | frontier <= j < |docs| && Key(docs[j]) == u && !Mentions(docs[..j], u) :: u in all && u !in part && all[u] == docs[j].success
  }

  lemma SameUnder(docs: seq<Page>, frontier: nat, failures: seq<Page>, part: Rows, all: Rows, f: Rows)
    requires frontier <= |docs| && f == FirstWins(map[], failures) && forall u :: Agrees(docs, frontier, part, all, u)
    ensures f + part == f + all <==> NothingMissing(docs, frontier, failures)
  {
    if NothingMissing(docs, frontier, failures) {
      forall u | u in f + all ensures u in f + part && (f + part)[u] == (f + all)[u] {
        assert Agrees(docs, frontier, part, all, u);
        if u in all && u !in part {
          var j :| frontier <= j < |docs| && Key(docs[j]) == u && !Mentions(docs[..j], u);
          assert u in f && f[u] == docs[j].success;
        }
      }
      assert forall u | u in f + part :: u in f + all by { assert forall u | u in part :: Agrees(docs, frontier, part, all, u); }
    }
    if f + part == f + all {
      forall j | frontier <= j < |docs| && !Mentions(docs[..j], Key(docs[j])) ensures Key(docs[j]) in f && f[Key(docs[j])] == docs[j].success {
        var u := Key(docs[j]);
        assert Agrees(docs, frontier, part, all, u);
        assert (f + all)[u] == all[u];
        assert u in f + part;
      }
    }
  }

  lemma MentionedBefore(docs: seq<Page>, i: nat, n: nat)
    requires i < |docs| && n <= |docs|
    ensures i < n ==> Mentions(docs[..n], Key(docs[i]))
  {
    if i < n { assert Key(docs[..n][i]) == Key(docs[i]); }
  }

  /** The row of a URL is that of the one document that mentions it first. */
  lemma FirstMention(docs: seq<Page>, n: nat, u: string) returns (i: nat)
    requires n <= |docs| && u in FirstWins(map[], docs[..n])
    ensures i < n && Key(docs[i]) == u && !Mentions(docs[..i], u) && FirstWins(map[], docs[..n])[u] == docs[i].success
    ensures forall j | 0 <= j < |docs| && Key(docs[j]) == u && !Mentions(docs[..j], u) :: j == i
  {
    i := FirstWinsIsFirst(docs[..n], u);
    forall k | 0 <= k < i ensures Key(docs[k]) != u { assert docs[..n][k] == docs[k]; }
    forall j | 0 <= j < |docs| && Key(docs[j]) == u && !Mentions(docs[..j], u) ensures j == i { MentionedBefore(docs, i, j); }
  }

  lemma UrlAgrees(docs: seq<Page>, frontier: nat, u: string)
    requires frontier <= |docs|
    ensures Agrees(docs, frontier, FirstWins(map[], docs[..frontier]), FirstWins(map[], docs), u)
  {
    var (part, all) := (FirstWins(map[], docs[..frontier]), FirstWins(map[], docs));
    assert docs[..|docs|] == docs;
    RowsMention(docs, u);
    RowsMention(docs[..frontier], u);
    if u in part {
      var i := FirstMention(docs, frontier, u);
      assert Mentions(docs, u);
      var k := FirstMention(docs, |docs|, u);
    } else if u in all {
      var k := FirstMention(docs, |docs|, u);
      MentionedBefore(docs, k, frontier);
    }
  }

  /** What a drain that stops at the frontier leaves out, in terms of the rows: nothing, or exactly these documents. */
  lemma DrainIsComplete(docs: seq<Page>, frontier: nat, failures: seq<Page>)
    requires frontier <= |docs|
    ensures FirstWins(map[], docs[..frontier] + failures) == FirstWins(map[], docs + failures) <==> NothingMissing(docs, frontier, failures)
  {
    var (part, all) := (FirstWins(map[], docs[..frontier]), FirstWins(map[], docs));
    FirstWinsConcat(map[], docs[..frontier], failures);
    FirstWinsConcat(map[], docs, failures);
    FirstWinsUnder(part, failures);
    FirstWinsUnder(all, failures);
    forall u ensures Agrees(docs, frontier, part, all, u) { UrlAgrees(docs, frontier, u); }
    SameUnder(docs, frontier, failures, part, all, FirstWins(map[], failures));
  }
}
