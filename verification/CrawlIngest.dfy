/**
 * Crawl ingestion: paging through the engine's document list, inserting one result row per URL
 * (the first one wins), and the final drain that adds the engine's failures.
 */
module CrawlIngest {
  import opened Common

  const STATUS_PAGE_SIZE := 50
  const MAX_BATCHES_PER_CALL := 4
  const MAX_SYNC_ROUNDS := 20
  const CALL_PAGES := 200    // one getJobStatus call: 4 batches of 50
  const DRAIN_PAGES := 4200  // (20 + 1) calls
  const MAX_URL := 4096

  datatype Page = Page(url: string, success: bool)

  /** results (job_id, url) -> success; page.url is cut to 4096 characters. */
  type Rows = map<string, bool>

  function Key(p: Page): string { if |p.url| <= MAX_URL then p.url else p.url[..MAX_URL] }

  /** INSERT ... ON CONFLICT (job_id, url) DO NOTHING. */
  function Insert(rows: Rows, p: Page): Rows { if Key(p) in rows then rows else rows[Key(p) := p.success] }

  /** The first page of each URL wins. */
  function FirstWins(rows: Rows, pages: seq<Page>): Rows {
    if pages == [] then rows else Insert(FirstWins(rows, pages[..|pages| - 1]), pages[|pages| - 1])
  }

  lemma {:induction false} FirstWinsConcat(rows: Rows, a: seq<Page>, b: seq<Page>)
    ensures FirstWins(rows, a + b) == FirstWins(FirstWins(rows, a), b)
  {
    if b == [] {
      assert a + b == a;
    } else {
      var n := |b| - 1;
      FirstWinsConcat(rows, a, b[..n]);
      assert (a + b)[..|a + b| - 1] == a + b[..n];
    }
  }

  lemma {:induction false} FirstWinsKeeps(rows: Rows, pages: seq<Page>, i: nat)
    ensures forall u | u in rows :: u in FirstWins(rows, pages) && FirstWins(rows, pages)[u] == rows[u]
    ensures i < |pages| ==> Key(pages[i]) in FirstWins(rows, pages)
  {
    if pages != [] { FirstWinsKeeps(rows, pages[..|pages| - 1], i); }
  }

  /** A row holds the outcome of the first page with its URL. */
  lemma {:induction false} FirstWinsIsFirst(pages: seq<Page>, u: string) returns (i: nat)
    requires u in FirstWins(map[], pages)
    ensures i < |pages| && Key(pages[i]) == u && FirstWins(map[], pages)[u] == pages[i].success
    ensures forall j | 0 <= j < i :: Key(pages[j]) != u
  {
    var n := |pages| - 1;
    if u in FirstWins(map[], pages[..n]) {
      i := FirstWinsIsFirst(pages[..n], u);
    } else {
      i := n;
      forall j | 0 <= j < n ensures Key(pages[j]) != u { FirstWinsKeeps(map[], pages[..n], j); }
    }
  }

  /** The key of a page's row: its URL, of which only the first 4096 characters count. */
  predicate Names(u: string, p: Page) { if |p.url| <= 4096 then u == p.url else u == p.url[..4096] }

  /** The first page that names u has this outcome. */
  ghost predicate FirstSays(pages: seq<Page>, u: string, success: bool) {
    exists i :: 0 <= i < |pages| && Names(u, pages[i]) && pages[i].success == success && forall j | 0 <= j < i :: !Names(u, pages[j])
  }

  /** Each row is named by a page and has the outcome of the first that names it; each page names a row. */
  ghost predicate RowsOf(rows: Rows, pages: seq<Page>) {
    && (forall u | u in rows :: FirstSays(pages, u, rows[u]))
    && (forall i | 0 <= i < |pages| && |pages[i].url| <= 4096 :: pages[i].url in rows)
    && forall i | 0 <= i < |pages| && |pages[i].url| > 4096 :: pages[i].url[..4096] in rows
  }

  lemma NamesItsKey(p: Page, u: string)
    ensures Names(u, p) <==> Key(p) == u
  {
  }

  lemma RowByUrl(pages: seq<Page>, u: string)
    requires u in FirstWins(map[], pages)
    ensures FirstSays(pages, u, FirstWins(map[], pages)[u])
  {
    var i := FirstWinsIsFirst(pages, u);
    NamesItsKey(pages[i], u);
    forall j | 0 <= j < i ensures !Names(u, pages[j]) { NamesItsKey(pages[j], u); }
  }

  lemma PageHasRow(pages: seq<Page>, i: nat, u: string)
    requires i < |pages| && Names(u, pages[i])
    ensures u in FirstWins(map[], pages)
  {
    NamesItsKey(pages[i], u);
    FirstWinsKeeps(map[], pages, i);
  }

  /** The rows of any list of pages, in terms of their URLs alone. */
  lemma FirstWinsByUrl(pages: seq<Page>)
    ensures RowsOf(FirstWins(map[], pages), pages)
  {
    var rows := FirstWins(map[], pages);
    forall u | u in rows ensures FirstSays(pages, u, rows[u]) { RowByUrl(pages, u); }
    forall i | 0 <= i < |pages| && |pages[i].url| <= 4096 ensures pages[i].url in rows { PageHasRow(pages, i, pages[i].url); }
    forall i | 0 <= i < |pages| && |pages[i].url| > 4096 ensures pages[i].url[..4096] in rows { PageHasRow(pages, i, pages[i].url[..4096]); }
  }

  /** Pages whose URLs differ within their first 4096 characters have different rows. */
  lemma UrlsApart(pages: seq<Page>, i: nat, j: nat, k: nat, u: string, v: string)
    requires i < |pages| && j < |pages| && k < 4096 && k < |pages[i].url|
    requires k < |pages[j].url| ==> pages[i].url[k] != pages[j].url[k]
    requires Names(u, pages[i]) && Names(v, pages[j])
    ensures u in FirstWins(map[], pages) && v in FirstWins(map[], pages) && u != v
  {
    PageHasRow(pages, i, u);
    PageHasRow(pages, j, v);
    assert u[k] == pages[i].url[k];
    assert k < |v| ==> v[k] == pages[j].url[k];
  }

  /** Rows that were there first override what the pages would have brought. */
  lemma {:induction false} FirstWinsUnder(rows: Rows, pages: seq<Page>)
    ensures FirstWins(rows, pages) == FirstWins(map[], pages) + rows
  {
    if pages != [] { FirstWinsUnder(rows, pages[..|pages| - 1]); }
  }

  lemma OneLonger(pages: seq<Page>, k: nat)
    requires k < |pages|
    ensures pages[..k + 1] == pages[..k] + [pages[k]]
  {
  }

  lemma FirstWinsLast(rows: Rows, pages: seq<Page>, p: Page)
    ensures FirstWins(rows, pages + [p]) == Insert(FirstWins(rows, pages), p)
  {
    assert (pages + [p])[..|pages|] == pages;
  }

  lemma FirstWinsSnoc(pages: seq<Page>, p: Page)
    ensures FirstWins(map[], pages + [p]) == Insert(FirstWins(map[], pages), p)
  {
    assert (pages + [p])[..|pages|] == pages;
  }

  // ------------------------------------------------------------------ how far ingestion has come

  /** The rows are the first-wins fold of the first k documents. */
  ghost predicate Ingested(docs: seq<Page>, rows: Rows, k: nat) {
    k <= |docs| && rows == FirstWins(map[], docs[..k])
  }

  /** Inserting a document at or before the frontier keeps the fold; at the frontier it moves it by one. */
  lemma InsertOne(docs: seq<Page>, rows: Rows, k: nat, pos: nat)
    requires Ingested(docs, rows, k) && pos <= k && pos < |docs|
    ensures Ingested(docs, Insert(rows, docs[pos]), Max(k, pos + 1))
  {
    if pos < k {
      FirstWinsKeeps(map[], docs[..k], pos);
    } else {
      OneLonger(docs, k);
      FirstWinsSnoc(docs[..k], docs[k]);
    }
  }

  lemma RangeGrows(docs: seq<Page>, rows: Rows, from: nat, until: nat)
    requires from < until <= |docs|
    ensures FirstWins(rows, docs[from..until]) == Insert(FirstWins(rows, docs[from..until - 1]), docs[until - 1])
  {
    assert docs[from..until] == docs[from..until - 1] + [docs[until - 1]];
    FirstWinsLast(rows, docs[from..until - 1], docs[until - 1]);
  }

  lemma {:induction false} InsertRange(docs: seq<Page>, rows: Rows, k: nat, from: nat, until: nat)
    requires Ingested(docs, rows, k) && from <= k && from <= until <= |docs|
    ensures Ingested(docs, FirstWins(rows, docs[from..until]), Max(k, until))
    decreases until
  {
    if from < until {
      var front := docs[from..until - 1];
      InsertRange(docs, rows, k, from, until - 1);
      InsertOne(docs, FirstWins(rows, front), Max(k, until - 1), until - 1);
      RangeGrows(docs, rows, from, until);
    } else {
      assert docs[from..until] == [];
    }
  }

  lemma IngestedGrows(docs: seq<Page>, more: seq<Page>, rows: Rows, k: nat)
    requires Ingested(docs, rows, k) && docs <= more
    ensures Ingested(more, rows, k)
  {
    assert more[..k] == docs[..k];
  }

  // ------------------------------------------------------------------ any number of reconcilers at once

  /**
   * Where a reconciler is between lease and release: it pulls from sync_cursor, saves how far it came, and once the engine
   * is through it drains, from the first document on, records the engine's failures and writes the leased cursor back.
   */
  datatype Phase = Ahead | Saved | FromStart | Recording | Restored

  /** A reconciler's next document, and the sync_cursor of the job row it leased. */
  datatype Pull = Pull(at: nat, seen: nat, phase: Phase)

  /**
   * docs only grows; cursor is the job's sync_cursor column. The last three are history that no step reads: how many
   * documents were inserted, the failures inserted, and the URLs whose row a failure brought.
   */
  datatype CrawlState = CrawlState(docs: seq<Page>, rows: Rows, cursor: nat, pulls: map<nat, Pull>,
                                   done: nat, failed: seq<Page>, claimed: set<string>)

  const NOTHING := CrawlState([], map[], 0, map[], 0, [], {})

  datatype CrawlStep =
    | Arrive(page: Page)             // the engine finishes another document
    | Lease(actor: nat)              // a reconciler reads the job; it will pull from its sync_cursor
    | Rescan(actor: nat)             // its drain starts over from 0, after a pull or, when the crawl took too long, without
    | Persist(actor: nat)            // it inserts the next document
    | Fail(actor: nat, page: Page)   // its drain, past the documents, inserts one of the engine's failures
    | Save(actor: nat)               // it writes its position to sync_cursor
    | Restore(actor: nat)            // its drain writes back the sync_cursor it leased
    | End(actor: nat)                // it releases the lease, finishes the job, throws or dies

  predicate CrawlEnabled(s: CrawlState, step: CrawlStep) {
    match step
    case Arrive(_) => true
    case Lease(a) => a !in s.pulls
    case Rescan(a) => a in s.pulls && (s.pulls[a].phase.Saved? || (s.pulls[a].phase.Ahead? && s.pulls[a].at == s.pulls[a].seen))
    case Persist(a) => a in s.pulls && (s.pulls[a].phase.Ahead? || s.pulls[a].phase.FromStart?) && s.pulls[a].at < |s.docs|
    case Fail(a, _) => a in s.pulls && (s.pulls[a].phase.FromStart? || s.pulls[a].phase.Recording?)
    case Save(a) => a in s.pulls && s.pulls[a].phase.Ahead?
    case Restore(a) => a in s.pulls && (s.pulls[a].phase.FromStart? || s.pulls[a].phase.Recording?)
    case End(a) => a in s.pulls
  }

  /** The reconciler moves on to another phase. */
  function Enter(s: CrawlState, a: nat, phase: Phase): map<nat, Pull>
    requires a in s.pulls
  {
    s.pulls[a := s.pulls[a].(phase := phase)]
  }

  function CrawlApply(s: CrawlState, step: CrawlStep): CrawlState
    requires CrawlEnabled(s, step)
  {
    match step
    case Arrive(p) => s.(docs := s.docs + [p])
    case Lease(a) => s.(pulls := s.pulls[a := Pull(s.cursor, s.cursor, Ahead)])
    case Rescan(a) => s.(pulls := s.pulls[a := s.pulls[a].(at := 0, phase := FromStart)])
    case Persist(a) =>
      var at := s.pulls[a].at;
      s.(rows := Insert(s.rows, s.docs[at]), pulls := s.pulls[a := s.pulls[a].(at := at + 1)], done := Max(s.done, at + 1))
    case Fail(a, p) =>
      s.(rows := Insert(s.rows, p), failed := s.failed + [p], pulls := Enter(s, a, Recording),
          claimed := if Key(p) in s.rows then s.claimed else s.claimed + {Key(p)})
    case Save(a) => s.(cursor := s.pulls[a].at, pulls := Enter(s, a, Saved))
    case Restore(a) => s.(cursor := s.pulls[a].seen, pulls := Enter(s, a, Restored))
    case End(a) => s.(pulls := s.pulls - {a})
  }

  /** What the first `done` documents alone bring. */
  function Documents(s: CrawlState): Rows { FirstWins(map[], s.docs[..Min(s.done, |s.docs|)]) }

  /** Nobody, nor the cursor, is ahead of the documents inserted. */
  ghost predicate WithinDone(s: CrawlState) {
    s.done <= |s.docs| && s.cursor <= s.done && forall a | a in s.pulls :: s.pulls[a].at <= s.done && s.pulls[a].seen <= s.done
  }

  /** The rows of documents d and failures f: a row is the document's unless the failure came before it. */
  ghost predicate Explained(rows: Rows, d: Rows, f: Rows, claimed: set<string>) {
    && rows.Keys == d.Keys + f.Keys && claimed <= f.Keys && f.Keys - d.Keys <= claimed
    && forall u | u in rows :: rows[u] == if u in claimed then f[u] else d[u]
  }

  /** A row is its first document's, unless a failure came before it: then it is the first failure's. */
  ghost predicate RowsExplained(s: CrawlState) { Explained(s.rows, Documents(s), FirstWins(map[], s.failed), s.claimed) }

  ghost predicate CrawlInvariant(s: CrawlState) { WithinDone(s) && RowsExplained(s) }

  lemma DocumentsStay(s: CrawlState, p: Page)
    requires s.done <= |s.docs|
    ensures Documents(s.(docs := s.docs + [p])) == Documents(s)
  {
    assert (s.docs + [p])[..s.done] == s.docs[..s.done];
  }

  /** Inserting a document again changes no row; the next one adds its row unless its URL has one. */
  lemma PersistDocuments(s: CrawlState, a: nat)
    requires CrawlInvariant(s) && CrawlEnabled(s, Persist(a))
    ensures var (at, s') := (s.pulls[a].at, CrawlApply(s, Persist(a)));
            && s'.done <= |s'.docs| && Key(s.docs[at]) in Documents(s')
            && Documents(s') == if at < s.done then Documents(s) else Insert(Documents(s), s.docs[at])
  {
    var at := s.pulls[a].at;
    if at < s.done {
      FirstWinsKeeps(map[], s.docs[..s.done], at);
    } else {
      OneLonger(s.docs, at);
      FirstWinsSnoc(s.docs[..at], s.docs[at]);
    }
  }

  /** A document brings its URL's row unless there is one; inserting it again changes nothing. */
  lemma DocumentExplained(rows: Rows, d: Rows, f: Rows, claimed: set<string>, p: Page)
    requires Explained(rows, d, f, claimed)
    ensures Explained(Insert(rows, p), Insert(d, p), f, claimed) && (Key(p) in d ==> Insert(rows, p) == rows)
  {
  }

  lemma PersistKeeps(s: CrawlState, a: nat)
    requires CrawlInvariant(s) && CrawlEnabled(s, Persist(a))
    ensures CrawlInvariant(CrawlApply(s, Persist(a)))
  {
    PersistDocuments(s, a);
    DocumentExplained(s.rows, Documents(s), FirstWins(map[], s.failed), s.claimed, s.docs[s.pulls[a].at]);
  }

  /** A failure brings its URL's row unless there is one. */
  lemma FailureExplained(rows: Rows, d: Rows, f: Rows, claimed: set<string>, p: Page)
    requires Explained(rows, d, f, claimed)
    ensures Explained(Insert(rows, p), d, Insert(f, p), if Key(p) in rows then claimed else claimed + {Key(p)})
  {
  }

  lemma FailKeeps(s: CrawlState, a: nat, p: Page)
    requires CrawlInvariant(s) && CrawlEnabled(s, Fail(a, p))
    ensures CrawlInvariant(CrawlApply(s, Fail(a, p)))
  {
    FirstWinsSnoc(s.failed, p);
    FailureExplained(s.rows, Documents(s), FirstWins(map[], s.failed), s.claimed, p);
  }

  lemma CrawlStepKeeps(s: CrawlState, step: CrawlStep)
    requires CrawlInvariant(s) && CrawlEnabled(s, step)
    ensures CrawlInvariant(CrawlApply(s, step))
  {
    if step.Persist? {
      PersistKeeps(s, step.actor);
    } else if step.Fail? {
      FailKeeps(s, step.actor, step.page);
    } else if step.Arrive? {
      DocumentsStay(s, step.page);
    } else {
      assert Documents(CrawlApply(s, step)) == Documents(s);
    }
  }

  ghost predicate IsCrawlRun(states: seq<CrawlState>, steps: seq<CrawlStep>) {
    && |states| == |steps| + 1 && states[0] == NOTHING
    && forall i | 0 <= i < |steps| :: CrawlEnabled(states[i], steps[i]) && states[i + 1] == CrawlApply(states[i], steps[i])
  }

  /**
   * However many reconcilers overlap, drain and move the cursor back, and however that interleaves with new documents:
   * there is a row for every document inserted and every failure, it is the first document's of its URL unless a failure
   * came earlier, and every document below sync_cursor has its row.
   */
  lemma {:induction false} OverlappingPulls(states: seq<CrawlState>, steps: seq<CrawlStep>, i: nat)
    requires IsCrawlRun(states, steps) && i <= |steps|
    ensures CrawlInvariant(states[i])
    ensures forall j | 0 <= j < states[i].done :: Key(states[i].docs[j]) in states[i].rows
    ensures states[i].cursor <= states[i].done
  {
    if i > 0 {
      OverlappingPulls(states, steps, i - 1);
      CrawlStepKeeps(states[i - 1], steps[i - 1]);
    }
    var s := states[i];
    forall j | 0 <= j < s.done ensures Key(s.docs[j]) in s.rows { FirstWinsKeeps(map[], s.docs[..s.done], j); }
  }

  // ------------------------------------------------------------------ documents first, failures after

  /** The rows are what all documents inserted, and then all failures, would have brought in this order. */
  ghost predicate DocumentsFirst(s: CrawlState) { s.rows == FirstWins(Documents(s), s.failed) }

  /** It holds exactly when every URL a failure claimed before its document has the same outcome in both. */
  lemma DocumentsFirstExactly(s: CrawlState)
    requires CrawlInvariant(s)
    ensures DocumentsFirst(s) <==>
            forall u | u in s.claimed && u in Documents(s) :: FirstWins(map[], s.failed)[u] == Documents(s)[u]
  {
    var (d, f) := (Documents(s), FirstWins(map[], s.failed));
    FirstWinsUnder(d, s.failed);
    if DocumentsFirst(s) {
      forall u | u in s.claimed && u in d ensures f[u] == d[u] { assert (f + d)[u] == d[u] && s.rows[u] == f[u]; }
    }
    if forall u | u in s.claimed && u in d :: f[u] == d[u] {
      assert s.rows.Keys == (f + d).Keys;
      forall u | u in s.rows ensures s.rows[u] == (f + d)[u] { assert u in s.claimed && u in d ==> f[u] == d[u]; }
    }
  }

  /** The step inserts a document whose URL so far has only a failure's row, with another outcome. */
  predicate Overtaken(s: CrawlState, step: CrawlStep) {
    && step.Persist? && step.actor in s.pulls && s.pulls[step.actor].at == s.done < |s.docs|
    && var p := s.docs[s.done];
       Key(p) in s.rows && Key(p) !in Documents(s) && s.rows[Key(p)] != p.success
  }

  /** A step loses the order exactly when a failure overtook its document, and a lost order never comes back. */
  lemma DocumentsFirstStep(s: CrawlState, step: CrawlStep)
    requires CrawlInvariant(s) && CrawlEnabled(s, step)
    ensures DocumentsFirst(CrawlApply(s, step)) <==> DocumentsFirst(s) && !Overtaken(s, step)
  {
    var s' := CrawlApply(s, step);
    CrawlStepKeeps(s, step);
    FirstWinsUnder(Documents(s), s.failed);
    FirstWinsUnder(Documents(s'), s'.failed);
    match step
    case Arrive(p) => DocumentsStay(s, p);
    case Persist(a) => PersistOrder(s, a);
    case Fail(a, p) => FailOrder(s, a, p);
    case _ =>
  }

  lemma FailOrder(s: CrawlState, a: nat, p: Page)
    requires CrawlInvariant(s) && CrawlEnabled(s, Fail(a, p))
    ensures DocumentsFirst(CrawlApply(s, Fail(a, p))) <==> DocumentsFirst(s)
  {
    var (d, f) := (Documents(s), FirstWins(map[], s.failed));
    FirstWinsSnoc(s.failed, p);
    DocumentsFirstExactly(s);
    CrawlStepKeeps(s, Fail(a, p));
    DocumentsFirstExactly(CrawlApply(s, Fail(a, p)));
    assert forall u | u in f :: Insert(f, p)[u] == f[u];
    assert Key(p) !in s.rows ==> Key(p) !in d;
  }

  lemma PersistOrder(s: CrawlState, a: nat)
    requires CrawlInvariant(s) && CrawlEnabled(s, Persist(a))
    ensures CrawlInvariant(CrawlApply(s, Persist(a)))
    ensures DocumentsFirst(CrawlApply(s, Persist(a))) <==> DocumentsFirst(s) && !Overtaken(s, Persist(a))
  {
    var (s', p) := (CrawlApply(s, Persist(a)), s.docs[s.pulls[a].at]);
    PersistDocuments(s, a);
    CrawlStepKeeps(s, Persist(a));
    DocumentsFirstExactly(s);
    DocumentsFirstExactly(s');
    assert forall u | u in Documents(s) :: u in Documents(s') && Documents(s')[u] == Documents(s)[u];
    if Key(p) in s.claimed { assert Key(p) in Documents(s'); }
  }

  ghost predicate NeverOvertaken(states: seq<CrawlState>, steps: seq<CrawlStep>, n: nat)
    requires n <= |steps| <= |states|
  {
    forall j | 0 <= j < n :: !Overtaken(states[j], steps[j])
  }

  /** So the rows of a whole run are the documents' first and the failures' after exactly when no document was overtaken. */
  lemma {:induction false} RunKeepsOrder(states: seq<CrawlState>, steps: seq<CrawlStep>, i: nat)
    requires IsCrawlRun(states, steps) && i <= |steps|
    ensures DocumentsFirst(states[i]) <==> NeverOvertaken(states, steps, i)
  {
    if i > 0 {
      RunKeepsOrder(states, steps, i - 1);
      StepInRun(states, steps, i - 1);
      assert NeverOvertaken(states, steps, i) <==> NeverOvertaken(states, steps, i - 1) && !Overtaken(states[i - 1], steps[i - 1]);
    }
  }

  lemma StepInRun(states: seq<CrawlState>, steps: seq<CrawlStep>, i: nat)
    requires IsCrawlRun(states, steps) && i < |steps|
    ensures DocumentsFirst(states[i + 1]) <==> DocumentsFirst(states[i]) && !Overtaken(states[i], steps[i])
  {
    OverlappingPulls(states, steps, i);
    DocumentsFirstStep(states[i], steps[i]);
  }

  const FAILED_A := Page("a", false)
  const LOADED_A := Page("a", true)

  /** A drain records a failure and its lease ends before the job does; the page arrives, and the next lease finds it. */
  const OVERTAKING := [Lease(0), Rescan(0), Fail(0, FAILED_A), End(0), Arrive(LOADED_A), Lease(0)]

  const LEASED := CrawlState([], map[], 0, map[0 := Pull(0, 0, Ahead)], 0, [], {})
  const RESCANNED := LEASED.(pulls := map[0 := Pull(0, 0, FromStart)])
  const RECORDED := CrawlState([], map["a" := false], 0, map[0 := Pull(0, 0, Recording)], 0, [FAILED_A], {"a"})
  const RELEASED := RECORDED.(pulls := map[])
  const DELIVERED := RELEASED.(docs := [LOADED_A])
  const RETRIED := DELIVERED.(pulls := map[0 := Pull(0, 0, Ahead)])

  const OVERTAKEN := [NOTHING, LEASED, RESCANNED, RECORDED, RELEASED, DELIVERED, RETRIED]

  lemma OvertakingSteps()
    ensures LEASED == CrawlApply(NOTHING, Lease(0)) && RESCANNED == CrawlApply(LEASED, Rescan(0))
    ensures RECORDED == CrawlApply(RESCANNED, Fail(0, FAILED_A)) && RELEASED == CrawlApply(RECORDED, End(0))
    ensures DELIVERED == CrawlApply(RELEASED, Arrive(LOADED_A)) && RETRIED == CrawlApply(DELIVERED, Lease(0))
  {
  }

  lemma OvertakingRuns()
    ensures IsCrawlRun(OVERTAKEN, OVERTAKING)
  {
    OvertakingSteps();
  }

  /** It happens: the document that comes after its failure is inserted in vain. */
  lemma FailureOvertakes()
    ensures IsCrawlRun(OVERTAKEN, OVERTAKING) && OVERTAKEN[6] == RETRIED
    ensures CrawlEnabled(RETRIED, Persist(0)) && Overtaken(RETRIED, Persist(0))
    ensures CrawlInvariant(CrawlApply(RETRIED, Persist(0))) && !DocumentsFirst(CrawlApply(RETRIED, Persist(0)))
  {
    OvertakingRuns();
    OverlappingPulls(OVERTAKEN, OVERTAKING, 6);
    CrawlStepKeeps(RETRIED, Persist(0));
    DocumentsFirstStep(RETRIED, Persist(0));
  }
}
