/** The queue's tables as a mutable object: each method is one statement or transaction of the source. */
module TaskQueueDb {
  import opened Common
  import opened TaskQueue
  import opened TaskQueueSafety
  import opened TaskQueueRuns

  /** ORDER BY priority DESC, id. */
  predicate Precedes(tasks: map<TaskId, Task>, a: TaskId, b: TaskId)
    requires a in tasks && b in tasks
  {
    tasks[a].priority > tasks[b].priority || (tasks[a].priority == tasks[b].priority && a <= b)
  }

  /** Queued, due, of a kind this worker takes, and fewer of the kind running than its cap, 1000000 unless configured. */
  ghost predicate Due(cfg: Config, tasks: map<TaskId, Task>, now: nat, id: TaskId)
    requires id in tasks
  {
    var t := tasks[id];
    && t.status == Queued && t.runAfter <= now && t.kind in cfg.kinds
    && |set o | o in tasks && tasks[o].kind == t.kind && tasks[o].status == Running| < if t.kind in cfg.caps then cfg.caps[t.kind] else 1000000
  }

  lemma DueIsClaimable(cfg: Config, d: Db, now: nat, id: TaskId)
    requires id in d.tasks
    ensures Due(cfg, d.tasks, now, id) <==> Claimable(cfg, d, now, id)
  {
    var k := d.tasks[id].kind;
    assert RunningOf(d.tasks, k) == set o | o in d.tasks && d.tasks[o].kind == k && d.tasks[o].status == Running;
  }

  ghost predicate IsFirst(tasks: map<TaskId, Task>, candidates: set<TaskId>, id: TaskId)
    requires candidates <= tasks.Keys
  {
    id in candidates && forall o | o in candidates :: Precedes(tasks, id, o)
  }

  lemma {:induction false} FirstExists(tasks: map<TaskId, Task>, candidates: set<TaskId>) returns (id: TaskId)
    requires candidates <= tasks.Keys && candidates != {}
    ensures IsFirst(tasks, candidates, id)
    decreases |candidates|
  {
    var x :| x in candidates;
    var rest := candidates - {x};
    if rest == {} {
      assert candidates == {x};
      id := x;
    } else {
      var y := FirstExists(tasks, rest);
      id := if Precedes(tasks, x, y) then x else y;
      assert forall o | o in candidates :: o == x || o in rest;
    }
  }

  /** What starting a run for a domain without an active run keeps. */
  lemma StartKeeps(cfg: Config, d: Db, domain: DomainId, collectors: seq<Kind>, now: nat)
    requires WellFormed(d) && OneActiveRun(d) && forall k | k in collectors :: k.Collector?
    requires forall x | x in d.runs && d.runs[x].domain == domain :: !Active(d.runs[x])
    ensures var e := CreateRun(cfg, d, domain, collectors, now);
            && WellFormed(e) && OneActiveRun(e) && RunsKept(d, e) && d.nextRun !in d.runs
            && e.runs == d.runs[d.nextRun := Run(domain, RunQueued, collectors, now)]
  {
    CreateRunKeeps(cfg, d, domain, collectors, now);
  }

  /** At most the row `id` differs, and it stays the task it was; no run changes. */
  ghost predicate OnlyTask(d: Db, e: Db, id: TaskId) {
    Touches(d, e, id) && e.runs == d.runs
  }

  /** Nobody can claim the task before `time`. */
  ghost predicate WaitsUntil(cfg: Config, d: Db, id: TaskId, time: nat) {
    forall now: nat | now < time :: !Claimable(cfg, d, now, id)
  }

  /** A domains row. */
  datatype Domain = Domain(id: DomainId, lastRun: Option<RunId>, lastCompleted: Option<nat>)

  datatype IngestResult = Invalid | Duplicate | Existing(run: RunId) | Recent(last: Option<RunId>) | Started(run: RunId)

  predicate SeenBefore(inputs: seq<Option<string>>, i: nat)
    requires i < |inputs|
  {
    inputs[i].Some? && exists j :: 0 <= j < i && inputs[j] == inputs[i]
  }

  /** seen holds the names among the first n inputs. */
  ghost predicate Noted(inputs: seq<Option<string>>, n: nat, seen: set<string>)
    requires n <= |inputs|
  {
    forall x: string :: x in seen <==> Some(x) in inputs[..n]
  }

  lemma NotedNext(inputs: seq<Option<string>>, n: nat, seen: set<string>)
    requires n < |inputs| && Noted(inputs, n, seen)
    ensures SeenBefore(inputs, n) <==> inputs[n].Some? && inputs[n].value in seen
    ensures Noted(inputs, n + 1, if inputs[n].Some? then seen + {inputs[n].value} else seen)
  {
    assert inputs[..n + 1] == inputs[..n] + [inputs[n]];
    if inputs[n].Some? { assert inputs[n].value in seen <==> Some(inputs[n].value) in inputs[..n]; }
  }

  /** Which inputs were refused as invalid, and which as named before. */
  ghost predicate Classified(inputs: seq<Option<string>>, results: seq<IngestResult>) {
    && |results| <= |inputs|
    && forall i | 0 <= i < |results| :: (results[i].Invalid? <==> inputs[i] == None) && (results[i].Duplicate? <==> SeenBefore(inputs, i))
  }

  /** The result's run is an active run of the input's domain. */
  predicate Serves(domains: map<string, Domain>, runs: map<RunId, Run>, r: IngestResult, input: Option<string>) {
    r.Existing? || r.Started? ==>
      input.Some? && input.value in domains && r.run in runs && Active(runs[r.run]) && runs[r.run].domain == domains[input.value].id
  }

  ghost predicate AllServed(domains: map<string, Domain>, runs: map<RunId, Run>, inputs: seq<Option<string>>, results: seq<IngestResult>) {
    |results| <= |inputs| && forall i | 0 <= i < |results| :: Serves(domains, runs, results[i], inputs[i])
  }

  /** No domain or run is lost or reassigned. */
  ghost predicate Kept(domains: map<string, Domain>, runs: map<RunId, Run>, domains': map<string, Domain>, runs': map<RunId, Run>) {
    && (forall n | n in domains :: n in domains' && domains'[n].id == domains[n].id)
    && forall x | x in runs :: x in runs' && runs'[x] == runs[x]
  }

  lemma AllServedNext(domains: map<string, Domain>, runs: map<RunId, Run>, domains': map<string, Domain>, runs': map<RunId, Run>,
                      inputs: seq<Option<string>>, results: seq<IngestResult>, r: IngestResult)
    requires |results| < |inputs| && AllServed(domains, runs, inputs, results) && Kept(domains, runs, domains', runs')
    requires Serves(domains', runs', r, inputs[|results|])
    ensures AllServed(domains', runs', inputs, results + [r])
  {
  }

  /** Runs the request started did not exist before it. */
  ghost predicate StartsNew(before: set<RunId>, results: seq<IngestResult>) {
    forall i | 0 <= i < |results| && results[i].Started? :: results[i].run !in before
  }

  lemma ClassifiedNext(inputs: seq<Option<string>>, results: seq<IngestResult>, r: IngestResult)
    requires |results| < |inputs| && Classified(inputs, results)
    requires (r.Invalid? <==> inputs[|results|] == None) && (r.Duplicate? <==> SeenBefore(inputs, |results|))
    ensures Classified(inputs, results + [r])
  {
  }

  lemma StartsNewNext(before: set<RunId>, results: seq<IngestResult>, r: IngestResult)
    requires StartsNew(before, results) && (r.Started? ==> r.run !in before)
    ensures StartsNew(before, results + [r])
  {
  }

  predicate RunsFor(runs: map<RunId, Run>, domain: DomainId) { exists x :: x in runs && runs[x].domain == domain && Active(runs[x]) }

  /** What a name's result must be, given the tables as they were: its active run, its last run if that is recent, or a new one. */
  ghost predicate Decides(domains: map<string, Domain>, runs: map<RunId, Run>, name: string, r: IngestResult, force: bool, window: nat, now: nat) {
    var active := name in domains && RunsFor(runs, domains[name].id);
    var recent := name in domains && !force && window > 0 && domains[name].lastCompleted.Some? && domains[name].lastCompleted.value + window > now;
    && (r.Existing? <==> active) && (r.Recent? <==> !active && recent) && (r.Started? <==> !active && !recent)
    && (r.Existing? ==> r.run in runs && Active(runs[r.run]) && runs[r.run].domain == domains[name].id)
    && (r.Recent? ==> r.last == domains[name].lastRun)
    && (r.Started? ==> r.run !in runs)
  }

  /** At most the name's row is new or differs, and no domain's id does. */
  ghost predicate OneDomain(domains: map<string, Domain>, domains': map<string, Domain>, name: string) {
    && (forall n | n in domains :: n in domains' && domains'[n].id == domains[n].id && (n != name ==> domains'[n] == domains[n]))
    && name in domains' && forall n | n in domains' :: n in domains || n == name
  }

  lemma OneDomainAgain(a: map<string, Domain>, b: map<string, Domain>, c: map<string, Domain>, name: string)
    requires OneDomain(a, b, name) && OneDomain(b, c, name)
    ensures OneDomain(a, c, name)
  {
  }

  /** A row just inserted for a name decides as no row did. */
  lemma DecidesWithRow(domains: map<string, Domain>, domains': map<string, Domain>, runs: map<RunId, Run>, name: string, r: IngestResult,
                       force: bool, window: nat, now: nat)
    requires Decides(domains', runs, name, r, force, window, now) && name in domains'
    requires name in domains ==> domains' == domains
    requires name !in domains ==> domains'[name].lastCompleted == None && forall x | x in runs :: runs[x].domain != domains'[name].id
    ensures Decides(domains, runs, name, r, force, window, now)
  {
  }

  /** After some names were handled: the other domains are as they were, and so are all runs but those of the handled ones. */
  ghost predicate Spares(domains: map<string, Domain>, runs: map<RunId, Run>, seen: set<string>, domains': map<string, Domain>, runs': map<RunId, Run>) {
    && (forall n | n !in seen :: (n in domains' <==> n in domains) && (n in domains' ==> domains'[n] == domains[n]))
    && (forall x | x in runs :: x in runs' && runs'[x] == runs[x])
    && (forall x | x in runs' && x !in runs :: exists n :: n in seen && n in domains' && domains'[n].id == runs'[x].domain)
    && forall m, n | m in domains' && n in domains' && domains'[m].id == domains'[n].id :: m == n
  }

  /** So a name not handled yet is decided as it would have been first of all. */
  lemma DecidesAsBefore(domains: map<string, Domain>, runs: map<RunId, Run>, seen: set<string>, domains': map<string, Domain>,
                        runs': map<RunId, Run>, name: string, r: IngestResult, force: bool, window: nat, now: nat)
    requires Spares(domains, runs, seen, domains', runs') && name !in seen && Decides(domains', runs', name, r, force, window, now)
    ensures Decides(domains, runs, name, r, force, window, now)
  {
    if name in domains {
      forall x | x in runs' && x !in runs ensures runs'[x].domain != domains[name].id {
        var n :| n in seen && n in domains' && domains'[n].id == runs'[x].domain;
        assert n != name && name in domains' && domains'[name] == domains[name];
      }
    }
  }

  /** One name handled: decided by the tables before, and nothing of other names changes. */
  ghost predicate Handled(domains: map<string, Domain>, runs: map<RunId, Run>, domains': map<string, Domain>, runs': map<RunId, Run>,
                          name: string, r: IngestResult, force: bool, window: nat, now: nat) {
    && Decides(domains, runs, name, r, force, window, now) && OneDomain(domains, domains', name)
    && (forall m, n | m in domains' && n in domains' && domains'[m].id == domains'[n].id :: m == n)
    && (forall x | x in runs :: x in runs' && runs'[x] == runs[x])
    && forall x | x in runs' && x !in runs :: runs'[x].domain == domains'[name].id
  }

  lemma SparesNext(before: map<string, Domain>, q: map<RunId, Run>, seen: set<string>, domains: map<string, Domain>, runs: map<RunId, Run>,
                   domains': map<string, Domain>, runs': map<RunId, Run>, name: string, r: IngestResult, force: bool, window: nat, now: nat)
    requires Spares(before, q, seen, domains, runs) && Handled(domains, runs, domains', runs', name, r, force, window, now) && name !in seen
    ensures Spares(before, q, seen + {name}, domains', runs')
  {
    forall x | x in runs' && x !in q ensures exists n :: n in seen + {name} && n in domains' && domains'[n].id == runs'[x].domain {
      if x in runs {
        var n :| n in seen && n in domains && domains[n].id == runs[x].domain;
        assert n in domains' && domains'[n].id == runs'[x].domain;
      } else {
        assert name in domains' && domains'[name].id == runs'[x].domain;
      }
    }
  }

  /** Rows of other runs leave a new run's tasks as they are. */
  lemma StillStarts(tasks: map<TaskId, Task>, tasks': map<TaskId, Task>, r: RunId, kinds: seq<Kind>, maxAttempts: int, now: nat)
    requires TasksFor(tasks, r, kinds, maxAttempts, now)
    requires forall id | id in tasks :: id in tasks' && tasks'[id] == tasks[id]
    requires forall id | id in tasks' && id !in tasks :: tasks'[id].run != Some(r)
    ensures TasksFor(tasks', r, kinds, maxAttempts, now)
  {
    forall k | k in kinds
      ensures exists id :: id in tasks' && tasks'[id] == Task(Some(r), k, Queued, 0, 0, maxAttempts, now, 0, None, 0, Some(RunTask(r, k)))
    {
      var id :| id in tasks && tasks[id] == Task(Some(r), k, Queued, 0, 0, maxAttempts, now, 0, None, 0, Some(RunTask(r, k)));
      assert tasks'[id] == tasks[id];
    }
  }

  /** Every run a request started has its tasks. */
  ghost predicate AllStart(tasks: map<TaskId, Task>, results: seq<IngestResult>, collectors: seq<Kind>, maxAttempts: int, now: nat) {
    forall i | 0 <= i < |results| && results[i].Started? :: StartsWith(tasks, results[i].run, collectors, maxAttempts, now)
  }

  lemma AllStartNext(tasks: map<TaskId, Task>, tasks': map<TaskId, Task>, before: map<RunId, Run>, results: seq<IngestResult>, r: IngestResult,
                     collectors: seq<Kind>, maxAttempts: int, now: nat)
    requires AllStart(tasks, results, collectors, maxAttempts, now)
    requires forall i | 0 <= i < |results| && results[i].Started? :: results[i].run in before
    requires r.Started? ==> r.run !in before && StartsWith(tasks', r.run, collectors, maxAttempts, now)
    requires AddsOnly(tasks, tasks', r)
    ensures AllStart(tasks', results + [r], collectors, maxAttempts, now)
  {
    forall i | 0 <= i < |results| && results[i].Started? ensures StartsWith(tasks', results[i].run, collectors, maxAttempts, now) {
      assert StartsWith(tasks, results[i].run, collectors, maxAttempts, now);
      if collectors == [] {
        StillStarts(tasks, tasks', results[i].run, [Finalize], 3, now);
      } else {
        StillStarts(tasks, tasks', results[i].run, collectors, maxAttempts, now);
      }
    }
  }

  /** Rows are added for the run just started, if any, and no row changes. */
  ghost predicate AddsOnly(tasks: map<TaskId, Task>, tasks': map<TaskId, Task>, r: IngestResult) {
    && (forall id | id in tasks :: id in tasks' && tasks'[id] == tasks[id])
    && forall id | id in tasks' && id !in tasks :: r.Started? && tasks'[id].run == Some(r.run)
  }

  ghost predicate AllDecided(domains: map<string, Domain>, runs: map<RunId, Run>, inputs: seq<Option<string>>, results: seq<IngestResult>,
                             force: bool, window: nat, now: nat) {
    && |results| <= |inputs|
    && forall i | 0 <= i < |results| && !results[i].Invalid? && !results[i].Duplicate? ::
         inputs[i].Some? && Decides(domains, runs, inputs[i].value, results[i], force, window, now)
  }

  /** The three tables at one moment of a request. */
  datatype Tables = Tables(domains: map<string, Domain>, runs: map<RunId, Run>, tasks: map<TaskId, Task>)

  /** What holds of the results so far, given the tables before the request and now. */
  ghost predicate Answers(b: Tables, t: Tables, seen: set<string>, inputs: seq<Option<string>>, results: seq<IngestResult>,
                          collectors: seq<Kind>, maxAttempts: int, force: bool, window: nat, now: nat) {
    && Classified(inputs, results) && AllDecided(b.domains, b.runs, inputs, results, force, window, now)
    && Spares(b.domains, b.runs, seen, t.domains, t.runs)
    && AllServed(t.domains, t.runs, inputs, results) && StartsNew(b.runs.Keys, results)
    && AllStart(t.tasks, results, collectors, maxAttempts, now)
    && (forall id | id in b.tasks :: id in t.tasks && t.tasks[id] == b.tasks[id])
    && forall k | 0 <= k < |results| && results[k].Started? :: results[k].run in t.runs
  }

  /** What one input's handling promises. */
  ghost predicate Answered(t: Tables, u: Tables, seen: set<string>, input: Option<string>, r: IngestResult,
                           collectors: seq<Kind>, maxAttempts: int, force: bool, window: nat, now: nat) {
    && Kept(t.domains, t.runs, u.domains, u.runs) && AddsOnly(t.tasks, u.tasks, r)
    && (r.Invalid? <==> input == None) && (r.Duplicate? <==> input.Some? && input.value in seen)
    && (r.Invalid? || r.Duplicate? ==> u.domains == t.domains && u.runs == t.runs)
    && (!r.Invalid? && !r.Duplicate? ==> Handled(t.domains, t.runs, u.domains, u.runs, input.value, r, force, window, now))
    && Serves(u.domains, u.runs, r, input)
    && (r.Started? ==> r.run !in t.runs && r.run in u.runs && StartsWith(u.tasks, r.run, collectors, maxAttempts, now))
  }

  lemma DecidedNext(b: Tables, t: Tables, u: Tables, seen: set<string>, inputs: seq<Option<string>>, results: seq<IngestResult>, r: IngestResult,
                    collectors: seq<Kind>, maxAttempts: int, force: bool, window: nat, now: nat)
    requires |results| < |inputs| && Spares(b.domains, b.runs, seen, t.domains, t.runs)
    requires AllDecided(b.domains, b.runs, inputs, results, force, window, now)
    requires Answered(t, u, seen, inputs[|results|], r, collectors, maxAttempts, force, window, now)
    ensures AllDecided(b.domains, b.runs, inputs, results + [r], force, window, now)
    ensures Spares(b.domains, b.runs, if inputs[|results|].Some? then seen + {inputs[|results|].value} else seen, u.domains, u.runs)
  {
    var input := inputs[|results|];
    if !r.Invalid? && !r.Duplicate? {
      DecidesAsBefore(b.domains, b.runs, seen, t.domains, t.runs, input.value, r, force, window, now);
      SparesNext(b.domains, b.runs, seen, t.domains, t.runs, u.domains, u.runs, input.value, r, force, window, now);
    } else if r.Duplicate? {
      assert seen + {input.value} == seen;
    }
  }

  lemma AnswersNext(b: Tables, t: Tables, u: Tables, seen: set<string>, inputs: seq<Option<string>>, results: seq<IngestResult>, r: IngestResult,
                    collectors: seq<Kind>, maxAttempts: int, force: bool, window: nat, now: nat)
    requires |results| < |inputs| && Noted(inputs, |results|, seen)
    requires Answers(b, t, seen, inputs, results, collectors, maxAttempts, force, window, now)
    requires Answered(t, u, seen, inputs[|results|], r, collectors, maxAttempts, force, window, now)
    ensures Answers(b, u, if inputs[|results|].Some? then seen + {inputs[|results|].value} else seen, inputs, results + [r],
                    collectors, maxAttempts, force, window, now)
  {
    NotedNext(inputs, |results|, seen);
    DecidedNext(b, t, u, seen, inputs, results, r, collectors, maxAttempts, force, window, now);
    AllServedNext(t.domains, t.runs, u.domains, u.runs, inputs, results, r);
    ClassifiedNext(inputs, results, r);
    StartsNewNext(b.runs.Keys, results, r);
    AllStartNext(t.tasks, u.tasks, t.runs, results, r, collectors, maxAttempts, now);
  }

  class Database {
    var tasks: map<TaskId, Task>
    var runs: map<RunId, Run>
    var nextTask: TaskId
    var nextRun: RunId
    var domains: map<string, Domain>

    function Value(): Db
      reads this
    {
      Db(tasks, runs, nextTask, nextRun)
    }

    ghost predicate Valid()
      reads this
    {
      WellFormed(Value()) && OneActiveRun(Value())
      && (forall n | n in domains :: domains[n].id < |domains|) && (forall x | x in runs :: runs[x].domain < |domains|)
      && (forall m, n | m in domains && n in domains && domains[m].id == domains[n].id :: m == n)
    }

    constructor ()
      ensures Valid() && Value() == EMPTY.db && domains == map[]
    {
      tasks, runs, nextTask, nextRun, domains := map[], map[], 0, 0, map[];
    }

    method Insert(t: Task) returns (id: Option<TaskId>)
      modifies this`tasks, this`nextTask
      ensures Value() == Enqueue(old(Value()), t)
      ensures id == if KeyTaken(old(tasks), t.dedupe) then None else Some(old(nextTask))
      ensures id.None? <==> t.dedupe.Some? && exists i :: i in old(tasks) && old(tasks)[i].dedupe == t.dedupe
      ensures tasks == if id.Some? then old(tasks)[id.value := t] else old(tasks)
    {
      if KeyTaken(tasks, t.dedupe) {
        return None;
      }
      id := Some(nextTask);
      tasks, nextTask := tasks[nextTask := t], nextTask + 1;
    }

    /**
     * Claims the first row by priority and age that is due, of a configured kind with room below its cap, and that no other
     * transaction has locked: one more attempt, locked by this claim, leased from now.
     */
    method ClaimNext(cfg: Config, now: nat, cid: ClaimId, locked: set<TaskId>) returns (c: Option<Claim>)
      modifies this`tasks
      ensures var candidates := set id | id in old(tasks) && Due(cfg, old(tasks), now, id) && id !in locked;
              if candidates == {} then c == None && tasks == old(tasks)
              else c.Some? && c.value.task in candidates
                   && (forall o | o in candidates && o != c.value.task ::
                         old(tasks)[o].priority < old(tasks)[c.value.task].priority
                         || (old(tasks)[o].priority == old(tasks)[c.value.task].priority && c.value.task < o))
                   && var t := old(tasks)[c.value.task];
                      tasks == old(tasks)[c.value.task := t.(status := Running, lockedBy := Some(cid), leaseUntil := now + cfg.lease, attempts := t.attempts + 1)]
                      && c.value == Claim(c.value.task, t.run, t.kind, t.attempts + 1, t.maxAttempts, t.defers)
      ensures c.Some? ==> c.value.task in old(tasks) && Value() == ClaimTask(cfg, old(Value()), now, c.value.task, cid)
    {
      var candidates := set id | id in tasks && Claimable(cfg, Value(), now, id) && id !in locked;
      forall id | id in tasks ensures Due(cfg, tasks, now, id) <==> Claimable(cfg, Value(), now, id) { DueIsClaimable(cfg, Value(), now, id); }
      assert candidates == set id | id in tasks && Due(cfg, tasks, now, id) && id !in locked;
      if candidates == {} {
        return None;
      }
      ghost var first := FirstExists(tasks, candidates);
      var id :| id in candidates && forall o | o in candidates :: Precedes(tasks, id, o);
      forall o | o in candidates && o != id
        ensures tasks[o].priority < tasks[id].priority || (tasks[o].priority == tasks[id].priority && id < o)
      {
        assert Precedes(tasks, id, o);
      }
      var t := tasks[id];
      t := t.(status := Running, lockedBy := Some(cid), leaseUntil := now + cfg.lease, attempts := t.attempts + 1);
      tasks := tasks[id := t];
      c := Some(Snapshot(id, t));
    }

    /** A heartbeat: recovery leaves a running task alone for another lease, and may take it right after. */
    method Extend(cfg: Config, now: nat, id: TaskId)
      modifies this`tasks
      ensures Value() == ExtendLease(cfg, old(Value()), now, id)
      ensures OnlyTask(old(Value()), Value(), id)
      ensures id in tasks && tasks[id].status == Running ==> forall t: nat :: Recovered(tasks[id], t) == tasks[id] <==> t <= now + cfg.lease
      ensures id in tasks && tasks[id].status != Running ==> Value() == old(Value())
    {
      if id in tasks && tasks[id].status == Running {
        tasks := tasks[id := tasks[id].(leaseUntil := now + cfg.lease)];
      }
    }

    /** The task is over and nobody holds it. */
    method Finish(id: TaskId, status: Status)
      modifies this`tasks
      ensures Value() == Complete(old(Value()), id, status)
      ensures OnlyTask(old(Value()), Value(), id)
      ensures id in tasks ==> tasks[id] == old(tasks)[id].(status := status, lockedBy := None, leaseUntil := 0)
    {
      CompleteTouches(Value(), id, status);
      if id in tasks {
        tasks := tasks[id := tasks[id].(status := status, lockedBy := None, leaseUntil := 0)];
      }
    }

    /** Back in the queue behind a delay that doubles with every attempt, or failed; the worker learns which. */
    method RecordFailure(cfg: Config, now: nat, c: Claim, retry: bool) returns (status: Status)
      modifies this`tasks
      ensures Value() == Fail(cfg, old(Value()), now, c, retry)
      ensures status == if WillRetry(c, retry) then Queued else Failed
      ensures OnlyTask(old(Value()), Value(), c.task)
      ensures c.task in tasks ==> tasks[c.task].status == status && tasks[c.task].lockedBy == None && tasks[c.task].attempts == old(tasks)[c.task].attempts
      ensures WillRetry(c, retry) ==> WaitsUntil(cfg, Value(), c.task, now + cfg.retryBase * Pow2(Max(0, c.attempts - 1)))
    {
      if retry && c.attempts < c.maxAttempts {
        if c.task in tasks {
          var delay := cfg.retryBase * Pow2(Max(0, c.attempts - 1));
          tasks := tasks[c.task := tasks[c.task].(status := Queued, lockedBy := None, leaseUntil := 0, runAfter := now + delay)];
        }
        return Queued;
      }
      Finish(c.task, Failed);
      return Failed;
    }

    /** The worker's failure transaction: the run ends failed exactly if its finalize task will not be tried again. */
    method FailClaim(cfg: Config, now: nat, c: Claim, retry: bool)
      modifies this`tasks, this`runs
      ensures Value() == FailTask(cfg, old(Value()), now, c, retry)
      ensures Touches(old(Value()), Value(), c.task)
      ensures forall r | r in old(runs) && old(runs)[r].status != RunFailed ::
                r in runs && (runs[r].status == RunFailed <==> c.kind == Finalize && c.run == Some(r) && !WillRetry(c, retry))
      ensures forall r | r in old(runs) && c.run != Some(r) :: r in runs && runs[r] == old(runs)[r]
    {
      FailTaskTouches(cfg, Value(), now, c, retry);
      var status := RecordFailure(cfg, now, c, retry);
      if status == Failed && c.kind == Finalize && c.run.Some? && c.run.value in runs {
        runs := runs[c.run.value := runs[c.run.value].(status := RunFailed)];
      }
    }

    /** Afterwards no lease has run out: each task whose had is queued or failed by its attempts, and no other changed. */
    method Recover(now: nat)
      modifies this`tasks
      ensures Value() == RecoverLost(old(Value()), now)
      ensures tasks.Keys == old(tasks).Keys && forall id | id in tasks :: !Expired(tasks[id], now)
      ensures forall id | id in tasks && !Expired(old(tasks)[id], now) :: tasks[id] == old(tasks)[id]
      ensures forall id | id in tasks && Expired(old(tasks)[id], now) ::
                && tasks[id].lockedBy == None && tasks[id].attempts == old(tasks)[id].attempts
                && (tasks[id].status == Queued <==> tasks[id].attempts < tasks[id].maxAttempts)
                && (tasks[id].status == Failed <==> tasks[id].attempts >= tasks[id].maxAttempts)
    {
      tasks := map id | id in tasks :: Recovered(tasks[id], now);
    }

    /** The attempt is given back and a deferral counted instead, so a claimed task has spent as much as before. */
    method DeferClaim(cfg: Config, now: nat, id: TaskId, seconds: nat)
      modifies this`tasks
      ensures Value() == Defer(old(Value()), now, id, seconds)
      ensures OnlyTask(old(Value()), Value(), id)
      ensures id in tasks && old(tasks)[id].attempts > 0 ==> Spent(Value(), id) == Spent(old(Value()), id)
      ensures id in tasks ==> tasks[id].status == Queued && tasks[id].lockedBy == None
      ensures WaitsUntil(cfg, Value(), id, now + 5) && WaitsUntil(cfg, Value(), id, now + seconds)
    {
      if id in tasks {
        var t := tasks[id];
        tasks := tasks[id := t.(status := Queued, attempts := Max(t.attempts - 1, 0), lockedBy := None, leaseUntil := 0,
                                runAfter := now + Max(seconds, 5), defers := t.defers + 1)];
      }
    }

    /** The worker's report that a task is over: a finalize task that ends failed fails its run with it. */
    method FinishClaim(cfg: Config, now: nat, c: Claim, status: Status)
      modifies this`tasks, this`runs
      ensures Value() == ReportTask(cfg, old(Value()), now, c, Finished(status))
      ensures c.task in tasks ==> tasks[c.task] == old(tasks)[c.task].(status := status, lockedBy := None, leaseUntil := 0)
      ensures forall r | r in old(runs) ::
                r in runs && runs[r] == if status == Failed && c.kind == Finalize && c.run == Some(r) then old(runs)[r].(status := RunFailed) else old(runs)[r]
    {
      Finish(c.task, status);
      if status == Failed && c.kind == Finalize && c.run.Some? { SetStatus(c.run.value, RunFailed); }
    }

    method SetStatus(r: RunId, status: RunStatus)
      modifies this`runs
      ensures Value() == SetRunStatus(old(Value()), r, status)
      ensures runs == if r in old(runs) then old(runs)[r := old(runs)[r].(status := status)] else old(runs)
    {
      if r in runs { runs := runs[r := runs[r].(status := status)]; }
    }

    /** The first transaction of a collector task. */
    method MarkStarted(r: Option<RunId>)
      modifies this`runs
      ensures Value() == StartRun(old(Value()), r)
      ensures forall x | x in old(runs) ::
                x in runs && runs[x] == if r == Some(x) && old(runs)[x].status == RunQueued then old(runs)[x].(status := RunRunning) else old(runs)[x]
    {
      if r.Some? && r.value in runs && runs[r.value].status == RunQueued { SetStatus(r.value, RunRunning); }
    }

    /** The after-collector check: a task put back in the queue does not finalize anything. */
    method CheckAfter(c: Claim, now: nat)
      modifies this`tasks, this`nextTask
      ensures Value() == CheckRun(old(Value()), c, now)
      ensures c.run.Some? && c.task in old(tasks) && old(tasks)[c.task].status in {Succeeded, Failed, Skipped} ==>
                Value() == MaybeFinalize(old(Value()), c.run.value, now)
      ensures c.run.None? || c.task !in old(tasks) || old(tasks)[c.task].status in {Queued, Running} ==> Value() == old(Value())
    {
      if c.run.Some? && c.task in tasks && Terminal(tasks[c.task]) {
        var _ := FinalizeIfClosed(c.run.value, now);
      }
    }

    method CreateRows(cfg: Config, domain: DomainId, collectors: seq<Kind>, now: nat) returns (r: RunId)
      modifies this`tasks, this`nextTask, this`runs, this`nextRun
      ensures r == old(nextRun) && Value() == CreateRun(cfg, old(Value()), domain, collectors, now)
    {
      r := nextRun;
      runs, nextRun := runs[r := Run(domain, RunQueued, collectors, now)], r + 1;
      ghost var d1 := Value();
      for i := 0 to |collectors|
        invariant Value() == EnqueueCollectors(cfg, d1, r, collectors[..i], now)
      {
        var k := collectors[i];
        var _ := Insert(NewTask(Some(r), k, Some(RunTask(r, k)), 0, cfg.maxAttempts, now));
        assert collectors[..i + 1][..i] == collectors[..i];
      }
      assert collectors[..|collectors|] == collectors;
      if collectors == [] {
        var _ := Insert(NewTask(Some(r), Finalize, Some(RunTask(r, Finalize)), 0, DEFAULT_MAX_ATTEMPTS, now));
      }
    }

    /** create_run: the run row, then one task per collector, or the finalize task when there is none. */
    method StartNewRun(cfg: Config, domain: DomainId, collectors: seq<Kind>, now: nat) returns (r: RunId)
      modifies this`tasks, this`nextTask, this`runs, this`nextRun
      ensures r == old(nextRun) && Value() == CreateRun(cfg, old(Value()), domain, collectors, now)
      ensures WellFormed(old(Value())) && (forall k | k in collectors :: k.Collector?) ==>
                && runs == old(runs)[r := Run(domain, RunQueued, collectors, now)]
                && StartsWith(tasks, r, collectors, cfg.maxAttempts, now) && AddsOnly(old(tasks), tasks, Started(r))
    {
      ghost var d := Value();
      r := CreateRows(cfg, domain, collectors, now);
      if WellFormed(d) && (forall k | k in collectors :: k.Collector?) {
        CreatedTasks(cfg, d, domain, collectors, now);
        CreateRunKeeps(cfg, d, domain, collectors, now);
      }
    }

    method FinalizeIfClosed(r: RunId, now: nat) returns (enqueued: bool)
      modifies this`tasks, this`nextTask
      ensures Value() == MaybeFinalize(old(Value()), r, now)
      ensures enqueued <==> CollectorsClosed(old(tasks), r) && !KeyTaken(old(tasks), Some(RunTask(r, Finalize)))
      ensures tasks == if enqueued then old(tasks)[old(nextTask) := Task(Some(r), Finalize, Queued, 20, 0, 3, now, 0, None, 0, Some(RunTask(r, Finalize)))]
                       else old(tasks)
    {
      if CollectorsClosed(tasks, r) {
        var id := Insert(NewTask(Some(r), Finalize, Some(RunTask(r, Finalize)), FINALIZE_PRIORITY, DEFAULT_MAX_ATTEMPTS, now));
        return id.Some?;
      }
      return false;
    }

    /** The scheduler's loop over the stale runs it selected. */
    method SweepStale(picked: seq<RunId>, now: nat)
      modifies this`tasks, this`nextTask
      ensures Value() == Sweep(old(Value()), picked, now)
    {
      for i := 0 to |picked|
        invariant Value() == Sweep(old(Value()), picked[..i], now)
      {
        var _ := FinalizeIfClosed(picked[i], now);
        assert picked[..i + 1][..i] == picked[..i];
      }
      assert picked[..|picked|] == picked;
    }

    /** The domain row of a name, inserted if new. */
    method Upsert(name: string) returns (d: Domain)
      requires Valid()
      modifies this`domains
      ensures Valid() && name in domains && domains[name] == d
      ensures domains == if name in old(domains) then old(domains) else old(domains)[name := d]
      ensures OneDomain(old(domains), domains, name)
      ensures name !in old(domains) ==> d.lastCompleted == None && forall x | x in runs :: runs[x].domain != d.id
    {
      if name !in domains {
        domains := domains[name := Domain(|domains|, None, None)];
      }
      d := domains[name];
    }

    /** Whether the domain completed a run within the reprocessing window. */
    predicate IsRecent(d: Domain, force: bool, window: nat, now: nat) {
      !force && d.lastCompleted.Some? && window > 0 && d.lastCompleted.value + window > now
    }

    /** ingest_domains for one name that was not seen before in the request. */
    method IngestName(cfg: Config, name: string, collectors: seq<Kind>, force: bool, window: nat, now: nat) returns (r: IngestResult)
      requires Valid() && forall k | k in collectors :: k.Collector?
      modifies this
      ensures Valid() && name in domains && !r.Invalid? && !r.Duplicate?
      ensures Decides(old(domains), old(runs), name, r, force, window, now)
      ensures OneDomain(old(domains), domains, name)
      ensures r.Started? ==> domains[name].lastRun == Some(r.run) && StartsWith(tasks, r.run, collectors, cfg.maxAttempts, now)
      ensures AddsOnly(old(tasks), tasks, r)
      ensures runs == if r.Started? then old(runs)[r.run := Run(domains[name].id, RunQueued, collectors, now)] else old(runs)
    {
      var _ := Upsert(name);
      ghost var rows := domains;
      r := IngestKnown(cfg, name, collectors, force, window, now);
      DecidesWithRow(old(domains), rows, old(runs), name, r, force, window, now);
      OneDomainAgain(old(domains), rows, domains, name);
    }

    /** The name has its domains row. */
    method IngestKnown(cfg: Config, name: string, collectors: seq<Kind>, force: bool, window: nat, now: nat) returns (r: IngestResult)
      requires Valid() && name in domains && forall k | k in collectors :: k.Collector?
      modifies this
      ensures Valid() && !r.Invalid? && !r.Duplicate? && Decides(old(domains), old(runs), name, r, force, window, now)
      ensures OneDomain(old(domains), domains, name)
      ensures r.Started? ==> domains[name].lastRun == Some(r.run) && StartsWith(tasks, r.run, collectors, cfg.maxAttempts, now)
      ensures AddsOnly(old(tasks), tasks, r)
      ensures runs == if r.Started? then old(runs)[r.run := Run(domains[name].id, RunQueued, collectors, now)] else old(runs)
    {
      var d := domains[name];
      if exists x | x in runs :: runs[x].domain == d.id && Active(runs[x]) {
        var run :| run in runs && runs[run].domain == d.id && Active(runs[run]);
        return Existing(run);
      }
      assert !RunsFor(runs, d.id);
      if IsRecent(d, force, window, now) {
        return Recent(d.lastRun);
      }
      var run := StartFor(cfg, name, collectors, now);
      return Started(run);
    }

    /** The creating branch: a new run for a domain that has none active. */
    method StartFor(cfg: Config, name: string, collectors: seq<Kind>, now: nat) returns (run: RunId)
      requires Valid() && name in domains && forall k | k in collectors :: k.Collector?
      requires forall x | x in runs && runs[x].domain == domains[name].id :: !Active(runs[x])
      modifies this
      ensures Valid() && run !in old(runs)
      ensures runs == old(runs)[run := Run(old(domains)[name].id, RunQueued, collectors, now)]
      ensures domains == old(domains)[name := old(domains)[name].(lastRun := Some(run))]
      ensures StartsWith(tasks, run, collectors, cfg.maxAttempts, now) && AddsOnly(old(tasks), tasks, Started(run))
      ensures forall n | n in old(domains) :: n in domains && domains[n].id == old(domains)[n].id
    {
      StartKeeps(cfg, Value(), domains[name].id, collectors, now);
      run := StartNewRun(cfg, domains[name].id, collectors, now);
      SetLastRun(name, run);
    }

    /** Rewriting a domain's other columns keeps the tables valid. */
    method SetLastRun(name: string, run: RunId)
      requires Valid() && name in domains
      modifies this`domains
      ensures Valid() && domains == old(domains)[name := old(domains)[name].(lastRun := Some(run))]
    {
      domains := domains[name := domains[name].(lastRun := Some(run))];
    }

    /** One input of the request, given the names already seen in it. */
    method IngestOne(cfg: Config, input: Option<string>, seen: set<string>, collectors: seq<Kind>, force: bool, window: nat, now: nat)
      returns (r: IngestResult)
      requires Valid() && forall k | k in collectors :: k.Collector?
      modifies this
      ensures Valid()
      ensures Answered(old(Tables(domains, runs, tasks)), Tables(domains, runs, tasks), seen, input, r, collectors, cfg.maxAttempts, force, window, now)
    {
      if input.None? {
        return Invalid;
      }
      if input.value in seen {
        return Duplicate;
      }
      r := IngestName(cfg, input.value, collectors, force, window, now);
    }

    /**
     * ingest_domains: one result per input, in order. None is an input that does not normalise to a domain.
     * A name gets at most one run per request, and none while it has an active run or, unless forced, a recent one. Every
     * name is decided by the tables as they were before the request, and every run started has its tasks.
     */
    method IngestAll(cfg: Config, inputs: seq<Option<string>>, collectors: seq<Kind>, force: bool, window: nat, now: nat)
      returns (results: seq<IngestResult>)
      requires Valid() && forall k | k in collectors :: k.Collector?
      modifies this
      ensures Valid() && |results| == |inputs| && Classified(inputs, results)
      ensures AllDecided(old(domains), old(runs), inputs, results, force, window, now)
      ensures AllServed(domains, runs, inputs, results) && StartsNew(old(runs).Keys, results)
      ensures AllStart(tasks, results, collectors, cfg.maxAttempts, now)
      ensures forall id | id in old(tasks) :: id in tasks && tasks[id] == old(tasks)[id]
    {
      results := [];
      var seen: set<string> := {};
      ghost var before := Tables(domains, runs, tasks);
      for i := 0 to |inputs|
        invariant Valid() && |results| == i && Noted(inputs, i, seen)
        invariant Answers(before, Tables(domains, runs, tasks), seen, inputs, results, collectors, cfg.maxAttempts, force, window, now)
      {
        NotedNext(inputs, i, seen);
        ghost var middle := Tables(domains, runs, tasks);
        var r := IngestOne(cfg, inputs[i], seen, collectors, force, window, now);
        AnswersNext(before, middle, Tables(domains, runs, tasks), seen, inputs, results, r, collectors, cfg.maxAttempts, force, window, now);
        if inputs[i].Some? { seen := seen + {inputs[i].value}; }
        results := results + [r];
      }
    }
  }
}
