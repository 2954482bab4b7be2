/** The life of one import job: a worker takes entries of the job from the queue
    and steps through the rows, while users cancel and retry it and any step may
    throw. Worker steps are the stretches of `process` between two accesses to the
    database; cancel and retry are atomic; one worker serves the job at a time. */
module ImportProtocol {
  import opened Text
  import opened CustomerImport

  datatype Status = PENDING | PROCESSING | COMPLETED | FAILED | CANCELED

  datatype Counters = Counters(processed: nat, success: nat, error: nat, skipped: nat) {
    function Add(r: RowResult): Counters {
      Counters(
        processed + 1, success + if r.Success? then 1 else 0,
        error + if r.Error? then 1 else 0, skipped + if r.Skipped? then 1 else 0)
    }
  }

  function Zero(): (c: Counters)
    ensures c.processed == 0
  {
    Counters(0, 0, 0, 0)
  }

  datatype Options = Options(mapping: map<string, string>, strategy: Strategy)

  datatype Job = Job(status: Status, counters: Counters, progress: nat, totalRows: nat, options: Options)

  /** A stored row result; the row number is unique within the job. */
  datatype Record = Record(row: nat, result: RowResult)

  /** The queue ids: `import:<id>` and `import:<id>:retry:<time>`. */
  datatype EntryId = First | Again

  /** An entry waiting in the queue, with the attempts it has left. */
  datatype Entry = Entry(id: EntryId, attempts: nat)

  /** `attempts` of the queue's default job options. */
  const ATTEMPTS := 3

  datatype Stage = Check | Handle | Save(result: RowResult) | Report | Close

  /** The worker's local variables, and the attempts its entry has left after it. */
  datatype Worker = Worker(
    options: Options, counters: Counters, seen: set<string>, stage: Stage, id: EntryId, attemptsLeft: nat)

  /** History: `reach` is the most rows any attempt has handled, `handled` counts
      every row handled so far, `lost` holds the rows whose address was lost, and
      `attempt` what the newest attempt was picked up with. */
  datatype State = State(
    job: Job, results: seq<Record>, queue: seq<Entry>, worker: Option<Worker>, store: Store,
    reach: nat, handled: nat, lost: set<nat>, attempt: Option<Attempt>)

  datatype Attempt = Attempt(options: Options, found: Store)

  /** The stored file and the tables before it; the parser refuses files without rows. */
  datatype Upload = Upload(rows: seq<map<string, string>>, initial: Store)

  type File = f: Upload | f.rows != [] witness Upload([map[]], Store(map[], []))

  /** `Crash` is an exception in the worker: inside a row between its two writes or
      elsewhere, and with or without the FAILED write of the handler succeeding. */
  datatype Action =
    | Pick(at: nat)
    | Work
    | Crash(inRow: bool, recorded: bool)
    | Cancel
    | Retry(mapping: Option<map<string, string>>, strategy: Option<Strategy>)

  function Percent(processed: nat, total: nat): (p: nat)
    ensures p <= 100
  {
    if total == 0 then 0
    else
      var rounded := (200 * processed + total) / (2 * total);
      if rounded > 100 then 100 else rounded
  }

  function Created(f: File, options: Options): State {
    State(Job(PENDING, Zero(), 0, |f.rows|, options), [], [Entry(First, ATTEMPTS)], None, f.initial, 0, 0, {}, None)
  }

  // ---------- Steps ----------

  predicate Stored(results: seq<Record>, row: nat) {
    exists i :: 0 <= i < |results| && results[i].row == row
  }

  /** Up to the PROCESSING write: nothing asks whether the job was canceled. A
      delayed entry may be overtaken, so any entry can be next. */
  function PickUp(s: State, at: nat): State {
    if s.worker.Some? || at >= |s.queue| || s.queue[at].attempts == 0 then s
    else
      var e := s.queue[at];
      s.(queue := s.queue[..at] + s.queue[at + 1..], job := s.job.(status := PROCESSING),
         worker := Some(Worker(s.job.options, Zero(), {}, Check, e.id, e.attempts - 1)),
         attempt := Some(Attempt(s.job.options, s.store)))
  }

  function FinalStatus(c: Counters): Status {
    if c.error > 0 && c.success == 0 then FAILED else COMPLETED
  }

  /** The worker is gone; the queue keeps its entry while attempts are left. */
  function Die(s: State, recorded: bool): State
    requires s.worker.Some?
  {
    var w := s.worker.value;
    s.(job := if recorded then s.job.(status := FAILED) else s.job, worker := None,
       queue := s.queue + if w.attemptsLeft > 0 then [Entry(w.id, w.attemptsLeft)] else [])
  }

  function RowOf(f: File, w: Worker, k: nat): CustomerData
    requires k < |f.rows|
  {
    Normalize(f.rows[k], w.options.mapping)
  }

  function Farthest(k: nat, reach: nat): nat {
    if k > reach then k else reach
  }

  /** The worker's next step. */
  function Advance(f: File, s: State): State {
    if s.worker.None? then s
    else
      var w := s.worker.value;
      var k := w.counters.processed;
      match w.stage
      case Check =>
        if k >= |f.rows| then
          s.(job := s.job.(status := FinalStatus(w.counters), counters := w.counters, progress := 100, totalRows := |f.rows|),
             worker := Some(w.(stage := Close)))
        else if s.job.status == CANCELED then s.(worker := None)
        else s.(worker := Some(w.(stage := Handle)))
      case Handle =>
        if k >= |f.rows| then s
        else
          var d := RowOf(f, w, k);
          var result := Outcome(w.options.strategy, s.store, w.seen, d);
          s.(store := RowStore(w.options.strategy, s.store, w.seen, d), handled := s.handled + 1, reach := Farthest(k + 1, s.reach),
             worker := Some(w.(counters := w.counters.Add(result), seen := RowSeen(w.seen, d), stage := Save(result))))
      case Save(result) =>
        if k == 0 then s
        else if Stored(s.results, k - 1) then Die(s, true)
        else s.(results := s.results + [Record(k - 1, result)], worker := Some(w.(stage := Report)))
      case Report =>
        s.(job := s.job.(counters := w.counters, progress := Percent(k, |f.rows|), totalRows := |f.rows|),
           worker := Some(w.(stage := Check)))
      case Close => s.(worker := None)
  }

  /** The exception escapes; inside a row the customer write has already happened. */
  function Throw(f: File, s: State, inRow: bool, recorded: bool): State {
    if s.worker.None? then s
    else
      var w := s.worker.value;
      var k := w.counters.processed;
      if inRow && w.stage == Handle && k < |f.rows| then
        var d := RowOf(f, w, k);
        Die(s.(store := HalfDone(w.options.strategy, s.store, w.seen, d), handled := s.handled + 1, reach := Farthest(k + 1, s.reach),
               lost := if AddsAddress(s.store, w.seen, d) then s.lost + {k} else s.lost),
            recorded)
      else Die(s, recorded)
  }

  predicate Cancelable(s: State) {
    s.job.status == PENDING || s.job.status == PROCESSING
  }

  predicate Retryable(s: State) {
    s.job.status == FAILED || s.job.status == CANCELED
  }

  /** `queue.remove('import:<id>')`: it cannot name a retry, nor an entry at work. */
  function Without(queue: seq<Entry>): (q: seq<Entry>)
    ensures |q| <= |queue|
    ensures forall e :: e in q <==> e in queue && e.id == Again
    ensures (forall e :: e in queue ==> e.id == First) ==> q == []
  {
    if queue == [] then [] else (if queue[0].id == First then [] else [queue[0]]) + Without(queue[1..])
  }

  function CancelJob(s: State): State {
    if !Cancelable(s) then s else s.(queue := Without(s.queue), job := s.job.(status := CANCELED))
  }

  function RetryJob(s: State, mapping: Option<map<string, string>>, strategy: Option<Strategy>): State {
    if !Retryable(s) then s
    else
      var options := Options(
        if mapping.Some? then mapping.value else s.job.options.mapping,
        if strategy.Some? then strategy.value else s.job.options.strategy);
      s.(results := [], job := Job(PENDING, Zero(), 0, s.job.totalRows, options), queue := s.queue + [Entry(Again, ATTEMPTS)])
  }

  function Apply(f: File, s: State, action: Action): State {
    match action
    case Pick(at) => PickUp(s, at)
    case Work => Advance(f, s)
    case Crash(inRow, recorded) => Throw(f, s, inRow, recorded)
    case Cancel => CancelJob(s)
    case Retry(mapping, strategy) => RetryJob(s, mapping, strategy)
  }

  function Run(f: File, s: State, actions: seq<Action>): State {
    if actions == [] then s else Apply(f, Run(f, s, actions[..|actions| - 1]), actions[|actions| - 1])
  }

  predicate NoRetry(actions: seq<Action>) {
    forall i :: 0 <= i < |actions| ==> !actions[i].Retry?
  }

  lemma RunNothing(f: File, s: State)
    ensures Run(f, s, []) == s
  {
  }

  lemma RunLast(f: File, s: State, actions: seq<Action>, last: Action)
    ensures Run(f, s, actions + [last]) == Apply(f, Run(f, s, actions), last)
  {
    assert (actions + [last])[..|actions|] == actions;
  }

  lemma {:induction false} RunOn(f: File, s: State, a: seq<Action>, b: seq<Action>)
    ensures Run(f, s, a + b) == Run(f, Run(f, s, a), b)
    decreases |b|
  {
    hide Apply;
    if b == [] {
      assert a + b == a;
    } else {
      var front := b[..|b| - 1];
      RunOn(f, s, a, front);
      assert (a + b)[..|a + b| - 1] == a + front;
    }
  }

  // ---------- Counting ----------

  /** The counters of a list of row results. */
  function Tally(results: seq<Record>): (c: Counters)
    ensures c.processed == |results| && c.processed == c.success + c.error + c.skipped
  {
    if results == [] then Zero() else Tally(results[..|results| - 1]).Add(results[|results| - 1].result)
  }

  lemma TallyLast(results: seq<Record>, r: Record)
    ensures Tally(results + [r]) == Tally(results).Add(r.result)
  {
    assert (results + [r])[..|results|] == results;
  }

  predicate AnyError(results: seq<Record>) {
    exists i :: 0 <= i < |results| && results[i].result.Error?
  }

  predicate AnySuccess(results: seq<Record>) {
    exists i :: 0 <= i < |results| && results[i].result.Success?
  }

  lemma ZeroCounts()
    ensures Zero().error == 0 && Zero().success == 0
  {
  }

  lemma AnyLast(results: seq<Record>)
    requires results != []
    ensures var front, last := results[..|results| - 1], results[|results| - 1].result;
      && (AnyError(results) <==> AnyError(front) || last.Error?)
      && (AnySuccess(results) <==> AnySuccess(front) || last.Success?)
  {
    var front := results[..|results| - 1];
    forall i | 0 <= i < |front| ensures front[i] == results[i] {
    }
  }

  lemma {:induction false} TallyMeans(results: seq<Record>)
    ensures Tally(results).error > 0 <==> AnyError(results)
    ensures Tally(results).success > 0 <==> AnySuccess(results)
  {
    hide Zero;
    ZeroCounts();
    if results != [] {
      hide AnyError, AnySuccess;
      TallyMeans(results[..|results| - 1]);
      AnyLast(results);
    }
  }

  /** The results an uninterrupted run stores. */
  function Records(strategy: Strategy, s: Store, data: seq<CustomerData>): (r: seq<Record>)
    ensures |r| == |data| && forall i :: 0 <= i < |r| ==> r[i].row == i
  {
    if data == [] then []
    else
      var n := |data| - 1;
      var (t, seen) := After(strategy, s, data[..n]);
      Records(strategy, s, data[..n]) + [Record(n, Outcome(strategy, t, seen, data[n]))]
  }

  /** How many rows an attempt that stands at row k goes on to handle: the first
      one whose number is taken is handled and then throws. */
  function RowsAhead(results: seq<Record>, k: nat, n: nat): (m: nat)
    ensures k < n ==> 1 <= m <= n - k
    decreases n - k
  {
    if k >= n then 0 else if Stored(results, k) then 1 else 1 + RowsAhead(results, k + 1, n)
  }

  predicate Taken(results: seq<Record>, n: nat) {
    exists k :: 0 <= k < n && Stored(results, k)
  }

  // ---------- The record behind the handlers ----------

  class ImportJobRecord {
    var job: Job
    var results: seq<Record>
    var queue: seq<Entry>
    var worker: Option<Worker>
    var store: Store
    ghost var reach: nat
    ghost var handled: nat
    ghost var lost: set<nat>
    ghost var attempt: Option<Attempt>

    ghost function Abs(): State
      reads this
    {
      State(job, results, queue, worker, store, reach, handled, lost, attempt)
    }

    method DoCancel() returns (ok: bool)
      modifies this`queue, this`job
      ensures Abs() == CancelJob(old(Abs())) && ok == Cancelable(old(Abs()))
    {
      if job.status != PENDING && job.status != PROCESSING {
        return false;
      }
      queue := Without(queue);
      job := job.(status := CANCELED);
      return true;
    }

    method DoRetry(mapping: Option<map<string, string>>, strategy: Option<Strategy>) returns (ok: bool)
      modifies this`results, this`job, this`queue
      ensures Abs() == RetryJob(old(Abs()), mapping, strategy) && ok == Retryable(old(Abs()))
    {
      if job.status != FAILED && job.status != CANCELED {
        return false;
      }
      results := [];
      var newMapping := if mapping.Some? then mapping.value else job.options.mapping;
      var newStrategy := if strategy.Some? then strategy.value else job.options.strategy;
      job := Job(PENDING, Zero(), 0, job.totalRows, Options(newMapping, newStrategy));
      queue := queue + [Entry(Again, ATTEMPTS)];
      return true;
    }

    /** `process` when nobody interferes and the database does not fail: it throws
        exactly when a row number is taken by an earlier attempt, and then the rows
        up to and including that one have been handled. */
    method Process(rows: seq<map<string, string>>) returns (thrown: bool)
      modifies this`job, this`results, this`store
      ensures thrown <==> Taken(old(results), |rows|)
      ensures var data, strategy := NormalizeAll(rows, old(job).options.mapping), old(job).options.strategy;
        var m := RowsAhead(old(results), 0, |rows|);
        var added := Records(strategy, old(store), data[..if thrown then m - 1 else m]);
        && store == Import(strategy, old(store), data[..m])
        && results == old(results) + added
        && job.counters == (if thrown && added == [] then old(job).counters else Tally(added))
        && job.status == (if thrown || (AnyError(added) && !AnySuccess(added)) then FAILED else COMPLETED)
        && (!thrown ==> m == |rows| && job.progress == 100 && job.totalRows == |rows|)
        && job.options == old(job).options
    {
      hide Normalize, RowStore, RowSeen, Outcome, Tally, Percent, After, Records, Stored, Zero;
      NoResults();
      NoRecords(job.options.strategy, store);
      var options := job.options;
      ghost var data := NormalizeAll(rows, options.mapping);
      ghost var added: seq<Record> := [];
      job := job.(status := PROCESSING);
      var seen: set<string> := {};
      var counters := Zero();
      assert old(results) + added == old(results);
      for i := 0 to |rows|
        invariant job.options == options
        invariant job.counters == if i == 0 then old(job).counters else counters
        invariant (store, seen) == After(options.strategy, old(store), data[..i])
        invariant added == Records(options.strategy, old(store), data[..i])
        invariant results == old(results) + added && counters == Tally(added)
        invariant forall k :: 0 <= k < i ==> !Stored(old(results), k)
        invariant RowsAhead(old(results), 0, |rows|) == i + RowsAhead(old(results), i, |rows|)
      {
        NextRecord(options.strategy, old(store), data, i);
        var row := Normalize(rows[i], options.mapping);
        var result := Outcome(options.strategy, store, seen, row);
        store, seen := RowStore(options.strategy, store, seen, row), RowSeen(seen, row);
        counters := counters.Add(result);
        NumberFree(old(results), added, i);
        if Stored(results, i) {
          job := job.(status := FAILED);
          return true;
        }
        TallyLast(added, Record(i, result));
        assert old(results) + (added + [Record(i, result)]) == (old(results) + added) + [Record(i, result)];
        results := results + [Record(i, result)];
        added := added + [Record(i, result)];
        job := job.(counters := counters, progress := Percent(counters.processed, |rows|), totalRows := |rows|);
      }
      TallyMeans(added);
      assert data[..|rows|] == data;
      job := job.(status := FinalStatus(counters), counters := counters, progress := 100, totalRows := |rows|);
      return false;
    }
  }

  lemma NoRecords(strategy: Strategy, s: Store)
    ensures forall data: seq<CustomerData> :: After(strategy, s, data[..0]) == (s, {}) && Records(strategy, s, data[..0]) == []
  {
  }

  lemma NextRecord(strategy: Strategy, s: Store, data: seq<CustomerData>, i: nat)
    requires i < |data|
    ensures var (t, seen) := After(strategy, s, data[..i]);
      && After(strategy, s, data[..i + 1]) == (RowStore(strategy, t, seen, data[i]), RowSeen(seen, data[i]))
      && Records(strategy, s, data[..i + 1]) == Records(strategy, s, data[..i]) + [Record(i, Outcome(strategy, t, seen, data[i]))]
  {
    hide RowStore, RowSeen, Outcome;
    assert data[..i + 1][..i] == data[..i];
  }

  lemma NoResults()
    ensures Tally([]) == Zero()
  {
  }

  /** The rows before k do not take number k. */
  lemma NumberFree(before: seq<Record>, added: seq<Record>, k: nat)
    requires |added| == k && forall i :: 0 <= i < k ==> added[i].row == i
    ensures Stored(before + added, k) == Stored(before, k)
  {
    if Stored(before, k) {
      var i :| 0 <= i < |before| && before[i].row == k;
      assert (before + added)[i].row == k;
    }
  }
}
