/** How many rows an import job still handles after it has been canceled, when
    nobody retries it but any step may throw and the queue tries entries again. */
module ImportCancellation {
  import opened Text
  import opened CustomerImport
  import opened ImportProtocol
  import opened ImportCounters

  // ---------- Attempts ----------

  function Attempts(queue: seq<Entry>): nat {
    if queue == [] then 0 else queue[0].attempts + Attempts(queue[1..])
  }

  /** Attempts the job has left besides the one at work. */
  function AttemptsLeft(s: State): nat {
    Attempts(s.queue) + if s.worker.Some? then s.worker.value.attemptsLeft else 0
  }

  lemma {:induction false} AttemptsAppend(a: seq<Entry>, b: seq<Entry>)
    ensures Attempts(a + b) == Attempts(a) + Attempts(b)
  {
    if a == [] {
      assert a + b == b;
    } else {
      AttemptsAppend(a[1..], b);
      assert (a + b)[1..] == a[1..] + b;
    }
  }

  lemma AttemptsOne(e: Entry)
    ensures Attempts([e]) == e.attempts && Attempts([]) == 0
  {
    assert [e][1..] == [];
  }

  lemma AttemptsTaken(queue: seq<Entry>, at: nat)
    requires at < |queue|
    ensures Attempts(queue[..at] + queue[at + 1..]) + queue[at].attempts == Attempts(queue)
  {
    AttemptsAppend(queue[..at], queue[at + 1..]);
    AttemptsAppend(queue[..at], [queue[at]] + queue[at + 1..]);
    AttemptsAppend([queue[at]], queue[at + 1..]);
    AttemptsOne(queue[at]);
    assert queue == queue[..at] + ([queue[at]] + queue[at + 1..]);
  }

  lemma {:induction false} CancelDropsAttempts(queue: seq<Entry>)
    ensures Attempts(Without(queue)) <= Attempts(queue)
  {
    if queue != [] {
      CancelDropsAttempts(queue[1..]);
      if queue[0].id == First {
        assert [] + Without(queue[1..]) == Without(queue[1..]);
      } else {
        AttemptsAppend([queue[0]], Without(queue[1..]));
        AttemptsOne(queue[0]);
      }
    }
  }

  lemma DyingKeepsAttempts(s: State, recorded: bool)
    requires s.worker.Some?
    ensures AttemptsLeft(Die(s, recorded)) == AttemptsLeft(s)
  {
    hide Attempts;
    var w := s.worker.value;
    var e := Entry(w.id, w.attemptsLeft);
    AttemptsAppend(s.queue, [e]);
    AttemptsOne(e);
    assert s.queue + [] == s.queue;
  }

  // ---------- How far an attempt gets ----------

  lemma StoredMore(results: seq<Record>, r: Record, k: nat)
    ensures Stored(results + [r], k) <==> Stored(results, k) || r.row == k
  {
    if Stored(results, k) {
      var i :| 0 <= i < |results| && results[i].row == k;
      assert (results + [r])[i].row == k;
    }
    if r.row == k {
      assert (results + [r])[|results|].row == k;
    }
  }

  /** A stored row lets no attempt get further, and does not matter behind it. */
  lemma {:induction false} AheadAfterStoring(results: seq<Record>, r: Record, k: nat, n: nat)
    ensures RowsAhead(results + [r], k, n) <= RowsAhead(results, k, n)
    ensures r.row < k ==> RowsAhead(results + [r], k, n) == RowsAhead(results, k, n)
    decreases n - k
  {
    hide Stored;
    if k < n {
      StoredMore(results, r, k);
      AheadAfterStoring(results, r, k + 1, n);
    }
  }

  /** Rows the attempt at work still handles if nothing stops it but a cancel that
      has been made already. */
  function OwnRows(f: File, s: State): nat {
    if s.worker.None? || s.worker.value.stage.Close? then 0
    else
      var w := s.worker.value;
      var k := w.counters.processed;
      if s.job.status == CANCELED then if w.stage.Handle? then 1 else 0
      else if w.stage.Save? && k > 0 && Stored(s.results, k - 1) then 0
      else RowsAhead(s.results, k, |f.rows|)
  }

  /** The rows a stopped job can still handle: that of a worker past its check,
      one for every attempt left but one, and for that one all rows up to the
      first whose number is taken. */
  function Worst(f: File, s: State): nat {
    OwnRows(f, s) + if AttemptsLeft(s) == 0 then 0 else AttemptsLeft(s) - 1 + RowsAhead(s.results, 0, |f.rows|)
  }

  predicate GoesOn(s: State) {
    s.worker.Some? && !s.worker.value.stage.Close? && s.job.status != CANCELED
  }

  /** An attempt that goes on has itself stored the rows it has behind it, so the
      attempts after it get no further than the first row. */
  function Bound(f: File, s: State): nat {
    if GoesOn(s) then OwnRows(f, s) + AttemptsLeft(s) else Worst(f, s)
  }

  predicate Steady(s: State) {
    GoesOn(s) ==> forall k :: 0 <= k < SavedRows(s.worker.value) ==> Stored(s.results, k)
  }

  lemma AheadOfFirst(results: seq<Record>, n: nat)
    requires n > 0
    ensures RowsAhead(results, 0, n) == if Stored(results, 0) then 1 else 1 + RowsAhead(results, 1, n)
  {
  }

  lemma PickBound(f: File, s: State, at: nat)
    requires Sound(f, s) && Steady(s)
    ensures var t := PickUp(s, at); Bound(f, t) <= Bound(f, s) && Steady(t) && t.handled == s.handled
  {
    hide Attempts, Stored, RowsAhead, Zero, AddsUp;
    if at < |s.queue| {
      AttemptsTaken(s.queue, at);
    }
  }

  lemma CancelBound(f: File, s: State)
    requires Sound(f, s) && Steady(s)
    ensures var t := CancelJob(s); Bound(f, t) <= Bound(f, s) && Steady(t) && t.handled == s.handled
  {
    hide Attempts, Stored, RowsAhead, Zero, AddsUp, Without;
    CancelDropsAttempts(s.queue);
    AheadOfFirst(s.results, |f.rows|);
    if GoesOn(s) && SavedRows(s.worker.value) > 0 {
      assert Stored(s.results, 0);
    }
  }

  lemma ThrowBound(f: File, s: State, inRow: bool, recorded: bool)
    requires Sound(f, s) && Steady(s)
    ensures var t := Throw(f, s, inRow, recorded);
      s.handled <= t.handled && t.handled + Bound(f, t) <= s.handled + Bound(f, s) && Steady(t)
  {
    hide Attempts, Stored, RowsAhead, Zero, AddsUp, HalfDone, AddsAddress, RowOf, Waiting;
    if s.worker.Some? {
      DyingKeepsAttempts(s, recorded);
      AheadOfFirst(s.results, |f.rows|);
      if GoesOn(s) && SavedRows(s.worker.value) > 0 {
        assert Stored(s.results, 0);
      }
    }
  }

  lemma CheckBound(f: File, s: State)
    requires Sound(f, s) && Steady(s) && s.worker.Some? && (s.worker.value.stage.Check? || s.worker.value.stage.Close? || s.worker.value.stage.Report?)
    ensures var t := Advance(f, s);
      Bound(f, t) <= Bound(f, s) && Steady(t) && t.handled == s.handled
  {
    hide Attempts, Stored, RowsAhead, Zero, AddsUp, Percent;
    AheadOfFirst(s.results, |f.rows|);
    if GoesOn(s) && SavedRows(s.worker.value) > 0 {
      assert Stored(s.results, 0);
    }
  }

  lemma HandleBound(f: File, s: State)
    requires Sound(f, s) && Steady(s) && s.worker.Some? && s.worker.value.stage.Handle?
    ensures var t := Advance(f, s);
      t.handled == s.handled + 1 && t.handled + Bound(f, t) <= s.handled + Bound(f, s) && Steady(t)
  {
    hide Attempts, Stored, Zero, AddsUp, Outcome, RowStore, RowSeen, RowOf, Waiting;
  }

  lemma SaveBound(f: File, s: State)
    requires Sound(f, s) && Steady(s) && s.worker.Some? && s.worker.value.stage.Save?
    ensures var t := Advance(f, s);
      Bound(f, t) <= Bound(f, s) && Steady(t) && t.handled == s.handled
  {
    hide Attempts, Stored, RowsAhead, Zero, AddsUp, Waiting;
    var w, n := s.worker.value, |f.rows|;
    var k := w.counters.processed;
    AheadOfFirst(s.results, n);
    if GoesOn(s) && SavedRows(w) > 0 {
      assert Stored(s.results, 0);
    }
    if Stored(s.results, k - 1) {
      DyingKeepsAttempts(s, true);
    } else {
      var r := Record(k - 1, w.stage.result);
      AheadAfterStoring(s.results, r, k, n);
      AheadAfterStoring(s.results, r, 0, n);
      forall j | 0 <= j < k ensures Stored(s.results, j) ==> Stored(s.results + [r], j) {
        StoredMore(s.results, r, j);
      }
      StoredMore(s.results, r, k - 1);
    }
  }

  lemma StepBound(f: File, s: State, action: Action)
    requires Sound(f, s) && Steady(s) && !action.Retry?
    ensures var t := Apply(f, s, action);
      s.handled <= t.handled && t.handled + Bound(f, t) <= s.handled + Bound(f, s) && Steady(t)
  {
    hide Bound, Steady, Sound, Advance, PickUp, Throw, CancelJob;
    match action
    case Pick(at) => PickBound(f, s, at);
    case Work =>
      if s.worker.None? {
        IdleWorker(f, s);
      } else if s.worker.value.stage.Handle? {
        HandleBound(f, s);
      } else if s.worker.value.stage.Save? {
        SaveBound(f, s);
      } else {
        CheckBound(f, s);
      }
    case Crash(inRow, recorded) => ThrowBound(f, s, inRow, recorded);
    case Cancel => CancelBound(f, s);
  }

  lemma IdleWorker(f: File, s: State)
    requires s.worker.None?
    ensures Advance(f, s) == s
  {
  }

  lemma {:induction false} RunBound(f: File, s: State, later: seq<Action>)
    requires Sound(f, s) && Steady(s) && NoRetry(later)
    ensures var t := Run(f, s, later);
      t.handled + Bound(f, t) <= s.handled + Bound(f, s) && Steady(t) && Sound(f, t)
  {
    hide Apply, Bound, Steady, Sound;
    if later != [] {
      var front := later[..|later| - 1];
      RunBound(f, s, front);
      StepBound(f, Run(f, s, front), later[|later| - 1]);
      StepSound(f, Run(f, s, front), later[|later| - 1]);
    }
  }

  // ---------- The worst case happens ----------

  lemma CheckThenHandle(f: File, s: State)
    requires Sound(f, s) && GoesOn(s) && s.worker.value.stage.Check? && s.worker.value.counters.processed < |f.rows|
    ensures var t := Advance(f, s);
      && t.worker.Some? && GoesOn(t) && t.worker.value.stage.Handle? && t.worker.value.counters == s.worker.value.counters
      && t.worker.value.attemptsLeft == s.worker.value.attemptsLeft
      && t.handled == s.handled && t.results == s.results && t.queue == s.queue
  {
  }

  lemma HandleThenSave(f: File, s: State)
    requires Sound(f, s) && GoesOn(s) && s.worker.value.stage.Handle?
    ensures var t := Advance(f, s);
      && t.worker.Some? && GoesOn(t) && t.worker.value.stage.Save? && t.worker.value.counters.processed == s.worker.value.counters.processed + 1
      && t.handled == s.handled + 1 && t.results == s.results
  {
    hide Outcome, RowStore, RowSeen, RowOf;
  }

  lemma SaveThenCheck(f: File, s: State)
    requires Sound(f, s) && GoesOn(s) && s.worker.value.stage.Save? && !Stored(s.results, s.worker.value.counters.processed - 1)
    ensures var k, t := s.worker.value.counters.processed, Advance(f, Advance(f, s));
      && t.worker.Some? && GoesOn(t) && t.worker.value.stage.Check? && t.worker.value.counters.processed == k && t.handled == s.handled
      && t.results == s.results + [Record(k - 1, s.worker.value.stage.result)]
  {
    hide Stored, Percent, AddsUp;
  }

  /** An attempt that nothing disturbs handles every row up to the first whose
      number is taken. */
  lemma {:induction false} AttemptRuns(f: File, s: State) returns (later: seq<Action>)
    requires Sound(f, s) && s.worker.Some? && GoesOn(s) && s.worker.value.stage.Check?
    ensures NoRetry(later)
    ensures Run(f, s, later).handled == s.handled + RowsAhead(s.results, s.worker.value.counters.processed, |f.rows|)
    decreases |f.rows| - s.worker.value.counters.processed
  {
    hide Sound, GoesOn, Advance, Stored;
    var n, k := |f.rows|, s.worker.value.counters.processed;
    if k >= n {
      later := [];
      RunNothing(f, s);
    } else {
      CheckThenHandle(f, s);
      AdvanceSound(f, s);
      var a := Advance(f, s);
      HandleThenSave(f, a);
      AdvanceSound(f, a);
      var b := Advance(f, a);
      var rest: seq<Action> := [];
      if Stored(s.results, k) {
        RunNothing(f, b);
      } else {
        SaveThenCheck(f, b);
        var c := Advance(f, b);
        var d := Advance(f, c);
        AdvanceSound(f, b);
        AdvanceSound(f, c);
        AheadAfterStoring(s.results, Record(k, b.worker.value.stage.result), k + 1, n);
        var last := AttemptRuns(f, d);
        rest := [Work] + ([Work] + last);
        RunOne(f, c, Work, last);
        RunOne(f, b, Work, [Work] + last);
      }
      later := [Work] + ([Work] + rest);
      RunOne(f, a, Work, rest);
      RunOne(f, s, Work, [Work] + rest);
    }
  }

  lemma PickFirst(f: File, s: State)
    requires Sound(f, s) && s.worker.None? && AttemptsLeft(s) > 0
    ensures var t := PickUp(s, 0);
      && t.worker.Some? && GoesOn(t) && t.worker.value.stage.Check? && t.worker.value.counters.processed == 0
      && AttemptsLeft(t) == AttemptsLeft(s) - 1 && t.handled == s.handled && t.results == s.results
  {
    hide Zero, AddsUp;
    AttemptsTaken(s.queue, 0);
  }

  lemma CrashAtRow(f: File, s: State)
    requires Sound(f, s) && s.worker.Some?
    ensures var t := Throw(f, s, true, true);
      && t.worker.None? && AttemptsLeft(t) == AttemptsLeft(s) && t.results == s.results
      && t.handled == s.handled + if s.worker.value.stage.Handle? then 1 else 0
  {
    hide HalfDone, AddsAddress, RowOf, Attempts, Waiting, AddsUp;
    DyingKeepsAttempts(s, true);
    CrashCounts(f, s);
  }

  lemma CrashCounts(f: File, s: State)
    requires s.worker.Some?
    ensures AttemptsLeft(Throw(f, s, true, true)) == AttemptsLeft(Die(s, true))
  {
    hide HalfDone, AddsAddress, RowOf, Attempts;
  }

  /** Every attempt but the last dies in its first row; the last runs through. */
  lemma {:induction false} AttemptsUsedUp(f: File, s: State) returns (later: seq<Action>)
    requires Sound(f, s) && s.worker.None?
    ensures NoRetry(later)
    ensures Run(f, s, later).handled
         == s.handled + if AttemptsLeft(s) == 0 then 0 else AttemptsLeft(s) - 1 + RowsAhead(s.results, 0, |f.rows|)
    decreases AttemptsLeft(s)
  {
    hide Sound, GoesOn, Advance, Stored, Throw, PickUp, AttemptsLeft, RowsAhead;
    if AttemptsLeft(s) == 0 {
      later := [];
      RunNothing(f, s);
    } else {
      PickFirst(f, s);
      StepSound(f, s, Pick(0));
      var a := PickUp(s, 0);
      var rest: seq<Action>;
      if AttemptsLeft(s) == 1 {
        rest := AttemptRuns(f, a);
      } else {
        CheckThenHandle(f, a);
        AdvanceSound(f, a);
        var b := Advance(f, a);
        AttemptsSame(a, b);
        CrashAtRow(f, b);
        ThrowSound(f, b, true, true);
        var c := Throw(f, b, true, true);
        var last := AttemptsUsedUp(f, c);
        rest := [Work] + ([Crash(true, true)] + last);
        RunOne(f, b, Crash(true, true), last);
        RunOne(f, a, Work, [Crash(true, true)] + last);
      }
      later := [Pick(0)] + rest;
      RunOne(f, s, Pick(0), rest);
    }
  }

  lemma AttemptsSame(a: State, b: State)
    requires a.worker.Some? && b.worker.Some? && a.queue == b.queue && a.worker.value.attemptsLeft == b.worker.value.attemptsLeft
    ensures AttemptsLeft(a) == AttemptsLeft(b)
  {
  }

  lemma WorstReached(f: File, s: State) returns (later: seq<Action>)
    requires Sound(f, s) && s.job.status == CANCELED
    ensures NoRetry(later) && Run(f, s, later).handled == s.handled + Worst(f, s)
  {
    hide Sound, Throw, AttemptsLeft, RowsAhead, Run, Apply;
    if s.worker.None? {
      later := AttemptsUsedUp(f, s);
    } else {
      CrashAtRow(f, s);
      ThrowSound(f, s, true, true);
      var rest := AttemptsUsedUp(f, Throw(f, s, true, true));
      later := [Crash(true, true)] + rest;
      RunOne(f, s, Crash(true, true), rest);
      ThrowIsStep(f, s);
    }
  }

  lemma ThrowIsStep(f: File, s: State)
    ensures Apply(f, s, Crash(true, true)) == Throw(f, s, true, true)
  {
  }

  // ---------- After a cancel ----------

  lemma Canceled(f: File, s: State)
    requires Sound(f, s) && Cancelable(s)
    ensures var t := CancelJob(s);
      && Sound(f, t) && Steady(t) && t.job.status == CANCELED && t.handled == s.handled && Bound(f, t) == Worst(f, t)
  {
    hide Sound, Worst, Without;
    StepSound(f, s, Cancel);
  }

  /** After a cancel, and as long as nobody retries the job, at most `Worst` more
      rows are handled, and that many can be. */
  lemma CancelExact(f: File, s: State)
    requires Sound(f, s) && Cancelable(s)
    ensures forall later :: NoRetry(later) ==> Run(f, CancelJob(s), later).handled <= s.handled + Worst(f, CancelJob(s))
    ensures exists later :: NoRetry(later) && Run(f, CancelJob(s), later).handled == s.handled + Worst(f, CancelJob(s))
  {
    hide Sound, Steady, Bound, Worst, Run, CancelJob;
    Canceled(f, s);
    var t := CancelJob(s);
    forall later | NoRetry(later) ensures Run(f, t, later).handled <= s.handled + Worst(f, t) {
      RunBound(f, t, later);
    }
    var later := WorstReached(f, t);
  }

  /** A cancel is followed by at most one more row, whatever happens, exactly when
      it leaves no attempt, or one that gets no further than the first row and no
      row at work. */
  lemma CancelEffective(f: File, s: State)
    requires Sound(f, s) && Cancelable(s)
    ensures (forall later :: NoRetry(later) ==> Run(f, CancelJob(s), later).handled <= s.handled + 1) <==>
      var t := CancelJob(s);
      || AttemptsLeft(t) == 0
      || (AttemptsLeft(t) == 1 && (Stored(t.results, 0) || |f.rows| == 1) && !(t.worker.Some? && t.worker.value.stage.Handle?))
  {
    hide Sound, Run, CancelJob, Stored, Attempts;
    Canceled(f, s);
    CancelExact(f, s);
    AheadOfFirst(s.results, |f.rows|);
    var t := CancelJob(s);
    AheadOfFirst(t.results, |f.rows|);
    var later :| NoRetry(later) && Run(f, t, later).handled == s.handled + Worst(f, t);
  }

  /** A cancel that leaves a retry queued is overwritten when the entry is picked
      up: every row is handled. */
  lemma QueuedRetryIgnoresCancel(f: File, s: State)
    requires Sound(f, s) && Cancelable(s) && s.worker.None? && s.results == []
    requires exists e :: e in s.queue && e.id == Again
    ensures exists later :: NoRetry(later) && Run(f, CancelJob(s), later).handled >= s.handled + |f.rows|
  {
    hide Run, Sound, Attempts, Without, RowsAhead;
    Canceled(f, s);
    CancelExact(f, s);
    var t := CancelJob(s);
    var e :| e in s.queue && e.id == Again;
    assert e in t.queue;
    SomeAttempt(f, t);
    NothingTaken(0, |f.rows|);
    var later :| NoRetry(later) && Run(f, t, later).handled == s.handled + Worst(f, t);
  }

  /** A new job comes to that state by a cancel and a retry before it is picked up. */
  lemma QueuedRetryReached(f: File, options: Options)
    ensures var s := Run(f, Created(f, options), [Cancel, Retry(None, None)]);
      && Sound(f, s) && Cancelable(s) && s.handled == 0
      && exists later :: NoRetry(later) && Run(f, CancelJob(s), later).handled >= |f.rows|
  {
    hide Run, Sound, Created, CancelJob, RetryJob, Cancelable;
    var c := Created(f, options);
    AlwaysSound(f, options, [Cancel, Retry(None, None)]);
    RunNothing(f, c);
    RunLast(f, c, [], Cancel);
    RunLast(f, c, [Cancel], Retry(None, None));
    assert [] + [Cancel] == [Cancel] && [Cancel] + [Retry(None, None)] == [Cancel, Retry(None, None)];
    RetryQueued(f, options);
    QueuedRetryIgnoresCancel(f, RetryJob(CancelJob(c), None, None));
  }

  lemma RetryQueued(f: File, options: Options)
    ensures var s := RetryJob(CancelJob(Created(f, options)), None, None);
      && Cancelable(s) && s.worker.None? && s.results == [] && s.handled == 0
      && exists e :: e in s.queue && e.id == Again
  {
    hide Without, Zero;
    var s := RetryJob(CancelJob(Created(f, options)), None, None);
    assert s.queue[|s.queue| - 1] == Entry(Again, ATTEMPTS);
  }

  lemma SomeAttempt(f: File, s: State)
    requires Sound(f, s) && s.queue != []
    ensures Attempts(s.queue) > 0
  {
    assert s.queue[0].attempts > 0;
  }

  lemma {:induction false} NothingTaken(k: nat, n: nat)
    requires k <= n
    ensures RowsAhead([], k, n) == n - k
    decreases n - k
  {
    if k < n {
      NothingTaken(k + 1, n);
    }
  }

  /** A cancel during the first row of a new job, when the row then throws: the
      queue tries again, and up to two rows more than the whole file are handled. */
  lemma ThrowAfterCancelRunsAgain(f: File, options: Options)
    ensures var s := Run(f, Created(f, options), [Pick(0), Work]);
      && Cancelable(s) && s.worker.Some? && s.handled == 0
      && exists later :: NoRetry(later) && Run(f, CancelJob(s), later).handled == |f.rows| + 2
  {
    hide Run, Sound, Worst, Created, PickUp, Advance, Cancelable;
    var c := Created(f, options);
    AlwaysSound(f, options, [Pick(0), Work]);
    RunNothing(f, c);
    RunLast(f, c, [], Pick(0));
    RunLast(f, c, [Pick(0)], Work);
    assert [] + [Pick(0)] == [Pick(0)] && [Pick(0)] + [Work] == [Pick(0), Work];
    FirstCheck(f, options);
    CancelExact(f, Advance(f, PickUp(c, 0)));
  }

  lemma FirstCheck(f: File, options: Options)
    ensures var s := Advance(f, PickUp(Created(f, options), 0));
      && Cancelable(s) && s.worker.Some? && s.handled == 0 && Worst(f, CancelJob(s)) == |f.rows| + 2
  {
    hide Zero, RowsAhead;
    NothingTaken(0, |f.rows|);
    AttemptsOne(Entry(First, ATTEMPTS));
  }

  // ---------- Cooperative cancellation ----------

  /** Neither a retry nor an exception. */
  predicate Calm(actions: seq<Action>) {
    forall i :: 0 <= i < |actions| ==> !actions[i].Retry? && !actions[i].Crash?
  }

  /** The row at work will throw when its result is stored. */
  predicate RowTaken(s: State) {
    s.worker.Some? &&
    match s.worker.value.stage
    case Handle => Stored(s.results, s.worker.value.counters.processed)
    case Save(_) => Stored(s.results, SavedRows(s.worker.value))
    case _ => false
  }

  predicate Stopping(s: State) {
    && s.queue == [] && !RowTaken(s)
    && (s.worker.Some? ==> s.worker.value.stage.Close? || s.job.status == CANCELED)
  }

  function RowAtWork(s: State): nat {
    if s.worker.Some? && s.worker.value.stage.Handle? then 1 else 0
  }

  lemma StepStops(f: File, s: State, action: Action)
    requires Sound(f, s) && Stopping(s) && !action.Retry? && !action.Crash?
    ensures var t := Apply(f, s, action);
      Stopping(t) && t.handled + RowAtWork(t) == s.handled + RowAtWork(s)
  {
    hide Outcome, RowStore, RowSeen, RowOf, Percent, Stored, AddsUp;
  }

  /** Without exceptions: once a cancel leaves no retry queued, exactly the row of
      a worker past its check can still be handled, in every interleaving. */
  lemma {:induction false} CancelStops(f: File, s: State, later: seq<Action>)
    requires Sound(f, s) && Cancelable(s) && Calm(later) && !RowTaken(s)
    requires forall e :: e in s.queue ==> e.id == First
    ensures var t := Run(f, CancelJob(s), later);
      Stopping(t) && Sound(f, t) && t.handled + RowAtWork(t) == s.handled + RowAtWork(s)
  {
    hide Stopping, Sound, RowTaken, Stored, CancelJob;
    if later == [] {
      StepSound(f, s, Cancel);
      CancelStarts(s);
      RunNothing(f, CancelJob(s));
    } else {
      hide Apply;
      var front := later[..|later| - 1];
      CancelStops(f, s, front);
      StepStops(f, Run(f, CancelJob(s), front), later[|later| - 1]);
      StepSound(f, Run(f, CancelJob(s), front), later[|later| - 1]);
    }
  }

  lemma CancelStarts(s: State)
    requires Cancelable(s) && !RowTaken(s) && forall e :: e in s.queue ==> e.id == First
    ensures Stopping(CancelJob(s)) && RowAtWork(CancelJob(s)) == RowAtWork(s) && CancelJob(s).handled == s.handled
  {
    hide Stored, Without;
  }

  /** What a job looks like that has seen no retry and no exception. */
  predicate FirstAttempt(s: State) {
    && (forall e :: e in s.queue ==> e.id == First)
    && (s.queue != [] ==> |s.queue| == 1 && s.worker.None? && s.results == [])
    && (s.worker.Some? && !s.worker.value.stage.Close? ==> Leads(s.job, s.worker.value, s.results))
  }

  lemma PickLeads(s: State, at: nat)
    requires FirstAttempt(s) && JobTallies(s.job, s.results)
    ensures FirstAttempt(PickUp(s, at))
  {
    hide Tally, Zero;
    NoResults();
  }

  lemma WorkLeads(f: File, s: State)
    requires FirstAttempt(s) && InOrder(s.results) && s.worker.Some? && WorkerSound(f, s.worker.value)
    ensures FirstAttempt(Advance(f, s))
  {
    hide Outcome, RowStore, RowSeen, RowOf, Percent, Stored, Tally, Zero, AddsUp;
    var w := s.worker.value;
    if w.stage.Save? {
      TakenNumbers(s.results, w.counters.processed - 1);
      TallyLast(s.results, Record(w.counters.processed - 1, w.stage.result));
    }
  }

  lemma CancelLeads(s: State)
    requires FirstAttempt(s)
    ensures FirstAttempt(CancelJob(s))
  {
    hide Without, Tally;
  }

  lemma StepFirstAttempt(f: File, s: State, action: Action)
    requires FirstAttempt(s) && Balanced(f, s) && !action.Retry? && !action.Crash?
    ensures FirstAttempt(Apply(f, s, action))
  {
    hide FirstAttempt, Balanced, PickUp, Advance, CancelJob, WorkerSound, JobTallies;
    BalancedMeans(f, s);
    match action
    case Pick(at) => PickLeads(s, at);
    case Work =>
      if s.worker.Some? {
        BalancedWorker(f, s);
        WorkLeads(f, s);
      } else {
        IdleWorker(f, s);
      }
    case Cancel => CancelLeads(s);
  }

  lemma CreatedFirstAttempt(f: File, options: Options)
    ensures FirstAttempt(Created(f, options))
  {
    hide Zero;
  }

  lemma {:induction false} CalmRuns(f: File, options: Options, actions: seq<Action>)
    requires Calm(actions)
    ensures FirstAttempt(Run(f, Created(f, options), actions)) && Balanced(f, Run(f, Created(f, options), actions))
  {
    hide Apply, FirstAttempt, Balanced, Created;
    if actions == [] {
      CreatedBalanced(f, options);
      CreatedFirstAttempt(f, options);
    } else {
      var s, last := Run(f, Created(f, options), actions[..|actions| - 1]), actions[|actions| - 1];
      CalmRuns(f, options, actions[..|actions| - 1]);
      StepFirstAttempt(f, s, last);
      StepBalanced(f, s, last);
    }
  }

  lemma LeadsNotTaken(f: File, s: State)
    requires FirstAttempt(s) && Balanced(f, s)
    ensures Sound(f, s) && !RowTaken(s) && forall e :: e in s.queue ==> e.id == First
  {
    hide Sound, Stored, Tally;
    TakenNumbers(s.results, |s.results|);
  }

  /** In every interleaving of one worker with cancel requests, a cancel after the
      PROCESSING write is followed by at most one more handled row. */
  lemma CancelWhileRunning(f: File, options: Options, actions: seq<Action>, later: seq<Action>)
    requires Calm(actions) && Calm(later)
    requires Cancelable(Run(f, Created(f, options), actions))
    ensures var s := Run(f, Created(f, options), actions);
      s.handled <= Run(f, CancelJob(s), later).handled <= s.handled + 1
  {
    hide Run, Balanced, FirstAttempt, Sound, RowTaken, Stopping;
    var s := Run(f, Created(f, options), actions);
    CalmRuns(f, options, actions);
    LeadsNotTaken(f, s);
    CancelStops(f, s, later);
    CancelStops(f, s, []);
    HandledGrows(f, CancelJob(s), later);
    RunNothing(f, CancelJob(s));
  }

  lemma {:induction false} HandledGrows(f: File, s: State, later: seq<Action>)
    ensures s.handled <= Run(f, s, later).handled
  {
    if later != [] {
      HandledGrows(f, s, later[..|later| - 1]);
      StepGrows(f, Run(f, s, later[..|later| - 1]), later[|later| - 1]);
    }
  }

  lemma StepGrows(f: File, s: State, action: Action)
    ensures s.handled <= Apply(f, s, action).handled
  {
    hide Outcome, RowStore, RowSeen, RowOf, Percent, Stored, HalfDone, AddsAddress, Without;
  }

  // ---------- A cancel that comes too late ----------

  /** The worker alone, for n steps. */
  function Alone(f: File, s: State, n: nat): State
    decreases n
  {
    if n == 0 then s else Alone(f, Advance(f, s), n - 1)
  }

  /** The row the worker's next check is for. */
  function NextRow(w: Worker): nat {
    if w.stage.Handle? then w.counters.processed + 1 else w.counters.processed
  }

  /** The worker looks at the status only before a row. After the last check it
      does not see the cancel, and writes COMPLETED or FAILED over it. */
  lemma LateCancelOverwritten(f: File, s: State)
    requires Sound(f, s) && Cancelable(s) && s.worker.Some? && !s.worker.value.stage.Close? && !RowTaken(s)
    ensures var t := Alone(f, CancelJob(s), 5);
      && t.worker.None?
      && (t.job.status == CANCELED <==> NextRow(s.worker.value) < |f.rows|)
      && (t.job.status != CANCELED ==> t.job.status == COMPLETED || t.job.status == FAILED)
  {
    hide Outcome, RowStore, RowSeen, RowOf, Percent, Stored, AddsUp, Without, Zero, Waiting;
    var a := CancelJob(s);
    assert a.worker == s.worker && a.results == s.results;
    var b := Advance(f, a);
    var c := Advance(f, b);
    var d := Advance(f, c);
  }
}
