/** What the counters of an import job say about its stored rows, in every
    interleaving of the worker with cancels, retries and exceptions. */
module ImportCounters {
  import opened Text
  import opened CustomerImport
  import opened ImportProtocol

  // ---------- Without any condition ----------

  predicate AddsUp(c: Counters) {
    c.processed == c.success + c.error + c.skipped
  }

  predicate WorkerSound(f: File, w: Worker) {
    && AddsUp(w.counters) && w.counters.processed <= |f.rows|
    && (w.stage.Handle? ==> w.counters.processed < |f.rows|)
    && (w.stage.Save? || w.stage.Report? ==> w.counters.processed >= 1)
  }

  predicate Waiting(queue: seq<Entry>) {
    forall i :: 0 <= i < |queue| ==> queue[i].attempts > 0
  }

  predicate Sound(f: File, s: State) {
    && AddsUp(s.job.counters) && s.job.progress <= 100
    && (s.worker.Some? ==> WorkerSound(f, s.worker.value))
    && Waiting(s.queue)
  }

  lemma AdvanceSound(f: File, s: State)
    requires Sound(f, s)
    ensures Sound(f, Advance(f, s))
  {
    hide Zero, Outcome, RowStore, RowSeen, RowOf, Percent, Stored, Waiting;
    if s.worker.Some? {
      DieWaits(s, true);
    }
  }

  lemma DieWaits(s: State, recorded: bool)
    requires Waiting(s.queue) && s.worker.Some?
    ensures Waiting(Die(s, recorded).queue)
  {
  }

  lemma ThrowSound(f: File, s: State, inRow: bool, recorded: bool)
    requires Sound(f, s)
    ensures Sound(f, Throw(f, s, inRow, recorded))
  {
    hide Zero, HalfDone, AddsAddress, RowOf, Waiting;
    if s.worker.Some? {
      DieWaits(s, recorded);
    }
  }

  lemma ZeroAddsUp()
    ensures AddsUp(Zero())
  {
  }

  lemma RequestSound(f: File, s: State, action: Action)
    requires Sound(f, s) && !action.Work? && !action.Crash?
    ensures Sound(f, Apply(f, s, action))
  {
    hide Zero, AddsUp, Without, Waiting;
    ZeroAddsUp();
    QueueWaits(s, action);
  }

  lemma QueueWaits(s: State, action: Action)
    requires Waiting(s.queue)
    ensures forall at :: action == Pick(at) ==> Waiting(PickUp(s, at).queue)
    ensures Waiting(Without(s.queue)) && Waiting(s.queue + [Entry(Again, ATTEMPTS)])
  {
    hide Zero, Without;
    var q := Without(s.queue);
    forall i | 0 <= i < |q| ensures q[i].attempts > 0 {
      assert q[i] in s.queue;
    }
  }

  lemma StepSound(f: File, s: State, action: Action)
    requires Sound(f, s)
    ensures Sound(f, Apply(f, s, action))
  {
    hide Zero, Advance, Throw, Sound;
    match action
    case Work => AdvanceSound(f, s);
    case Crash(inRow, recorded) => ThrowSound(f, s, inRow, recorded);
    case _ => RequestSound(f, s, action);
  }

  /** In every run at all, processed is the sum of the other counters and progress
      is a percentage. */
  lemma {:induction false} AlwaysSound(f: File, options: Options, actions: seq<Action>)
    ensures var s := Run(f, Created(f, options), actions);
      Sound(f, s) && AddsUp(s.job.counters) && s.job.progress <= 100
  {
    hide Zero, AddsUp, Apply;
    ZeroAddsUp();
    if actions != [] {
      hide Sound;
      AlwaysSound(f, options, actions[..|actions| - 1]);
      StepSound(f, Run(f, Created(f, options), actions[..|actions| - 1]), actions[|actions| - 1]);
      SoundMeans(f, Run(f, Created(f, options), actions));
    }
  }

  lemma SoundMeans(f: File, s: State)
    requires Sound(f, s)
    ensures AddsUp(s.job.counters) && s.job.progress <= 100
  {
  }

  // ---------- Counters and stored rows ----------

  /** What a reader of the job can check: the stored results number the processed
      rows, or one more. */
  predicate CountsAgree(s: State) {
    |s.results| == s.job.counters.processed || |s.results| == s.job.counters.processed + 1
  }

  /** The job's counters are those of the stored results, or of all but the last. */
  predicate JobTallies(job: Job, results: seq<Record>) {
    || job.counters == Tally(results)
    || (results != [] && job.counters == Tally(results[..|results| - 1]))
  }

  /** Rows this attempt has stored. */
  function SavedRows(w: Worker): nat {
    if w.stage.Save? && w.counters.processed > 0 then w.counters.processed - 1 else w.counters.processed
  }

  predicate InOrder(results: seq<Record>) {
    forall i :: 0 <= i < |results| ==> results[i].row == i
  }

  /** The attempt has stored everything that is stored. */
  predicate Leads(job: Job, w: Worker, results: seq<Record>) {
    && (w.stage != Report ==> job.counters == Tally(results))
    && match w.stage
       case Save(result) => w.counters == Tally(results).Add(result)
       case _ => w.counters == Tally(results)
  }

  /** The attempt is at its first row, whose number an earlier attempt has taken. */
  predicate Blocked(w: Worker, results: seq<Record>) {
    && results != []
    && match w.stage
       case Save(result) => w.counters == Zero().Add(result)
       case Check => w.counters == Zero()
       case Handle => w.counters == Zero()
       case _ => false
  }

  predicate Balanced(f: File, s: State) {
    && Sound(f, s) && InOrder(s.results) && |s.results| <= |f.rows| && JobTallies(s.job, s.results)
    && (s.worker.Some? && !s.worker.value.stage.Close? ==>
          Leads(s.job, s.worker.value, s.results) || Blocked(s.worker.value, s.results))
  }

  /** No attempt is at work that has already stored a row and goes on. */
  predicate Harmless(s: State) {
    s.worker.None? || s.worker.value.stage.Close? || SavedRows(s.worker.value) == 0
  }

  lemma TakenNumbers(results: seq<Record>, k: nat)
    requires InOrder(results)
    ensures Stored(results, k) <==> k < |results|
  {
    if k < |results| {
      assert results[k].row == k;
    }
  }

  lemma SaveBalanced(f: File, s: State)
    requires Balanced(f, s) && s.worker.Some? && s.worker.value.stage.Save?
    ensures Balanced(f, Advance(f, s))
  {
    hide Zero, Tally, Stored, Sound, AddsUp, RowOf, Outcome, RowStore, RowSeen, InOrder;
    AdvanceSound(f, s);
    var w := s.worker.value;
    assert WorkerSound(f, w) by { WorkerIsSound(f, s); }
    TakenNumbers(s.results, w.counters.processed - 1);
    var r := Record(w.counters.processed - 1, w.stage.result);
    if Leads(s.job, w, s.results) {
      NextInOrder(s.results, r);
      TallyLast(s.results, r);
      assert (s.results + [r])[..|s.results|] == s.results;
    } else {
      OneRow(w.counters, w.stage.result);
    }
  }

  lemma NextInOrder(results: seq<Record>, r: Record)
    requires InOrder(results) && r.row == |results|
    ensures InOrder(results + [r])
  {
  }

  lemma OneRow(c: Counters, r: RowResult)
    requires c == Zero().Add(r)
    ensures c.processed == 1
  {
  }

  lemma WorkerIsSound(f: File, s: State)
    requires Sound(f, s) && s.worker.Some?
    ensures WorkerSound(f, s.worker.value)
  {
  }

  lemma WorkBalanced(f: File, s: State)
    requires Balanced(f, s) && s.worker.Some? && !s.worker.value.stage.Save?
    ensures Balanced(f, Advance(f, s))
  {
    hide Zero, Outcome, RowStore, RowSeen, RowOf, Tally, Percent, Sound, InOrder;
    AdvanceSound(f, s);
    WorkerIsSound(f, s);
    NoResults();
  }

  lemma RetryBalanced(f: File, s: State, mapping: Option<map<string, string>>, strategy: Option<Strategy>)
    requires Balanced(f, s) && (Retryable(s) ==> Harmless(s))
    ensures Balanced(f, RetryJob(s, mapping, strategy))
  {
    hide Zero, Tally, Sound;
    StepSound(f, s, Retry(mapping, strategy));
    NoResults();
    if s.worker.Some? {
      WorkerIsSound(f, s);
    }
  }

  lemma ThrowBalanced(f: File, s: State, inRow: bool, recorded: bool)
    requires Balanced(f, s)
    ensures Balanced(f, Throw(f, s, inRow, recorded))
  {
    hide Zero, HalfDone, AddsAddress, RowOf, Tally, Sound, InOrder;
    ThrowSound(f, s, inRow, recorded);
  }

  lemma StepBalanced(f: File, s: State, action: Action)
    requires Balanced(f, s) && (action.Retry? && Retryable(s) ==> Harmless(s))
    ensures Balanced(f, Apply(f, s, action))
  {
    hide Zero;
    match action
    case Work =>
      if s.worker.Some? {
        hide Balanced, Advance;
        if s.worker.value.stage.Save? { SaveBalanced(f, s); } else { WorkBalanced(f, s); }
      }
    case Crash(inRow, recorded) => hide Balanced, Throw; ThrowBalanced(f, s, inRow, recorded);
    case Retry(mapping, strategy) => hide Balanced, RetryJob; RetryBalanced(f, s, mapping, strategy);
    case _ =>
      hide Without, Tally, Sound, InOrder;
      StepSound(f, s, action);
      NoResults();
  }

  /** From a balanced state the counts agree in every continuation without a retry. */
  lemma {:induction false} StaysBalanced(f: File, s: State, later: seq<Action>)
    requires Balanced(f, s) && NoRetry(later)
    ensures Balanced(f, Run(f, s, later)) && CountsAgree(Run(f, s, later))
  {
    hide Apply, Balanced;
    if later == [] {
      BalancedAgrees(f, s);
    } else {
      var front := later[..|later| - 1];
      StaysBalanced(f, s, front);
      StepBalanced(f, Run(f, s, front), later[|later| - 1]);
      BalancedAgrees(f, Run(f, s, later));
    }
  }

  lemma BalancedAgrees(f: File, s: State)
    requires Balanced(f, s)
    ensures CountsAgree(s)
  {
  }

  // ---------- Retries ----------

  lemma RunOne(f: File, s: State, action: Action, rest: seq<Action>)
    ensures Run(f, s, [action] + rest) == Run(f, Apply(f, s, action), rest)
  {
    hide Run, Apply;
    RunOn(f, s, [action], rest);
    RunNothing(f, s);
    RunLast(f, s, [], action);
    assert [] + [action] == [action];
  }

  /** An attempt goes on over results that were emptied under it. */
  predicate Overtaking(f: File, s: State) {
    && s.worker.Some? && WorkerSound(f, s.worker.value)
    && SavedRows(s.worker.value) > |s.results|
    && (s.worker.value.stage.Check? ==> s.job.status != CANCELED)
    && (!s.worker.value.stage.Report? ==> s.results == [])
    && !s.worker.value.stage.Close?
  }

  function StepsToReport(stage: Stage): nat {
    match stage
    case Check => 3
    case Handle => 2
    case Save(_) => 1
    case _ => 0
  }

  lemma OvertakingStep(f: File, s: State)
    requires Overtaking(f, s)
    ensures var t := Advance(f, s);
      || t.job.counters.processed > |t.results|
      || (Overtaking(f, t) && StepsToReport(t.worker.value.stage) < StepsToReport(s.worker.value.stage))
  {
    hide Outcome, RowStore, RowSeen, RowOf, Percent, AddsUp;
    OutcomeAddsUp(s.worker.value);
  }

  lemma OutcomeAddsUp(w: Worker)
    ensures AddsUp(w.counters) ==> forall r :: AddsUp(w.counters.Add(r))
  {
  }

  lemma {:induction false} Overtakes(f: File, s: State) returns (later: seq<Action>)
    requires Overtaking(f, s)
    ensures NoRetry(later) && !CountsAgree(Run(f, s, later))
    decreases StepsToReport(s.worker.value.stage)
  {
    hide Overtaking, Advance;
    OvertakingStep(f, s);
    var t := Advance(f, s);
    var rest: seq<Action> := [];
    if t.job.counters.processed > |t.results| {
      RunNothing(f, t);
    } else {
      rest := Overtakes(f, t);
    }
    later := [Work] + rest;
    RunOne(f, s, Work, rest);
  }

  /** An accepted retry is safe exactly when no attempt that has stored rows goes
      on: only then do the counts agree in every continuation. */
  lemma RetryExact(f: File, s: State, mapping: Option<map<string, string>>, strategy: Option<Strategy>)
    requires Balanced(f, s) && Retryable(s)
    ensures Harmless(s) <==>
      forall later :: NoRetry(later) ==> CountsAgree(Run(f, RetryJob(s, mapping, strategy), later))
  {
    hide Run, Balanced, CountsAgree;
    var t := RetryJob(s, mapping, strategy);
    if Harmless(s) {
      RetryBalanced(f, s, mapping, strategy);
      forall later | NoRetry(later) ensures CountsAgree(Run(f, t, later)) {
        StaysBalanced(f, t, later);
      }
    } else {
      assert WorkerSound(f, s.worker.value) by { BalancedWorker(f, s); }
      var later := Overtakes(f, t);
    }
  }

  lemma BalancedWorker(f: File, s: State)
    requires Balanced(f, s) && s.worker.Some?
    ensures WorkerSound(f, s.worker.value)
  {
  }

  /** No retry is accepted while an attempt that has stored rows goes on. */
  predicate Orderly(f: File, s: State, actions: seq<Action>) {
    actions == [] ||
    var front, last := actions[..|actions| - 1], actions[|actions| - 1];
    Orderly(f, s, front) && (last.Retry? && Retryable(Run(f, s, front)) ==> Harmless(Run(f, s, front)))
  }

  lemma CreatedBalanced(f: File, options: Options)
    ensures Balanced(f, Created(f, options))
  {
    hide Zero, AddsUp;
    ZeroAddsUp();
    NoResults();
  }

  /** In every orderly interleaving, at every step, the counters are those of the
      stored rows or of all but the last, and rows are stored in order, once. */
  lemma {:induction false} AlwaysBalanced(f: File, options: Options, actions: seq<Action>)
    requires Orderly(f, Created(f, options), actions)
    ensures var s := Run(f, Created(f, options), actions);
      Balanced(f, s) && JobTallies(s.job, s.results) && InOrder(s.results) && CountsAgree(s)
  {
    hide Apply, Harmless, Created;
    if actions == [] {
      CreatedBalanced(f, options);
    } else {
      hide Balanced;
      var front := actions[..|actions| - 1];
      AlwaysBalanced(f, options, front);
      StepBalanced(f, Run(f, Created(f, options), front), actions[|actions| - 1]);
    }
    BalancedMeans(f, Run(f, Created(f, options), actions));
  }

  lemma BalancedMeans(f: File, s: State)
    requires Balanced(f, s)
    ensures JobTallies(s.job, s.results) && InOrder(s.results) && CountsAgree(s)
  {
  }

  /** A disorderly retry can be followed by a disagreement. */
  lemma DisorderUnbalances(f: File, options: Options, front: seq<Action>)
    requires Orderly(f, Created(f, options), front)
    requires Retryable(Run(f, Created(f, options), front)) && !Harmless(Run(f, Created(f, options), front))
    ensures exists actions :: !CountsAgree(Run(f, Created(f, options), actions))
  {
    hide Run, Balanced, CountsAgree, Created, Orderly, Harmless, Retryable, RetryJob;
    var s := Run(f, Created(f, options), front);
    AlwaysBalanced(f, options, front);
    RetryExact(f, s, None, None);
    var later :| NoRetry(later) && !CountsAgree(Run(f, RetryJob(s, None, None), later));
    RunOne(f, s, Retry(None, None), later);
    RunOn(f, Created(f, options), front, [Retry(None, None)] + later);
  }

  /** The failing case, reached by one attempt, a cancel and a retry: the attempt
      has stored its first row when the results are emptied. */
  lemma HastyRetryUnbalances(f: File, options: Options)
    ensures exists actions :: !CountsAgree(Run(f, Created(f, options), actions))
  {
    hide Run, CountsAgree, Created, Orderly, Harmless, Retryable;
    var front := [Pick(0), Work, Work, Work, Cancel];
    FirstRowStored(f, options);
    RetryFree(f, Created(f, options), front);
    DisorderUnbalances(f, options, front);
  }

  lemma {:induction false} RetryFree(f: File, s: State, actions: seq<Action>)
    requires NoRetry(actions)
    ensures Orderly(f, s, actions)
  {
    if actions != [] {
      RetryFree(f, s, actions[..|actions| - 1]);
    }
  }

  lemma FirstRowStored(f: File, options: Options)
    ensures var s := Run(f, Created(f, options), [Pick(0), Work, Work, Work, Cancel]);
      Retryable(s) && !Harmless(s)
  {
    hide Run, Advance, PickUp, CancelJob, Created, Retryable, Harmless;
    var c := Created(f, options);
    RunNothing(f, c);
    RunLast(f, c, [], Pick(0));
    RunLast(f, c, [Pick(0)], Work);
    RunLast(f, c, [Pick(0), Work], Work);
    RunLast(f, c, [Pick(0), Work, Work], Work);
    RunLast(f, c, [Pick(0), Work, Work, Work], Cancel);
    assert [] + [Pick(0)] == [Pick(0)];
    assert [Pick(0)] + [Work] == [Pick(0), Work];
    assert [Pick(0), Work] + [Work] == [Pick(0), Work, Work];
    assert [Pick(0), Work, Work] + [Work] == [Pick(0), Work, Work, Work];
    assert [Pick(0), Work, Work, Work] + [Cancel] == [Pick(0), Work, Work, Work, Cancel];
    FirstRow(f, options);
  }

  lemma FirstRow(f: File, options: Options)
    ensures var s := CancelJob(Advance(f, Advance(f, Advance(f, PickUp(Created(f, options), 0)))));
      Retryable(s) && !Harmless(s)
  {
    hide Outcome, RowStore, RowSeen, RowOf, Without, Zero;
    var s := PickUp(Created(f, options), 0);
    assert s.worker.Some? && s.worker.value.stage == Check && s.worker.value.counters.processed == 0 && s.results == [];
  }

  lemma {:induction false} OrderlyPrefix(f: File, s: State, actions: seq<Action>, k: nat)
    requires k <= |actions| && Orderly(f, s, actions)
    ensures Orderly(f, s, actions[..k])
  {
    hide Run, Harmless, Retryable;
    if k < |actions| {
      OrderlyPrefix(f, s, actions[..|actions| - 1], k);
      assert actions[..|actions| - 1][..k] == actions[..k];
    } else {
      assert actions[..k] == actions;
    }
  }

  /** The whole run: the counts agree at every point of it, and in every way a
      point can go on without a retry, exactly when it is orderly. */
  lemma {:induction false} OrderlyExact(f: File, options: Options, actions: seq<Action>)
    ensures Orderly(f, Created(f, options), actions) <==>
      forall k, later :: 0 <= k <= |actions| && NoRetry(later) ==>
        CountsAgree(Run(f, Run(f, Created(f, options), actions[..k]), later))
  {
    hide Run, Balanced, CountsAgree, Created, Harmless, Retryable, Apply;
    var c := Created(f, options);
    if Orderly(f, c, actions) {
      forall k, later | 0 <= k <= |actions| && NoRetry(later) ensures CountsAgree(Run(f, Run(f, c, actions[..k]), later)) {
        OrderlyPrefix(f, c, actions, k);
        AlwaysBalanced(f, options, actions[..k]);
        StaysBalanced(f, Run(f, c, actions[..k]), later);
      }
    } else {
      var k, later := Disorder(f, options, actions);
    }
  }

  lemma {:induction false} Disorder(f: File, options: Options, actions: seq<Action>) returns (k: nat, later: seq<Action>)
    requires !Orderly(f, Created(f, options), actions)
    ensures k <= |actions| && NoRetry(later)
    ensures !CountsAgree(Run(f, Run(f, Created(f, options), actions[..k]), later))
  {
    hide Run, Balanced, CountsAgree, Created, Harmless, Retryable, RetryJob;
    var c, front, last := Created(f, options), actions[..|actions| - 1], actions[|actions| - 1];
    if Orderly(f, c, front) {
      AlwaysBalanced(f, options, front);
      RetryExact(f, Run(f, c, front), last.mapping, last.strategy);
      later :| NoRetry(later) && !CountsAgree(Run(f, RetryJob(Run(f, c, front), last.mapping, last.strategy), later));
      k := |actions|;
      RunLast(f, c, front, last);
      assert actions == front + [last] && actions[..k] == actions;
    } else {
      k, later := Disorder(f, options, front);
      assert front[..k] == actions[..k];
    }
  }

  // ---------- Progress ----------

  /** Progress is the nearest whole percentage, halves up. */
  lemma PercentNearest(processed: nat, total: nat)
    requires processed <= total && total > 0
    ensures var p := Percent(processed, total);
      2 * (p * total) <= 200 * processed + total < 2 * (p * total) + 2 * total
  {
    var a, d := 200 * processed + total, 2 * total;
    var q := a / d;
    assert a == q * d + a % d;
    assert q * d == 2 * (q * total);
    DivMonotone(a, 201 * total, d);
    assert 201 * total == 100 * d + total;
    DivIs(201 * total, d, 100, total);
  }

  lemma DivIs(a: nat, d: nat, q: nat, r: nat)
    requires r < d && a == q * d + r
    ensures a / d == q
  {
    var e := a / d - q;
    assert e * d == r - a % d by {
      assert a == a / d * d + a % d;
    }
    WholeMultiple(e, d);
    WholeMultiple(-e, d);
    assert -e * d == -(e * d);
  }

  /** Within a run the reported progress never goes back. */
  lemma ProgressMonotone(p: nat, q: nat, total: nat)
    requires p <= q
    ensures Percent(p, total) <= Percent(q, total)
  {
    if total > 0 {
      DivMonotone(200 * p + total, 200 * q + total, 2 * total);
    }
  }

  lemma DivMonotone(a: nat, b: nat, d: nat)
    requires a <= b && d > 0
    ensures a / d <= b / d
  {
    var e := a / d - b / d;
    assert e * d < d by {
      assert a == a / d * d + a % d && b == b / d * d + b % d;
    }
    WholeMultiple(e, d);
  }

  lemma WholeMultiple(e: int, d: nat)
    ensures e >= 1 ==> e * d >= d
  {
    if e >= 1 {
      assert (e - 1) * d >= 0;
    }
  }

  lemma PercentEnds(total: nat)
    requires total > 0
    ensures Percent(0, total) == 0 && Percent(total, total) == 100
  {
    DivIs(201 * total, 2 * total, 100, total);
    DivIs(total, 2 * total, 0, total);
  }

  lemma ZeroProcessed()
    ensures Zero().processed == 0
  {
  }

  /** The progress shown is that of the counters shown, over the rows of the file; a
      COMPLETED job has processed them all, and not only with errors. */
  predicate Reported(f: File, s: State) {
    && s.job.totalRows == |f.rows| && s.job.progress == Percent(s.job.counters.processed, |f.rows|)
    && (s.job.status == COMPLETED ==>
          && s.job.counters.processed == |f.rows| && s.job.progress == 100
          && (s.job.counters.error == 0 || s.job.counters.success > 0)
          && (s.worker.Some? ==> s.worker.value.stage.Close?))
  }

  lemma StepReported(f: File, s: State, action: Action)
    requires Sound(f, s) && Reported(f, s)
    ensures Reported(f, Apply(f, s, action))
  {
    hide Zero, Percent, Outcome, RowStore, RowSeen, RowOf, HalfDone, AddsAddress, Stored, Without, Waiting;
    PercentEnds(|f.rows|);
    ZeroProcessed();
  }

  lemma {:induction false} AlwaysReported(f: File, options: Options, actions: seq<Action>)
    ensures Reported(f, Run(f, Created(f, options), actions))
  {
    hide Zero, Percent;
    PercentEnds(|f.rows|);
    ZeroProcessed();
    if actions != [] {
      hide Apply, Reported, Sound;
      var front := actions[..|actions| - 1];
      AlwaysReported(f, options, front);
      AlwaysSound(f, options, front);
      StepReported(f, Run(f, Created(f, options), front), actions[|actions| - 1]);
    }
  }
}
