/** The in-memory login lock: a fixed window of failed attempts per identifier. */
module LoginAttempts {
  import opened Text

  /** Both settings are validated to be positive. */
  datatype Config = Config(maxAttempts: nat, windowMs: nat) {
    predicate Valid() {
      maxAttempts > 0 && windowMs > 0
    }
  }

  datatype Attempt = Attempt(attempts: nat, expiresAt: int)

  type Table = map<string, Attempt>

  datatype Event =
    | Failure(id: string, time: int)
    | Cleared(id: string, time: int)
    | Query(id: string, time: int)

  type Log = seq<Event>

  // ---------- The table ----------

  function Bumped(c: Config, table: Table, id: string, now: int): Attempt {
    if id in table && table[id].expiresAt > now then table[id].(attempts := table[id].attempts + 1)
    else Attempt(1, now + c.windowMs)
  }

  /** One call: the new table and the answer (false for `clear`). */
  function Apply(c: Config, table: Table, e: Event): (Table, bool) {
    match e
    case Failure(id, now) =>
      var next := Bumped(c, table, id, now);
      (table[id := next], next.attempts >= c.maxAttempts)
    case Cleared(id, _) => (table - {id}, false)
    case Query(id, now) =>
      if id !in table then (table, false)
      else if table[id].expiresAt <= now then (table - {id}, false)
      else (table, table[id].attempts >= c.maxAttempts)
  }

  function Run(c: Config, log: Log): Table {
    if log == [] then map[] else Apply(c, Run(c, log[..|log| - 1]), log[|log| - 1]).0
  }

  class AuthLoginAttemptService {
    const config: Config
    var localAttempts: Table

    constructor (config: Config)
      ensures this.config == config && localAttempts == map[]
    {
      this.config := config;
      localAttempts := map[];
    }

    method RecordLocalFailedAttempt(id: string, now: int) returns (locked: bool)
      modifies this
      ensures (localAttempts, locked) == Apply(config, old(localAttempts), Failure(id, now))
    {
      var next := Attempt(0, now + config.windowMs);
      if id in localAttempts && localAttempts[id].expiresAt > now {
        next := localAttempts[id];
      }
      next := next.(attempts := next.attempts + 1);
      localAttempts := localAttempts[id := next];
      return next.attempts >= config.maxAttempts;
    }

    method IsLocallyLocked(id: string, now: int) returns (locked: bool)
      modifies this
      ensures (localAttempts, locked) == Apply(config, old(localAttempts), Query(id, now))
    {
      if id !in localAttempts {
        return false;
      }
      if localAttempts[id].expiresAt <= now {
        localAttempts := localAttempts - {id};
        return false;
      }
      return localAttempts[id].attempts >= config.maxAttempts;
    }

    method Clear(id: string, now: int)
      modifies this
      ensures localAttempts == Apply(config, old(localAttempts), Cleared(id, now)).0
      ensures forall t :: !Apply(config, localAttempts, Query(id, t)).1
      ensures forall t :: Bumped(config, localAttempts, id, t).attempts == 1
      ensures forall other, t :: other != id ==>
        && Apply(config, localAttempts, Query(other, t)).1 == Apply(config, old(localAttempts), Query(other, t)).1
        && Bumped(config, localAttempts, other, t) == Bumped(config, old(localAttempts), other, t)
    {
      localAttempts := localAttempts - {id};
    }
  }

  // ---------- The reference: windows read off the log ----------

  predicate IsFailure(e: Event, id: string) {
    e.Failure? && e.id == id
  }

  predicate IsClear(e: Event, id: string) {
    e.Cleared? && e.id == id
  }

  /** The failure that opened the newest window of `id` since its last clear. */
  function Opener(c: Config, log: Log, id: string): (j: Option<nat>)
    ensures j.Some? ==> j.value < |log| && IsFailure(log[j.value], id)
  {
    if log == [] then None
    else
      var e, before := log[|log| - 1], Opener(c, log[..|log| - 1], id);
      if IsClear(e, id) then None
      else if IsFailure(e, id) && (before.None? || log[before.value].time + c.windowMs <= e.time) then Some(|log| - 1)
      else before
  }

  /** Failures of `id` from position `from` on. */
  function Failures(log: Log, id: string, from: nat): nat {
    if |log| <= from then 0
    else Failures(log[..|log| - 1], id, from) + if IsFailure(log[|log| - 1], id) then 1 else 0
  }

  /** Locked: the newest window is still open and has seen enough failures. */
  predicate Locked(c: Config, log: Log, id: string, now: int) {
    var j := Opener(c, log, id);
    j.Some? && now < log[j.value].time + c.windowMs && Failures(log, id, j.value) >= c.maxAttempts
  }

  predicate Ordered(log: Log) {
    forall i, j :: 0 <= i < j < |log| ==> log[i].time <= log[j].time
  }

  /** What a window is: it opens with a failure that no earlier window covers, no
      clear follows it, and every later failure falls inside it. */
  lemma {:induction false} OpenerMeans(c: Config, log: Log, id: string)
    requires Ordered(log) && Opener(c, log, id).Some?
    ensures var j := Opener(c, log, id).value;
      && (forall i :: j < i < |log| ==> !IsClear(log[i], id))
      && (forall i :: j < i < |log| && IsFailure(log[i], id) ==> log[j].time <= log[i].time < log[j].time + c.windowMs)
      && var earlier := Opener(c, log[..j], id);
         (earlier.Some? ==> log[earlier.value].time + c.windowMs <= log[j].time)
  {
    var n := |log| - 1;
    var j := Opener(c, log, id).value;
    if j < n {
      OpenerMeans(c, log[..n], id);
      assert log[..n][..j] == log[..j];
    }
  }

  /** No window: every failure has been cleared since. */
  lemma {:induction false} NoOpenerMeans(c: Config, log: Log, id: string)
    requires Opener(c, log, id).None?
    ensures forall i :: 0 <= i < |log| && IsFailure(log[i], id) ==> exists k :: i < k < |log| && IsClear(log[k], id)
  {
    if log != [] {
      var n := |log| - 1;
      if IsClear(log[n], id) {
        forall i | 0 <= i < |log| && IsFailure(log[i], id) ensures exists k :: i < k < |log| && IsClear(log[k], id) {
          assert i < n;
        }
      } else {
        NoOpenerMeans(c, log[..n], id);
        forall i | 0 <= i < |log| && IsFailure(log[i], id) ensures exists k :: i < k < |log| && IsClear(log[k], id) {
          assert IsFailure(log[..n][i], id);
          var k :| i < k < n && IsClear(log[..n][k], id);
          assert IsClear(log[k], id);
        }
      }
    }
  }

  // ---------- The table follows the log ----------

  /** An entry records the newest window; a missing entry means it is over. */
  predicate Follows(c: Config, table: Table, log: Log, id: string) {
    var j := Opener(c, log, id);
    if id in table then
      j.Some? && table[id] == Attempt(Failures(log, id, j.value), log[j.value].time + c.windowMs)
    else
      j.Some? ==> log != [] && log[j.value].time + c.windowMs <= log[|log| - 1].time
  }

  lemma {:induction false} TableFollowsLog(c: Config, log: Log, id: string)
    requires Ordered(log)
    ensures Follows(c, Run(c, log), log, id)
  {
    if log != [] {
      hide Ordered, Run, Opener, Failures;
      var n := |log| - 1;
      OrderedPrefix(log);
      TableFollowsLog(c, log[..n], id);
      RunLast(c, log);
      OpenerLast(c, log, id);
      FailuresLast(log, id);
      FollowsStep(c, Run(c, log[..n]), log, id);
    }
  }

  lemma OrderedPrefix(log: Log)
    requires Ordered(log) && log != []
    ensures Ordered(log[..|log| - 1])
    ensures |log| > 1 ==> log[|log| - 2].time <= log[|log| - 1].time
  {
  }

  lemma RunLast(c: Config, log: Log)
    requires log != []
    ensures Run(c, log) == Apply(c, Run(c, log[..|log| - 1]), log[|log| - 1]).0
  {
  }

  lemma OpenerLast(c: Config, log: Log, id: string)
    requires log != []
    ensures var e, before := log[|log| - 1], Opener(c, log[..|log| - 1], id);
      Opener(c, log, id)
      == if IsClear(e, id) then None
         else if IsFailure(e, id) && (before.None? || log[before.value].time + c.windowMs <= e.time) then Some(|log| - 1)
         else before
  {
  }

  lemma FailuresLast(log: Log, id: string)
    requires log != []
    ensures forall from: nat :: from < |log| ==>
      Failures(log, id, from) == Failures(log[..|log| - 1], id, from) + if IsFailure(log[|log| - 1], id) then 1 else 0
    ensures Failures(log[..|log| - 1], id, |log| - 1) == 0
  {
  }

  lemma FollowsStep(c: Config, table: Table, log: Log, id: string)
    requires log != [] && Follows(c, table, log[..|log| - 1], id)
    requires |log| > 1 ==> log[|log| - 2].time <= log[|log| - 1].time
    ensures Follows(c, Apply(c, table, log[|log| - 1]).0, log, id)
  {
    hide Opener, Failures;
    OpenerLast(c, log, id);
    FailuresLast(log, id);
    var e := log[|log| - 1];
    if e.id != id {
      assert (id in Apply(c, table, e).0) == (id in table);
      assert id in table ==> Apply(c, table, e).0[id] == table[id];
    }
  }

  /** Every query is answered as the log says, at every moment of every run. */
  lemma QueryAnswersLog(c: Config, log: Log, id: string, now: int)
    requires Ordered(log + [Query(id, now)])
    ensures Apply(c, Run(c, log), Query(id, now)).1 == Locked(c, log, id, now)
  {
    hide Opener, Failures, Run;
    assert forall i, j :: 0 <= i < j < |log| ==> (log + [Query(id, now)])[i] == log[i] && (log + [Query(id, now)])[j] == log[j];
    if log != [] {
      assert (log + [Query(id, now)])[|log| - 1].time <= (log + [Query(id, now)])[|log|].time;
    }
    TableFollowsLog(c, log, id);
  }

  /** A failed attempt reports the lock it may just have caused. */
  lemma FailureAnswersLog(c: Config, log: Log, id: string, now: int)
    requires c.Valid() && Ordered(log + [Failure(id, now)])
    ensures Apply(c, Run(c, log), Failure(id, now)).1 == Locked(c, log + [Failure(id, now)], id, now)
  {
    hide Opener, Failures;
    var all := log + [Failure(id, now)];
    assert all[..|log|] == log;
    TableFollowsLog(c, all, id);
    RunLast(c, all);
    OpenerLast(c, all, id);
  }

  // ---------- Independence ----------

  /** The calls that concern one identifier, queries left out. */
  function Only(log: Log, id: string): Log {
    if log == [] then []
    else Only(log[..|log| - 1], id)
         + if IsFailure(log[|log| - 1], id) || IsClear(log[|log| - 1], id) then [log[|log| - 1]] else []
  }

  /** Time of the opener and failures since it: all that a lock depends on. */
  function Window(c: Config, log: Log, id: string): Option<(int, nat)> {
    var j := Opener(c, log, id);
    if j.None? then None else Some((log[j.value].time, Failures(log, id, j.value)))
  }

  /** The window after one more call, from the window before it. */
  function Advance(c: Config, w: Option<(int, nat)>, e: Event, id: string): Option<(int, nat)> {
    if IsClear(e, id) then None
    else if !IsFailure(e, id) then w
    else if w.None? || w.value.0 + c.windowMs <= e.time then Some((e.time, 1))
    else Some((w.value.0, w.value.1 + 1))
  }

  lemma WindowAdvances(c: Config, log: Log, e: Event, id: string)
    ensures Window(c, log + [e], id) == Advance(c, Window(c, log, id), e, id)
  {
    hide Opener, Failures;
    var all := log + [e];
    assert all[..|log|] == log;
    OpenerLast(c, all, id);
    FailuresLast(all, id);
  }

  lemma {:induction false} WindowOfOnly(c: Config, log: Log, id: string)
    ensures Window(c, Only(log, id), id) == Window(c, log, id)
  {
    hide Window;
    if log != [] {
      var front, e := log[..|log| - 1], log[|log| - 1];
      assert log == front + [e];
      WindowOfOnly(c, front, id);
      WindowAdvances(c, front, e, id);
      WindowAdvances(c, Only(front, id), e, id);
      assert Only(front, id) + [] == Only(front, id);
    }
  }

  /** A lock depends on the failures and clears of its own identifier alone: other
      identifiers, and queries with their deletions, are invisible to it. */
  lemma LocksIndependent(c: Config, log: Log, log': Log, id: string, now: int)
    requires Only(log, id) == Only(log', id)
    ensures Locked(c, log, id, now) == Locked(c, log', id, now)
  {
    hide Opener, Failures;
    WindowOfOnly(c, log, id);
    WindowOfOnly(c, log', id);
  }

  // ---------- How many attempts, and for how long ----------

  function Burst(id: string, times: seq<int>): (b: Log)
    ensures |b| == |times|
  {
    seq(|times|, i requires 0 <= i < |times| => Failure(id, times[i]))
  }

  /** The failures fall into the window that the first of them opens. */
  predicate OneWindow(c: Config, times: seq<int>) {
    forall i :: 0 <= i < |times| ==> times[0] <= times[i] < times[0] + c.windowMs
  }

  lemma {:induction false} BurstWindow(c: Config, log: Log, id: string, times: seq<int>)
    requires times != [] && OneWindow(c, times)
    requires Opener(c, log, id).None? || log[Opener(c, log, id).value].time + c.windowMs <= times[0]
    ensures Window(c, log + Burst(id, times), id) == Some((times[0], |times|))
    decreases |times|
  {
    hide Opener, Failures;
    var n := |times| - 1;
    var last, front := Failure(id, times[n]), times[..n];
    assert Burst(id, times) == Burst(id, front) + [last];
    assert log + Burst(id, times) == log + Burst(id, front) + [last];
    WindowAdvances(c, log + Burst(id, front), last, id);
    if n == 0 {
      assert log + Burst(id, front) == log;
    } else {
      BurstWindow(c, log, id, front);
    }
  }

  /** From no window, or an expired one: failures within one window lock the
      identifier exactly from the last one allowed on, until the window ends. */
  lemma BurstLocks(c: Config, log: Log, id: string, times: seq<int>, now: int)
    requires times != [] && OneWindow(c, times)
    requires Opener(c, log, id).None? || log[Opener(c, log, id).value].time + c.windowMs <= times[0]
    ensures Locked(c, log + Burst(id, times), id, now) <==> c.maxAttempts <= |times| && now < times[0] + c.windowMs
  {
    hide Opener, Failures;
    BurstWindow(c, log, id, times);
  }
}
