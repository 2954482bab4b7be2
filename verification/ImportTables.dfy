/** What an import job leaves in the customer and address tables, over every run
    of attempts, cancels, retries with the same options and exceptions, exceptions
    between the two writes of a row included. */
module ImportTables {
  import opened Text
  import Documents
  import opened CustomerImport
  import opened ImportProtocol

  /** The rows as read under the job's mapping. */
  function Data(f: File, options: Options): (d: seq<CustomerData>)
    ensures |d| == |f.rows|
  {
    NormalizeAll(f.rows, options.mapping)
  }

  /** The tables of an uninterrupted run over the first k rows. */
  function Imported(f: File, o: Options, k: nat): Store
    requires k <= |f.rows|
  {
    Import(o.strategy, f.initial, Data(f, o)[..k])
  }

  function Seen(f: File, o: Options, k: nat): set<string>
    requires k <= |f.rows|
  {
    After(o.strategy, f.initial, Data(f, o)[..k]).1
  }

  /** Row k inserts an address when it is first handled. */
  predicate Adds(f: File, o: Options, k: nat)
    requires k < |f.rows|
  {
    AddsAddress(Imported(f, o, k), Seen(f, o, k), Data(f, o)[k])
  }

  /** The addresses of an uninterrupted run over the first k rows, but for the lost ones. */
  function Kept(f: File, o: Options, k: nat, lost: set<nat>): seq<Address>
    requires k <= |f.rows|
  {
    if k == 0 then f.initial.addresses
    else Kept(f, o, k - 1, lost) + if Adds(f, o, k - 1) && k - 1 !in lost then [AddressOf(Data(f, o)[k - 1])] else []
  }

  lemma NextRow(f: File, o: Options, k: nat)
    requires k < |f.rows|
    ensures Imported(f, o, k + 1) == RowStore(o.strategy, Imported(f, o, k), Seen(f, o, k), Data(f, o)[k])
    ensures Seen(f, o, k + 1) == RowSeen(Seen(f, o, k), Data(f, o)[k])
  {
    hide RowStore, RowSeen;
    assert Data(f, o)[..k + 1][..k] == Data(f, o)[..k];
  }

  lemma {:induction false} NoneLost(f: File, o: Options, k: nat)
    requires k <= |f.rows|
    ensures Kept(f, o, k, {}) == Imported(f, o, k).addresses
  {
    hide Data, Imported, Seen, AddsAddress, AddressOf, RowStore;
    if k == 0 {
      NothingImported(f, o);
    } else {
      NoneLost(f, o, k - 1);
      NextRow(f, o, k - 1);
      RowAddresses(o.strategy, Imported(f, o, k - 1), [], Seen(f, o, k - 1), Data(f, o)[k - 1]);
    }
  }

  lemma NothingImported(f: File, o: Options)
    ensures Imported(f, o, 0) == f.initial && Seen(f, o, 0) == {}
  {
  }

  /** Losing addresses of rows that add one leaves fewer of them. */
  lemma {:induction false} LostAreMissing(f: File, o: Options, k: nat, lost: set<nat>)
    requires k <= |f.rows|
    ensures |Kept(f, o, k, lost)| <= |Kept(f, o, k, {})|
    ensures (exists j :: j in lost && j < k && Adds(f, o, j)) ==> |Kept(f, o, k, lost)| < |Kept(f, o, k, {})|
  {
    hide Adds, Data, AddressOf;
    if k > 0 {
      LostAreMissing(f, o, k - 1, lost);
    }
  }

  /** Later losses do not reach back. */
  lemma {:induction false} LostLater(f: File, o: Options, k: nat, lost: set<nat>, j: nat)
    requires k <= |f.rows| && k <= j
    ensures Kept(f, o, k, lost + {j}) == Kept(f, o, k, lost)
  {
    hide Adds, Data, AddressOf;
    if k > 0 {
      LostLater(f, o, k - 1, lost, j);
    }
  }

  // ---------- One row ----------

  /** A row handled again, when the customers are those of a run past it, writes
      nothing, whether it is interrupted or not. */
  lemma RowAgain(f: File, o: Options, k: nat, m: nat, s: Store)
    requires k < m <= |f.rows| && s.customers == Imported(f, o, m).customers
    ensures RowStore(o.strategy, s, Seen(f, o, k), Data(f, o)[k]) == s
    ensures HalfDone(o.strategy, s, Seen(f, o, k), Data(f, o)[k]) == s
    ensures !AddsAddress(s, Seen(f, o, k), Data(f, o)[k])
  {
    hide RowStore, Validate, Admitted;
    var seen, d, prefix := Seen(f, o, k), Data(f, o)[k], Data(f, o)[..m];
    if Admitted(seen, d) {
      assert prefix[..k] == Data(f, o)[..k] && prefix[k] == d;
      FileApplied(o.strategy, f.initial, prefix, k);
      assert Applied(o.strategy, s, d);
      if Writes(o.strategy, s, d) {
        assert s.customers[d.document := Fields(d)] == s.customers;
      }
    }
    AppliedRowIsIdle(o.strategy, s, seen, d);
  }

  /** A row handled for the first time. */
  lemma RowFirst(f: File, o: Options, k: nat, s: Store)
    requires k < |f.rows| && s.customers == Imported(f, o, k).customers
    ensures var d := Data(f, o)[k];
      && RowStore(o.strategy, s, Seen(f, o, k), d).customers == Imported(f, o, k + 1).customers
      && HalfDone(o.strategy, s, Seen(f, o, k), d).customers == Imported(f, o, k + 1).customers
      && HalfDone(o.strategy, s, Seen(f, o, k), d).addresses == s.addresses
      && (AddsAddress(s, Seen(f, o, k), d) <==> Adds(f, o, k))
      && RowStore(o.strategy, s, Seen(f, o, k), d).addresses == s.addresses + if Adds(f, o, k) then [AddressOf(d)] else []
  {
    hide Imported, Seen, Validate;
    NextRow(f, o, k);
    var t := Imported(f, o, k);
    assert t.(addresses := s.addresses) == s;
    RowAddresses(o.strategy, t, s.addresses, Seen(f, o, k), Data(f, o)[k]);
  }

  // ---------- Every run ----------

  /** Retries leave mapping and strategy as they are. */
  predicate SameOptions(actions: seq<Action>) {
    forall i :: 0 <= i < |actions| && actions[i].Retry? ==> actions[i].mapping.None? && actions[i].strategy.None?
  }

  predicate LostSound(f: File, o: Options, s: State) {
    forall k :: k in s.lost ==> k < s.reach <= |f.rows| && Adds(f, o, k)
  }

  predicate TablesExplained(f: File, o: Options, s: State) {
    && s.reach <= |f.rows| && s.job.options == o
    && s.store.customers == Imported(f, o, s.reach).customers
    && s.store.addresses == Kept(f, o, s.reach, s.lost)
    && LostSound(f, o, s)
    && (s.job.status == COMPLETED ==> s.reach == |f.rows|)
    && (s.worker.Some? ==>
          var k := s.worker.value.counters.processed;
          k <= s.reach && s.worker.value.options == o && s.worker.value.seen == Seen(f, o, k))
  }

  lemma HandleExplained(f: File, o: Options, s: State)
    requires TablesExplained(f, o, s) && s.worker.Some? && s.worker.value.stage.Handle?
    ensures TablesExplained(f, o, Advance(f, s))
  {
    hide RowStore, RowSeen, HalfDone, Outcome, Imported, Seen, Kept, Adds, AddsAddress, Normalize;
    var k := s.worker.value.counters.processed;
    if k < |f.rows| {
      assert RowOf(f, s.worker.value, k) == Data(f, o)[k];
      NextRow(f, o, k);
      if k < s.reach {
        RowAgain(f, o, k, s.reach, s.store);
      } else {
        RowFirst(f, o, k, s.store);
        KeptNext(f, o, k, s.lost);
      }
    }
  }

  lemma KeptNext(f: File, o: Options, k: nat, lost: set<nat>)
    requires k < |f.rows|
    ensures Kept(f, o, k + 1, lost) == Kept(f, o, k, lost) + if Adds(f, o, k) && k !in lost then [AddressOf(Data(f, o)[k])] else []
  {
  }

  lemma ThrowExplained(f: File, o: Options, s: State, inRow: bool, recorded: bool)
    requires TablesExplained(f, o, s)
    ensures TablesExplained(f, o, Throw(f, s, inRow, recorded))
  {
    hide RowStore, RowSeen, HalfDone, Imported, Seen, Kept, Adds, AddsAddress, Normalize;
    if s.worker.Some? && inRow && s.worker.value.stage.Handle? && s.worker.value.counters.processed < |f.rows| {
      var k := s.worker.value.counters.processed;
      assert RowOf(f, s.worker.value, k) == Data(f, o)[k];
      if k < s.reach {
        RowAgain(f, o, k, s.reach, s.store);
      } else {
        RowFirst(f, o, k, s.store);
        KeptNext(f, o, k, s.lost + {k});
        KeptNext(f, o, k, s.lost);
        LostLater(f, o, k, s.lost, k);
        assert Kept(f, o, k, s.lost) + [] == Kept(f, o, k, s.lost);
      }
    }
  }

  lemma OtherExplained(f: File, o: Options, s: State, action: Action)
    requires TablesExplained(f, o, s) && !action.Crash?
    requires action.Work? && s.worker.Some? ==> !s.worker.value.stage.Handle?
    requires action.Retry? ==> action.mapping.None? && action.strategy.None?
    ensures TablesExplained(f, o, Apply(f, s, action))
  {
    hide Outcome, RowStore, RowSeen, RowOf, Imported, Seen, Kept, Adds, Percent, Without, Stored, Zero, LostSound;
    NothingSeen(f, o);
    SameHistory(f, o, s, Apply(f, s, action));
  }

  lemma NothingSeen(f: File, o: Options)
    ensures Seen(f, o, 0) == {} && Zero().processed == 0
  {
  }

  lemma SameHistory(f: File, o: Options, s: State, t: State)
    ensures LostSound(f, o, s) && t.lost == s.lost && t.reach == s.reach ==> LostSound(f, o, t)
  {
  }

  lemma StepExplained(f: File, o: Options, s: State, action: Action)
    requires TablesExplained(f, o, s)
    requires action.Retry? ==> action.mapping.None? && action.strategy.None?
    ensures TablesExplained(f, o, Apply(f, s, action))
  {
    hide TablesExplained, Advance, Throw;
    if action == Work && s.worker.Some? && s.worker.value.stage.Handle? {
      HandleExplained(f, o, s);
    } else if action.Crash? {
      ThrowExplained(f, o, s, action.inRow, action.recorded);
    } else {
      OtherExplained(f, o, s, action);
    }
  }

  /** In every run the customers are those of an uninterrupted run over the rows
      reached so far, and so are the addresses, but for the lost ones. */
  lemma {:induction false} AlwaysExplained(f: File, options: Options, actions: seq<Action>)
    requires SameOptions(actions)
    ensures TablesExplained(f, options, Run(f, Created(f, options), actions))
  {
    hide Apply, TablesExplained, Created;
    if actions == [] {
      CreatedExplained(f, options);
    } else {
      AlwaysExplained(f, options, actions[..|actions| - 1]);
      StepExplained(f, options, Run(f, Created(f, options), actions[..|actions| - 1]), actions[|actions| - 1]);
    }
  }

  lemma CreatedExplained(f: File, options: Options)
    ensures TablesExplained(f, options, Created(f, options))
  {
    hide Zero;
    NothingImported(f, options);
  }

  // ---------- Lost addresses ----------

  /** An exception between the two writes of a row that was about to insert an address. */
  predicate LosesAddressAt(f: File, s: State, action: Action) {
    && action.Crash? && action.inRow && s.worker.Some? && s.worker.value.stage.Handle?
    && var w := s.worker.value;
    w.counters.processed < |f.rows| && AddsAddress(s.store, w.seen, RowOf(f, w, w.counters.processed))
  }

  lemma StepLoses(f: File, s: State, action: Action)
    ensures Apply(f, s, action).lost != {} <==> s.lost != {} || LosesAddressAt(f, s, action)
  {
    hide Outcome, RowStore, RowSeen, RowOf, AddsAddress, HalfDone, Percent, Without, Stored, Zero;
  }

  lemma {:induction false} LostMeans(f: File, s: State, actions: seq<Action>)
    requires s.lost == {}
    ensures Run(f, s, actions).lost != {} <==>
      exists i :: 0 <= i < |actions| && LosesAddressAt(f, Run(f, s, actions[..i]), actions[i])
  {
    hide Apply, LosesAddressAt;
    if actions != [] {
      var n := |actions| - 1;
      var front := actions[..n];
      LostMeans(f, s, front);
      StepLoses(f, Run(f, s, front), actions[n]);
      forall i | 0 <= i < n ensures front[..i] == actions[..i] && front[i] == actions[i] {
      }
    }
  }

  /** Whatever cancels, failures and retries came before, a job that ends COMPLETED
      has left exactly the customers of one uninterrupted run; and it has left
      exactly that run's tables if and only if no exception fell between the two
      writes of a row that was about to insert an address. */
  lemma CompletedExact(f: File, options: Options, actions: seq<Action>)
    requires SameOptions(actions) && Run(f, Created(f, options), actions).job.status == COMPLETED
    ensures var s, whole := Run(f, Created(f, options), actions), Import(options.strategy, f.initial, Data(f, options));
      && s.store.customers == whole.customers
      && (s.store == whole <==>
            !exists i :: 0 <= i < |actions| && LosesAddressAt(f, Run(f, Created(f, options), actions[..i]), actions[i]))
  {
    hide Run, LosesAddressAt, Adds, Kept;
    var s, n := Run(f, Created(f, options), actions), |f.rows|;
    AlwaysExplained(f, options, actions);
    LostMeans(f, Created(f, options), actions);
    assert Data(f, options)[..n] == Data(f, options);
    NoneLost(f, options, n);
    LostAreMissing(f, options, n, s.lost);
    if s.lost != {} {
      var k :| k in s.lost;
      assert Adds(f, options, k);
    }
  }

  /** Such a run: the only row dies between its writes, and the queue's next attempt
      finds the customer and ends COMPLETED. */
  const LOSING: seq<Action> := [Pick(0), Work, Crash(true, true), Pick(0), Work, Work, Work, Work, Work]

  lemma LosingStarts(f: File, o: Options)
    requires |f.rows| == 1 && Adds(f, o, 0)
    ensures var s := Advance(f, PickUp(Created(f, o), 0));
      && LosesAddressAt(f, s, Crash(true, true))
      && var t := PickUp(Throw(f, s, true, true), 0);
         && t.worker.Some? && t.worker.value.stage == Check && t.worker.value.options == o && t.worker.value.counters == Zero()
         && t.worker.value.seen == {} && t.job.status == PROCESSING && t.results == []
         && Admitted({}, Data(f, o)[0]) && Data(f, o)[0].document in t.store.customers
  {
    hide Normalize, AddressOf, HasAddress, Validate;
    NothingImported(f, o);
    NothingSeen(f, o);
    var s := Advance(f, PickUp(Created(f, o), 0));
    assert RowOf(f, s.worker.value, 0) == Data(f, o)[0];
  }

  lemma LosingEnds(f: File, o: Options, t: State)
    requires |f.rows| == 1 && t.worker.Some? && t.worker.value.stage == Check && t.worker.value.options == o
    requires t.worker.value.counters == Zero() && t.worker.value.seen == {} && t.job.status == PROCESSING && t.results == []
    requires Admitted({}, Data(f, o)[0]) && Data(f, o)[0].document in t.store.customers && o.strategy != FAIL
    ensures Advance(f, Advance(f, Advance(f, Advance(f, Advance(f, t))))).job.status == COMPLETED
  {
    hide Normalize, Validate, RowStore, RowSeen, Percent;
    var d := Data(f, o)[0];
    assert RowOf(f, t.worker.value, 0) == d;
    assert !Outcome(o.strategy, t.store, {}, d).Error?;
    var b := Advance(f, Advance(f, t));
    assert b.worker.value.counters.error == 0 && b.worker.value.counters.processed == 1;
  }

  lemma LosingRuns(f: File, s: State)
    ensures Run(f, s, LOSING[..2]) == Advance(f, PickUp(s, 0))
    ensures Run(f, s, LOSING)
         == Advance(f, Advance(f, Advance(f, Advance(f, Advance(f, PickUp(Throw(f, Advance(f, PickUp(s, 0)), true, true), 0))))))
  {
    hide Run, Advance, PickUp, Throw;
    RunNothing(f, s);
    assert LOSING[..0] == [];
    forall i | 0 <= i < |LOSING| ensures Run(f, s, LOSING[..i + 1]) == Apply(f, Run(f, s, LOSING[..i]), LOSING[i]) {
      RunLast(f, s, LOSING[..i], LOSING[i]);
      assert LOSING[..i + 1] == LOSING[..i] + [LOSING[i]];
    }
    assert LOSING[..9] == LOSING;
    var after := (i: nat) requires i <= |LOSING| => Run(f, s, LOSING[..i]);
    assert after(1) == PickUp(s, 0) && after(2) == Advance(f, after(1));
    assert after(3) == Throw(f, after(2), true, true) && after(4) == PickUp(after(3), 0);
    assert after(5) == Advance(f, after(4)) && after(6) == Advance(f, after(5)) && after(7) == Advance(f, after(6));
    assert after(8) == Advance(f, after(7)) && after(9) == Advance(f, after(8));
  }

  /** The loss is not detected: for every file of one row that adds an address the
      job can end COMPLETED without it, unless duplicates fail. */
  lemma CompletedCanLoseAddress(f: File, options: Options)
    requires |f.rows| == 1 && Adds(f, options, 0) && options.strategy != FAIL
    ensures var s := Run(f, Created(f, options), LOSING);
      s.job.status == COMPLETED && s.store != Import(options.strategy, f.initial, Data(f, options))
  {
    hide Run, Advance, PickUp, Throw, Created, LosesAddressAt, Adds, Data, Import;
    var c := Created(f, options);
    LosingStarts(f, options);
    LosingEnds(f, options, PickUp(Throw(f, Advance(f, PickUp(c, 0)), true, true), 0));
    LosingRuns(f, c);
    CompletedExact(f, options, LOSING);
    assert LosesAddressAt(f, Run(f, c, LOSING[..2]), LOSING[2]);
  }

  /** The smallest file: a generated CNPJ, a name and a city. */
  const SAMPLE_MAPPING := map["city" := "cidade", "document" := "cnpj", "name" := "nome"]

  function SampleRow(): map<string, string> {
    map["cidade" := "Niteroi", "cnpj" := Documents.SeedCnpj("1"), "nome" := "Ana"]
  }

  lemma TrimPlain(s: string)
    requires s != "" && !IsSpace(s[0]) && !IsSpace(s[|s| - 1])
    ensures Trim(s) == s
  {
  }

  lemma EmptyReads()
    ensures Trim("") == "" && OnlyDigits("") == "" && ToLower("") == "" && ToUpper("") == ""
  {
  }

  lemma SampleKeys()
    ensures SAMPLE_MAPPING.Keys == {"city", "document", "name"}
    ensures SAMPLE_MAPPING["city"] == "cidade" && SAMPLE_MAPPING["document"] == "cnpj" && SAMPLE_MAPPING["name"] == "nome"
    ensures "email" !in SAMPLE_MAPPING && "phone" !in SAMPLE_MAPPING && "postalCode" !in SAMPLE_MAPPING && "state" !in SAMPLE_MAPPING
  {
    assert |"city"| == 4 && |"document"| == 8 && |"name"| == 4 && "city"[0] != "name"[0];
    assert |"email"| == 5 && |"phone"| == 5 && |"postalCode"| == 10 && |"state"| == 5;
  }

  lemma SampleCells()
    ensures var row := SampleRow();
      && "cidade" in row && row["cidade"] == "Niteroi" && "cnpj" in row && row["cnpj"] == Documents.SeedCnpj("1")
      && "nome" in row && row["nome"] == "Ana"
  {
    hide Documents.SeedCnpj;
    assert |"cidade"| == 6 && |"cnpj"| == 4 && |"nome"| == 4 && "cnpj"[0] != "nome"[0];
  }

  lemma SampleReads()
    ensures Normalize(SampleRow(), SAMPLE_MAPPING) == CustomerData("Niteroi", Documents.SeedCnpj("1"), "", "Ana", "", "", "")
  {
    hide Documents.SeedCnpj, Trim, OnlyDigits, ToLower, ToUpper, SampleRow, SAMPLE_MAPPING;
    EmptyReads();
    SampleKeys();
    SampleCells();
    TrimPlain("Niteroi");
    TrimPlain("Ana");
    var document := Documents.SeedCnpj("1");
    assert IsDigit(document[0]) && IsDigit(document[13]);
    TrimPlain(document);
  }

  lemma SampleAdds(f: File, o: Options)
    requires f == Upload([SampleRow()], Store(map[], [])) && o.mapping == SAMPLE_MAPPING
    ensures Adds(f, o, 0)
  {
    hide Normalize, Documents.SeedCnpj, Documents.HandlerAccepts;
    SampleReads();
    NothingImported(f, o);
    OneIsNotZero();
    Documents.GeneratedIsAccepted("1");
    assert Data(f, o)[0] == Normalize(SampleRow(), SAMPLE_MAPPING);
    assert Validate(Data(f, o)[0]).None?;
  }

  /** There is such a file: the smallest loses the address of its one customer. */
  lemma LosingFileExists()
    ensures exists f: File, o: Options ::
      && o.strategy == UPDATE && Run(f, Created(f, o), LOSING).job.status == COMPLETED
      && Run(f, Created(f, o), LOSING).store != Import(o.strategy, f.initial, Data(f, o))
  {
    hide Run, Created, Adds, Data, Import;
    var f: File := Upload([SampleRow()], Store(map[], []));
    var o := Options(SAMPLE_MAPPING, UPDATE);
    SampleAdds(f, o);
    CompletedCanLoseAddress(f, o);
  }

  // ---------- Retries that change the options ----------

  /** The worker is running over the tables it found, with the options it found; a
      COMPLETED job has run over them to the end. */
  predicate AttemptExplained(f: File, s: State) {
    && (s.worker.Some? ==>
          var w := s.worker.value;
          var k := w.counters.processed;
          && s.attempt.Some? && s.attempt.value.options == w.options && k <= |f.rows|
          && (s.store, w.seen) == After(w.options.strategy, s.attempt.value.found, Data(f, w.options)[..k]))
    && (s.job.status == COMPLETED ==>
          && s.attempt.Some? && (s.worker.Some? ==> s.worker.value.stage.Close?)
          && var a := s.attempt.value;
             s.store == Import(a.options.strategy, a.found, Data(f, a.options)))
  }

  lemma HandleExtends(f: File, s: State)
    requires AttemptExplained(f, s) && s.worker.Some? && s.worker.value.stage.Handle?
    ensures AttemptExplained(f, Advance(f, s))
  {
    hide RowStore, RowSeen, Outcome, Normalize, Import;
    var w := s.worker.value;
    var k := w.counters.processed;
    if k < |f.rows| {
      var data := Data(f, w.options);
      assert RowOf(f, w, k) == data[k];
      assert data[..k + 1][..k] == data[..k];
    }
  }

  lemma OtherExtends(f: File, s: State, action: Action)
    requires AttemptExplained(f, s)
    requires action.Work? && s.worker.Some? ==> !s.worker.value.stage.Handle?
    ensures AttemptExplained(f, Apply(f, s, action))
  {
    hide Outcome, RowStore, RowSeen, HalfDone, AddsAddress, RowOf, Data, Percent, Without, Stored, Zero, After;
    if s.worker.Some? {
      var o := s.worker.value.options;
      assert Data(f, o)[..|f.rows|] == Data(f, o);
    } else {
      NothingAfter(s.job.options.strategy, s.store, Data(f, s.job.options));
    }
  }

  lemma NothingAfter(strategy: Strategy, s: Store, data: seq<CustomerData>)
    ensures After(strategy, s, data[..0]) == (s, {}) && Zero().processed == 0
  {
  }

  lemma {:induction false} AlwaysAttempt(f: File, options: Options, actions: seq<Action>)
    ensures AttemptExplained(f, Run(f, Created(f, options), actions))
  {
    hide AttemptExplained, Apply, Created, Advance;
    if actions == [] {
      CreatedAttempt(f, options);
    } else {
      var s, last := Run(f, Created(f, options), actions[..|actions| - 1]), actions[|actions| - 1];
      AlwaysAttempt(f, options, actions[..|actions| - 1]);
      if last == Work && s.worker.Some? && s.worker.value.stage.Handle? {
        HandleExtends(f, s);
        WorkIsAdvance(f, s);
      } else {
        OtherExtends(f, s, last);
      }
    }
  }

  lemma WorkIsAdvance(f: File, s: State)
    ensures Apply(f, s, Work) == Advance(f, s)
  {
  }

  lemma CreatedAttempt(f: File, options: Options)
    ensures AttemptExplained(f, Created(f, options))
  {
    hide Zero;
  }

  /** The action makes the worker start an attempt. */
  predicate Starts(s: State, action: Action) {
    action.Pick? && s.worker.None? && action.at < |s.queue| && s.queue[action.at].attempts > 0
  }

  /** Action i is the newest start. */
  predicate LastStart(f: File, s: State, actions: seq<Action>, i: int) {
    && 0 <= i < |actions| && Starts(Run(f, s, actions[..i]), actions[i])
    && forall j :: i < j < |actions| ==> !Starts(Run(f, s, actions[..j]), actions[j])
  }

  lemma StartRecorded(f: File, s: State, action: Action)
    ensures Apply(f, s, action).attempt == if Starts(s, action) then Some(Attempt(s.job.options, s.store)) else s.attempt
  {
    hide Outcome, RowStore, RowSeen, HalfDone, AddsAddress, RowOf, Percent, Without, Stored, Zero;
  }

  lemma {:induction false} AttemptMeans(f: File, s: State, actions: seq<Action>) returns (i: int)
    requires s.attempt.None? && Run(f, s, actions).attempt.Some?
    ensures LastStart(f, s, actions, i)
    ensures var before := Run(f, s, actions[..i]);
      Run(f, s, actions).attempt == Some(Attempt(before.job.options, before.store))
  {
    hide Apply, Starts;
    var n := |actions| - 1;
    assert actions != [];
    var front := actions[..n];
    StartRecorded(f, Run(f, s, front), actions[n]);
    if Starts(Run(f, s, front), actions[n]) {
      i := n;
    } else {
      i := AttemptMeans(f, s, front);
      forall j | 0 <= j < n ensures front[..j] == actions[..j] && front[j] == actions[j] {
      }
    }
  }

  /** One uninterrupted run with the options and over the tables of a state. */
  function Whole(f: File, s: State): Store {
    Import(s.job.options.strategy, s.store, Data(f, s.job.options))
  }

  /** In every run at all, with retries that replace the mapping or the strategy: a
      COMPLETED job has left exactly what one uninterrupted run, with the options
      that its last attempt found, makes of the tables that it found. */
  lemma CompletedIsLastAttempt(f: File, options: Options, actions: seq<Action>)
    requires Run(f, Created(f, options), actions).job.status == COMPLETED
    ensures exists i :: LastStart(f, Created(f, options), actions, i)
                        && Run(f, Created(f, options), actions).store == Whole(f, Run(f, Created(f, options), actions[..i]))
  {
    hide Run, LastStart, Data, Import;
    AlwaysAttempt(f, options, actions);
    var i := AttemptMeans(f, Created(f, options), actions);
  }

  lemma OptionsStay(f: File, s: State, action: Action)
    requires !action.Retry?
    ensures Apply(f, s, action).job.options == s.job.options
  {
    hide Outcome, RowStore, RowSeen, HalfDone, AddsAddress, RowOf, Percent, Without, Stored, Zero;
  }

  lemma {:induction false} OptionsKept(f: File, s: State, later: seq<Action>)
    requires NoRetry(later)
    ensures Run(f, s, later).job.options == s.job.options
  {
    hide Apply;
    if later != [] {
      OptionsKept(f, s, later[..|later| - 1]);
      OptionsStay(f, Run(f, s, later[..|later| - 1]), later[|later| - 1]);
    }
  }

  /** Every attempt that starts after an accepted retry, and before another one, runs
      with the mapping and strategy submitted, or the old ones where none was. */
  lemma RetryOptionsUsed(
      f: File, s: State, mapping: Option<map<string, string>>, strategy: Option<Strategy>, later: seq<Action>, at: nat)
    requires Retryable(s) && NoRetry(later) && Starts(Run(f, RetryJob(s, mapping, strategy), later), Pick(at))
    ensures var w := Apply(f, Run(f, RetryJob(s, mapping, strategy), later), Pick(at)).worker;
      && w.Some?
      && (mapping.Some? ==> w.value.options.mapping == mapping.value)
      && (mapping.None? ==> w.value.options.mapping == s.job.options.mapping)
      && (strategy.Some? ==> w.value.options.strategy == strategy.value)
      && (strategy.None? ==> w.value.options.strategy == s.job.options.strategy)
  {
    hide Run, Zero;
    OptionsKept(f, RetryJob(s, mapping, strategy), later);
  }

  /** A cancel is accepted for a pending or running job: it takes the job's first
      entry out of the queue, keeps every retry in its order, and touches neither
      rows, tables nor counters. */
  lemma CancelMeans(s: State)
    ensures var t := CancelJob(s);
      && (s.job.status == PENDING || s.job.status == PROCESSING ==>
            && t == s.(job := t.job, queue := t.queue) && t.job == s.job.(status := t.job.status) && t.job.status == CANCELED
            && forall e :: multiset(t.queue)[e] == if e.id == Again then multiset(s.queue)[e] else 0)
      && (s.job.status != PENDING && s.job.status != PROCESSING ==> t == s)
  {
    hide Without;
    forall e ensures multiset(Without(s.queue))[e] == if e.id == Again then multiset(s.queue)[e] else 0 {
      WithoutCounts(s.queue, e);
    }
  }

  lemma {:induction false} WithoutCounts(queue: seq<Entry>, e: Entry)
    ensures multiset(Without(queue))[e] == if e.id == Again then multiset(queue)[e] else 0
  {
    if queue != [] {
      WithoutCounts(queue[1..], e);
      assert queue == [queue[0]] + queue[1..];
      assert multiset(queue) == multiset{queue[0]} + multiset(queue[1..]);
    }
  }

  /** A retry is accepted for a failed or canceled job: the job starts from nothing,
      with three attempts to come, while the tables keep what earlier attempts wrote
      and an attempt still at work keeps working. */
  lemma RetryMeans(s: State, mapping: Option<map<string, string>>, strategy: Option<Strategy>)
    ensures var t := RetryJob(s, mapping, strategy);
      && (s.job.status == FAILED || s.job.status == CANCELED ==>
            && t == s.(results := [], job := t.job, queue := s.queue + [Entry(Again, 3)])
            && t.job.status == PENDING && t.job.progress == 0 && t.job.totalRows == s.job.totalRows
            && t.job.counters.processed == t.job.counters.success == t.job.counters.error == t.job.counters.skipped == 0)
      && (s.job.status != FAILED && s.job.status != CANCELED ==> t == s)
  {
  }

  /** An exception ends the attempt: the job is FAILED when that could still be
      written, and otherwise looks as before; the entry waits again while attempts
      are left. Between the two writes of a row the address stays out. */
  lemma ThrowMeans(f: File, s: State, inRow: bool, recorded: bool)
    requires s.worker.Some?
    ensures var t, w := Throw(f, s, inRow, recorded), s.worker.value;
      && t.worker.None? && t.results == s.results
      && t.job == s.job.(status := if recorded then FAILED else s.job.status)
      && t.queue == s.queue + (if w.attemptsLeft > 0 then [Entry(w.id, w.attemptsLeft)] else [])
      && t.store.addresses == s.store.addresses
      && (!inRow || !w.stage.Handle? ==> t.store == s.store && t.handled == s.handled)
  {
    hide RowOf, AddsAddress, Admitted;
  }

  /** A new job is pending, with nothing done and three attempts to come, and its first
      attempt starts with the options and tables it was created with. */
  lemma CreatedMeans(f: File, options: Options)
    ensures var s := Created(f, options);
      && s.job.status == PENDING && s.job.progress == 0 && s.job.totalRows == |f.rows| && s.results == [] && s.store == f.initial
      && s.queue == [Entry(First, 3)] && s.worker.None? && s.handled == 0
      && var t := Apply(f, s, Pick(0));
         && t.job.status == PROCESSING && t.worker.Some? && t.worker.value.options == options && t.worker.value.seen == {}
         && t.queue == [] && t.store == f.initial
  {
    hide Zero;
  }
}
