/** The customer row handler of the import pipeline and what replaying a file
    leaves behind. One tenant; customers are identified by their document. */
module CustomerImport {
  import opened Text
  import Documents

  datatype Strategy = SKIP | UPDATE | FAIL

  datatype Customer = Customer(active: bool, email: Option<string>, name: string, phone: Option<string>)

  datatype Address = Address(document: string, city: string, postalCode: string, state: string)

  /** The tables the handler writes; addresses in insertion order. */
  datatype Store = Store(customers: map<string, Customer>, addresses: seq<Address>)

  datatype CustomerData = CustomerData(
    city: string, document: string, email: string, name: string, phone: string, postalCode: string, state: string)

  datatype ErrorCode =
    | NAME_REQUIRED | INVALID_DOCUMENT | INVALID_EMAIL | INVALID_POSTAL_CODE | INVALID_STATE
    | DUPLICATE_IN_FILE | DUPLICATE_IN_TENANT

  datatype RowResult = Success | Skipped | Error(code: ErrorCode)

  // ---------- Reading a row ----------

  function Value(row: map<string, string>, mapping: map<string, string>, field: string): string {
    if field in mapping && mapping[field] != "" && mapping[field] in row then Trim(row[mapping[field]]) else ""
  }

  function Normalize(row: map<string, string>, mapping: map<string, string>): (d: CustomerData)
    ensures AllDigits(d.document)
  {
    CustomerData(
      Value(row, mapping, "city"), OnlyDigits(Value(row, mapping, "document")), ToLower(Trim(Value(row, mapping, "email"))),
      Value(row, mapping, "name"), OnlyDigits(Value(row, mapping, "phone")), OnlyDigits(Value(row, mapping, "postalCode")),
      ToUpper(Value(row, mapping, "state")))
  }

  predicate EmailChar(c: char) {
    !IsSpace(c) && c != '@'
  }

  /** `/^[^\s@]+@[^\s@]+\.[^\s@]+$/`. */
  predicate LooksLikeEmail(s: string) {
    exists at, dot :: 0 < at && at + 1 < dot < |s| - 1 && s[at] == '@' && s[dot] == '.'
      && forall i :: 0 <= i < |s| && i != at ==> EmailChar(s[i])
  }

  function Validate(d: CustomerData): Option<ErrorCode> {
    if |d.name| < 2 then Some(NAME_REQUIRED)
    else if !AllDigits(d.document) || !Documents.HandlerAccepts(d.document) then Some(INVALID_DOCUMENT)
    else if d.email != "" && !LooksLikeEmail(d.email) then Some(INVALID_EMAIL)
    else if d.postalCode != "" && |d.postalCode| != 8 then Some(INVALID_POSTAL_CODE)
    else if d.state != "" && |d.state| != 2 then Some(INVALID_STATE)
    else None
  }

  // ---------- Writing a row ----------

  function OrNone(s: string): Option<string> {
    if s == "" then None else Some(s)
  }

  function OrDefault(s: string, default: string): string {
    if s == "" then default else s
  }

  function Fields(d: CustomerData): Customer {
    Customer(true, OrNone(d.email), d.name, OrNone(d.phone))
  }

  predicate HasAddress(d: CustomerData) {
    d.postalCode != "" || d.city != "" || d.state != ""
  }

  function AddressOf(d: CustomerData): Address {
    Address(d.document, OrDefault(d.city, "Nao informado"), OrDefault(d.postalCode, "00000000"), OrDefault(d.state, "SP"))
  }

  /** The row gets past validation and the in-file duplicate check. */
  predicate Admitted(seen: set<string>, d: CustomerData) {
    Validate(d).None? && d.document !in seen
  }

  /** The row reaches the customer write. */
  predicate Writes(strategy: Strategy, s: Store, d: CustomerData) {
    d.document !in s.customers || strategy == UPDATE
  }

  /** The state after the customer write, before the address write. */
  function HalfDone(strategy: Strategy, s: Store, seen: set<string>, d: CustomerData): Store {
    if Admitted(seen, d) && Writes(strategy, s, d) then s.(customers := s.customers[d.document := Fields(d)]) else s
  }

  /** The handler inserts an address for this row. */
  predicate AddsAddress(s: Store, seen: set<string>, d: CustomerData) {
    Admitted(seen, d) && d.document !in s.customers && HasAddress(d)
  }

  function RowStore(strategy: Strategy, s: Store, seen: set<string>, d: CustomerData): Store {
    var half := HalfDone(strategy, s, seen, d);
    if AddsAddress(s, seen, d) then half.(addresses := half.addresses + [AddressOf(d)]) else half
  }

  function RowSeen(seen: set<string>, d: CustomerData): set<string> {
    if Validate(d).None? then seen + {d.document} else seen
  }

  function Outcome(strategy: Strategy, s: Store, seen: set<string>, d: CustomerData): RowResult {
    if Validate(d).Some? then Error(Validate(d).value)
    else if d.document in seen then Error(DUPLICATE_IN_FILE)
    else if d.document in s.customers && strategy == FAIL then Error(DUPLICATE_IN_TENANT)
    else if d.document in s.customers && strategy == SKIP then Skipped
    else Success
  }

  /** The handler with the tables it reaches and the references of one run. */
  class CustomerImportHandler {
    var customers: map<string, Customer>
    var addresses: seq<Address>
    var seenReferences: set<string>

    function Abs(): Store
      reads this
    {
      Store(customers, addresses)
    }

    method ProcessRow(strategy: Strategy, mapping: map<string, string>, row: map<string, string>) returns (result: RowResult)
      modifies this
      ensures var d := Normalize(row, mapping);
        && Abs() == RowStore(strategy, old(Abs()), old(seenReferences), d)
        && seenReferences == RowSeen(old(seenReferences), d)
        && result == Outcome(strategy, old(Abs()), old(seenReferences), d)
    {
      hide Normalize, Validate;
      var data := Normalize(row, mapping);
      var validationError := Validate(data);
      if validationError.Some? {
        return Error(validationError.value);
      }
      if data.document in seenReferences {
        assert seenReferences == seenReferences + {data.document};
        return Error(DUPLICATE_IN_FILE);
      }
      seenReferences := seenReferences + {data.document};
      var existing := data.document in customers;
      if existing && strategy == FAIL {
        return Error(DUPLICATE_IN_TENANT);
      }
      if existing && strategy == SKIP {
        return Skipped;
      }
      if existing {
        customers := customers[data.document := customers[data.document].(
          active := true, email := OrNone(data.email), name := data.name, phone := OrNone(data.phone))];
      } else {
        customers := customers[data.document := Customer(true, OrNone(data.email), data.name, OrNone(data.phone))];
      }
      if (data.postalCode != "" || data.city != "" || data.state != "") && !existing {
        addresses := addresses + [Address(
          data.document, OrDefault(data.city, "Nao informado"), OrDefault(data.postalCode, "00000000"), OrDefault(data.state, "SP"))];
      }
      return Success;
    }

    /** One uninterrupted run over a file: the references start empty. */
    method ProcessRows(strategy: Strategy, mapping: map<string, string>, rows: seq<map<string, string>>)
      modifies this
      ensures Abs() == Import(strategy, old(Abs()), NormalizeAll(rows, mapping))
    {
      hide Normalize, RowStore, RowSeen, Outcome;
      seenReferences := {};
      ghost var data := NormalizeAll(rows, mapping);
      for i := 0 to |rows|
        invariant (Abs(), seenReferences) == After(strategy, old(Abs()), data[..i])
      {
        assert data[..i + 1][..i] == data[..i];
        var _ := ProcessRow(strategy, mapping, rows[i]);
      }
      assert data[..|rows|] == data;
    }
  }

  function NormalizeAll(rows: seq<map<string, string>>, mapping: map<string, string>): (d: seq<CustomerData>)
    ensures |d| == |rows|
  {
    seq(|rows|, i requires 0 <= i < |rows| => Normalize(rows[i], mapping))
  }

  // ---------- Runs ----------

  /** Tables and references after a whole prefix of a file, from no references. */
  function After(strategy: Strategy, s: Store, rows: seq<CustomerData>): (Store, set<string>) {
    if rows == [] then (s, {})
    else
      var (t, seen) := After(strategy, s, rows[..|rows| - 1]);
      (RowStore(strategy, t, seen, rows[|rows| - 1]), RowSeen(seen, rows[|rows| - 1]))
  }

  function Import(strategy: Strategy, s: Store, rows: seq<CustomerData>): Store {
    After(strategy, s, rows).0
  }

  // ---------- Replay ----------

  /** Handling the row again would change nothing: its customer is there and, when
      rows update, already carries its fields. */
  predicate Applied(strategy: Strategy, s: Store, d: CustomerData) {
    d.document in s.customers && (strategy == UPDATE ==> s.customers[d.document] == Fields(d))
  }

  /** A row leaves every other row's customer alone. */
  lemma AppliedKept(strategy: Strategy, s: Store, seen: set<string>, d: CustomerData, e: CustomerData)
    requires Applied(strategy, s, d) && d.document in seen
    ensures Applied(strategy, RowStore(strategy, s, seen, e), d)
  {
    hide Validate;
  }

  lemma AppliedNow(strategy: Strategy, s: Store, seen: set<string>, d: CustomerData)
    requires Admitted(seen, d)
    ensures Applied(strategy, RowStore(strategy, s, seen, d), d)
  {
    hide Validate;
  }

  /** The rows of a file that got past the duplicate check stay applied. */
  lemma {:induction false} FileApplied(strategy: Strategy, s: Store, rows: seq<CustomerData>, i: nat)
    requires i < |rows| && Admitted(After(strategy, s, rows[..i]).1, rows[i])
    ensures Applied(strategy, Import(strategy, s, rows), rows[i]) && rows[i].document in After(strategy, s, rows).1
  {
    hide Applied, RowStore, Validate;
    var n := |rows| - 1;
    var (t, seen) := After(strategy, s, rows[..n]);
    if i == n {
      AppliedNow(strategy, t, seen, rows[n]);
    } else {
      assert rows[..n][..i] == rows[..i];
      FileApplied(strategy, s, rows[..n], i);
      AppliedKept(strategy, t, seen, rows[i], rows[n]);
    }
  }

  lemma AppliedRowIsIdle(strategy: Strategy, s: Store, seen: set<string>, d: CustomerData)
    requires Admitted(seen, d) ==> Applied(strategy, s, d)
    ensures RowStore(strategy, s, seen, d) == s
  {
    hide Validate;
    if Admitted(seen, d) && Writes(strategy, s, d) {
      assert s.customers[d.document := Fields(d)] == s.customers;
    }
  }

  /** Handling rows that are already applied changes no table. */
  lemma {:induction false} IdlePrefix(strategy: Strategy, s: Store, t: Store, rows: seq<CustomerData>, k: nat)
    requires k <= |rows|
    requires forall i :: 0 <= i < k && Admitted(After(strategy, s, rows[..i]).1, rows[i]) ==> Applied(strategy, t, rows[i])
    ensures After(strategy, t, rows[..k]) == (t, After(strategy, s, rows[..k]).1)
  {
    hide Applied, RowStore, RowSeen, Admitted;
    if k > 0 {
      IdlePrefix(strategy, s, t, rows, k - 1);
      assert rows[..k][..k - 1] == rows[..k - 1];
      AppliedRowIsIdle(strategy, t, After(strategy, s, rows[..k - 1]).1, rows[k - 1]);
    }
  }

  /** Two runs that agree after a prefix agree at the end. */
  lemma {:induction false} SameSuffix(strategy: Strategy, s: Store, t: Store, rows: seq<CustomerData>, k: nat)
    requires k <= |rows| && After(strategy, s, rows[..k]) == After(strategy, t, rows[..k])
    ensures After(strategy, s, rows) == After(strategy, t, rows)
  {
    hide RowStore, RowSeen;
    if k == |rows| {
      assert rows[..k] == rows;
    } else {
      assert rows[..|rows| - 1][..k] == rows[..k];
      SameSuffix(strategy, s, t, rows[..|rows| - 1], k);
    }
  }

  /** Processing any prefix and then the whole file leaves exactly what one
      uninterrupted run leaves, under every strategy. */
  lemma ReplayEquivalent(strategy: Strategy, s: Store, rows: seq<CustomerData>, k: nat)
    requires k <= |rows|
    ensures Import(strategy, Import(strategy, s, rows[..k]), rows) == Import(strategy, s, rows)
  {
    hide After, Applied, Admitted;
    var t := Import(strategy, s, rows[..k]);
    forall i | 0 <= i < k && Admitted(After(strategy, s, rows[..i]).1, rows[i]) ensures Applied(strategy, t, rows[i]) {
      assert rows[..k][..i] == rows[..i];
      FileApplied(strategy, s, rows[..k], i);
    }
    IdlePrefix(strategy, s, t, rows, k);
    SameSuffix(strategy, s, t, rows, k);
  }

  /** In particular a file can be imported twice. */
  lemma ImportIdempotent(strategy: Strategy, s: Store, rows: seq<CustomerData>)
    ensures Import(strategy, Import(strategy, s, rows), rows) == Import(strategy, s, rows)
  {
    hide After;
    assert rows[..|rows|] == rows;
    ReplayEquivalent(strategy, s, rows, |rows|);
  }

  // ---------- A crash inside a row ----------

  /** What a run leaves that dies between the two writes of row number k. */
  function Interrupted(strategy: Strategy, s: Store, rows: seq<CustomerData>, k: nat): Store
    requires k < |rows|
  {
    var (t, seen) := After(strategy, s, rows[..k]);
    HalfDone(strategy, t, seen, rows[k])
  }

  /** Row k was about to insert an address when the run died. */
  predicate LosesAddress(strategy: Strategy, s: Store, rows: seq<CustomerData>, k: nat)
    requires k < |rows|
  {
    AddsAddress(After(strategy, s, rows[..k]).0, After(strategy, s, rows[..k]).1, rows[k])
  }

  lemma HalfIsApplied(strategy: Strategy, s: Store, seen: set<string>, d: CustomerData, e: CustomerData)
    ensures Admitted(seen, d) ==> Applied(strategy, HalfDone(strategy, s, seen, d), d)
    ensures Applied(strategy, s, e) && e.document in seen ==> Applied(strategy, HalfDone(strategy, s, seen, d), e)
  {
    hide Validate;
  }

  /** Replaying from the half-done row goes over rows 0..k without writing. */
  lemma ReplayReachesHalf(strategy: Strategy, s: Store, rows: seq<CustomerData>, k: nat)
    requires k < |rows|
    ensures After(strategy, Interrupted(strategy, s, rows, k), rows[..k + 1])
         == (Interrupted(strategy, s, rows, k), After(strategy, s, rows[..k + 1]).1)
  {
    hide After, Applied, Admitted, HalfDone;
    var (t, seen) := After(strategy, s, rows[..k]);
    var half := Interrupted(strategy, s, rows, k);
    forall i | 0 <= i < k + 1 && Admitted(After(strategy, s, rows[..i]).1, rows[i]) ensures Applied(strategy, half, rows[i]) {
      if i < k {
        assert rows[..k][..i] == rows[..i];
        FileApplied(strategy, s, rows[..k], i);
      }
      HalfIsApplied(strategy, t, seen, rows[k], rows[i]);
    }
    IdlePrefix(strategy, s, half, rows, k + 1);
  }

  lemma RowAddresses(strategy: Strategy, s: Store, a: seq<Address>, seen: set<string>, d: CustomerData)
    ensures var more := if AddsAddress(s, seen, d) then [AddressOf(d)] else [];
      && RowStore(strategy, s, seen, d).addresses == s.addresses + more
      && RowStore(strategy, s.(addresses := a), seen, d) == RowStore(strategy, s, seen, d).(addresses := a + more)
  {
    hide Validate;
    if !AddsAddress(s, seen, d) {
      assert s.addresses + [] == s.addresses && a + [] == a;
    }
  }

  /** Rows read no addresses: runs whose tables differ in addresses alone add the
      same ones. */
  lemma {:induction false} AddressesOnlyAppended(strategy: Strategy, s: Store, t: Store, rows: seq<CustomerData>, k: nat)
    returns (tail: seq<Address>)
    requires k <= |rows|
    requires After(strategy, s, rows[..k]).1 == After(strategy, t, rows[..k]).1
    requires After(strategy, s, rows[..k]).0.customers == After(strategy, t, rows[..k]).0.customers
    ensures After(strategy, s, rows).0.addresses == After(strategy, s, rows[..k]).0.addresses + tail
    ensures After(strategy, t, rows).0.addresses == After(strategy, t, rows[..k]).0.addresses + tail
    ensures After(strategy, s, rows).1 == After(strategy, t, rows).1
    ensures After(strategy, s, rows).0.customers == After(strategy, t, rows).0.customers
  {
    hide RowStore, RowSeen, AddsAddress;
    if k == |rows| {
      tail := [];
      assert rows[..k] == rows;
      assert After(strategy, s, rows).0.addresses + tail == After(strategy, s, rows).0.addresses;
      assert After(strategy, t, rows).0.addresses + tail == After(strategy, t, rows).0.addresses;
    } else {
      var front, d := rows[..|rows| - 1], rows[|rows| - 1];
      assert front[..k] == rows[..k];
      var before := AddressesOnlyAppended(strategy, s, t, front, k);
      var (u, seen) := After(strategy, s, front);
      var v := After(strategy, t, front).0;
      RowAddresses(strategy, u, v.addresses, seen, d);
      assert u.(addresses := v.addresses) == v;
      tail := before + if AddsAddress(u, seen, d) then [AddressOf(d)] else [];
      assert u.addresses + (if AddsAddress(u, seen, d) then [AddressOf(d)] else []) == After(strategy, s, rows[..k]).0.addresses + tail;
      assert v.addresses + (if AddsAddress(u, seen, d) then [AddressOf(d)] else []) == After(strategy, t, rows[..k]).0.addresses + tail;
    }
  }

  /** After a crash between the two writes of a row, replaying the file always
      restores the customers, and restores the addresses exactly when that row
      was not about to insert one: the address is then never written. */
  lemma CrashReplayExact(strategy: Strategy, s: Store, rows: seq<CustomerData>, k: nat)
    requires k < |rows|
    ensures var replayed := Import(strategy, Interrupted(strategy, s, rows, k), rows);
      && replayed.customers == Import(strategy, s, rows).customers
      && (replayed == Import(strategy, s, rows) <==> !LosesAddress(strategy, s, rows, k))
  {
    var half := Interrupted(strategy, s, rows, k);
    ReplayReachesHalf(strategy, s, rows, k);
    assert rows[..k + 1][..k] == rows[..k];
    var (t, seen) := After(strategy, s, rows[..k]);
    assert After(strategy, s, rows[..k + 1]).0 == RowStore(strategy, t, seen, rows[k]);
    hide After, HalfDone, Validate;
    var tail := AddressesOnlyAppended(strategy, s, half, rows, k + 1);
    assert |Import(strategy, s, rows).addresses| == |RowStore(strategy, t, seen, rows[k]).addresses| + |tail|;
    if !LosesAddress(strategy, s, rows, k) {
      SameSuffix(strategy, s, half, rows, k + 1);
    }
  }

  /** The smallest case: one new customer with a city. */
  lemma CrashCanLoseAddress()
    ensures exists d: CustomerData ::
      Import(UPDATE, Interrupted(UPDATE, Store(map[], []), [d], 0), [d]) != Import(UPDATE, Store(map[], []), [d])
  {
    var document := Documents.SeedCnpj("1");
    var d := CustomerData("Niteroi", document, "", "Ana", "", "", "");
    var empty := Store(map[], []);
    OneIsNotZero();
    Documents.GeneratedIsAccepted("1");
    assert Validate(d).None?;
    var rows := [d];
    assert rows[..0] == [];
    assert LosesAddress(UPDATE, empty, rows, 0);
    CrashReplayExact(UPDATE, empty, rows, 0);
  }

  lemma OneIsNotZero()
    ensures !Documents.AllZero(Documents.SeedBase("1"))
  {
    assert AllDigits("1");
    assert Documents.SeedBase("1")[0] == '1';
  }

  // ---------- What an import means, document by document ----------

  /** The first row of the file that is valid and carries the document. */
  function FirstValid(rows: seq<CustomerData>, document: string): (i: Option<nat>)
    ensures i.Some? ==> i.value < |rows| && Validate(rows[i.value]).None? && rows[i.value].document == document
    ensures forall j :: 0 <= j < |rows| && (i.None? || j < i.value) ==> !(Validate(rows[j]).None? && rows[j].document == document)
  {
    if rows == [] then None
    else
      var n := |rows| - 1;
      var before := FirstValid(rows[..n], document);
      if before.Some? then before
      else if Validate(rows[n]).None? && rows[n].document == document then Some(n) else None
  }

  function AddressesOf(addresses: seq<Address>, document: string): seq<Address> {
    if addresses == [] then []
    else AddressesOf(addresses[..|addresses| - 1], document)
         + if addresses[|addresses| - 1].document == document then [addresses[|addresses| - 1]] else []
  }

  lemma AddressesOfLast(addresses: seq<Address>, a: Address, document: string)
    ensures AddressesOf(addresses + [a], document) == AddressesOf(addresses, document) + if a.document == document then [a] else []
  {
    assert (addresses + [a])[..|addresses|] == addresses;
  }

  /** The customer an import leaves under a document, from the table before it and
      the first valid row alone. */
  function Imported(strategy: Strategy, s: Store, rows: seq<CustomerData>, document: string): Option<Customer> {
    var i := FirstValid(rows, document);
    if i.Some? && (document !in s.customers || strategy == UPDATE) then Some(Fields(rows[i.value]))
    else if document in s.customers then Some(s.customers[document])
    else None
  }

  function Find(customers: map<string, Customer>, document: string): Option<Customer> {
    if document in customers then Some(customers[document]) else None
  }

  lemma NothingAppended(addresses: seq<Address>, document: string)
    ensures AddressesOf(addresses, document) + [] == AddressesOf(addresses, document)
  {
  }

  lemma RowMeaning(strategy: Strategy, s: Store, seen: set<string>, d: CustomerData, document: string)
    ensures var n := RowStore(strategy, s, seen, d);
      var mine := Admitted(seen, d) && d.document == document;
      && Find(n.customers, document) == (if mine && Writes(strategy, s, d) then Some(Fields(d)) else Find(s.customers, document))
      && AddressesOf(n.addresses, document) == AddressesOf(s.addresses, document)
         + (if mine && document !in s.customers && HasAddress(d) then [AddressOf(d)] else [])
      && (document in RowSeen(seen, d) <==> document in seen || (Validate(d).None? && d.document == document))
  {
    hide Validate, AddressesOf;
    AddressesOfLast(s.addresses, AddressOf(d), document);
    NothingAppended(s.addresses, document);
  }

  /** One import, read per document: the first valid row decides. Customers that
      were there change under UPDATE only and gain no address; new ones carry the
      row's fields and its address, if it has one. */
  lemma {:induction false} ImportMeaning(strategy: Strategy, s: Store, rows: seq<CustomerData>, document: string)
    ensures var (n, seen) := After(strategy, s, rows);
      var i := FirstValid(rows, document);
      && Find(n.customers, document) == Imported(strategy, s, rows, document)
      && AddressesOf(n.addresses, document) == AddressesOf(s.addresses, document)
         + (if i.Some? && document !in s.customers && HasAddress(rows[i.value]) then [AddressOf(rows[i.value])] else [])
      && (document in seen <==> i.Some?)
  {
    if rows == [] {
      assert AddressesOf(s.addresses, document) + [] == AddressesOf(s.addresses, document);
    } else {
      hide Validate, AddressesOf, HasAddress, RowStore, RowSeen, Fields, AddressOf;
      var front, d := rows[..|rows| - 1], rows[|rows| - 1];
      ImportMeaning(strategy, s, front, document);
      var (t, seen) := After(strategy, s, front);
      RowMeaning(strategy, t, seen, d, document);
      var i := FirstValid(front, document);
      if i.Some? {
        assert front[i.value] == rows[i.value];
        assert FirstValid(rows, document) == i;
        assert !(Admitted(seen, d) && d.document == document);
        NothingAppended(t.addresses, document);
      }
    }
  }

  /** A row is reported as a success exactly when it writes; every other row
      leaves the tables alone. */
  lemma OutcomeExact(strategy: Strategy, s: Store, seen: set<string>, d: CustomerData)
    ensures Outcome(strategy, s, seen, d).Success? <==> Admitted(seen, d) && Writes(strategy, s, d)
    ensures !Outcome(strategy, s, seen, d).Success? ==> RowStore(strategy, s, seen, d) == s
  {
    hide Validate;
  }
}
