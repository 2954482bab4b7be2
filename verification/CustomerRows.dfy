/** What a customer row of an uploaded file turns into, column by column. */
module CustomerRows {
  import opened Text
  import opened CustomerImport
  import Documents

  const FIELDS := {"city", "document", "email", "name", "phone", "postalCode", "state"}

  /** The text of the column that a field is mapped to. */
  function Cell(row: map<string, string>, mapping: map<string, string>, field: string): string
    requires Mapped(row, mapping, field)
  {
    row[mapping[field]]
  }

  predicate Mapped(row: map<string, string>, mapping: map<string, string>, field: string) {
    field in mapping && mapping[field] != "" && mapping[field] in row
  }

  predicate AllMapped(row: map<string, string>, mapping: map<string, string>) {
    forall field :: field in FIELDS ==> Mapped(row, mapping, field)
  }

  predicate Trimmed(s: string) {
    s == "" || (!IsSpace(s[0]) && !IsSpace(s[|s| - 1]))
  }

  lemma TrimLeaves(s: string)
    ensures Trimmed(s) ==> Trim(s) == s
    ensures Trim("") == ""
  {
    hide IsSpace;
  }

  // ---------- Columns and fields ----------

  /** Every column is already in the form that is stored. */
  predicate Clean(row: map<string, string>, mapping: map<string, string>)
    requires AllMapped(row, mapping)
  {
    && (forall field :: field in FIELDS ==> Trimmed(Cell(row, mapping, field)))
    && AllDigits(Cell(row, mapping, "document")) && AllDigits(Cell(row, mapping, "phone")) && AllDigits(Cell(row, mapping, "postalCode"))
    && ToLower(Cell(row, mapping, "email")) == Cell(row, mapping, "email")
    && ToUpper(Cell(row, mapping, "state")) == Cell(row, mapping, "state")
  }

  lemma ValueOfCell(row: map<string, string>, mapping: map<string, string>, field: string)
    ensures Mapped(row, mapping, field) ==> Value(row, mapping, field) == Trim(Cell(row, mapping, field))
    ensures !Mapped(row, mapping, field) ==> Value(row, mapping, field) == ""
  {
    hide Trim;
  }

  /** Each field is read from its own column. */
  lemma FieldsOfColumns(row: map<string, string>, mapping: map<string, string>)
    requires AllMapped(row, mapping) && Clean(row, mapping)
    ensures Normalize(row, mapping)
         == CustomerData(
              Cell(row, mapping, "city"), Cell(row, mapping, "document"), Cell(row, mapping, "email"), Cell(row, mapping, "name"),
              Cell(row, mapping, "phone"), Cell(row, mapping, "postalCode"), Cell(row, mapping, "state"))
  {
    hide Trim, Trimmed, Value, OnlyDigits, ToLower, ToUpper, Cell;
    forall field | field in FIELDS ensures Value(row, mapping, field) == Cell(row, mapping, field) {
      ValueOfCell(row, mapping, field);
      TrimLeaves(Cell(row, mapping, field));
    }
    TrimLeaves(Cell(row, mapping, "email"));
    assert "email" in FIELDS;
  }

  /** A field without a column, or whose column the file lacks, is empty. */
  lemma UnmappedIsEmpty(row: map<string, string>, mapping: map<string, string>)
    ensures var d := Normalize(row, mapping);
      && (!Mapped(row, mapping, "city") ==> d.city == "") && (!Mapped(row, mapping, "document") ==> d.document == "")
      && (!Mapped(row, mapping, "email") ==> d.email == "") && (!Mapped(row, mapping, "name") ==> d.name == "")
      && (!Mapped(row, mapping, "phone") ==> d.phone == "") && (!Mapped(row, mapping, "postalCode") ==> d.postalCode == "")
      && (!Mapped(row, mapping, "state") ==> d.state == "")
  {
    hide Value, Mapped, Trim, OnlyDigits, ToLower, ToUpper;
    EmptyText();
    forall field ensures !Mapped(row, mapping, field) ==> Value(row, mapping, field) == "" {
      ValueOfCell(row, mapping, field);
    }
  }

  lemma EmptyText()
    ensures Trim("") == "" && OnlyDigits("") == "" && ToLower("") == "" && ToUpper("") == ""
  {
  }

  lemma {:induction false} BlankHasNoDigits(s: string)
    requires Blank(s)
    ensures OnlyDigits(s) == ""
  {
    if s != "" {
      assert IsSpace(s[0]);
      SpaceIsNoDigit(s[0]);
      hide IsSpace, IsDigit;
      BlankHasNoDigits(s[1..]);
    }
  }

  lemma SpaceIsNoDigit(c: char)
    requires IsSpace(c)
    ensures !IsDigit(c)
  {
  }

  lemma TrimKeepsDigits(s: string)
    ensures OnlyDigits(Trim(s)) == OnlyDigits(s)
  {
    hide IsSpace, Trim, OnlyDigits, Blank;
    var left, right := TrimMeans(s);
    OnlyDigitsAppend(left, Trim(s) + right);
    OnlyDigitsAppend(Trim(s), right);
    BlankHasNoDigits(left);
    BlankHasNoDigits(right);
  }

  /** Of document, phone and postal code only the digits count, so separators and
      spaces are ignored. */
  lemma SeparatorsIgnored(row: map<string, string>, mapping: map<string, string>)
    requires AllMapped(row, mapping)
    ensures var d := Normalize(row, mapping);
      && d.document == OnlyDigits(Cell(row, mapping, "document")) && d.phone == OnlyDigits(Cell(row, mapping, "phone"))
      && d.postalCode == OnlyDigits(Cell(row, mapping, "postalCode"))
  {
    hide Trim, OnlyDigits, Value, Cell, ToLower, ToUpper;
    assert "document" in FIELDS && "phone" in FIELDS && "postalCode" in FIELDS;
    ValueOfCell(row, mapping, "document");
    ValueOfCell(row, mapping, "phone");
    ValueOfCell(row, mapping, "postalCode");
    TrimKeepsDigits(Cell(row, mapping, "document"));
    TrimKeepsDigits(Cell(row, mapping, "phone"));
    TrimKeepsDigits(Cell(row, mapping, "postalCode"));
  }

  lemma TrimTwice(s: string)
    ensures Trim(Trim(s)) == Trim(s)
  {
    hide Trim, IsSpace, Blank;
    var left, right := TrimMeans(s);
    TrimLeaves(Trim(s));
  }

  /** The other columns are trimmed; the email is stored in small letters and the
      state in capitals. */
  lemma LettersOfColumns(row: map<string, string>, mapping: map<string, string>)
    requires AllMapped(row, mapping)
    ensures var d := Normalize(row, mapping);
      && d.city == Trim(Cell(row, mapping, "city")) && d.name == Trim(Cell(row, mapping, "name"))
      && d.email == ToLower(Trim(Cell(row, mapping, "email"))) && d.state == ToUpper(Trim(Cell(row, mapping, "state")))
  {
    hide Trim, OnlyDigits, Value, Cell, ToLower, ToUpper;
    assert "city" in FIELDS && "name" in FIELDS && "email" in FIELDS && "state" in FIELDS;
    ValueOfCell(row, mapping, "city");
    ValueOfCell(row, mapping, "name");
    ValueOfCell(row, mapping, "email");
    ValueOfCell(row, mapping, "state");
    TrimTwice(Cell(row, mapping, "email"));
  }

  // ---------- Which rows are valid ----------

  predicate DocumentOk(d: CustomerData) {
    AllDigits(d.document) && Documents.HandlerAccepts(d.document)
  }

  /** Each error, with what had to be right before it is looked for. */
  lemma ErrorsInOrder(d: CustomerData)
    ensures Validate(d) == Some(NAME_REQUIRED) <==> |d.name| <= 1
    ensures Validate(d) == Some(INVALID_DOCUMENT) <==> |d.name| >= 2 && !DocumentOk(d)
    ensures Validate(d) == Some(INVALID_EMAIL) <==> |d.name| >= 2 && DocumentOk(d) && d.email != "" && !LooksLikeEmail(d.email)
    ensures Validate(d) == Some(INVALID_POSTAL_CODE) <==>
      |d.name| >= 2 && DocumentOk(d) && (d.email == "" || LooksLikeEmail(d.email)) && |d.postalCode| != 0 && |d.postalCode| != 8
    ensures Validate(d) == Some(INVALID_STATE) <==>
      && |d.name| >= 2 && DocumentOk(d) && (d.email == "" || LooksLikeEmail(d.email)) && (|d.postalCode| == 0 || |d.postalCode| == 8)
      && |d.state| != 0 && |d.state| != 2
    ensures Validate(d).None? <==>
      && |d.name| >= 2 && DocumentOk(d) && (d.email == "" || LooksLikeEmail(d.email)) && (|d.postalCode| == 0 || |d.postalCode| == 8)
      && (|d.state| == 0 || |d.state| == 2)
  {
    hide LooksLikeEmail, Documents.HandlerAccepts;
  }

  predicate EmailPart(s: string) {
    s != "" && forall i :: 0 <= i < |s| ==> EmailChar(s[i])
  }

  /** An address is accepted exactly when it is a part, an at sign, a part, a dot and
      a part, none of them empty or with white space or a second at sign. */
  lemma EmailMeans(s: string)
    ensures LooksLikeEmail(s) <==>
      exists local, host, top :: s == EmailText(local, host, top) && EmailPart(local) && EmailPart(host) && EmailPart(top)
  {
    hide EmailPart, EmailText;
    if LooksLikeEmail(s) {
      var at, dot :| 0 < at && at + 1 < dot < |s| - 1 && s[at] == '@' && s[dot] == '.'
        && forall i :: 0 <= i < |s| && i != at ==> EmailChar(s[i]);
      hide LooksLikeEmail, EmailChar;
      PartsSplit(s, at, dot);
    }
    if local, host, top :| s == EmailText(local, host, top) && EmailPart(local) && EmailPart(host) && EmailPart(top) {
      PartsJoin(local, host, top);
    }
  }

  lemma PartsSplit(s: string, at: int, dot: int)
    requires 0 < at && at + 1 < dot < |s| - 1 && s[at] == '@' && s[dot] == '.'
    requires forall i :: 0 <= i < |s| && i != at ==> EmailChar(s[i])
    ensures s == EmailText(s[..at], s[at + 1..dot], s[dot + 1..])
    ensures EmailPart(s[..at]) && EmailPart(s[at + 1..dot]) && EmailPart(s[dot + 1..])
  {
    hide EmailChar;
    assert s[..at] + ("@" + s[at + 1..]) == s;
    assert s[at + 1..] == s[at + 1..dot] + ("." + s[dot + 1..]);
  }

  function EmailText(local: string, host: string, top: string): string {
    local + ("@" + (host + ("." + top)))
  }

  lemma PartsJoin(local: string, host: string, top: string)
    requires EmailPart(local) && EmailPart(host) && EmailPart(top)
    ensures LooksLikeEmail(EmailText(local, host, top))
  {
    DotIsEmailChar();
    hide EmailChar;
    var s, at, dot := EmailText(local, host, top), |local|, |local| + 1 + |host|;
    forall i | 0 <= i < |s| && i != at ensures EmailChar(s[i]) {
      if i < at {
        assert s[i] == local[i];
      } else if i < dot {
        assert s[i] == host[i - at - 1];
      } else if i > dot {
        assert s[i] == top[i - dot - 1];
      }
    }
    assert s[at] == '@' && s[dot] == '.';
  }

  lemma DotIsEmailChar()
    ensures EmailChar('.')
  {
  }

  // ---------- What is stored ----------

  /** A valid clean row with a new document stores its columns, as one customer and
      one address, and touches no other customer. */
  lemma NewCustomerStored(strategy: Strategy, s: Store, seen: set<string>, row: map<string, string>, mapping: map<string, string>)
    requires AllMapped(row, mapping) && Clean(row, mapping) && Validate(Normalize(row, mapping)).None?
    requires Cell(row, mapping, "document") !in s.customers && Cell(row, mapping, "document") !in seen
    requires forall field :: field in FIELDS ==> Cell(row, mapping, field) != ""
    ensures var d, document := Normalize(row, mapping), Cell(row, mapping, "document");
      var n := RowStore(strategy, s, seen, d);
      && Outcome(strategy, s, seen, d) == Success
      && n.customers == s.customers[document := Customer(
           true, Some(Cell(row, mapping, "email")), Cell(row, mapping, "name"), Some(Cell(row, mapping, "phone")))]
      && n.addresses == s.addresses + [Address(
           document, Cell(row, mapping, "city"), Cell(row, mapping, "postalCode"), Cell(row, mapping, "state"))]
  {
    hide Validate, Normalize, Cell, Clean;
    FieldsOfColumns(row, mapping);
    assert "email" in FIELDS && "phone" in FIELDS && "city" in FIELDS && "postalCode" in FIELDS && "state" in FIELDS && "document" in FIELDS;
  }

  /** Empty columns are stored as absent, and the address is filled up. */
  lemma EmptyColumnsStored(strategy: Strategy, s: Store, seen: set<string>, d: CustomerData)
    requires Validate(d).None? && d.document !in s.customers && d.document !in seen
    ensures var n := RowStore(strategy, s, seen, d);
      && d.document in n.customers
      && (d.email == "" ==> n.customers[d.document].email == None) && (d.phone == "" ==> n.customers[d.document].phone == None)
      && (d.city == "" && d.postalCode == "" && d.state == "" ==> n.addresses == s.addresses)
      && (d.city != "" || d.postalCode != "" || d.state != "" ==>
            && |n.addresses| == |s.addresses| + 1
            && var a := n.addresses[|s.addresses|];
               && a.document == d.document
               && a.city == (if d.city == "" then "Nao informado" else d.city)
               && a.postalCode == (if d.postalCode == "" then "00000000" else d.postalCode)
               && a.state == (if d.state == "" then "SP" else d.state))
  {
    hide Validate;
  }

  /** A document that the tenant has already: replaced, skipped or refused, and never
      given another address. */
  lemma ExistingCustomer(s: Store, seen: set<string>, d: CustomerData)
    requires Validate(d).None? && d.document in s.customers && d.document !in seen
    ensures RowStore(SKIP, s, seen, d) == s && Outcome(SKIP, s, seen, d) == Skipped
    ensures RowStore(FAIL, s, seen, d) == s && Outcome(FAIL, s, seen, d) == Error(DUPLICATE_IN_TENANT)
    ensures Outcome(UPDATE, s, seen, d) == Success && RowStore(UPDATE, s, seen, d).addresses == s.addresses
    ensures var c := RowStore(UPDATE, s, seen, d).customers;
      && c.Keys == s.customers.Keys && (forall k :: k in c && k != d.document ==> c[k] == s.customers[k])
      && c[d.document].active && c[d.document].name == d.name
      && c[d.document].email == (if d.email == "" then None else Some(d.email))
      && c[d.document].phone == (if d.phone == "" then None else Some(d.phone))
  {
    hide Validate;
  }

  /** A second valid row with a document of the file is refused, under every strategy;
      an invalid one does not use its document up. */
  lemma SecondRowRefused(strategy: Strategy, s: Store, seen: set<string>, d: CustomerData)
    ensures Validate(d).None? && d.document in seen ==>
      Outcome(strategy, s, seen, d) == Error(DUPLICATE_IN_FILE) && RowStore(strategy, s, seen, d) == s
    ensures Validate(d).Some? ==>
      Outcome(strategy, s, seen, d) == Error(Validate(d).value) && RowStore(strategy, s, seen, d) == s && RowSeen(seen, d) == seen
    ensures Validate(d).None? ==> RowSeen(seen, d) == seen + {d.document}
  {
    hide Validate;
  }
}
