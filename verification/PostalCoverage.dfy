/** Postal-code coverage rules, matched in two ways: by text in a simulation and
    by number in the administrator's coverage test. */
module PostalCoverage {
  import opened Text

  /** Stored bounds are digit strings, possibly empty or absent. */
  type Bound = b: Option<string> | b.Some? ==> AllDigits(b.value) witness None

  datatype Rule = Rule(
    active: bool, originState: Option<string>, destinationState: Option<string>,
    originStart: Bound, originEnd: Bound, destinationStart: Bound, destinationEnd: Bound)

  datatype Address = Address(postalCode: string, state: string)

  // ---------- Comparing ----------

  /** `a <= b` on strings. */
  predicate TextAtMost(a: string, b: string) {
    a == "" || (b != "" && (a[0] < b[0] || (a[0] == b[0] && TextAtMost(a[1..], b[1..]))))
  }

  /** A digit with `zeros` zeros behind it. */
  function Lead(d: nat, zeros: nat): nat {
    if zeros == 0 then d else 10 * Lead(d, zeros - 1)
  }

  lemma {:induction false} NumberFromLeft(s: string)
    requires AllDigits(s) && s != ""
    ensures NumberOf(s) == Lead(DigitValue(s[0]), |s| - 1) + NumberOf(s[1..])
    ensures NumberOf(s[1..]) < Lead(1, |s| - 1)
    decreases |s|
  {
    if |s| == 1 {
      assert s[..0] == "" && s[1..] == "";
    } else {
      var front := s[..|s| - 1];
      NumberFromLeft(front);
      assert front[1..] == s[1..][..|s| - 2] && front[0] == s[0];
    }
  }

  /** On digit strings of one length, text order is numeric order. */
  lemma {:induction false} TextOrderIsNumeric(a: string, b: string)
    requires AllDigits(a) && AllDigits(b) && |a| == |b|
    ensures TextAtMost(a, b) <==> NumberOf(a) <= NumberOf(b)
  {
    if a != "" {
      hide NumberOf, Lead;
      NumberFromLeft(a);
      NumberFromLeft(b);
      TextOrderIsNumeric(a[1..], b[1..]);
      LeadingDigit(DigitValue(a[0]), DigitValue(b[0]), |a| - 1);
      LeadingDigit(DigitValue(b[0]), DigitValue(a[0]), |a| - 1);
    }
  }

  lemma {:induction false} LeadingDigit(d: nat, e: nat, zeros: nat)
    ensures d < e ==> Lead(d, zeros) + Lead(1, zeros) <= Lead(e, zeros)
  {
    if zeros > 0 {
      LeadingDigit(d, e, zeros - 1);
    }
  }

  // ---------- The simulation's test ----------

  predicate Truthy(b: Option<string>) {
    b.Some? && b.value != ""
  }

  /** `normalizePostalCode`; None is the exception it throws. */
  function Normalize(value: string): (r: Option<string>)
    ensures r.Some? ==> |r.value| == 8 && AllDigits(r.value)
  {
    if |OnlyDigits(value)| == 8 then Some(OnlyDigits(value)) else None
  }

  /** `inPostalRange`; None when a bound makes it throw. */
  function InPostalRange(postalCode: string, start: Bound, end: Bound): Option<bool> {
    var first := if Truthy(start) then Normalize(start.value) else Some("");
    var last := if Truthy(end) then Normalize(end.value) else Some("");
    if first.None? || last.None? then None
    else Some((first.value == "" || TextAtMost(first.value, postalCode)) && (last.value == "" || TextAtMost(postalCode, last.value)))
  }

  predicate StateMatches(rule: Option<string>, state: string) {
    !Truthy(rule) || rule.value == ToUpper(state)
  }

  /** One turn of `matchesCoverage`: all four tests are evaluated before they are combined. */
  function RuleMatches(r: Rule, origin: Address, destination: Address): Option<bool> {
    var o, d := Normalize(origin.postalCode), Normalize(destination.postalCode);
    if o.None? || d.None? then None
    else
      var a := InPostalRange(o.value, r.originStart, r.originEnd);
      var b := InPostalRange(d.value, r.destinationStart, r.destinationEnd);
      if a.None? || b.None? then None
      else Some(StateMatches(r.originState, origin.state) && StateMatches(r.destinationState, destination.state) && a.value && b.value)
  }

  function ActiveRules(rules: seq<Rule>): (r: seq<Rule>)
    ensures forall x :: x in r <==> x in rules && x.active
  {
    if rules == [] then [] else (if rules[0].active then [rules[0]] else []) + ActiveRules(rules[1..])
  }

  lemma Associative(a: seq<Rule>, b: seq<Rule>, c: seq<Rule>)
    ensures a + (b + c) == a + b + c
  {
  }

  /** Inactive rules are skipped, and the others keep their order. */
  lemma {:induction false} ActiveRulesAppend(a: seq<Rule>, b: seq<Rule>)
    ensures ActiveRules(a + b) == ActiveRules(a) + ActiveRules(b)
  {
    if a == [] {
      assert a + b == b;
      assert ActiveRules(a) == [];
    } else {
      ActiveRulesAppend(a[1..], b);
      assert (a + b)[1..] == a[1..] + b && (a + b)[0] == a[0];
      Associative(if a[0].active then [a[0]] else [], ActiveRules(a[1..]), ActiveRules(b));
    }
  }

  /** `coverages.some(...)`, which an exception in a rule reached before a match cuts short. */
  function SomeMatches(rules: seq<Rule>, origin: Address, destination: Address): Option<bool> {
    if rules == [] then Some(false)
    else
      var first := RuleMatches(rules[0], origin, destination);
      if first.None? || first.value then first else SomeMatches(rules[1..], origin, destination)
  }

  function Eligible(rules: seq<Rule>, origin: Address, destination: Address): Option<bool> {
    SomeMatches(ActiveRules(rules), origin, destination)
  }

  // ---------- The administrator's test ----------

  predicate InRange(value: string, start: Bound, end: Bound)
    requires AllDigits(value)
  {
    && (Truthy(start) ==> NumberOf(value) >= NumberOf(start.value))
    && (Truthy(end) ==> NumberOf(value) <= NumberOf(end.value))
  }

  predicate RuleTested(r: Rule, origin: string, destination: string) {
    && r.active
    && InRange(OnlyDigits(origin), r.originStart, r.originEnd)
    && InRange(OnlyDigits(destination), r.destinationStart, r.destinationEnd)
  }

  predicate Covered(rules: seq<Rule>, origin: string, destination: string) {
    exists i :: 0 <= i < |rules| && RuleTested(rules[i], origin, destination)
  }

  /** A rule as the test reads it, with its carrier's state. */
  datatype Item = Item(rule: Rule, carrierActive: bool)

  function RulesOf(items: seq<Item>): seq<Rule> {
    seq(|items|, i requires 0 <= i < |items| => items[i].rule)
  }

  /** Rules of inactive carriers count as cover but are not shown. */
  method TestCoverage(items: seq<Item>, origin: string, destination: string) returns (covered: bool, matches: seq<Rule>)
    ensures covered <==> Covered(RulesOf(items), origin, destination)
    ensures forall r :: r in matches <==> Item(r, true) in items && RuleTested(r, origin, destination)
  {
    matches := [];
    covered := false;
    for i := 0 to |items|
      invariant forall r :: r in matches <==> Item(r, true) in items[..i] && RuleTested(r, origin, destination)
      invariant covered <==> exists k :: 0 <= k < i && RuleTested(RulesOf(items)[k], origin, destination)
    {
      var rule := RulesOf(items)[i];
      assert items[..i + 1] == items[..i] + [items[i]];
      if RuleTested(rule, origin, destination) {
        covered := true;
        if items[i].carrierActive {
          matches := matches + [rule];
        }
      }
    }
  }

  // ---------- How the two tests relate ----------

  /** Empty or a full postal code. */
  predicate WellSized(b: Bound) {
    Truthy(b) ==> |b.value| == 8
  }

  predicate BoundsWellSized(r: Rule) {
    WellSized(r.originStart) && WellSized(r.originEnd) && WellSized(r.destinationStart) && WellSized(r.destinationEnd)
  }

  /** On well-sized bounds comparing text and comparing numbers are one test. */
  lemma RangeTestsAgree(postalCode: string, start: Bound, end: Bound)
    requires AllDigits(postalCode) && |postalCode| == 8
    ensures InPostalRange(postalCode, start, end)
         == if WellSized(start) && WellSized(end) then Some(InRange(postalCode, start, end)) else None
  {
    hide TextAtMost, NumberOf;
    if Truthy(start) && |start.value| == 8 {
      TextOrderIsNumeric(start.value, postalCode);
    }
    if Truthy(end) && |end.value| == 8 {
      TextOrderIsNumeric(postalCode, end.value);
    }
  }

  /** A simulation rejects the request exactly when a postal code or a bound is
      badly sized; otherwise it asks what the test asks, and for the states too. */
  lemma RuleTestsAgree(r: Rule, origin: Address, destination: Address)
    requires r.active
    ensures RuleMatches(r, origin, destination)
         == if |OnlyDigits(origin.postalCode)| == 8 && |OnlyDigits(destination.postalCode)| == 8 && BoundsWellSized(r)
            then Some(&& RuleTested(r, origin.postalCode, destination.postalCode)
                      && StateMatches(r.originState, origin.state) && StateMatches(r.destinationState, destination.state))
            else None
  {
    hide InPostalRange, InRange, OnlyDigits, StateMatches;
    var o, d := Normalize(origin.postalCode), Normalize(destination.postalCode);
    if o.Some? && d.Some? {
      RangeTestsAgree(o.value, r.originStart, r.originEnd);
      RangeTestsAgree(d.value, r.destinationStart, r.destinationEnd);
    }
  }

  lemma {:induction false} SomeMatchesFinds(rules: seq<Rule>, origin: Address, destination: Address) returns (r: Rule)
    requires SomeMatches(rules, origin, destination) == Some(true)
    ensures r in rules && RuleMatches(r, origin, destination) == Some(true)
  {
    hide RuleMatches;
    if RuleMatches(rules[0], origin, destination) == Some(true) {
      r := rules[0];
    } else {
      r := SomeMatchesFinds(rules[1..], origin, destination);
    }
  }

  /** A route a simulation serves is one the coverage test reports. */
  lemma EligibleIsCovered(rules: seq<Rule>, origin: Address, destination: Address)
    requires Eligible(rules, origin, destination) == Some(true)
    ensures Covered(rules, origin.postalCode, destination.postalCode)
  {
    hide RuleMatches, RuleTested;
    var r := SomeMatchesFinds(ActiveRules(rules), origin, destination);
    assert r in rules && r.active;
    RuleTestsAgree(r, origin, destination);
  }

  /** The rule covers the route, and its states are the route's. */
  predicate Serves(r: Rule, origin: Address, destination: Address) {
    && RuleTested(r, origin.postalCode, destination.postalCode)
    && StateMatches(r.originState, origin.state) && StateMatches(r.destinationState, destination.state)
  }

  predicate CodesWellSized(origin: Address, destination: Address) {
    |OnlyDigits(origin.postalCode)| == 8 && |OnlyDigits(destination.postalCode)| == 8
  }

  /** A serving rule is reached before any badly sized one. */
  predicate ServedFirst(rules: seq<Rule>, origin: Address, destination: Address) {
    exists i :: 0 <= i < |rules| && Serves(rules[i], origin, destination) && forall j :: 0 <= j <= i ==> BoundsWellSized(rules[j])
  }

  /** A badly sized rule is reached before any serving one. */
  predicate RejectedFirst(rules: seq<Rule>, origin: Address, destination: Address) {
    exists i :: 0 <= i < |rules| && !BoundsWellSized(rules[i]) && forall j :: 0 <= j < i ==> !Serves(rules[j], origin, destination)
  }

  lemma ServedFirstSplits(rules: seq<Rule>, origin: Address, destination: Address)
    requires rules != []
    ensures ServedFirst(rules, origin, destination) <==>
      BoundsWellSized(rules[0]) && (Serves(rules[0], origin, destination) || ServedFirst(rules[1..], origin, destination))
  {
    hide BoundsWellSized, Serves;
    if BoundsWellSized(rules[0]) && ServedFirst(rules[1..], origin, destination) {
      var i :| 0 <= i < |rules[1..]| && Serves(rules[1..][i], origin, destination) && forall j :: 0 <= j <= i ==> BoundsWellSized(rules[1..][j]);
      assert Serves(rules[i + 1], origin, destination);
      assert forall j :: 0 < j <= i + 1 ==> rules[j] == rules[1..][j - 1];
    }
    if ServedFirst(rules, origin, destination) && !Serves(rules[0], origin, destination) {
      var i :| 0 <= i < |rules| && Serves(rules[i], origin, destination) && forall j :: 0 <= j <= i ==> BoundsWellSized(rules[j]);
      assert Serves(rules[1..][i - 1], origin, destination);
    }
  }

  lemma RejectedFirstSplits(rules: seq<Rule>, origin: Address, destination: Address)
    requires rules != []
    ensures RejectedFirst(rules, origin, destination) <==>
      !BoundsWellSized(rules[0]) || (!Serves(rules[0], origin, destination) && RejectedFirst(rules[1..], origin, destination))
  {
    hide BoundsWellSized, Serves;
    if !Serves(rules[0], origin, destination) && RejectedFirst(rules[1..], origin, destination) {
      var i :| 0 <= i < |rules[1..]| && !BoundsWellSized(rules[1..][i]) && forall j :: 0 <= j < i ==> !Serves(rules[1..][j], origin, destination);
      assert !BoundsWellSized(rules[i + 1]);
      assert forall j :: 0 < j < i + 1 ==> rules[j] == rules[1..][j - 1];
    }
    if RejectedFirst(rules, origin, destination) && BoundsWellSized(rules[0]) {
      var i :| 0 <= i < |rules| && !BoundsWellSized(rules[i]) && forall j :: 0 <= j < i ==> !Serves(rules[j], origin, destination);
      assert !BoundsWellSized(rules[1..][i - 1]);
    }
  }

  lemma {:induction false} SomeMatchesExact(rules: seq<Rule>, origin: Address, destination: Address)
    requires CodesWellSized(origin, destination) && forall r :: r in rules ==> r.active
    ensures SomeMatches(rules, origin, destination)
         == if ServedFirst(rules, origin, destination) then Some(true)
            else if RejectedFirst(rules, origin, destination) then None
            else Some(false)
  {
    hide RuleMatches, RuleTested, StateMatches, BoundsWellSized, OnlyDigits;
    if rules != [] {
      RuleTestsAgree(rules[0], origin, destination);
      SomeMatchesExact(rules[1..], origin, destination);
      hide ServedFirst, RejectedFirst;
      ServedFirstSplits(rules, origin, destination);
      RejectedFirstSplits(rules, origin, destination);
    }
  }

  /** What a simulation makes of any list of rules: with well-sized codes the first
      active rule that serves the route or is badly sized decides; with other codes
      any active rule at all makes it fail. */
  lemma EligibleExact(rules: seq<Rule>, origin: Address, destination: Address)
    ensures var active := ActiveRules(rules);
      Eligible(rules, origin, destination)
      == if !CodesWellSized(origin, destination) then (if active == [] then Some(false) else None)
         else if ServedFirst(active, origin, destination) then Some(true)
         else if RejectedFirst(active, origin, destination) then None
         else Some(false)
  {
    hide RuleTested, StateMatches, BoundsWellSized, OnlyDigits, ServedFirst, RejectedFirst;
    if CodesWellSized(origin, destination) {
      SomeMatchesExact(ActiveRules(rules), origin, destination);
    }
  }

  /** When every active rule is well sized, eligibility is exactly a tested rule whose
      states match. */
  lemma CoveredIsEligible(rules: seq<Rule>, origin: Address, destination: Address)
    requires CodesWellSized(origin, destination)
    requires forall r :: r in rules && r.active ==> BoundsWellSized(r)
    ensures Eligible(rules, origin, destination) == Some(exists r :: r in rules && Serves(r, origin, destination))
  {
    hide RuleTested, StateMatches, BoundsWellSized, OnlyDigits, Eligible;
    EligibleExact(rules, origin, destination);
    var active := ActiveRules(rules);
    forall r | r in rules && Serves(r, origin, destination) ensures r in active {
      TestedIsActive(r, origin.postalCode, destination.postalCode);
    }
    if r :| r in rules && Serves(r, origin, destination) {
      var i :| 0 <= i < |active| && active[i] == r;
      assert ServedFirst(active, origin, destination);
    }
  }

  lemma TestedIsActive(r: Rule, origin: string, destination: string)
    requires RuleTested(r, origin, destination)
    ensures r.active
  {
  }

  /** One short bound is enough for the tests to part: the test covers the route,
      the simulation rejects every request that reaches the rule. */
  lemma ShortBoundParts()
    ensures var r := Rule(true, None, None, Some("2"), None, None, None);
            var a := Address("20040002", "RJ");
            Covered([r], a.postalCode, a.postalCode) && Eligible([r], a, a) == None
  {
    var r := Rule(true, None, None, Some("2"), None, None, None);
    var a := Address("20040002", "RJ");
    hide OnlyDigits, NumberOf, TextAtMost;
    SamplePostalCode(a.postalCode);
    assert !WellSized(r.originStart);
    RuleTestsAgree(r, a, a);
    assert ActiveRules([r]) == [r];
    OneDigit();
    assert RuleTested([r][0], a.postalCode, a.postalCode);
  }

  lemma OneDigit()
    ensures NumberOf("2") == 2
  {
    assert "2"[..0] == "";
  }

  lemma SamplePostalCode(s: string)
    requires s == "20040002"
    ensures OnlyDigits(s) == s && NumberOf(s) >= 2
  {
    assert AllDigits(s);
    NumberFromLeft(s);
    AtLeast(2, 7);
  }

  lemma AtLeast(d: nat, zeros: nat)
    ensures Lead(d, zeros) >= d
  {
  }

  /** What serving asks of a well-sized rule, bound by bound: present bounds hold the
      code between them, both included, and present states are the route's, whatever
      the case they are written in. */
  lemma ServesMeans(r: Rule, origin: Address, destination: Address)
    requires CodesWellSized(origin, destination)
    ensures Serves(r, origin, destination) <==>
      var from, to := NumberOf(OnlyDigits(origin.postalCode)), NumberOf(OnlyDigits(destination.postalCode));
      && r.active
      && (r.originStart.Some? && r.originStart.value != "" ==> NumberOf(r.originStart.value) <= from)
      && (r.originEnd.Some? && r.originEnd.value != "" ==> from <= NumberOf(r.originEnd.value))
      && (r.destinationStart.Some? && r.destinationStart.value != "" ==> NumberOf(r.destinationStart.value) <= to)
      && (r.destinationEnd.Some? && r.destinationEnd.value != "" ==> to <= NumberOf(r.destinationEnd.value))
      && (r.originState.Some? && r.originState.value != "" ==> r.originState.value == ToUpper(origin.state))
      && (r.destinationState.Some? && r.destinationState.value != "" ==> r.destinationState.value == ToUpper(destination.state))
  {
    hide NumberOf, OnlyDigits, ToUpper;
  }
}
