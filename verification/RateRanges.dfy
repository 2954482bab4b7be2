/** Weight ranges of a rate table: the administrative check that accepts them
    and the lookup that a simulation makes in them. */
module RateRanges {
  import opened Text
  import opened Pricing

  datatype Range = Range(id: nat, rate: Rate, priority: int)

  // ---------- Sorting a copy ----------

  /** Stable insertion: `x` goes before the first element it must precede. */
  function Insert(x: Range, s: seq<Range>, before: (Range, Range) -> bool): seq<Range> {
    if s == [] then [x] else if before(x, s[0]) then [x] + s else [s[0]] + Insert(x, s[1..], before)
  }

  function Sort(s: seq<Range>, before: (Range, Range) -> bool): seq<Range> {
    if s == [] then [] else Insert(s[|s| - 1], Sort(s[..|s| - 1], before), before)
  }

  function ByMinWeight(): (Range, Range) -> bool {
    (a: Range, b: Range) => a.rate.minWeightKg < b.rate.minWeightKg
  }

  /** The order in which a simulation reads ranges: priority, then lower bound. */
  function ByPriority(): (Range, Range) -> bool {
    (a: Range, b: Range) => a.priority < b.priority || (a.priority == b.priority && a.rate.minWeightKg < b.rate.minWeightKg)
  }

  lemma {:induction false} InsertPermutes(x: Range, s: seq<Range>, before: (Range, Range) -> bool)
    ensures multiset(Insert(x, s, before)) == multiset(s) + multiset{x}
  {
    if s != [] {
      if before(x, s[0]) {
        assert multiset([x] + s) == multiset{x} + multiset(s);
      } else {
        InsertPermutes(x, s[1..], before);
        assert s == [s[0]] + s[1..];
      }
    }
  }

  lemma {:induction false} SortPermutes(s: seq<Range>, before: (Range, Range) -> bool)
    ensures multiset(Sort(s, before)) == multiset(s)
  {
    if s != [] {
      SortPermutes(s[..|s| - 1], before);
      InsertPermutes(s[|s| - 1], Sort(s[..|s| - 1], before), before);
      assert s == s[..|s| - 1] + [s[|s| - 1]];
    }
  }

  predicate Sorted(s: seq<Range>) {
    forall i, j :: 0 <= i < j < |s| ==> s[i].rate.minWeightKg <= s[j].rate.minWeightKg
  }

  lemma {:induction false} InsertSorted(x: Range, s: seq<Range>)
    requires Sorted(s)
    ensures Sorted(Insert(x, s, ByMinWeight()))
  {
    if s != [] && !ByMinWeight()(x, s[0]) {
      InsertSorted(x, s[1..]);
      InsertPermutes(x, s[1..], ByMinWeight());
      var t := Insert(x, s[1..], ByMinWeight());
      forall j | 0 <= j < |t| ensures s[0].rate.minWeightKg <= t[j].rate.minWeightKg {
        assert t[j] in multiset(t);
      }
    }
  }

  lemma {:induction false} SortSorted(s: seq<Range>)
    ensures Sorted(Sort(s, ByMinWeight()))
  {
    if s != [] {
      SortSorted(s[..|s| - 1]);
      InsertSorted(s[|s| - 1], Sort(s[..|s| - 1], ByMinWeight()));
    }
  }

  // ---------- What acceptance means ----------

  predicate WellFormed(r: Range) {
    r.rate.maxWeightKg > r.rate.minWeightKg && r.rate.basePrice >= 0.0 && r.rate.pricePerKg >= 0.0 && r.rate.deadlineDays >= 1
  }

  /** Disjoint as closed intervals. */
  predicate Apart(a: Range, b: Range) {
    a.rate.maxWeightKg < b.rate.minWeightKg || b.rate.maxWeightKg < a.rate.minWeightKg
  }

  predicate AllWellFormed(s: seq<Range>) {
    forall i :: 0 <= i < |s| ==> WellFormed(s[i])
  }

  predicate PairwiseApart(s: seq<Range>) {
    forall i, j :: 0 <= i < j < |s| ==> Apart(s[i], s[j])
  }

  predicate Acceptable(s: seq<Range>) {
    AllWellFormed(s) && PairwiseApart(s)
  }

  datatype Verdict = Accepted | InvalidRange | OverlappingRanges

  /** What a list of ranges deserves, in any order. */
  function Judge(s: seq<Range>): Verdict {
    if !AllWellFormed(s) then InvalidRange else if !PairwiseApart(s) then OverlappingRanges else Accepted
  }

  lemma WellFormedPermuted(s: seq<Range>, t: seq<Range>)
    requires multiset(s) == multiset(t) && AllWellFormed(s)
    ensures AllWellFormed(t)
  {
    forall i | 0 <= i < |t| ensures WellFormed(t[i]) {
      assert t[i] in multiset(s);
    }
  }

  /** Both values occur, and twice when they are one value. */
  predicate BothIn(s: seq<Range>, x: Range, y: Range) {
    x in multiset(s) && multiset(s)[y] >= if x == y then 2 else 1
  }

  lemma CountAround<T>(s: seq<T>, i: nat, y: T)
    requires i < |s|
    ensures multiset(s)[y] == multiset(s[..i])[y] + (if s[i] == y then 1 else 0) + multiset(s[i + 1..])[y]
  {
    assert s == s[..i] + [s[i]] + s[i + 1..];
  }

  lemma TwoPlaces(s: seq<Range>, x: Range, y: Range) returns (i: nat, j: nat)
    requires BothIn(s, x, y)
    ensures i < |s| && j < |s| && i != j && s[i] == x && s[j] == y
  {
    i :| 0 <= i < |s| && s[i] == x;
    var left, right := s[..i], s[i + 1..];
    CountAround(s, i, y);
    if y in multiset(left) {
      j :| 0 <= j < |left| && left[j] == y;
    } else {
      var k :| 0 <= k < |right| && right[k] == y;
      j := i + 1 + k;
    }
  }

  lemma PairInSequence(t: seq<Range>, i: nat, j: nat)
    requires i < j < |t|
    ensures BothIn(t, t[i], t[j])
  {
    var left, right := t[..j], t[j..];
    assert t == left + right;
    assert left[i] == t[i] && right[0] == t[j];
    assert multiset(t)[t[j]] == multiset(left)[t[j]] + multiset(right)[t[j]];
  }

  lemma ApartPermuted(s: seq<Range>, t: seq<Range>)
    requires multiset(s) == multiset(t) && PairwiseApart(s)
    ensures PairwiseApart(t)
  {
    forall i, j | 0 <= i < j < |t| ensures Apart(t[i], t[j]) {
      PairInSequence(t, i, j);
      var a, b := TwoPlaces(s, t[i], t[j]);
      if a < b {
        assert Apart(s[a], s[b]);
      } else {
        assert Apart(s[b], s[a]);
      }
    }
  }

  /** Neither condition depends on the order of the list. */
  lemma OrderIrrelevant(s: seq<Range>, t: seq<Range>)
    requires multiset(s) == multiset(t)
    ensures AllWellFormed(s) == AllWellFormed(t) && PairwiseApart(s) == PairwiseApart(t)
  {
    if AllWellFormed(s) { WellFormedPermuted(s, t); }
    if AllWellFormed(t) { WellFormedPermuted(t, s); }
    if PairwiseApart(s) { ApartPermuted(s, t); }
    if PairwiseApart(t) { ApartPermuted(t, s); }
  }

  /** On a sorted list, checking neighbours is checking everybody. */
  lemma {:induction false} NeighboursSuffice(s: seq<Range>, i: nat, j: nat)
    requires AllWellFormed(s) && i < j < |s|
    requires forall k :: 0 < k < |s| ==> s[k - 1].rate.maxWeightKg < s[k].rate.minWeightKg
    ensures s[i].rate.maxWeightKg < s[j].rate.minWeightKg
    decreases j - i
  {
    if i + 1 < j {
      NeighboursSuffice(s, i, j - 1);
      assert WellFormed(s[j - 1]);
    }
  }

  /** A list is accepted exactly when its ranges are well formed and disjoint in
      pairs, in whatever order they were submitted. */
  method ValidateRanges(ranges: seq<Range>) returns (verdict: Verdict)
    ensures verdict == Judge(ranges)
  {
    hide Insert, Sort;
    var ordered := Sort(ranges, ByMinWeight());
    SortPermutes(ranges, ByMinWeight());
    SortSorted(ranges);
    OrderIrrelevant(ranges, ordered);
    for i := 0 to |ordered|
      invariant forall k :: 0 <= k < i ==> WellFormed(ordered[k])
    {
      if !WellFormed(ordered[i]) {
        return InvalidRange;
      }
    }
    var index := 1;
    while index < |ordered|
      invariant 1 <= index
      invariant forall k :: 0 < k < index && k < |ordered| ==> ordered[k - 1].rate.maxWeightKg < ordered[k].rate.minWeightKg
    {
      if ordered[index - 1].rate.maxWeightKg >= ordered[index].rate.minWeightKg {
        assert !Apart(ordered[index - 1], ordered[index]);
        return OverlappingRanges;
      }
      index := index + 1;
    }
    forall i, j | 0 <= i < j < |ordered| ensures Apart(ordered[i], ordered[j]) {
      NeighboursSuffice(ordered, i, j);
    }
    return Accepted;
  }

  // ---------- Lookup ----------

  predicate Contains(r: Range, weight: real) {
    r.rate.minWeightKg <= weight <= r.rate.maxWeightKg
  }

  /** `ranges.find(...)`. */
  function Find(s: seq<Range>, weight: real): Option<Range> {
    if s == [] then None else if Contains(s[0], weight) then Some(s[0]) else Find(s[1..], weight)
  }

  function Lookup(s: seq<Range>, weight: real): Option<Range> {
    Find(Sort(s, ByPriority()), weight)
  }

  lemma {:induction false} FindFinds(s: seq<Range>, weight: real)
    ensures Find(s, weight).Some? <==> exists r :: r in multiset(s) && Contains(r, weight)
    ensures Find(s, weight).Some? ==> Find(s, weight).value in multiset(s) && Contains(Find(s, weight).value, weight)
  {
    if s != [] {
      FindFinds(s[1..], weight);
      assert s == [s[0]] + s[1..];
    }
  }

  lemma OneRange(s: seq<Range>, x: Range, y: Range, weight: real)
    requires PairwiseApart(s) && x in multiset(s) && y in multiset(s) && Contains(x, weight) && Contains(y, weight)
    ensures x == y
  {
    var i :| 0 <= i < |s| && s[i] == x;
    var j :| 0 <= j < |s| && s[j] == y;
    assert !Apart(s[i], s[j]) && !Apart(s[j], s[i]);
  }

  /** In an accepted table a weight has one range or none, so every reading
      order, the priority order included, finds the same one. */
  lemma LookupIgnoresOrder(s: seq<Range>, t: seq<Range>, weight: real)
    requires Acceptable(s) && multiset(s) == multiset(t)
    ensures Find(t, weight) == Find(s, weight) == Lookup(s, weight)
  {
    hide Find, Sort;
    var p := Sort(s, ByPriority());
    SortPermutes(s, ByPriority());
    SameFind(s, t, weight);
    SameFind(s, p, weight);
  }

  lemma SameFind(s: seq<Range>, t: seq<Range>, weight: real)
    requires Acceptable(s) && multiset(s) == multiset(t)
    ensures Find(t, weight) == Find(s, weight)
  {
    hide Find;
    FindFinds(s, weight);
    FindFinds(t, weight);
    if Find(s, weight).Some? {
      OneRange(s, Find(s, weight).value, Find(t, weight).value, weight);
    }
  }

  /** Both bounds of a range belong to it. */
  lemma BoundsBelong(s: seq<Range>, r: Range)
    requires Acceptable(s) && r in s
    ensures Lookup(s, r.rate.minWeightKg) == Some(r) && Lookup(s, r.rate.maxWeightKg) == Some(r)
    ensures forall weight :: Lookup(s, weight) == Some(r) <==> r.rate.minWeightKg <= weight <= r.rate.maxWeightKg
  {
    hide Find, Lookup;
    var i :| 0 <= i < |s| && s[i] == r;
    assert WellFormed(s[i]);
    forall weight ensures Lookup(s, weight) == Some(r) <==> Contains(r, weight) {
      LookupIgnoresOrder(s, s, weight);
      FindFinds(s, weight);
      if Contains(r, weight) {
        OneRange(s, Find(s, weight).value, r, weight);
      }
    }
  }

  /** Each refusal, range by range. */
  lemma RefusalMeans(r: Range, q: Range)
    ensures Judge([r]) == InvalidRange <==>
      r.rate.maxWeightKg <= r.rate.minWeightKg || r.rate.basePrice < 0.0 || r.rate.pricePerKg < 0.0 || r.rate.deadlineDays < 1
    ensures Judge([r]) != InvalidRange && Judge([q]) != InvalidRange ==>
      (Judge([r, q]) == OverlappingRanges <==> q.rate.minWeightKg <= r.rate.maxWeightKg && r.rate.minWeightKg <= q.rate.maxWeightKg)
  {
    assert [r][0] == r && [q][0] == q && [r, q][0] == r && [r, q][1] == q;
    assert PairwiseApart([r]) && PairwiseApart([q]);
    assert WellFormed([r][0]) == WellFormed(r) && WellFormed([q][0]) == WellFormed(q);
    assert PairwiseApart([r, q]) == Apart([r, q][0], [r, q][1]);
    assert AllWellFormed([r, q]) == (WellFormed(r) && WellFormed(q));
  }

  // ---------- Lists that need not be accepted ----------

  predicate TwoContain(s: seq<Range>, weight: real) {
    exists x, y :: x in s && y in s && x != y && Contains(x, weight) && Contains(y, weight)
  }

  /** The list with element i moved to the front. */
  function Fronted(s: seq<Range>, i: nat): (t: seq<Range>)
    requires i < |s|
    ensures multiset(t) == multiset(s)
  {
    assert s == s[..i] + [s[i]] + s[i + 1..];
    [s[i]] + (s[..i] + s[i + 1..])
  }

  lemma FrontedFinds(s: seq<Range>, i: nat, weight: real)
    requires i < |s| && Contains(s[i], weight)
    ensures Find(Fronted(s, i), weight) == Some(s[i])
  {
    assert Fronted(s, i)[0] == s[i];
  }

  lemma OneContains(s: seq<Range>, t: seq<Range>, weight: real)
    requires !TwoContain(s, weight) && multiset(t) == multiset(s)
    ensures Find(t, weight) == Find(s, weight)
  {
    hide Find, Contains;
    FindFinds(s, weight);
    FindFinds(t, weight);
    if Find(s, weight).Some? {
      var a, b := Find(s, weight).value, Find(t, weight).value;
      assert a in s && b in s;
    }
  }

  /** The reading order matters for a weight exactly when two ranges contain it. */
  lemma OrderMattersExact(s: seq<Range>, weight: real)
    ensures (forall t :: multiset(t) == multiset(s) ==> Find(t, weight) == Find(s, weight)) <==> !TwoContain(s, weight)
  {
    hide Find, Fronted;
    if TwoContain(s, weight) {
      var x, y :| x in s && y in s && x != y && Contains(x, weight) && Contains(y, weight);
      var i :| 0 <= i < |s| && s[i] == x;
      var j :| 0 <= j < |s| && s[j] == y;
      FrontedFinds(s, i, weight);
      FrontedFinds(s, j, weight);
    } else {
      forall t | multiset(t) == multiset(s) ensures Find(t, weight) == Find(s, weight) {
        OneContains(s, t, weight);
      }
    }
  }

  // ---------- Column rounding ----------

  /** A range as its columns keep it. */
  function Kept(r: Range): Range {
    r.(rate := r.rate.(
      basePrice := Money(r.rate.basePrice), pricePerKg := TenThousandths(r.rate.pricePerKg),
      excessPricePerKg := if r.rate.excessPricePerKg.Some? then Some(TenThousandths(r.rate.excessPricePerKg.value)) else None,
      minWeightKg := Grams(r.rate.minWeightKg), maxWeightKg := Grams(r.rate.maxWeightKg)))
  }

  lemma TenThousandthsTwice(x: real)
    ensures TenThousandths(TenThousandths(x)) == TenThousandths(x)
  {
    var n := RoundHalfUp(x * 10000.0);
    assert TenThousandths(x) * 10000.0 == n as real;
    RoundInt(n);
  }

  /** Saving what was read back changes nothing. */
  lemma KeptTwice(r: Range)
    ensures Kept(Kept(r)) == Kept(r)
  {
    hide Money, Grams, TenThousandths;
    MoneyInCents(r.rate.basePrice);
    TenThousandthsTwice(r.rate.pricePerKg);
    if r.rate.excessPricePerKg.Some? {
      TenThousandthsTwice(r.rate.excessPricePerKg.value);
    }
    GramsTwice(r.rate.minWeightKg);
    GramsTwice(r.rate.maxWeightKg);
  }

  /** Disjoint but for a shared bound. */
  predicate AtMostTouching(a: Range, b: Range) {
    a.rate.maxWeightKg <= b.rate.minWeightKg || b.rate.maxWeightKg <= a.rate.minWeightKg
  }

  /** What is left of acceptance after the columns have rounded. */
  predicate Settled(s: seq<Range>) {
    && (forall i :: 0 <= i < |s| ==> s[i].rate.minWeightKg <= s[i].rate.maxWeightKg && s[i].rate.basePrice >= 0.0 && s[i].rate.pricePerKg >= 0.0)
    && (forall i, j :: 0 <= i < j < |s| ==> AtMostTouching(s[i], s[j]))
  }

  lemma GramsMonotone(x: real, y: real)
    requires x <= y
    ensures Grams(x) <= Grams(y)
  {
    RoundMonotone(x * 1000.0, y * 1000.0);
  }

  lemma KeptOrder(a: Range, b: Range)
    requires WellFormed(a)
    ensures Kept(a).rate.minWeightKg <= Kept(a).rate.maxWeightKg && Kept(a).rate.basePrice >= 0.0 && Kept(a).rate.pricePerKg >= 0.0
    ensures Apart(a, b) ==> AtMostTouching(Kept(a), Kept(b))
  {
    hide Grams;
    GramsMonotone(a.rate.minWeightKg, a.rate.maxWeightKg);
    if a.rate.maxWeightKg < b.rate.minWeightKg {
      GramsMonotone(a.rate.maxWeightKg, b.rate.minWeightKg);
    } else if b.rate.maxWeightKg < a.rate.minWeightKg {
      GramsMonotone(b.rate.maxWeightKg, a.rate.minWeightKg);
    }
    RoundMonotone(0.0, a.rate.basePrice * 100.0);
    RoundMonotone(0.0, a.rate.pricePerKg * 10000.0);
    RoundInt(0);
  }

  /** In a settled list two ranges contain a weight only where one ends and the
      other begins. */
  lemma SharedBound(s: seq<Range>, i: nat, j: nat, weight: real)
    requires Settled(s) && i < |s| && j < |s| && i != j && Contains(s[i], weight) && Contains(s[j], weight)
    ensures weight == s[i].rate.maxWeightKg == s[j].rate.minWeightKg || weight == s[j].rate.maxWeightKg == s[i].rate.minWeightKg
  {
    assert AtMostTouching(s[if i < j then i else j], s[if i < j then j else i]);
  }

  /** In a settled list the reading order matters for a weight exactly where one
      range ends and another begins. */
  lemma SettledLookup(s: seq<Range>, weight: real)
    requires Settled(s)
    ensures (forall t :: multiset(t) == multiset(s) ==> Find(t, weight) == Find(s, weight)) <==>
      !exists x, y :: x in s && y in s && x != y && weight == x.rate.maxWeightKg == y.rate.minWeightKg
  {
    hide Find;
    OrderMattersExact(s, weight);
    if TwoContain(s, weight) {
      var x, y :| x in s && y in s && x != y && Contains(x, weight) && Contains(y, weight);
      var i :| 0 <= i < |s| && s[i] == x;
      var j :| 0 <= j < |s| && s[j] == y;
      SharedBound(s, i, j, weight);
    }
  }

  predicate InGrams(r: Range) {
    Grams(r.rate.minWeightKg) == r.rate.minWeightKg && Grams(r.rate.maxWeightKg) == r.rate.maxWeightKg
  }

  // ---------- Priority ----------

  predicate PriorityOrder(s: seq<Range>) {
    forall i, j :: 0 <= i < j < |s| ==> !ByPriority()(s[j], s[i])
  }

  lemma {:induction false} InsertByPriority(x: Range, s: seq<Range>)
    requires PriorityOrder(s)
    ensures PriorityOrder(Insert(x, s, ByPriority()))
  {
    if s != [] && !ByPriority()(x, s[0]) {
      InsertByPriority(x, s[1..]);
      InsertPermutes(x, s[1..], ByPriority());
      var t := Insert(x, s[1..], ByPriority());
      forall j | 0 <= j < |t| ensures !ByPriority()(t[j], s[0]) {
        assert t[j] in multiset(t);
      }
    }
  }

  lemma {:induction false} SortByPriority(s: seq<Range>)
    ensures PriorityOrder(Sort(s, ByPriority()))
  {
    if s != [] {
      SortByPriority(s[..|s| - 1]);
      InsertByPriority(s[|s| - 1], Sort(s[..|s| - 1], ByPriority()));
    }
  }

  lemma {:induction false} FindIsFirst(s: seq<Range>, weight: real)
    requires PriorityOrder(s) && Find(s, weight).Some?
    ensures forall r :: r in s && Contains(r, weight) ==> !ByPriority()(r, Find(s, weight).value)
  {
    if !Contains(s[0], weight) {
      FindIsFirst(s[1..], weight);
      assert s == [s[0]] + s[1..];
    }
  }

  /** Where several ranges contain the weight, the one with the lowest priority number
      is taken, and among those the one that starts lowest. */
  lemma LookupPrefers(s: seq<Range>, weight: real)
    ensures Lookup(s, weight).Some? <==> exists r :: r in s && r.rate.minWeightKg <= weight <= r.rate.maxWeightKg
    ensures Lookup(s, weight).Some? ==>
      var taken := Lookup(s, weight).value;
      && taken in s && taken.rate.minWeightKg <= weight <= taken.rate.maxWeightKg
      && forall r :: r in s && r.rate.minWeightKg <= weight <= r.rate.maxWeightKg ==>
           taken.priority < r.priority || (taken.priority == r.priority && taken.rate.minWeightKg <= r.rate.minWeightKg)
  {
    hide Find, Sort;
    var t := Sort(s, ByPriority());
    SortPermutes(s, ByPriority());
    SortByPriority(s);
    FindFinds(t, weight);
    assert forall r :: r in s <==> r in multiset(s);
    assert forall r :: r in t <==> r in multiset(t);
    if Find(t, weight).Some? {
      FindIsFirst(t, weight);
      assert Contains(Find(t, weight).value, weight);
      forall r | r in s && r.rate.minWeightKg <= weight <= r.rate.maxWeightKg
        ensures var taken := Find(t, weight).value;
          taken.priority < r.priority || (taken.priority == r.priority && taken.rate.minWeightKg <= r.rate.minWeightKg)
      {
        assert r in t && Contains(r, weight);
      }
    } else {
      forall r | r in s ensures !(r.rate.minWeightKg <= weight <= r.rate.maxWeightKg) {
        assert r in multiset(t);
        assert !Contains(r, weight);
      }
    }
  }

  /** How far the columns move a range. */
  lemma KeptClose(r: Range)
    ensures var k := Kept(r);
      && k.id == r.id && k.priority == r.priority && k.rate.deadlineDays == r.rate.deadlineDays
      && -0.0005 <= k.rate.minWeightKg - r.rate.minWeightKg <= 0.0005 && -0.0005 <= k.rate.maxWeightKg - r.rate.maxWeightKg <= 0.0005
      && -0.005 <= k.rate.basePrice - r.rate.basePrice <= 0.005 && -0.00005 <= k.rate.pricePerKg - r.rate.pricePerKg <= 0.00005
  {
    RoundClose(r.rate.minWeightKg * 1000.0);
    RoundClose(r.rate.maxWeightKg * 1000.0);
    RoundClose(r.rate.basePrice * 100.0);
    RoundClose(r.rate.pricePerKg * 10000.0);
  }
}
