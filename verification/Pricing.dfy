/** The freight pricing engine. Decimals are exact reals; rounding is half away
    from zero to a fixed number of places, as the engine asks for it. */
module Pricing {
  import opened Text

  // ---------- Arithmetic ----------

  /** `left.mul(right)`. */
  function Mul(a: real, b: real): real {
    a * b
  }

  function Abs(x: real): real {
    if x < 0.0 then -x else x
  }

  function Max(a: real, b: real): real {
    if a >= b then a else b
  }

  /** Nearest integer, halves away from zero. */
  function RoundHalfUp(x: real): int {
    if x >= 0.0 then (x + 0.5).Floor else -(-x + 0.5).Floor
  }

  function Money(x: real): real {
    RoundHalfUp(x * 100.0) as real / 100.0
  }

  /** Weights, to the gram. */
  function Grams(x: real): real {
    RoundHalfUp(x * 1000.0) as real / 1000.0
  }

  /** Prices a kilogram. */
  function TenThousandths(x: real): real {
    RoundHalfUp(x * 10000.0) as real / 10000.0
  }

  /** Volumes, to the cubic centimetre, and percentages. */
  function Millionths(x: real): real {
    RoundHalfUp(x * 1000000.0) as real / 1000000.0
  }

  predicate InCents(x: real) {
    Money(x) == x
  }

  lemma RoundClose(x: real)
    ensures -0.5 <= RoundHalfUp(x) as real - x <= 0.5
  {
  }

  lemma RoundInt(n: int)
    ensures RoundHalfUp(n as real) == n
  {
  }

  lemma RoundMonotone(x: real, y: real)
    requires x <= y
    ensures RoundHalfUp(x) <= RoundHalfUp(y)
  {
    if x >= 0.0 {
      assert (x + 0.5).Floor <= (y + 0.5).Floor;
    } else if y < 0.0 {
      assert (-y + 0.5).Floor <= (-x + 0.5).Floor;
    }
  }

  lemma MoneyClose(x: real)
    ensures Abs(Money(x) - x) <= 0.005
  {
    RoundClose(x * 100.0);
  }

  lemma MoneyMonotone(x: real, y: real)
    requires x <= y
    ensures Money(x) <= Money(y)
  {
    RoundMonotone(x * 100.0, y * 100.0);
  }

  lemma MoneyInCents(x: real)
    ensures InCents(Money(x))
  {
    var n := RoundHalfUp(x * 100.0);
    assert Money(x) * 100.0 == n as real;
    RoundInt(n);
  }

  lemma CentsAdd(a: real, b: real)
    requires InCents(a) && InCents(b)
    ensures InCents(a + b) && InCents(a - b)
  {
    var n, m := RoundHalfUp(a * 100.0), RoundHalfUp(b * 100.0);
    assert (a + b) * 100.0 == (n + m) as real && (a - b) * 100.0 == (n - m) as real;
    RoundInt(n + m);
    RoundInt(n - m);
  }

  // ---------- Data ----------

  datatype Package = Package(heightCm: real, lengthCm: real, quantity: real, weightKg: real, widthCm: real)

  datatype ChargeType = FIXED | AD_VALOREM | GRIS | TOLL | INSURANCE | ADDITION | DISCOUNT

  datatype Charge = Charge(fixedAmount: Option<real>, name: string, percentage: Option<real>, kind: ChargeType)

  datatype Rate = Rate(
    basePrice: real, deadlineDays: int, excessPricePerKg: Option<real>,
    maxWeightKg: real, minWeightKg: real, pricePerKg: real)

  datatype Request = Request(
    cargoValue: real, charges: seq<Charge>, cubicFactor: real, desiredShipDate: int, minimumValue: real,
    packages: seq<Package>, rate: Rate)

  datatype ComponentType = BASE | WEIGHT | MINIMUM_ADJUSTMENT | CHARGE(kind: ChargeType) | TOTAL

  datatype Component = Component(kind: ComponentType, title: string, amount: real, sortOrder: nat)

  datatype Metrics = Metrics(cubicWeightKg: real, realWeightKg: real, totalVolumeM3: real)

  datatype Quote = Quote(
    chargeableWeightKg: real, components: seq<Component>, cubicWeightKg: real, deadlineDays: int, estimatedDeliveryAt: int,
    realWeightKg: real, totalPrice: real, totalVolumeM3: real)

  // ---------- What the engine computes ----------

  function Volume(p: Package): real {
    Mul(Mul(Mul(p.lengthCm / 100.0, p.widthCm / 100.0), p.heightCm / 100.0), p.quantity)
  }

  function TotalVolume(packages: seq<Package>): real {
    if packages == [] then 0.0 else TotalVolume(packages[..|packages| - 1]) + Volume(packages[|packages| - 1])
  }

  function TotalWeight(packages: seq<Package>): real {
    if packages == [] then 0.0
    else TotalWeight(packages[..|packages| - 1]) + Mul(packages[|packages| - 1].weightKg, packages[|packages| - 1].quantity)
  }

  function Chargeable(packages: seq<Package>, cubicFactor: real): real {
    Max(Grams(TotalWeight(packages)), Grams(Mul(TotalVolume(packages), cubicFactor)))
  }

  function OrZero(o: Option<real>): real {
    if o.Some? then o.value else 0.0
  }

  predicate OnCargo(kind: ChargeType) {
    kind == AD_VALOREM || kind == INSURANCE
  }

  function ChargeAmount(charge: Charge, cargoValue: real, subtotal: real): real {
    var basis := if OnCargo(charge.kind) then cargoValue else subtotal;
    var amount := Money(OrZero(charge.fixedAmount) + Mul(basis, OrZero(charge.percentage)));
    if charge.kind == DISCOUNT then -amount else amount
  }

  function ChargeTotal(charges: seq<Charge>, cargoValue: real, subtotal: real): real {
    if charges == [] then 0.0
    else ChargeTotal(charges[..|charges| - 1], cargoValue, subtotal) + ChargeAmount(charges[|charges| - 1], cargoValue, subtotal)
  }

  function WeightPrice(rate: Rate, chargeable: real): real {
    Mul(Max(chargeable - rate.minWeightKg, 0.0), rate.pricePerKg)
  }

  function Subtotal(rate: Rate, minimumValue: real, chargeable: real): real {
    Max(Money(rate.basePrice) + Money(WeightPrice(rate, chargeable)), Money(minimumValue))
  }

  function TotalFor(r: Request, chargeable: real): real {
    var subtotal := Subtotal(r.rate, r.minimumValue, chargeable);
    subtotal + ChargeTotal(r.charges, r.cargoValue, subtotal)
  }

  /** The price, with no mention of components. */
  function Total(r: Request): real {
    TotalFor(r, Chargeable(r.packages, r.cubicFactor))
  }

  function Sum(components: seq<Component>): real {
    if components == [] then 0.0 else Sum(components[..|components| - 1]) + components[|components| - 1].amount
  }

  function SortOrder(kind: ChargeType): nat {
    match kind
    case FIXED => 40
    case AD_VALOREM => 50
    case GRIS => 60
    case TOLL => 70
    case INSURANCE => 80
    case ADDITION => 90
    case DISCOUNT => 100
  }

  // ---------- The engine ----------

  method CalculatePackageMetrics(packages: seq<Package>, cubicFactor: real) returns (m: Metrics)
    ensures m == Metrics(Grams(Mul(TotalVolume(packages), cubicFactor)), Grams(TotalWeight(packages)), Millionths(TotalVolume(packages)))
  {
    hide Mul, Grams, Millionths;
    var realWeightKg, totalVolumeM3 := 0.0, 0.0;
    for i := 0 to |packages|
      invariant realWeightKg == TotalWeight(packages[..i]) && totalVolumeM3 == TotalVolume(packages[..i])
    {
      assert packages[..i + 1][..i] == packages[..i];
      var item := packages[i];
      var volumeM3 := Mul(Mul(Mul(item.lengthCm / 100.0, item.widthCm / 100.0), item.heightCm / 100.0), item.quantity);
      totalVolumeM3 := totalVolumeM3 + volumeM3;
      realWeightKg := realWeightKg + Mul(item.weightKg, item.quantity);
    }
    assert packages[..|packages|] == packages;
    m := Metrics(Grams(Mul(totalVolumeM3, cubicFactor)), Grams(realWeightKg), Millionths(totalVolumeM3));
  }

  /** Milliseconds; UTC days are all of one length. */
  const DAY := 86_400_000

  function AddDays(date: int, days: int): int {
    date + DAY * days
  }

  function NewComponent(kind: ComponentType, title: string, amount: real, sortOrder: nat): Component {
    Component(kind, title, Money(amount), sortOrder)
  }

  function SumComponents(components: seq<Component>): real {
    Money(Sum(components))
  }

  predicate AllInCents(components: seq<Component>) {
    forall i :: 0 <= i < |components| ==> InCents(components[i].amount)
  }

  /** The entries the charges add: zero amounts leave none, the rest keep order. */
  function ChargeEntries(charges: seq<Charge>, cargoValue: real, subtotal: real): seq<Component> {
    if charges == [] then []
    else
      var c := charges[|charges| - 1];
      var amount := ChargeAmount(c, cargoValue, subtotal);
      ChargeEntries(charges[..|charges| - 1], cargoValue, subtotal)
      + if amount == 0.0 then [] else [NewComponent(CHARGE(c.kind), c.name, amount, SortOrder(c.kind))]
  }

  /** The entries before the charges. */
  function BaseEntries(rate: Rate, minimumValue: real, chargeable: real): seq<Component> {
    var base := [NewComponent(BASE, "Frete base", Money(rate.basePrice), 10)];
    var weight :=
      if chargeable > rate.minWeightKg
      then [NewComponent(WEIGHT, "Peso cobrado", Money(WeightPrice(rate, chargeable)), 20)] else [];
    var subtotal := SumComponents(base + weight);
    base + weight
    + if subtotal < Money(minimumValue)
      then [NewComponent(MINIMUM_ADJUSTMENT, "Ajuste ao valor minimo", Money(minimumValue) - subtotal, 30)] else []
  }

  /** `calculate` up to the minimum adjustment. */
  method OpenComponents(rate: Rate, minimum: real, chargeable: real) returns (components: seq<Component>, subtotal: real)
    ensures components == BaseEntries(rate, minimum, chargeable) && AllInCents(components)
    ensures subtotal == Subtotal(rate, minimum, chargeable) == Sum(components)
  {
    hide Mul, Money, Sum;
    SumNone();
    var minimumValue := Money(minimum);
    var base := Money(rate.basePrice);
    components := [NewComponent(BASE, "Frete base", base, 10)];
    MoneyInCents(rate.basePrice);
    SumLast([], components[0]);
    assert [] + components == components;
    ghost var opening := components;
    ghost var weight: seq<Component> := [];
    var extraWeight := Max(chargeable - rate.minWeightKg, 0.0);
    if extraWeight > 0.0 {
      var entry := NewComponent(WEIGHT, "Peso cobrado", Money(Mul(extraWeight, rate.pricePerKg)), 20);
      MoneyInCents(Mul(extraWeight, rate.pricePerKg));
      SumLast(components, entry);
      components := components + [entry];
      weight := [entry];
    } else {
      MoneyZero();
      MulZero(rate.pricePerKg);
    }
    assert components == opening + weight;
    assert Sum(components) == base + Money(WeightPrice(rate, chargeable));
    SumInCents(components);
    subtotal := SumComponents(components);
    if subtotal < minimumValue {
      MoneyInCents(minimum);
      CentsAdd(minimumValue, subtotal);
      var entry := NewComponent(MINIMUM_ADJUSTMENT, "Ajuste ao valor minimo", minimumValue - subtotal, 30);
      SumLast(components, entry);
      components := components + [entry];
      subtotal := minimumValue;
    }
  }

  /** The loop of `calculate` over the charges. */
  method AddCharges(opening: seq<Component>, charges: seq<Charge>, cargoValue: real, subtotal: real)
    returns (components: seq<Component>)
    requires AllInCents(opening)
    ensures components == opening + ChargeEntries(charges, cargoValue, subtotal) && AllInCents(components)
    ensures Sum(components) == Sum(opening) + ChargeTotal(charges, cargoValue, subtotal)
  {
    hide Money, ChargeAmount, Sum;
    components := opening;
    for i := 0 to |charges|
      invariant components == opening + ChargeEntries(charges[..i], cargoValue, subtotal)
      invariant AllInCents(components)
      invariant Sum(components) == Sum(opening) + ChargeTotal(charges[..i], cargoValue, subtotal)
    {
      assert charges[..i + 1][..i] == charges[..i];
      var charge := charges[i];
      var amount := ChargeAmount(charge, cargoValue, subtotal);
      if amount == 0.0 {
        continue;
      }
      var entry := NewComponent(CHARGE(charge.kind), charge.name, amount, SortOrder(charge.kind));
      AmountInCents(charge, cargoValue, subtotal);
      SumLast(components, entry);
      components := components + [entry];
    }
    assert charges[..|charges|] == charges;
  }

  method Calculate(r: Request) returns (q: Quote)
    ensures q.totalPrice == Total(r)
    ensures q.components != []
    ensures var n := |q.components| - 1;
            && q.components[n] == Component(TOTAL, "Total", q.totalPrice, 999)
            && Sum(q.components[..n]) == q.totalPrice
            && AllInCents(q.components)
    ensures var chargeable := Chargeable(r.packages, r.cubicFactor);
            && q.chargeableWeightKg == chargeable
            && q.components[..|q.components| - 1]
               == BaseEntries(r.rate, r.minimumValue, chargeable)
                  + ChargeEntries(r.charges, r.cargoValue, Subtotal(r.rate, r.minimumValue, chargeable))
    ensures q.deadlineDays == r.rate.deadlineDays && q.estimatedDeliveryAt - r.desiredShipDate == DAY * r.rate.deadlineDays
    ensures q.realWeightKg == Grams(TotalWeight(r.packages)) && q.cubicWeightKg == Grams(Mul(TotalVolume(r.packages), r.cubicFactor))
    ensures q.totalVolumeM3 == Millionths(TotalVolume(r.packages))
  {
    hide Mul, Money, Grams, Millionths, TotalVolume, TotalWeight, ChargeTotal, ChargeEntries, BaseEntries, Subtotal, Sum;
    var metrics := CalculatePackageMetrics(r.packages, r.cubicFactor);
    var chargeable := if metrics.realWeightKg > metrics.cubicWeightKg then metrics.realWeightKg else metrics.cubicWeightKg;
    var opening, subtotal := OpenComponents(r.rate, r.minimumValue, chargeable);
    var components := AddCharges(opening, r.charges, r.cargoValue, subtotal);
    SumInCents(components);
    var total := SumComponents(components);
    GramsTwice(TotalWeight(r.packages));
    GramsTwice(Mul(TotalVolume(r.packages), r.cubicFactor));
    MillionthsTwice(TotalVolume(r.packages));
    q := Quote(
      Grams(chargeable), components + [NewComponent(TOTAL, "Total", total, 999)], Grams(metrics.cubicWeightKg),
      r.rate.deadlineDays, AddDays(r.desiredShipDate, r.rate.deadlineDays), Grams(metrics.realWeightKg), total, Millionths(metrics.totalVolumeM3));
  }

  lemma SumNone()
    ensures Sum([]) == 0.0
  {
  }

  lemma SumLast(components: seq<Component>, c: Component)
    ensures Sum(components + [c]) == Sum(components) + c.amount
  {
    assert (components + [c])[..|components|] == components;
  }

  lemma MulZero(x: real)
    ensures Mul(0.0, x) == 0.0
  {
  }

  lemma MoneyZero()
    ensures Money(0.0) == 0.0 && InCents(0.0)
  {
  }

  lemma GramsTwice(x: real)
    ensures Grams(Grams(x)) == Grams(x)
  {
    var n := RoundHalfUp(x * 1000.0);
    assert Grams(x) * 1000.0 == n as real;
    RoundInt(n);
  }

  lemma MillionthsTwice(x: real)
    ensures Millionths(Millionths(x)) == Millionths(x)
  {
    var n := RoundHalfUp(x * 1000000.0);
    assert Millionths(x) * 1000000.0 == n as real;
    RoundInt(n);
  }

  lemma AmountInCents(charge: Charge, cargoValue: real, subtotal: real)
    ensures InCents(ChargeAmount(charge, cargoValue, subtotal))
  {
    hide Money, Mul, OrZero;
    var basis := if OnCargo(charge.kind) then cargoValue else subtotal;
    var x := OrZero(charge.fixedAmount) + Mul(basis, OrZero(charge.percentage));
    MoneyInCents(x);
    MoneyZero();
    CentsAdd(0.0, Money(x));
  }

  /** Rounding a sum of whole cents changes nothing. */
  lemma {:induction false} SumInCents(components: seq<Component>)
    requires AllInCents(components)
    ensures InCents(Sum(components))
  {
    hide Money;
    if components == [] {
      MoneyZero();
    } else {
      SumInCents(components[..|components| - 1]);
      CentsAdd(Sum(components[..|components| - 1]), components[|components| - 1].amount);
    }
  }

  // ---------- Order of the charges ----------

  lemma {:induction false} ChargeTotalAppend(a: seq<Charge>, b: seq<Charge>, cargoValue: real, subtotal: real)
    ensures ChargeTotal(a + b, cargoValue, subtotal) == ChargeTotal(a, cargoValue, subtotal) + ChargeTotal(b, cargoValue, subtotal)
  {
    hide ChargeAmount;
    if b == [] {
      assert a + b == a;
    } else {
      ChargeTotalAppend(a, b[..|b| - 1], cargoValue, subtotal);
      assert (a + b)[..|a + b| - 1] == a + b[..|b| - 1];
    }
  }

  lemma ChargeTotalMove(left: seq<Charge>, c: Charge, right: seq<Charge>, cargoValue: real, subtotal: real)
    ensures ChargeTotal(left + [c] + right, cargoValue, subtotal) == ChargeTotal(left + right + [c], cargoValue, subtotal)
  {
    hide ChargeTotal;
    ChargeTotalAppend(left + [c], right, cargoValue, subtotal);
    ChargeTotalAppend(left, [c], cargoValue, subtotal);
    ChargeTotalAppend(left, right, cargoValue, subtotal);
    ChargeTotalAppend(left + right, [c], cargoValue, subtotal);
  }

  /** Where the last element of `a` sits in a permutation of `a`. */
  lemma FindLast(a: seq<Charge>, b: seq<Charge>) returns (left: seq<Charge>, right: seq<Charge>)
    requires a != [] && multiset(a) == multiset(b)
    ensures b == left + [a[|a| - 1]] + right && multiset(a[..|a| - 1]) == multiset(left + right)
  {
    var front, c := a[..|a| - 1], a[|a| - 1];
    assert a == front + [c];
    assert c in multiset(b);
    var k :| 0 <= k < |b| && b[k] == c;
    left, right := b[..k], b[k + 1..];
    assert b == left + [c] + right;
    assert multiset(front) == multiset(a) - multiset{c};
    assert multiset(left + right) == multiset(b) - multiset{c};
  }

  lemma {:induction false} ChargeTotalPermuted(a: seq<Charge>, b: seq<Charge>, cargoValue: real, subtotal: real)
    requires multiset(a) == multiset(b)
    ensures ChargeTotal(a, cargoValue, subtotal) == ChargeTotal(b, cargoValue, subtotal)
    decreases |a|
  {
    hide ChargeTotal;
    if a == [] {
      assert |multiset(b)| == 0;
    } else {
      var front, c := a[..|a| - 1], a[|a| - 1];
      var left, right := FindLast(a, b);
      ChargeTotalPermuted(front, left + right, cargoValue, subtotal);
      ChargeTotalMove(left, c, right, cargoValue, subtotal);
      assert a == front + [c];
      ChargeTotalAppend(front, [c], cargoValue, subtotal);
      ChargeTotalAppend(left + right, [c], cargoValue, subtotal);
    }
  }

  /** The price does not depend on the order of the charges. */
  lemma TotalPermuted(r: Request, charges: seq<Charge>)
    requires multiset(charges) == multiset(r.charges)
    ensures Total(r.(charges := charges)) == Total(r)
  {
    var subtotal := Subtotal(r.rate, r.minimumValue, Chargeable(r.packages, r.cubicFactor));
    ChargeTotalPermuted(charges, r.charges, r.cargoValue, subtotal);
  }

  // ---------- Distance from the unrounded formula ----------

  function ExactAmount(charge: Charge, cargoValue: real, subtotal: real): real {
    var basis := if OnCargo(charge.kind) then cargoValue else subtotal;
    var amount := OrZero(charge.fixedAmount) + Mul(basis, OrZero(charge.percentage));
    if charge.kind == DISCOUNT then -amount else amount
  }

  function ExactCharges(charges: seq<Charge>, cargoValue: real, subtotal: real): real {
    if charges == [] then 0.0
    else ExactCharges(charges[..|charges| - 1], cargoValue, subtotal) + ExactAmount(charges[|charges| - 1], cargoValue, subtotal)
  }

  /** The tariff with no rounding at all, for a chargeable weight. */
  function ExactTotal(r: Request, chargeable: real): real {
    var subtotal := Max(r.rate.basePrice + WeightPrice(r.rate, chargeable), r.minimumValue);
    subtotal + ExactCharges(r.charges, r.cargoValue, subtotal)
  }

  /** Sum of the percentages taken of the subtotal, in absolute value. */
  function SubtotalPercentages(charges: seq<Charge>): real {
    if charges == [] then 0.0
    else
      var c := charges[|charges| - 1];
      SubtotalPercentages(charges[..|charges| - 1]) + if OnCargo(c.kind) then 0.0 else Abs(OrZero(c.percentage))
  }

  lemma MulGap(a: real, b: real, p: real)
    requires Abs(a - b) <= 0.01
    ensures Abs(Mul(a, p) - Mul(b, p)) <= 0.01 * Abs(p)
  {
    MulSign(0.01 - (a - b), Abs(p));
    MulSign(0.01 + (a - b), Abs(p));
  }

  lemma MulSign(a: real, b: real)
    requires a >= 0.0 && b >= 0.0
    ensures a * b == Mul(a, b) >= 0.0
  {
  }

  lemma AmountGap(c: Charge, cargoValue: real, subtotal: real, exact: real)
    requires Abs(subtotal - exact) <= 0.01
    ensures Abs(ChargeAmount(c, cargoValue, subtotal) - ExactAmount(c, cargoValue, exact))
         <= 0.005 + if OnCargo(c.kind) then 0.0 else 0.01 * Abs(OrZero(c.percentage))
  {
    hide Money, Mul;
    var p := OrZero(c.percentage);
    var basis := if OnCargo(c.kind) then cargoValue else subtotal;
    MoneyClose(OrZero(c.fixedAmount) + Mul(basis, p));
    MulGap(subtotal, exact, p);
  }

  lemma {:induction false} ChargesGap(charges: seq<Charge>, cargoValue: real, subtotal: real, exact: real)
    requires Abs(subtotal - exact) <= 0.01
    ensures Abs(ChargeTotal(charges, cargoValue, subtotal) - ExactCharges(charges, cargoValue, exact))
         <= 0.005 * |charges| as real + 0.01 * SubtotalPercentages(charges)
  {
    hide ChargeAmount, ExactAmount;
    if charges != [] {
      var front, c := charges[..|charges| - 1], charges[|charges| - 1];
      ChargesGap(front, cargoValue, subtotal, exact);
      AmountGap(c, cargoValue, subtotal, exact);
    }
  }

  /** The price is within one cent of the exact tariff, plus half a cent per
      charge, plus a cent for each whole of subtotal-based percentage. */
  lemma RoundingBound(r: Request)
    ensures var chargeable := Chargeable(r.packages, r.cubicFactor);
      Abs(Total(r) - ExactTotal(r, chargeable))
      <= 0.01 + 0.005 * |r.charges| as real + 0.01 * SubtotalPercentages(r.charges)
  {
    hide Money, ChargeTotal, ExactCharges, WeightPrice, Chargeable;
    var chargeable := Chargeable(r.packages, r.cubicFactor);
    MoneyClose(r.rate.basePrice);
    MoneyClose(WeightPrice(r.rate, chargeable));
    MoneyClose(r.minimumValue);
    var subtotal := Subtotal(r.rate, r.minimumValue, chargeable);
    var exact := Max(r.rate.basePrice + WeightPrice(r.rate, chargeable), r.minimumValue);
    assert Abs(subtotal - exact) <= 0.01;
    ChargesGap(r.charges, r.cargoValue, subtotal, exact);
  }

  // ---------- Monotonicity ----------

  predicate NonNegative(p: Package) {
    p.heightCm >= 0.0 && p.lengthCm >= 0.0 && p.widthCm >= 0.0 && p.quantity >= 0.0 && p.weightKg >= 0.0
  }

  /** Package by package, nothing in `b` is smaller than in `a`; `b` may have more. */
  predicate NoSmaller(a: seq<Package>, b: seq<Package>) {
    && |a| <= |b|
    && (forall i :: 0 <= i < |a| ==> Grows(a[i], b[i]))
    && (forall i :: |a| <= i < |b| ==> NonNegative(b[i]))
  }

  predicate Grows(p: Package, q: Package) {
    && NonNegative(p)
    && p.heightCm <= q.heightCm && p.lengthCm <= q.lengthCm && p.widthCm <= q.widthCm
    && p.quantity <= q.quantity && p.weightKg <= q.weightKg
  }

  lemma MulMonotone(a: real, b: real, c: real, d: real)
    requires 0.0 <= a <= b && 0.0 <= c <= d
    ensures 0.0 <= Mul(a, c) <= Mul(b, d)
  {
    MulSign(a, c);
    MulSign(b - a, c);
    MulSign(b, d - c);
    assert Mul(b, d) - Mul(a, c) == (b - a) * c + b * (d - c);
  }

  lemma VolumeMonotone(p: Package, q: Package)
    requires Grows(p, q)
    ensures 0.0 <= Volume(p) <= Volume(q)
  {
    hide Mul;
    var a, b := p.lengthCm / 100.0, q.lengthCm / 100.0;
    var c, d := p.widthCm / 100.0, q.widthCm / 100.0;
    var e, f := p.heightCm / 100.0, q.heightCm / 100.0;
    MulMonotone(a, b, c, d);
    MulMonotone(Mul(a, c), Mul(b, d), e, f);
    MulMonotone(Mul(Mul(a, c), e), Mul(Mul(b, d), f), p.quantity, q.quantity);
  }

  lemma {:induction false} MeasuresMonotone(a: seq<Package>, b: seq<Package>)
    requires NoSmaller(a, b)
    ensures 0.0 <= TotalVolume(a) <= TotalVolume(b) && TotalWeight(a) <= TotalWeight(b)
    decreases |b|
  {
    hide Volume, Mul;
    if b != [] {
      var n := |b| - 1;
      if |a| == |b| {
        MeasuresMonotone(a[..n], b[..n]);
        VolumeMonotone(a[n], b[n]);
        MulMonotone(a[n].weightKg, b[n].weightKg, a[n].quantity, b[n].quantity);
      } else {
        MeasuresMonotone(a, b[..n]);
        VolumeMonotone(b[n], b[n]);
        MulMonotone(b[n].weightKg, b[n].weightKg, b[n].quantity, b[n].quantity);
      }
    }
  }

  lemma ChargeableMonotone(a: seq<Package>, b: seq<Package>, cubicFactor: real)
    requires NoSmaller(a, b) && cubicFactor >= 0.0
    ensures Chargeable(a, cubicFactor) <= Chargeable(b, cubicFactor)
  {
    hide Mul, TotalVolume, TotalWeight, RoundHalfUp;
    MeasuresMonotone(a, b);
    MulMonotone(TotalVolume(a), TotalVolume(b), cubicFactor, cubicFactor);
    RoundMonotone(TotalWeight(a) * 1000.0, TotalWeight(b) * 1000.0);
    RoundMonotone(Mul(TotalVolume(a), cubicFactor) * 1000.0, Mul(TotalVolume(b), cubicFactor) * 1000.0);
  }

  /** Surcharges only: no discount and no negative percentage of the subtotal. */
  predicate Surcharges(charges: seq<Charge>) {
    forall i :: 0 <= i < |charges| ==> charges[i].kind != DISCOUNT && OrZero(charges[i].percentage) >= 0.0
  }

  lemma MulLeft(s: real, t: real, p: real)
    requires s <= t && p >= 0.0
    ensures Mul(s, p) <= Mul(t, p)
  {
    MulSign(t - s, p);
  }

  lemma {:induction false} ChargesMonotone(charges: seq<Charge>, cargoValue: real, s: real, t: real)
    requires Surcharges(charges) && s <= t
    ensures ChargeTotal(charges, cargoValue, s) <= ChargeTotal(charges, cargoValue, t)
  {
    hide Money, Mul;
    if charges != [] {
      var c := charges[|charges| - 1];
      var fixed, p := OrZero(c.fixedAmount), OrZero(c.percentage);
      ChargesMonotone(charges[..|charges| - 1], cargoValue, s, t);
      MulLeft(s, t, p);
      MoneyMonotone(fixed + Mul(s, p), fixed + Mul(t, p));
    }
  }

  lemma SubtotalMonotone(rate: Rate, minimumValue: real, w: real, v: real)
    requires rate.pricePerKg >= 0.0 && w <= v
    ensures Subtotal(rate, minimumValue, w) <= Subtotal(rate, minimumValue, v)
  {
    hide Money, Mul;
    var x, y := Max(w - rate.minWeightKg, 0.0), Max(v - rate.minWeightKg, 0.0);
    MulMonotone(x, y, rate.pricePerKg, rate.pricePerKg);
    MoneyMonotone(Mul(x, rate.pricePerKg), Mul(y, rate.pricePerKg));
  }

  /** Rounding a sum of a non-negative amount and whole cents. */
  lemma MoneyShift(x: real, cents: int)
    requires x >= 0.0 && cents >= 0
    ensures Money(x + cents as real / 100.0) == Money(x) + cents as real / 100.0
  {
    assert (x + cents as real / 100.0) * 100.0 == x * 100.0 + cents as real;
    assert (x * 100.0 + 0.5 + cents as real).Floor == (x * 100.0 + 0.5).Floor + cents;
  }

  /** A discount of at most the whole subtotal never outgrows it. */
  lemma DiscountKeepsPace(c: Charge, cargoValue: real, s: real, t: real)
    requires c.kind == DISCOUNT && OrZero(c.fixedAmount) >= 0.0 && 0.0 <= OrZero(c.percentage) <= 1.0
    requires 0.0 <= s <= t && InCents(s) && InCents(t)
    ensures s + ChargeAmount(c, cargoValue, s) <= t + ChargeAmount(c, cargoValue, t)
  {
    hide Money, Mul;
    var f, p := OrZero(c.fixedAmount), OrZero(c.percentage);
    var n := CentsBetween(s, t);
    MulSign(s, p);
    MulSign(t - s, 1.0 - p);
    MulSpread(s, t, p);
    MoneyMonotone(f + Mul(t, p), f + Mul(s, p) + (t - s));
    MoneyShift(f + Mul(s, p), n);
  }

  lemma CentsBetween(s: real, t: real) returns (n: int)
    requires InCents(s) && InCents(t) && s <= t
    ensures n >= 0 && t - s == n as real / 100.0
  {
    n := RoundHalfUp(t * 100.0) - RoundHalfUp(s * 100.0);
    RoundMonotone(s * 100.0, t * 100.0);
  }

  lemma MulSpread(s: real, t: real, p: real)
    ensures Mul(t, p) == Mul(s, p) + (t - s) - Mul(t - s, 1.0 - p)
  {
    assert t * p == s * p + (t - s) * p;
    assert (t - s) * (1.0 - p) == (t - s) - (t - s) * p;
  }

  /** Surcharges and at most one discount, of at most 100 percent. */
  predicate AtMostOneDiscount(charges: seq<Charge>) {
    charges == [] ||
    var front, c := charges[..|charges| - 1], charges[|charges| - 1];
    if c.kind == DISCOUNT then
      Surcharges(front) && OrZero(c.fixedAmount) >= 0.0 && 0.0 <= OrZero(c.percentage) <= 1.0
    else
      AtMostOneDiscount(front) && OrZero(c.percentage) >= 0.0
  }

  lemma {:induction false} ChargesKeepPace(charges: seq<Charge>, cargoValue: real, s: real, t: real)
    requires AtMostOneDiscount(charges) && 0.0 <= s <= t && InCents(s) && InCents(t)
    ensures s + ChargeTotal(charges, cargoValue, s) <= t + ChargeTotal(charges, cargoValue, t)
  {
    hide Money, Mul, InCents;
    if charges != [] {
      var front, c := charges[..|charges| - 1], charges[|charges| - 1];
      if c.kind == DISCOUNT {
        ChargesMonotone(front, cargoValue, s, t);
        DiscountKeepsPace(c, cargoValue, s, t);
      } else {
        var fixed, p := OrZero(c.fixedAmount), OrZero(c.percentage);
        ChargesKeepPace(front, cargoValue, s, t);
        MulLeft(s, t, p);
        MoneyMonotone(fixed + Mul(s, p), fixed + Mul(t, p));
      }
    }
  }

  lemma SubtotalInCents(rate: Rate, minimumValue: real, w: real)
    ensures InCents(Subtotal(rate, minimumValue, w))
    ensures minimumValue >= 0.0 ==> Subtotal(rate, minimumValue, w) >= 0.0
  {
    hide Money;
    MoneyInCents(rate.basePrice);
    MoneyInCents(WeightPrice(rate, w));
    MoneyInCents(minimumValue);
    CentsAdd(Money(rate.basePrice), Money(WeightPrice(rate, w)));
    MoneyZero();
    if minimumValue >= 0.0 {
      MoneyMonotone(0.0, minimumValue);
    }
  }

  /** What a request and a larger consignment have in common. */
  predicate Comparable(r: Request, packages: seq<Package>) {
    NoSmaller(r.packages, packages) && r.cubicFactor >= 0.0 && r.rate.pricePerKg >= 0.0
  }

  /** Heavier, larger or more packages never cost less, whatever surcharges apply
      and with one discount of at most 100 percent. */
  lemma TotalMonotone(r: Request, packages: seq<Package>)
    requires Comparable(r, packages)
    requires Surcharges(r.charges) || (AtMostOneDiscount(r.charges) && r.minimumValue >= 0.0)
    ensures Total(r) <= Total(r.(packages := packages))
  {
    hide Chargeable, Subtotal, ChargeTotal, InCents;
    ChargeableMonotone(r.packages, packages, r.cubicFactor);
    var w, v := Chargeable(r.packages, r.cubicFactor), Chargeable(packages, r.cubicFactor);
    SubtotalMonotone(r.rate, r.minimumValue, w, v);
    SubtotalInCents(r.rate, r.minimumValue, w);
    SubtotalInCents(r.rate, r.minimumValue, v);
    var s, t := Subtotal(r.rate, r.minimumValue, w), Subtotal(r.rate, r.minimumValue, v);
    if Surcharges(r.charges) {
      ChargesMonotone(r.charges, r.cargoValue, s, t);
    } else {
      ChargesKeepPace(r.charges, r.cargoValue, s, t);
    }
  }

  lemma {:induction false} ChargesNonNegative(charges: seq<Charge>, cargoValue: real, subtotal: real)
    requires Surcharges(charges) && cargoValue >= 0.0 && subtotal >= 0.0
    requires forall i :: 0 <= i < |charges| ==> OrZero(charges[i].fixedAmount) >= 0.0
    ensures ChargeTotal(charges, cargoValue, subtotal) >= 0.0
  {
    hide Money, Mul;
    if charges != [] {
      var c := charges[|charges| - 1];
      var basis, p := if OnCargo(c.kind) then cargoValue else subtotal, OrZero(c.percentage);
      ChargesNonNegative(charges[..|charges| - 1], cargoValue, subtotal);
      MulMonotone(0.0, basis, 0.0, p);
      MulZero(0.0);
      MoneyZero();
      MoneyMonotone(0.0, OrZero(c.fixedAmount) + Mul(basis, p));
    }
  }

  /** The price never falls below the service minimum, rounded to the cent. */
  lemma TotalAtLeastMinimum(r: Request)
    requires r.minimumValue >= 0.0 && r.cargoValue >= 0.0 && Surcharges(r.charges)
    requires forall i :: 0 <= i < |r.charges| ==> OrZero(r.charges[i].fixedAmount) >= 0.0
    ensures Total(r) >= Money(r.minimumValue)
  {
    hide Money, ChargeTotal, Chargeable;
    MoneyZero();
    MoneyMonotone(0.0, r.minimumValue);
    ChargesNonNegative(r.charges, r.cargoValue, Subtotal(r.rate, r.minimumValue, Chargeable(r.packages, r.cubicFactor)));
  }

  lemma MulOne(x: real)
    ensures Mul(x, 1.0) == x && Mul(1.0, x) == x
  {
  }

  lemma MulSum(a: real, b: real, c: real)
    ensures Mul(a + b, c) == Mul(a, c) + Mul(b, c)
    ensures Mul(a, b + c) == Mul(a, b) + Mul(a, c)
  {
  }
}
