/** When a larger consignment can cost less: the exact condition on the charges of
    a rate table, over the requests that the service receives and prices. */
module Discounts {
  import opened Text
  import opened Pricing

  // ---------- Requests the service receives ----------

  predicate ReceivablePackage(p: Package) {
    p.heightCm >= 1.0 && p.lengthCm >= 1.0 && p.widthCm >= 1.0 && 1.0 <= p.quantity <= 999.0 && p.weightKg >= 0.001
  }

  predicate ReceivableRate(rate: Rate) {
    && 0.0 <= rate.minWeightKg < rate.maxWeightKg && rate.basePrice >= 0.0 && rate.pricePerKg >= 0.0 && rate.deadlineDays >= 1
    && Grams(rate.minWeightKg) == rate.minWeightKg && Grams(rate.maxWeightKg) == rate.maxWeightKg
    && InCents(rate.basePrice) && TenThousandths(rate.pricePerKg) == rate.pricePerKg
  }

  predicate ReceivableCharges(charges: seq<Charge>) {
    forall i :: 0 <= i < |charges| ==>
      && OrZero(charges[i].fixedAmount) >= 0.0 && InCents(OrZero(charges[i].fixedAmount))
      && OrZero(charges[i].percentage) >= 0.0 && Millionths(OrZero(charges[i].percentage)) == OrZero(charges[i].percentage)
  }

  /** The bounds on the request's fields and the columns of what is stored, and the
      consignment's weight is in the range it is priced with. */
  predicate Receivable(r: Request) {
    && r.packages != [] && (forall i :: 0 <= i < |r.packages| ==> ReceivablePackage(r.packages[i]))
    && r.cargoValue >= 0.0 && ReceivableCharges(r.charges) && ReceivableRate(r.rate)
    && r.cubicFactor >= 1.0 && Grams(r.cubicFactor) == r.cubicFactor
    && r.minimumValue >= 0.0 && InCents(r.minimumValue)
    && r.rate.minWeightKg <= Chargeable(r.packages, r.cubicFactor) <= r.rate.maxWeightKg
  }

  /** Both consignments are priced with the same range, and the second is larger. */
  predicate Larger(r: Request, packages: seq<Package>) {
    Receivable(r) && Receivable(r.(packages := packages)) && NoSmaller(r.packages, packages)
  }

  /** A larger consignment never costs less. */
  ghost predicate Monotone(charges: seq<Charge>) {
    forall r: Request, packages :: r.charges == charges && Larger(r, packages) ==> Total(r) <= Total(r.(packages := packages))
  }

  // ---------- Rounding steps ----------

  function Cent(n: int): real {
    n as real / 100.0
  }

  /** What a charge on the subtotal takes, in cents, when the subtotal is n cents. */
  function CentsTaken(c: Charge, n: int): int {
    RoundHalfUp((OrZero(c.fixedAmount) + Mul(Cent(n), OrZero(c.percentage))) * 100.0)
  }

  /** By how many cents the charge grows when the subtotal grows from n cents to n + 1. */
  function Step(c: Charge, n: int): int {
    if OnCargo(c.kind) then 0 else CentsTaken(c, n + 1) - CentsTaken(c, n)
  }

  function Steps(charges: seq<Charge>, n: int, discounts: bool): int {
    if charges == [] then 0
    else
      var c := charges[|charges| - 1];
      Steps(charges[..|charges| - 1], n, discounts) + if (c.kind == DISCOUNT) == discounts then Step(c, n) else 0
  }

  /** On no added cent do the discounts grow by more than one cent beyond the surcharges. */
  predicate KeepsPace(charges: seq<Charge>, n: int) {
    Steps(charges, n, true) <= 1 + Steps(charges, n, false)
  }

  ghost predicate Paced(charges: seq<Charge>) {
    forall n: nat :: KeepsPace(charges, n)
  }

  lemma AmountStep(c: Charge, cargoValue: real, n: int)
    ensures ChargeAmount(c, cargoValue, Cent(n + 1)) - ChargeAmount(c, cargoValue, Cent(n))
         == if c.kind == DISCOUNT then -Cent(Step(c, n)) else Cent(Step(c, n))
  {
    hide Mul, RoundHalfUp;
  }

  lemma {:induction false} TotalStep(charges: seq<Charge>, cargoValue: real, n: int)
    ensures ChargeTotal(charges, cargoValue, Cent(n + 1))
         == ChargeTotal(charges, cargoValue, Cent(n)) + Cent(Steps(charges, n, false)) - Cent(Steps(charges, n, true))
  {
    hide ChargeAmount, Step;
    if charges != [] {
      TotalStep(charges[..|charges| - 1], cargoValue, n);
      AmountStep(charges[|charges| - 1], cargoValue, n);
    }
  }

  function Priced(charges: seq<Charge>, cargoValue: real, n: int): real {
    Cent(n) + ChargeTotal(charges, cargoValue, Cent(n))
  }

  lemma PaceIsOneCent(charges: seq<Charge>, cargoValue: real, n: int)
    ensures KeepsPace(charges, n) <==> Priced(charges, cargoValue, n) <= Priced(charges, cargoValue, n + 1)
  {
    hide ChargeTotal, Steps;
    TotalStep(charges, cargoValue, n);
  }

  /** Cent by cent. */
  lemma {:induction false} Climb(charges: seq<Charge>, cargoValue: real, m: nat, n: nat)
    requires Paced(charges) && m <= n
    ensures Priced(charges, cargoValue, m) <= Priced(charges, cargoValue, n)
    decreases n - m
  {
    hide Priced, KeepsPace;
    if m < n {
      Climb(charges, cargoValue, m, n - 1);
      assert KeepsPace(charges, n - 1);
      PaceIsOneCent(charges, cargoValue, n - 1);
    }
  }

  lemma WholeCents(x: real) returns (n: nat)
    requires InCents(x) && x >= 0.0
    ensures x == Cent(n)
  {
    n := RoundHalfUp(x * 100.0);
  }

  /** Paced charges never make a larger consignment cheaper, whether or not the
      service would receive it. */
  lemma PacedMonotone(r: Request, packages: seq<Package>)
    requires Comparable(r, packages) && r.minimumValue >= 0.0 && Paced(r.charges)
    ensures Total(r) <= Total(r.(packages := packages))
  {
    hide Chargeable, Subtotal, ChargeTotal, InCents, Paced, Cent;
    ChargeableMonotone(r.packages, packages, r.cubicFactor);
    var w, v := Chargeable(r.packages, r.cubicFactor), Chargeable(packages, r.cubicFactor);
    SubtotalMonotone(r.rate, r.minimumValue, w, v);
    SubtotalInCents(r.rate, r.minimumValue, w);
    SubtotalInCents(r.rate, r.minimumValue, v);
    var m := WholeCents(Subtotal(r.rate, r.minimumValue, w));
    var n := WholeCents(Subtotal(r.rate, r.minimumValue, v));
    CentOrder(m, n);
    Climb(r.charges, r.cargoValue, m, n);
  }

  lemma CentOrder(m: int, n: int)
    ensures Cent(m) <= Cent(n) <==> m <= n
  {
  }

  // ---------- A consignment for every cent ----------

  /** One box of a cubic centimetre: its volume weighs nothing. */
  function Box(w: real): seq<Package> {
    [Package(1.0, 1.0, 1.0, w, 1.0)]
  }

  lemma OneBox(w: real)
    requires w == 1.0 || w == 2.0
    ensures Chargeable(Box(w), 1.0) == w && TotalWeight(Box(w)) == w
  {
    var p := Box(w);
    assert p[..0] == [];
    assert TotalWeight([]) == 0.0 && TotalVolume([]) == 0.0;
    BoxVolume(p[0]);
    MulOne(w);
    MulOne(0.000001);
    hide Mul, Volume;
    assert TotalWeight(p) == w && TotalVolume(p) == 0.000001;
    assert Grams(0.000001) == 0.0;
    assert Grams(w) == w;
  }

  lemma BoxVolume(p: Package)
    requires p.heightCm == 1.0 && p.lengthCm == 1.0 && p.widthCm == 1.0 && p.quantity == 1.0
    ensures Volume(p) == 0.000001
  {
    assert 1.0 / 100.0 == 0.01;
    assert Mul(0.01, 0.01) == 0.0001;
    assert Mul(0.0001, 0.01) == 0.000001;
    assert Mul(0.000001, 1.0) == 0.000001;
  }

  /** One kilogram at n cents, and a cent more for the second kilogram. */
  function Sample(charges: seq<Charge>, n: nat): Request {
    Request(0.0, charges, 1.0, 0, 0.0, Box(1.0), Rate(Cent(n), 1, None, 9.0, 1.0, 0.01))
  }

  lemma CentIsMoney(n: int)
    ensures InCents(Cent(n))
  {
    RoundInt(n);
    assert Cent(n) * 100.0 == n as real;
  }

  lemma SamplePrices(charges: seq<Charge>, n: nat)
    ensures Total(Sample(charges, n)) == Priced(charges, 0.0, n)
    ensures Total(Sample(charges, n).(packages := Box(2.0))) == Priced(charges, 0.0, n + 1)
  {
    hide Money, Chargeable, ChargeTotal, Mul;
    OneBox(1.0);
    OneBox(2.0);
    MulZero(0.01);
    MulOne(0.01);
    MoneyZero();
    CentIsMoney(n);
    CentIsMoney(1);
    assert Cent(1) == 0.01 && Cent(n) + Cent(1) == Cent(n + 1) && Cent(n) >= 0.0;
    var rate := Sample(charges, n).rate;
    assert Subtotal(rate, 0.0, 1.0) == Cent(n);
    assert Subtotal(rate, 0.0, 2.0) == Cent(n + 1);
  }

  lemma SampleReceived(charges: seq<Charge>, n: nat)
    requires ReceivableCharges(charges)
    ensures Larger(Sample(charges, n), Box(2.0))
  {
    hide Chargeable, ReceivableCharges;
    OneBox(1.0);
    OneBox(2.0);
    CentIsMoney(n);
    MoneyZero();
    assert Grams(1.0) == 1.0 && Grams(9.0) == 9.0 && TenThousandths(0.01) == 0.01;
  }

  // ---------- The exact condition ----------

  /** For every list of charges: a larger consignment never costs less, over all the
      requests the service receives, exactly when on no added cent the discounts
      round up by more than one cent beyond the surcharges. */
  lemma DiscountsExact(charges: seq<Charge>)
    requires ReceivableCharges(charges)
    ensures Monotone(charges) <==> Paced(charges)
  {
    hide Total, KeepsPace, Larger, ReceivableCharges, Priced;
    if Paced(charges) {
      forall r: Request, packages | r.charges == charges && Larger(r, packages) ensures Total(r) <= Total(r.(packages := packages)) {
        LargerIsComparable(r, packages);
        PacedMonotone(r, packages);
      }
    }
    if Monotone(charges) {
      forall n: nat ensures KeepsPace(charges, n) {
        SampleReceived(charges, n);
        SamplePrices(charges, n);
        assert Sample(charges, n).charges == charges;
        PaceIsOneCent(charges, 0.0, n);
      }
    }
  }

  lemma LargerIsComparable(r: Request, packages: seq<Package>)
    requires Larger(r, packages)
    ensures Comparable(r, packages) && r.minimumValue >= 0.0
  {
  }

  /** A cent on which the pace is lost is a price that a heavier box undercuts. */
  lemma LostPace(charges: seq<Charge>, n: nat)
    requires ReceivableCharges(charges) && !KeepsPace(charges, n)
    ensures Larger(Sample(charges, n), Box(2.0)) && Total(Sample(charges, n)) > Total(Sample(charges, n).(packages := Box(2.0)))
  {
    hide Total, KeepsPace, Larger, ReceivableCharges, Priced;
    SampleReceived(charges, n);
    SamplePrices(charges, n);
    PaceIsOneCent(charges, 0.0, n);
  }

  // ---------- A finite check ----------

  const PERIOD := 1_000_000

  /** Percentages have six places, so after a million cents they start over. */
  lemma TakenLater(c: Charge, n: nat)
    requires OrZero(c.fixedAmount) >= 0.0 && OrZero(c.percentage) >= 0.0 && Millionths(OrZero(c.percentage)) == OrZero(c.percentage)
    ensures CentsTaken(c, n + PERIOD) == CentsTaken(c, n) + RoundHalfUp(OrZero(c.percentage) * 1000000.0)
  {
    hide Mul;
    var f, p := OrZero(c.fixedAmount), OrZero(c.percentage);
    var k := RoundHalfUp(p * 1000000.0);
    assert p * 1000000.0 == k as real;
    MulSum(Cent(n), Cent(PERIOD), p);
    assert Cent(n + PERIOD) == Cent(n) + Cent(PERIOD);
    assert Mul(Cent(PERIOD), p) * 100.0 == k as real by { PeriodTimes(p); }
    MulSign(Cent(n), p);
    var x := (f + Mul(Cent(n), p)) * 100.0;
    assert (f + Mul(Cent(n + PERIOD), p)) * 100.0 == x + k as real;
    assert x >= 0.0;
    assert (x + 0.5 + k as real).Floor == (x + 0.5).Floor + k;
  }

  lemma PeriodTimes(p: real)
    ensures Mul(Cent(PERIOD), p) == p * 10000.0
  {
  }

  lemma {:induction false} StepsLater(charges: seq<Charge>, n: nat, discounts: bool)
    requires ReceivableCharges(charges)
    ensures Steps(charges, n + PERIOD, discounts) == Steps(charges, n, discounts)
  {
    hide CentsTaken, Millionths, InCents;
    if charges != [] {
      var c := charges[|charges| - 1];
      StepsLater(charges[..|charges| - 1], n, discounts);
      TakenLater(c, n);
      TakenLater(c, n + 1);
      assert n + PERIOD + 1 == n + 1 + PERIOD;
    }
  }

  lemma {:induction false} PaceRepeats(charges: seq<Charge>, n: nat)
    requires ReceivableCharges(charges) && forall m: nat :: m < PERIOD ==> KeepsPace(charges, m)
    ensures KeepsPace(charges, n)
  {
    hide Steps, ReceivableCharges;
    if n >= PERIOD {
      PaceRepeats(charges, n - PERIOD);
      StepsLater(charges, n - PERIOD, true);
      StepsLater(charges, n - PERIOD, false);
    }
  }

  /** The condition can be checked: a million cents decide for all prices. */
  lemma DiscountsCheckable(charges: seq<Charge>)
    requires ReceivableCharges(charges)
    ensures Monotone(charges) <==> forall n: nat :: n < PERIOD ==> KeepsPace(charges, n)
  {
    hide KeepsPace, ReceivableCharges, Monotone;
    DiscountsExact(charges);
    if forall n: nat :: n < PERIOD ==> KeepsPace(charges, n) {
      forall n: nat ensures KeepsPace(charges, n) {
        PaceRepeats(charges, n);
      }
    }
  }

  // ---------- One discount ----------

  lemma OneCharge(c: Charge, n: int, discounts: bool)
    ensures Steps([c], n, discounts) == if (c.kind == DISCOUNT) == discounts then Step(c, n) else 0
  {
    assert [c][..0] == [];
    assert Steps([], n, discounts) == 0;
  }

  /** In cents a charge moves with its percentage, to within one rounding. */
  lemma TakenClose(c: Charge, n: int)
    ensures var x := OrZero(c.fixedAmount) * 100.0 + Mul(n as real, OrZero(c.percentage));
      CentsTaken(c, n) == RoundHalfUp(x) && -0.5 <= CentsTaken(c, n) as real - x <= 0.5
  {
    var f, p := OrZero(c.fixedAmount), OrZero(c.percentage);
    assert (f + Cent(n) * p) * 100.0 == f * 100.0 + n as real * p;
    RoundClose(f * 100.0 + Mul(n as real, p));
  }

  /** Up to 100 percent a discount grows by at most a cent a cent. */
  lemma ModestStep(c: Charge, n: nat)
    requires c.kind == DISCOUNT && OrZero(c.fixedAmount) >= 0.0 && 0.0 <= OrZero(c.percentage) <= 1.0
    ensures Step(c, n) <= 1
  {
    hide Mul;
    var f, p := OrZero(c.fixedAmount), OrZero(c.percentage);
    TakenClose(c, n);
    TakenClose(c, n + 1);
    MulSum(n as real, 1.0, p);
    MulOne(p);
    MulSign(n as real, p);
    var x := f * 100.0 + Mul(n as real, p);
    RoundMonotone(x + p, x + 1.0);
    assert (x + 1.0 + 0.5).Floor == (x + 0.5).Floor + 1;
  }

  lemma {:induction false} SlowGrowth(c: Charge, n: nat)
    requires c.kind == DISCOUNT && forall m: nat :: m < n ==> Step(c, m) <= 1
    ensures CentsTaken(c, n) <= CentsTaken(c, 0) + n
  {
    hide CentsTaken;
    if n > 0 {
      SlowGrowth(c, n - 1);
      assert Step(c, n - 1) <= 1;
    }
  }

  lemma MulInverse(q: real)
    requires q > 0.0
    ensures 1.0 / q > 0.0 && Mul(1.0 / q, q) == 1.0
  {
  }

  /** Above 100 percent it must at some point grow by two cents on one. */
  lemma SteepStep(c: Charge) returns (n: nat)
    requires c.kind == DISCOUNT && OrZero(c.percentage) > 1.0
    ensures Step(c, n) >= 2
  {
    hide Mul, CentsTaken;
    var p := OrZero(c.percentage);
    var q := p - 1.0;
    MulInverse(q);
    var m := (1.0 / q).Floor + 1;
    var x := m as real;
    assert x > 1.0 / q;
    MulStrict(1.0 / q, x, q);
    MulSum(x, 1.0, q);
    assert 1.0 + q == p;
    MulOne(x);
    assert Mul(x, p) > x + 1.0;
    TakenClose(c, m);
    TakenClose(c, 0);
    MulZero(p);
    if forall k: nat :: k < m ==> Step(c, k) <= 1 {
      SlowGrowth(c, m);
      assert false;
    }
    n :| n < m && Step(c, n) > 1;
  }

  lemma MulStrict(a: real, b: real, q: real)
    requires a < b && q > 0.0
    ensures Mul(a, q) < Mul(b, q)
  {
    assert (b - a) * q > 0.0;
    MulSum(a, b - a, q);
    assert a + (b - a) == b;
  }

  /** A single discount is safe exactly up to 100 percent. */
  lemma SingleDiscountExact(c: Charge)
    requires c.kind == DISCOUNT && ReceivableCharges([c])
    ensures Monotone([c]) <==> OrZero(c.percentage) <= 1.0
  {
    hide Step, Monotone, ReceivableCharges;
    DiscountsExact([c]);
    assert OrZero(c.fixedAmount) >= 0.0 && OrZero(c.percentage) >= 0.0 by { FirstReceivable([c]); }
    if OrZero(c.percentage) <= 1.0 {
      forall n: nat ensures KeepsPace([c], n) {
        ModestStep(c, n);
        OneCharge(c, n, true);
        OneCharge(c, n, false);
      }
    } else {
      var n := SteepStep(c);
      OneCharge(c, n, true);
      OneCharge(c, n, false);
      assert !KeepsPace([c], n);
    }
  }

  lemma FirstReceivable(charges: seq<Charge>)
    requires charges != [] && ReceivableCharges(charges)
    ensures OrZero(charges[0].fixedAmount) >= 0.0 && OrZero(charges[0].percentage) >= 0.0
  {
  }

  // ---------- Two charges ----------

  lemma TwoCharges(a: Charge, b: Charge, n: int, discounts: bool)
    ensures Steps([a, b], n, discounts)
         == (if (a.kind == DISCOUNT) == discounts then Step(a, n) else 0) + (if (b.kind == DISCOUNT) == discounts then Step(b, n) else 0)
  {
    hide Step;
    assert [a, b][..1] == [a];
    OneCharge(a, n, discounts);
  }

  /** A charge of a whole number of tenths and no fixed amount. */
  function Tenths(kind: ChargeType, k: nat): Charge {
    Charge(None, "", Some(k as real / 10.0), kind)
  }

  lemma TenthsTaken(kind: ChargeType, k: nat, n: nat)
    ensures CentsTaken(Tenths(kind, k), n) == (k * n + 5) / 10
  {
    TakenClose(Tenths(kind, k), n);
    var x := Mul(n as real, k as real / 10.0);
    assert x == (k * n) as real / 10.0 by { TenthsProduct(k, n); }
    var q, r := (k * n + 5) / 10, (k * n + 5) % 10;
    assert k * n + 5 == 10 * q + r;
    assert x + 0.5 == q as real + r as real / 10.0;
    assert (x + 0.5).Floor == q;
    assert 0.0 * 100.0 + x == x >= 0.0;
  }

  lemma TenthsProduct(k: nat, n: nat)
    ensures n as real * (k as real / 10.0) == (k * n) as real / 10.0
  {
    assert n as real * k as real == (k * n) as real;
  }

  lemma TenthsReceivable(a: Charge, b: Charge, k: nat, m: nat)
    requires a == Tenths(a.kind, k) && b == Tenths(b.kind, m)
    ensures ReceivableCharges([a, b])
  {
    MoneyZero();
    RoundInt(100_000 * k);
    RoundInt(100_000 * m);
    assert k as real / 10.0 * 1000000.0 == (100_000 * k) as real;
    assert m as real / 10.0 * 1000000.0 == (100_000 * m) as real;
  }

  /** Two discounts of 10 percent are not safe: both round up on the fifth cent. */
  lemma TwoTenPercentUnsafe()
    ensures var c := Tenths(DISCOUNT, 1);
      && !Monotone([c, c])
      && Larger(Sample([c, c], 4), Box(2.0)) && Total(Sample([c, c], 4)) > Total(Sample([c, c], 4).(packages := Box(2.0)))
  {
    hide CentsTaken, Total, Larger, ReceivableCharges;
    var c := Tenths(DISCOUNT, 1);
    TenthsReceivable(c, c, 1, 1);
    TenthsTaken(DISCOUNT, 1, 4);
    TenthsTaken(DISCOUNT, 1, 5);
    TwoCharges(c, c, 4, true);
    TwoCharges(c, c, 4, false);
    LostPace([c, c], 4);
    assert Sample([c, c], 4).charges == [c, c];
  }

  lemma TenthsFloor(k: nat, q: nat, r: nat)
    ensures (k * (10 * q + r) + 5) / 10 == k * q + (k * r + 5) / 10
  {
    var d := k * r + 5;
    assert k * (10 * q + r) + 5 == 10 * (k * q) + d;
    assert (10 * (k * q) + d) / 10 == k * q + d / 10 by { WholeTens(k * q, d); }
  }

  lemma WholeTens(a: nat, d: nat)
    ensures (10 * a + d) / 10 == a + d / 10
  {
  }

  lemma NeverTogether(n: nat)
    ensures (3 * (n + 1) + 5) / 10 - (3 * n + 5) / 10 + (2 * (n + 1) + 5) / 10 - (2 * n + 5) / 10 <= 1
  {
    var q, r := n / 10, n % 10;
    TenthsFloor(3, q, r);
    TenthsFloor(3, q, r + 1);
    TenthsFloor(2, q, r);
    TenthsFloor(2, q, r + 1);
    assert n == 10 * q + r;
    assert (3 * (r + 1) + 5) / 10 - (3 * r + 5) / 10 + (2 * (r + 1) + 5) / 10 - (2 * r + 5) / 10 <= 1;
  }

  lemma HalfInStep(n: nat)
    ensures (15 * (n + 1) + 5) / 10 - (15 * n + 5) / 10 == 1 + (5 * (n + 1) + 5) / 10 - (5 * n + 5) / 10
  {
    assert 15 * n + 5 == 10 * n + (5 * n + 5);
    WholeTens(n, 5 * n + 5);
    WholeTens(n + 1, 5 * (n + 1) + 5);
  }

  /** Discounts of 30 and 20 percent are safe: they never round up on the same cent. */
  lemma ThirtyAndTwentySafe()
    ensures Monotone([Tenths(DISCOUNT, 3), Tenths(DISCOUNT, 2)])
  {
    hide CentsTaken, Monotone, ReceivableCharges;
    var a, b := Tenths(DISCOUNT, 3), Tenths(DISCOUNT, 2);
    TenthsReceivable(a, b, 3, 2);
    forall n: nat ensures KeepsPace([a, b], n) {
      TenthsTaken(DISCOUNT, 3, n);
      TenthsTaken(DISCOUNT, 3, n + 1);
      TenthsTaken(DISCOUNT, 2, n);
      TenthsTaken(DISCOUNT, 2, n + 1);
      NeverTogether(n);
      TwoCharges(a, b, n, true);
      TwoCharges(a, b, n, false);
    }
    DiscountsExact([a, b]);
  }

  /** A discount above 100 percent can be safe beside a surcharge: 150 percent off
      and half the subtotal added. */
  lemma LargeDiscountBesideSurchargeSafe()
    ensures Monotone([Tenths(DISCOUNT, 15), Tenths(ADDITION, 5)])
  {
    hide CentsTaken, Monotone, ReceivableCharges;
    var a, b := Tenths(DISCOUNT, 15), Tenths(ADDITION, 5);
    TenthsReceivable(a, b, 15, 5);
    forall n: nat ensures KeepsPace([a, b], n) {
      TenthsTaken(DISCOUNT, 15, n);
      TenthsTaken(DISCOUNT, 15, n + 1);
      TenthsTaken(ADDITION, 5, n);
      TenthsTaken(ADDITION, 5, n + 1);
      HalfInStep(n);
      TwoCharges(a, b, n, true);
      TwoCharges(a, b, n, false);
    }
    DiscountsExact([a, b]);
  }
}
