/** What the measures, rounding and charges of the pricing engine mean, apart from
    how it adds them up. */
module Quotes {
  import opened Text
  import opened Pricing

  // ---------- Rounding ----------

  /** Halves go away from zero, on both sides of it. */
  lemma HalvesAwayFromZero(n: int, x: real)
    requires n >= 0
    ensures RoundHalfUp(n as real + 0.5) == n + 1 && RoundHalfUp(-(n as real) - 0.5) == -n - 1
    ensures RoundHalfUp(-x) == -RoundHalfUp(x)
    ensures -0.5 <= RoundHalfUp(x) as real - x <= 0.5
  {
    RoundClose(x);
    assert (n as real + 1.0).Floor == n + 1;
  }

  /** How far each rounding moves a number. */
  lemma PlacesKept(x: real)
    ensures Abs(Money(x) - x) <= 0.005 && Abs(Grams(x) - x) <= 0.0005
    ensures Abs(TenThousandths(x) - x) <= 0.00005 && Abs(Millionths(x) - x) <= 0.0000005
  {
    RoundClose(x * 100.0);
    RoundClose(x * 1000.0);
    RoundClose(x * 10000.0);
    RoundClose(x * 1000000.0);
  }

  // ---------- Measures ----------

  /** In cubic centimetres, a package's volume is the product of its dimensions and
      its quantity. */
  lemma VolumeInCubicCm(p: Package)
    ensures Volume(p) * 1000000.0 == p.lengthCm * p.widthCm * p.heightCm * p.quantity
  {
    var l, w, h, q := p.lengthCm, p.widthCm, p.heightCm, p.quantity;
    assert Mul(l / 100.0, w / 100.0) * 10000.0 == l * w by { Hundredths(l, w); }
    var area := Mul(l / 100.0, w / 100.0);
    assert Mul(area, h / 100.0) * 1000000.0 == l * w * h by { Product(area, l * w, h); }
    var one := Mul(area, h / 100.0);
    assert one * q * 1000000.0 == (one * 1000000.0) * q;
  }

  lemma Hundredths(a: real, b: real)
    ensures a / 100.0 * (b / 100.0) * 10000.0 == a * b
  {
  }

  lemma Product(area: real, ab: real, c: real)
    requires area * 10000.0 == ab
    ensures area * (c / 100.0) * 1000000.0 == ab * c
  {
    assert area * (c / 100.0) * 1000000.0 == area * 10000.0 * c;
  }

  function OfQuantity(p: Package, q: real): Package {
    p.(quantity := q)
  }

  /** A package of quantity m + n measures what two packages of m and n measure. */
  lemma QuantitySplits(p: Package, m: real, n: real)
    ensures TotalVolume([OfQuantity(p, m + n)]) == TotalVolume([OfQuantity(p, m), OfQuantity(p, n)])
    ensures TotalWeight([OfQuantity(p, m + n)]) == TotalWeight([OfQuantity(p, m), OfQuantity(p, n)])
  {
    hide Volume, Mul;
    var a, b, c := OfQuantity(p, m), OfQuantity(p, n), OfQuantity(p, m + n);
    VolumeSplits(p, m, n);
    MulSum(m, n, p.weightKg);
    MulSum(0.0, p.weightKg, m);
    WeightSplits(p.weightKg, m, n);
    assert [a, b][..1] == [a] && [a][..0] == [] && [c][..0] == [];
    assert TotalVolume([]) == 0.0 && TotalWeight([]) == 0.0;
    assert TotalVolume([a]) == Volume(a) && TotalWeight([a]) == Mul(a.weightKg, a.quantity);
  }

  lemma WeightSplits(w: real, m: real, n: real)
    ensures Mul(w, m + n) == Mul(w, m) + Mul(w, n)
  {
    MulSum(w, m, n);
  }

  lemma VolumeSplits(p: Package, m: real, n: real)
    ensures Volume(OfQuantity(p, m + n)) == Volume(OfQuantity(p, m)) + Volume(OfQuantity(p, n))
  {
    hide Mul;
    MulSum(Mul(Mul(p.lengthCm / 100.0, p.widthCm / 100.0), p.heightCm / 100.0), m, n);
  }

  /** Each dimension scales the volume. */
  lemma VolumeScales(p: Package, k: real)
    ensures Volume(p.(lengthCm := k * p.lengthCm)) == k * Volume(p)
    ensures Volume(p.(widthCm := k * p.widthCm)) == k * Volume(p)
    ensures Volume(p.(heightCm := k * p.heightCm)) == k * Volume(p)
  {
    hide Volume;
    VolumeInCubicCm(p);
    VolumeInCubicCm(p.(lengthCm := k * p.lengthCm));
    VolumeInCubicCm(p.(widthCm := k * p.widthCm));
    VolumeInCubicCm(p.(heightCm := k * p.heightCm));
    Scaled(k, p.lengthCm, p.widthCm, p.heightCm, p.quantity);
    assert k * Volume(p) * 1000000.0 == k * (Volume(p) * 1000000.0);
  }

  lemma Scaled(k: real, l: real, w: real, h: real, q: real)
    ensures (k * l) * w * h * q == k * (l * w * h * q)
    ensures l * (k * w) * h * q == k * (l * w * h * q)
    ensures l * w * (k * h) * q == k * (l * w * h * q)
  {
    assert (k * l) * w == k * (l * w) == l * (k * w);
    assert k * (l * w) * h == k * (l * w * h) == l * w * (k * h);
    assert k * (l * w * h) * q == k * (l * w * h * q);
  }

  /** The weight charged is the larger of what the packages weigh and what their
      volume weighs, each to the gram. */
  lemma ChargeableIsLarger(packages: seq<Package>, cubicFactor: real)
    ensures var c, weighed, cubed := Chargeable(packages, cubicFactor), Grams(TotalWeight(packages)), Grams(Mul(TotalVolume(packages), cubicFactor));
      c >= weighed && c >= cubed && (c == weighed || c == cubed)
  {
    hide Grams, Mul;
  }

  // ---------- The tariff ----------

  /** Up to the range's lower bound only the base price is charged, and every
      kilogram above it costs the price of a kilogram. */
  lemma ExcessWeight(rate: Rate, extra: real)
    requires extra >= 0.0
    ensures WeightPrice(rate, rate.minWeightKg - extra) == 0.0
    ensures WeightPrice(rate, rate.minWeightKg + extra) == Mul(extra, rate.pricePerKg)
    ensures WeightPrice(rate, rate.minWeightKg + 1.0) == rate.pricePerKg
  {
    hide Mul;
    MulZero(rate.pricePerKg);
    MulOne(rate.pricePerKg);
  }

  /** What each kind of charge is taken from, and on which side of the price it goes. */
  lemma ChargeBasis(c: Charge, cargoValue: real, subtotal: real)
    ensures var f, p := OrZero(c.fixedAmount), OrZero(c.percentage);
      var onCargo, onSubtotal := Money(f + Mul(cargoValue, p)), Money(f + Mul(subtotal, p));
      ChargeAmount(c, cargoValue, subtotal)
      == match c.kind
         case AD_VALOREM => onCargo
         case INSURANCE => onCargo
         case DISCOUNT => -onSubtotal
         case FIXED => onSubtotal
         case GRIS => onSubtotal
         case TOLL => onSubtotal
         case ADDITION => onSubtotal
  {
    hide Money, Mul;
  }

  // ---------- A quote ----------

  /** Two cubic metres at 300 kg each, and one charge of each basis and sign. */
  predicate Cubes(packages: seq<Package>) {
    && |packages| == 1
    && var p := packages[0];
       p.lengthCm == 100.0 && p.widthCm == 100.0 && p.heightCm == 100.0 && p.quantity == 2.0 && p.weightKg == 1.0
  }

  const TARIFF := Rate(10.0, 3, None, 1000.0, 0.0, 1.0)

  function Charges(): seq<Charge> {
    [Charge(None, "Seguro", Some(0.01), INSURANCE), Charge(None, "Gris", Some(0.1), GRIS),
     Charge(Some(5.0), "Pedagio", None, TOLL), Charge(None, "Desconto", Some(0.5), DISCOUNT)]
  }

  lemma OnePackage(packages: seq<Package>)
    requires |packages| == 1
    ensures TotalVolume(packages) == Volume(packages[0]) && TotalWeight(packages) == Mul(packages[0].weightKg, packages[0].quantity)
  {
    hide Volume, Mul;
    assert packages[..0] == [];
  }

  lemma CubeMeasures(packages: seq<Package>)
    requires Cubes(packages)
    ensures TotalVolume(packages) == 2.0 && TotalWeight(packages) == 2.0
  {
    hide Volume, TotalVolume, TotalWeight;
    var p := packages[0];
    OnePackage(packages);
    MulOne(p.quantity);
    VolumeInCubicCm(p);
    assert p.lengthCm * p.widthCm == 10000.0;
    assert p.lengthCm * p.widthCm * p.heightCm == 1000000.0;
    assert p.lengthCm * p.widthCm * p.heightCm * p.quantity == 2000000.0;
  }

  lemma CubesCharged(packages: seq<Package>, cubicFactor: real)
    requires Cubes(packages) && cubicFactor == 300.0
    ensures Chargeable(packages, cubicFactor) == 600.0
  {
    hide TotalVolume, TotalWeight, Mul;
    CubeMeasures(packages);
    MulSum(1.0, 1.0, cubicFactor);
    MulOne(cubicFactor);
    assert Grams(2.0) == 2.0 && Grams(600.0) == 600.0;
  }

  lemma SampleSubtotal()
    ensures Subtotal(TARIFF, 0.0, 600.0) == 610.0 && Subtotal(TARIFF, 700.0, 600.0) == 700.0
  {
    assert Mul(600.0, 1.0) == 600.0;
    assert Money(10.0) == 10.0 && Money(600.0) == 600.0 && Money(0.0) == 0.0 && Money(700.0) == 700.0;
  }

  lemma SampleAmounts()
    ensures var c := Charges();
      && ChargeAmount(c[0], 1000.0, 610.0) == 10.0 && ChargeAmount(c[1], 1000.0, 610.0) == 61.0
      && ChargeAmount(c[2], 1000.0, 610.0) == 5.0 && ChargeAmount(c[3], 1000.0, 610.0) == -305.0
  {
    assert 1000.0 * 0.01 == 10.0 && 610.0 * 0.1 == 61.0 && 610.0 * 0.0 == 0.0 && 610.0 * 0.5 == 305.0;
    assert Money(10.0) == 10.0 && Money(61.0) == 61.0 && Money(5.0) == 5.0 && Money(305.0) == 305.0;
  }

  lemma LastCharge(charges: seq<Charge>, c: Charge, cargoValue: real, subtotal: real)
    requires ChargeAmount(c, cargoValue, subtotal) != 0.0
    ensures ChargeTotal(charges + [c], cargoValue, subtotal) == ChargeTotal(charges, cargoValue, subtotal) + ChargeAmount(c, cargoValue, subtotal)
    ensures ChargeEntries(charges + [c], cargoValue, subtotal)
         == ChargeEntries(charges, cargoValue, subtotal)
            + [Component(CHARGE(c.kind), c.name, ChargeAmount(c, cargoValue, subtotal), SortOrder(c.kind))]
  {
    hide ChargeAmount, Money;
    assert (charges + [c])[..|charges|] == charges;
    AmountInCents(c, cargoValue, subtotal);
  }

  /** What the charges add to it, in their order and places. */
  lemma SampleCharges()
    ensures ChargeTotal(Charges(), 1000.0, 610.0) == -229.0
    ensures ChargeEntries(Charges(), 1000.0, 610.0)
         == [Component(CHARGE(INSURANCE), "Seguro", 10.0, 80), Component(CHARGE(GRIS), "Gris", 61.0, 60),
             Component(CHARGE(TOLL), "Pedagio", 5.0, 70), Component(CHARGE(DISCOUNT), "Desconto", -305.0, 100)]
  {
    hide ChargeAmount, ChargeTotal, ChargeEntries;
    SampleAmounts();
    NoCharges();
    var c := Charges();
    LastCharge([], c[0], 1000.0, 610.0);
    LastCharge([c[0]], c[1], 1000.0, 610.0);
    LastCharge([c[0], c[1]], c[2], 1000.0, 610.0);
    LastCharge([c[0], c[1], c[2]], c[3], 1000.0, 610.0);
    assert [] + [c[0]] == [c[0]] && [c[0]] + [c[1]] == [c[0], c[1]] && [c[0], c[1]] + [c[2]] == [c[0], c[1], c[2]];
    assert [c[0], c[1], c[2]] + [c[3]] == c;
  }

  /** The price of that consignment. */
  lemma SampleQuote(r: Request)
    requires Cubes(r.packages) && r.cubicFactor == 300.0 && r.rate == TARIFF && r.charges == Charges()
    requires r.cargoValue == 1000.0 && r.minimumValue == 0.0
    ensures TotalVolume(r.packages) == 2.0 && Chargeable(r.packages, r.cubicFactor) == 600.0 && Total(r) == 381.0
  {
    hide Chargeable, Subtotal, BaseEntries, ChargeTotal, TotalVolume, Charges;
    CubeMeasures(r.packages);
    CubesCharged(r.packages, r.cubicFactor);
    SampleSubtotal();
    SampleCharges();
  }

  lemma NoCharges()
    ensures ChargeTotal([], 1000.0, 610.0) == 0.0 && ChargeEntries([], 1000.0, 610.0) == []
  {
  }

  /** What its quote opens with, without and with a minimum. */
  lemma SampleBase()
    ensures BaseEntries(TARIFF, 0.0, 600.0) == [Component(BASE, "Frete base", 10.0, 10), Component(WEIGHT, "Peso cobrado", 600.0, 20)]
    ensures BaseEntries(TARIFF, 700.0, 600.0)
         == [Component(BASE, "Frete base", 10.0, 10), Component(WEIGHT, "Peso cobrado", 600.0, 20),
             Component(MINIMUM_ADJUSTMENT, "Ajuste ao valor minimo", 90.0, 30)]
  {
    assert Mul(600.0, 1.0) == 600.0;
    assert Money(10.0) == 10.0 && Money(600.0) == 600.0 && Money(0.0) == 0.0 && Money(610.0) == 610.0;
    assert Money(700.0) == 700.0 && Money(90.0) == 90.0;
    var base, weight := Component(BASE, "Frete base", 10.0, 10), Component(WEIGHT, "Peso cobrado", 600.0, 20);
    hide Money;
    SumNone();
    SumLast([], base);
    SumLast([base], weight);
    assert [] + [base] == [base] && [base] + [weight] == [base, weight];
    hide Sum;
  }

  /** Each day of the deadline moves the delivery by twenty-four hours. */
  lemma DeliveryMeans(date: int, days: int)
    ensures AddDays(date, 0) == date && AddDays(date, days + 1) - AddDays(date, days) == 24 * 60 * 60 * 1000
  {
  }
}
