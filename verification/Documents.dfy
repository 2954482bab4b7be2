/** CPF and CNPJ check digits, which the repository implements three times: on
    strings for the customer service, on digit arrays for the import handler,
    and as a generator for the demo data. */
module Documents {
  import opened Text

  const FIRST_WEIGHTS: seq<nat> := [5, 4, 3, 2, 9, 8, 7, 6, 5, 4, 3, 2]
  const SECOND_WEIGHTS: seq<nat> := [6, 5, 4, 3, 2, 9, 8, 7, 6, 5, 4, 3, 2]

  /** `/^(\d)\1+$/`: two or more copies of one digit. */
  predicate Repeated(s: string) {
    |s| >= 2 && IsDigit(s[0]) && forall i :: 0 <= i < |s| ==> s[i] == s[0]
  }

  // ---------- Customer service: strings, weights derived from the length ----------

  function CpfTextSum(input: string, index: nat): nat
    requires AllDigits(input) && index <= |input|
    decreases |input| - index
  {
    if index == |input| then 0
    else DigitValue(input[index]) * (|input| + 1 - index) + CpfTextSum(input, index + 1)
  }

  function CpfTextDigit(input: string): (d: nat)
    requires AllDigits(input)
    ensures d < 10
  {
    var remainder := CpfTextSum(input, 0) * 10 % 11;
    if remainder == 10 then 0 else remainder
  }

  predicate ServiceCpf(document: string)
    requires AllDigits(document) && |document| == 11
  {
    !Repeated(document) &&
    var base := document[..9];
    var first := Decimal(CpfTextDigit(base));
    var second := Decimal(CpfTextDigit(base + first));
    document == base + first + second
  }

  /** `weights[index] ?? 0`. */
  function WeightAt(weights: seq<nat>, index: nat): nat {
    if index < |weights| then weights[index] else 0
  }

  function CnpjTextSum(input: string, weights: seq<nat>, index: nat): nat
    requires AllDigits(input) && index <= |input|
    decreases |input| - index
  {
    if index == |input| then 0
    else DigitValue(input[index]) * WeightAt(weights, index) + CnpjTextSum(input, weights, index + 1)
  }

  function Complement(sum: nat): (d: nat)
    ensures d < 10
  {
    if sum % 11 < 2 then 0 else 11 - sum % 11
  }

  function CnpjTextDigit(input: string, weights: seq<nat>): (d: nat)
    requires AllDigits(input)
    ensures d < 10
  {
    Complement(CnpjTextSum(input, weights, 0))
  }

  predicate ServiceCnpj(document: string)
    requires AllDigits(document) && |document| == 14
  {
    !Repeated(document) &&
    var base := document[..12];
    var first := Decimal(CnpjTextDigit(base, FIRST_WEIGHTS));
    var second := Decimal(CnpjTextDigit(base + first, SECOND_WEIGHTS));
    document == base + first + second
  }

  predicate ServiceAccepts(document: string)
    requires AllDigits(document)
  {
    (|document| == 11 && ServiceCpf(document)) || (|document| == 14 && ServiceCnpj(document))
  }

  // ---------- Import handler: digit arrays, an explicit factor ----------

  function DigitsOf(s: string): (d: seq<nat>)
    requires AllDigits(s)
    ensures |d| == |s| && forall i :: 0 <= i < |s| ==> d[i] == DigitValue(s[i])
  {
    seq(|s|, i requires 0 <= i < |s| => DigitValue(s[i]))
  }

  function FactorSum(numbers: seq<nat>, factor: nat): int {
    if numbers == [] then 0
    else FactorSum(numbers[..|numbers| - 1], factor) + numbers[|numbers| - 1] * (factor - (|numbers| - 1))
  }

  function Checksum(numbers: seq<nat>, factor: nat): int {
    var result := FactorSum(numbers, factor) * 10 % 11;
    if result == 10 then 0 else result
  }

  predicate HandlerCpf(document: string)
    requires AllDigits(document) && |document| == 11
  {
    !Repeated(document) &&
    var digits := DigitsOf(document);
    var first := Checksum(digits[..9], 10);
    first >= 0 &&
    var second := Checksum(digits[..9] + [first], 11);
    digits[9] == first && digits[10] == second
  }

  function WeightedSum(numbers: seq<nat>, weights: seq<nat>): nat {
    if numbers == [] then 0
    else WeightedSum(numbers[..|numbers| - 1], weights) + numbers[|numbers| - 1] * WeightAt(weights, |numbers| - 1)
  }

  predicate HandlerCnpj(document: string)
    requires AllDigits(document) && |document| == 14
  {
    !Repeated(document) &&
    var digits := DigitsOf(document);
    var first := Complement(WeightedSum(digits[..12], FIRST_WEIGHTS));
    var second := Complement(WeightedSum(digits[..12] + [first], SECOND_WEIGHTS));
    digits[12] == first && digits[13] == second
  }

  predicate HandlerAccepts(document: string)
    requires AllDigits(document)
  {
    if |document| == 11 then HandlerCpf(document) else |document| == 14 && HandlerCnpj(document)
  }

  // ---------- Demo data generator ----------

  function PadEnd(s: string, n: nat): (r: string)
    ensures |r| == if |s| < n then n else |s|
    ensures AllDigits(s) ==> AllDigits(r)
    ensures s <= r
    ensures forall i :: |s| <= i < |r| ==> r[i] == '0'
  {
    if |s| >= n then s else s + seq(n - |s|, _ => '0')
  }

  /** The twelve digits the generator keeps of any text. */
  function SeedBase(text: string): (s: string)
    ensures |s| == 12 && AllDigits(s)
  {
    PadEnd(OnlyDigits(text), 12)[..12]
  }

  function SeedCnpj(text: string): (s: string)
    ensures |s| == 14 && AllDigits(s)
  {
    var digits := SeedBase(text);
    var first := Decimal(CnpjTextDigit(digits, FIRST_WEIGHTS));
    var second := Decimal(CnpjTextDigit(digits + first, SECOND_WEIGHTS));
    digits + first + second
  }

  // ---------- The validators agree ----------

  lemma {:induction false} FactorSumIs(input: string, n: nat, total: nat)
    requires AllDigits(input) && n <= |input|
    requires total == |input| + 1
    ensures FactorSum(DigitsOf(input)[..n], total) + CpfTextSum(input, n) == CpfTextSum(input, 0)
  {
    if n > 0 {
      FactorSumIs(input, n - 1, total);
      var d := DigitsOf(input);
      assert d[..n][..n - 1] == d[..n - 1];
    }
  }

  lemma {:induction false} WeightedSumIs(input: string, weights: seq<nat>, n: nat)
    requires AllDigits(input) && n <= |input|
    ensures WeightedSum(DigitsOf(input)[..n], weights) + CnpjTextSum(input, weights, n) == CnpjTextSum(input, weights, 0)
  {
    if n > 0 {
      WeightedSumIs(input, weights, n - 1);
      var d := DigitsOf(input);
      assert d[..n][..n - 1] == d[..n - 1];
    }
  }

  /** The length-derived weights are the explicit factor, whatever the length. */
  lemma CpfDigitsAgree(input: string)
    requires AllDigits(input)
    ensures Checksum(DigitsOf(input), |input| + 1) == CpfTextDigit(input)
  {
    FactorSumIs(input, |input|, |input| + 1);
    assert DigitsOf(input)[..|input|] == DigitsOf(input);
  }

  lemma CnpjDigitsAgree(input: string, weights: seq<nat>)
    requires AllDigits(input)
    ensures Complement(WeightedSum(DigitsOf(input), weights)) == CnpjTextDigit(input, weights)
  {
    WeightedSumIs(input, weights, |input|);
    assert DigitsOf(input)[..|input|] == DigitsOf(input);
  }

  /** Comparing rebuilt text and comparing the two last digits are the same test. */
  lemma RebuiltText(document: string, n: nat, first: nat, second: nat)
    requires AllDigits(document) && |document| == n + 2 && first < 10 && second < 10
    ensures document == document[..n] + Decimal(first) + Decimal(second)
       <==> DigitValue(document[n]) == first && DigitValue(document[n + 1]) == second
  {
    assert Decimal(first) == [DigitChar(first)] && Decimal(second) == [DigitChar(second)];
    var rebuilt := document[..n] + Decimal(first) + Decimal(second);
    assert rebuilt[n] == DigitChar(first) && rebuilt[n + 1] == DigitChar(second);
    if DigitValue(document[n]) == first && DigitValue(document[n + 1]) == second {
      assert document[n] == DigitChar(first) && document[n + 1] == DigitChar(second);
      assert document == document[..n] + [document[n]] + [document[n + 1]];
    }
  }

  lemma ExtendedDigits(document: string, n: nat, first: nat)
    requires AllDigits(document) && n <= |document| && first < 10
    ensures AllDigits(document[..n] + Decimal(first))
    ensures DigitsOf(document)[..n] == DigitsOf(document[..n])
    ensures DigitsOf(document)[..n] + [first] == DigitsOf(document[..n] + Decimal(first))
  {
    assert Decimal(first) == [DigitChar(first)];
  }

  lemma CpfAgree(document: string)
    requires AllDigits(document) && |document| == 11
    ensures HandlerCpf(document) == ServiceCpf(document)
  {
    hide Checksum, CpfTextDigit, Decimal, Repeated;
    var base := document[..9];
    var first := CpfTextDigit(base);
    ExtendedDigits(document, 9, first);
    CpfDigitsAgree(base);
    var more := base + Decimal(first);
    CpfDigitsAgree(more);
    RebuiltText(document, 9, first, CpfTextDigit(more));
    assert |more| == 10 by { assert |DigitsOf(more)| == 10; }
  }

  lemma CnpjAgree(document: string)
    requires AllDigits(document) && |document| == 14
    ensures HandlerCnpj(document) == ServiceCnpj(document)
  {
    hide Complement, WeightedSum, CnpjTextDigit, Decimal, Repeated;
    var base := document[..12];
    var first := CnpjTextDigit(base, FIRST_WEIGHTS);
    ExtendedDigits(document, 12, first);
    CnpjDigitsAgree(base, FIRST_WEIGHTS);
    var more := base + Decimal(first);
    CnpjDigitsAgree(more, SECOND_WEIGHTS);
    RebuiltText(document, 12, first, CnpjTextDigit(more, SECOND_WEIGHTS));
  }

  /** The two validators accept the same digit strings, of every length. */
  lemma ValidatorsAgree(document: string)
    requires AllDigits(document)
    ensures ServiceAccepts(document) <==> HandlerAccepts(document)
  {
    if |document| == 11 {
      CpfAgree(document);
    } else if |document| == 14 {
      CnpjAgree(document);
    }
  }

  // ---------- Validator and generator are inverse ----------

  lemma SeedOfDigits(base: string)
    requires AllDigits(base) && |base| == 12
    ensures SeedBase(base) == base
  {
  }

  /** A 14-digit string is accepted exactly when it is not one repeated digit
      and the generator rebuilds it from its first twelve digits. */
  lemma AcceptedIsGenerated(document: string)
    requires AllDigits(document) && |document| == 14
    ensures HandlerAccepts(document) <==> !Repeated(document) && document == SeedCnpj(document[..12])
  {
    hide CnpjTextDigit, Decimal, Repeated, SeedBase;
    CnpjAgree(document);
    SeedOfDigits(document[..12]);
  }

  lemma RepeatedSum(s: string)
    requires AllDigits(s) && |s| == 12 && forall i :: 0 <= i < 12 ==> s[i] == s[0]
    ensures CnpjTextSum(s, FIRST_WEIGHTS, 0) == 58 * DigitValue(s[0])
  {
    RepeatedTail(s, 0);
    assert WeightTotal(9) == 9;
    assert WeightTotal(6) == 27;
    assert WeightTotal(3) == 46;
    assert WeightTotal(0) == 58;
  }

  function WeightTotal(n: nat): nat
    requires n <= 12
    decreases 12 - n
  {
    if n == 12 then 0 else FIRST_WEIGHTS[n] + WeightTotal(n + 1)
  }

  lemma {:induction false} RepeatedTail(s: string, n: nat)
    requires AllDigits(s) && |s| == 12 && n <= 12 && forall i :: 0 <= i < 12 ==> s[i] == s[0]
    ensures CnpjTextSum(s, FIRST_WEIGHTS, n) == DigitValue(s[0]) * WeightTotal(n)
    decreases 12 - n
  {
    if n < 12 {
      RepeatedTail(s, n + 1);
      assert s[n] == s[0];
      assert WeightAt(FIRST_WEIGHTS, n) == FIRST_WEIGHTS[n];
      Distribute(DigitValue(s[0]), FIRST_WEIGHTS[n], WeightTotal(n + 1));
    }
  }

  lemma Distribute(d: nat, w: nat, t: nat)
    ensures d * w + d * t == d * (w + t)
  {
  }

  lemma {:induction false} ZeroSum(s: string, weights: seq<nat>, n: nat)
    requires AllDigits(s) && n <= |s| && forall i :: 0 <= i < |s| ==> s[i] == '0'
    ensures CnpjTextSum(s, weights, n) == 0
    decreases |s| - n
  {
    if n < |s| {
      ZeroSum(s, weights, n + 1);
    }
  }

  predicate AllZero(s: string) {
    forall i :: 0 <= i < |s| ==> s[i] == '0'
  }

  /** Every generated number is accepted, but for the one of all zeros. */
  lemma GeneratedIsAccepted(text: string)
    ensures HandlerAccepts(SeedCnpj(text)) <==> !AllZero(SeedBase(text))
  {
    hide CnpjTextSum, OnlyDigits;
    var base, document := SeedBase(text), SeedCnpj(text);
    assert document[..12] == base;
    SeedOfDigits(base);
    AcceptedIsGenerated(document);
    var first := CnpjTextDigit(base, FIRST_WEIGHTS);
    assert Decimal(first) == [DigitChar(first)];
    assert document[12] == DigitChar(first);
    if AllZero(base) {
      ZeroSum(base, FIRST_WEIGHTS, 0);
      ZeroSum(base + Decimal(first), SECOND_WEIGHTS, 0);
      assert document[13] == '0';
    } else if Repeated(document) {
      assert forall i :: 0 <= i < 12 ==> base[i] == document[i];
      RepeatedSum(base);
    }
  }

  // ---------- The published schemes ----------

  /** Both lists of CNPJ weights count 2 to 9 from the right, over and over. */
  lemma WeightsCycle(i: nat)
    ensures i < 12 ==> |FIRST_WEIGHTS| == 12 && FIRST_WEIGHTS[i] == 2 + (11 - i) % 8
    ensures i < 13 ==> |SECOND_WEIGHTS| == 13 && SECOND_WEIGHTS[i] == 2 + (12 - i) % 8
  {
  }

  /** A CNPJ check digit completes the weighted sum to a multiple of eleven; where
      that would take a ten, it is a zero. */
  lemma ComplementMeans(sum: nat)
    ensures (sum + Complement(sum)) % 11 == 0 || (Complement(sum) == 0 && (sum + 10) % 11 == 0)
  {
  }

  /** A CPF check digit is congruent to ten times the sum; a ten is a zero. */
  lemma ChecksumMeans(numbers: seq<nat>, factor: nat)
    requires |numbers| <= factor
    ensures var d := Checksum(numbers, factor);
      0 <= d < 10 && ((10 * FactorSum(numbers, factor) - d) % 11 == 0 || (d == 0 && (10 * FactorSum(numbers, factor) - 10) % 11 == 0))
  {
    hide FactorSum;
  }

  lemma FactorPrefix(d: seq<nat>, factor: nat, k: nat)
    requires k < |d|
    ensures FactorSum(d[..k + 1], factor) == FactorSum(d[..k], factor) + d[k] * (factor - k)
  {
    assert d[..k + 1][..k] == d[..k];
  }

  lemma WeightedPrefix(d: seq<nat>, weights: seq<nat>, k: nat)
    requires k < |d| && k < |weights|
    ensures WeightedSum(d[..k + 1], weights) == WeightedSum(d[..k], weights) + d[k] * weights[k]
  {
    assert d[..k + 1][..k] == d[..k];
  }

  lemma FactorFour(d: seq<nat>, factor: nat, k: nat)
    requires k + 4 <= |d|
    ensures FactorSum(d[..k + 4], factor)
         == FactorSum(d[..k], factor) + d[k] * (factor - k) + d[k + 1] * (factor - k - 1)
            + d[k + 2] * (factor - k - 2) + d[k + 3] * (factor - k - 3)
  {
    hide FactorSum;
    FactorPrefix(d, factor, k);
    FactorPrefix(d, factor, k + 1);
    FactorPrefix(d, factor, k + 2);
    FactorPrefix(d, factor, k + 3);
  }

  predicate CpfSample(d: seq<nat>) {
    && |d| >= 9 && d[0] == 1 && d[1] == 2 && d[2] == 3 && d[3] == 4 && d[4] == 5
    && d[5] == 6 && d[6] == 7 && d[7] == 8 && d[8] == 9
  }

  lemma KnownCpfSums(d: seq<nat>, e: seq<nat>)
    requires CpfSample(d) && |d| == 9 && CpfSample(e) && |e| == 10 && e[9] == 0
    ensures FactorSum(d, 10) == 210 && FactorSum(e, 11) == 255
  {
    hide FactorSum;
    FactorNone();
    FactorFour(d, 10, 0);
    FactorFour(d, 10, 4);
    FactorPrefix(d, 10, 8);
    FactorFour(e, 11, 0);
    FactorFour(e, 11, 4);
    FactorPrefix(e, 11, 8);
    FactorPrefix(e, 11, 9);
    assert d[..0] == [] && d[..9] == d && e[..0] == [] && e[..10] == e;
  }

  lemma FactorNone()
    ensures FactorSum([], 10) == 0 && FactorSum([], 11) == 0
  {
  }

  lemma WeightedFour(d: seq<nat>, w: seq<nat>, k: nat)
    requires k + 4 <= |d| && k + 4 <= |w|
    ensures WeightedSum(d[..k + 4], w)
         == WeightedSum(d[..k], w) + d[k] * w[k] + d[k + 1] * w[k + 1] + d[k + 2] * w[k + 2] + d[k + 3] * w[k + 3]
  {
    hide WeightedSum;
    WeightedPrefix(d, w, k);
    WeightedPrefix(d, w, k + 1);
    WeightedPrefix(d, w, k + 2);
    WeightedPrefix(d, w, k + 3);
  }

  predicate CnpjSample(d: seq<nat>) {
    && |d| >= 12 && d[0] == 1 && d[1] == 1 && d[2] == 2 && d[3] == 2 && d[4] == 2 && d[5] == 3
    && d[6] == 3 && d[7] == 3 && d[8] == 0 && d[9] == 0 && d[10] == 0 && d[11] == 1
  }

  lemma KnownCnpjFirst(d: seq<nat>)
    requires CnpjSample(d) && |d| == 12
    ensures WeightedSum(d, FIRST_WEIGHTS) == 102
  {
    hide WeightedSum;
    WeightedNone();
    WeightedFour(d, FIRST_WEIGHTS, 0);
    WeightedFour(d, FIRST_WEIGHTS, 4);
    WeightedFour(d, FIRST_WEIGHTS, 8);
    assert d[..0] == [] && d[..12] == d;
  }

  lemma KnownCnpjSecond(e: seq<nat>)
    requires CnpjSample(e) && |e| == 13 && e[12] == 8
    ensures WeightedSum(e, SECOND_WEIGHTS) == 120
  {
    hide WeightedSum;
    WeightedNone();
    WeightedFour(e, SECOND_WEIGHTS, 0);
    WeightedFour(e, SECOND_WEIGHTS, 4);
    WeightedFour(e, SECOND_WEIGHTS, 8);
    WeightedPrefix(e, SECOND_WEIGHTS, 12);
    assert e[..0] == [] && e[..13] == e;
  }

  lemma WeightedNone()
    ensures WeightedSum([], FIRST_WEIGHTS) == 0 && WeightedSum([], SECOND_WEIGHTS) == 0
  {
  }

  /** A CPF and a CNPJ in use as examples: accepted with their check digits, and with
      no other last digit. */
  lemma KnownDocuments(document: string)
    requires AllDigits(document)
    ensures |document| == 11 && document[..10] == "1234567890" ==> (HandlerAccepts(document) <==> document[10] == '9')
    ensures |document| == 14 && document[..13] == "1122233300018" ==> (HandlerAccepts(document) <==> document[13] == '1')
  {
    hide FactorSum, WeightedSum;
    var digits := DigitsOf(document);
    if |document| == 11 && document[..10] == "1234567890" {
      forall i | 0 <= i < 10 ensures document[i] == "1234567890"[i] {
        assert document[i] == document[..10][i];
      }
      assert document[0] == '1' && document[1] == '2' && digits[9] == 0;
      assert digits[..9] == [1, 2, 3, 4, 5, 6, 7, 8, 9];
      KnownCpfSums(digits[..9], digits[..9] + [0]);
    } else if |document| == 14 && document[..13] == "1122233300018" {
      forall i | 0 <= i < 13 ensures document[i] == "1122233300018"[i] {
        assert document[i] == document[..13][i];
      }
      assert document[0] == '1' && document[2] == '2' && digits[12] == 8;
      assert digits[..12] == [1, 1, 2, 2, 2, 3, 3, 3, 0, 0, 0, 1];
      KnownCnpjFirst(digits[..12]);
      KnownCnpjSecond(digits[..12] + [8]);
    }
  }

  /** Copies of one digit are never accepted, whatever they add up to. */
  lemma RepeatedRefused(document: string)
    requires AllDigits(document) && document != [] && forall i :: 0 <= i < |document| ==> document[i] == document[0]
    ensures !HandlerAccepts(document) && !ServiceAccepts(document)
  {
    hide FactorSum, WeightedSum, CpfTextSum, CnpjTextSum;
  }
}
