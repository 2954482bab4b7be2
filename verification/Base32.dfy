/** The base32 codec of the TOTP secrets (section 6 of RFC 4648). Both loops
    keep a 32-bit accumulator that is never masked, so old bits overflow out of
    it; only its low bits carry meaning. */
module Base32 {
  const ALPHABET: string := "ABCDEFGHIJKLMNOPQRSTUVWXYZ234567"
  const WORD := 0x1_0000_0000

  type Byte = n: nat | n < 256
  type Word = n: nat | n < WORD
  type Bits = seq<bool>

  // ---------- Bit strings: the reference the loops are measured against ----------

  function Pow2(n: nat): (p: nat)
    ensures p > 0
  {
    if n == 0 then 1 else 2 * Pow2(n - 1)
  }

  /** The low `n` bits of a number, most significant first. */
  function LowBits(v: nat, n: nat): (b: Bits)
    ensures |b| == n
  {
    if n == 0 then [] else LowBits(v / 2, n - 1) + [v % 2 == 1]
  }

  function FromBits(b: Bits): (v: nat)
    ensures v < Pow2(|b|)
  {
    if b == [] then 0 else 2 * FromBits(b[..|b| - 1]) + (if b[|b| - 1] then 1 else 0)
  }

  function BytesBits(bytes: seq<Byte>): (b: Bits)
    ensures |b| == 8 * |bytes|
  {
    if bytes == [] then [] else BytesBits(bytes[..|bytes| - 1]) + LowBits(bytes[|bytes| - 1], 8)
  }

  function Zeros(n: nat): (b: Bits)
    ensures |b| == n
  {
    seq(n, _ => false)
  }

  function LetterAt(k: nat): (c: char)
    requires k < 32
  {
    ALPHABET[k]
  }

  function Letter(group: Bits): (c: char)
    requires |group| == 5
  {
    Powers();
    LetterAt(FromBits(group))
  }

  /** RFC 4648: one letter per five bits, the last group padded with zero bits. */
  function EncodeBits(b: Bits): string {
    if b == [] then ""
    else if |b| < 5 then [Letter(b + Zeros(5 - |b|))]
    else [Letter(b[..5])] + EncodeBits(b[5..])
  }

  function ByteOf(group: Bits): Byte
    requires |group| == 8
  {
    Powers();
    FromBits(group)
  }

  /** RFC 4648: one octet per eight bits, what is left over dropped. */
  function DecodeBits(b: Bits): seq<Byte> {
    if |b| < 8 then []
    else [ByteOf(b[..8])] + DecodeBits(b[8..])
  }

  lemma AlphabetAt(k: nat)
    requires k < 32
    ensures k < 26 ==> ALPHABET[k] == 'A' + k as char
    ensures k >= 26 ==> ALPHABET[k] == '2' + (k - 26) as char
  {
    if k < 26 {
      assert ALPHABET[..26] == "ABCDEFGHIJKLMNOPQRSTUVWXYZ";
      assert ALPHABET[k] == ALPHABET[..26][k];
    } else {
      assert ALPHABET[26..] == "234567";
      assert ALPHABET[k] == ALPHABET[26..][k - 26];
    }
  }

  lemma AlphabetHas(c: char)
    ensures c in ALPHABET <==> 'A' <= c <= 'Z' || '2' <= c <= '7'
    ensures 'A' <= c <= 'Z' ==> ALPHABET[(c - 'A') as int] == c
    ensures '2' <= c <= '7' ==> ALPHABET[(c - '2') as int + 26] == c
  {
    assert |ALPHABET| == 32;
    hide ALPHABET;
    forall k | 0 <= k < |ALPHABET| ensures 'A' <= ALPHABET[k] <= 'Z' || '2' <= ALPHABET[k] <= '7' {
      AlphabetAt(k);
    }
    if 'A' <= c <= 'Z' {
      AlphabetAt((c - 'A') as int);
    } else if '2' <= c <= '7' {
      AlphabetAt((c - '2') as int + 26);
    }
  }

  /** `BASE32_ALPHABET.indexOf(c)`. */
  function IndexOf(c: char): (k: int)
    ensures -1 <= k < 32
    ensures if k >= 0 then ALPHABET[k] == c else c !in ALPHABET
  {
    AlphabetHas(c);
    if 'A' <= c <= 'Z' then (c - 'A') as int else if '2' <= c <= '7' then (c - '2') as int + 26 else -1
  }

  /** Characters outside the alphabet contribute nothing. */
  function CharBits(c: char): Bits {
    if IndexOf(c) < 0 then [] else LowBits(IndexOf(c), 5)
  }

  function LettersBits(s: string): Bits {
    if s == "" then [] else LettersBits(s[..|s| - 1]) + CharBits(s[|s| - 1])
  }

  /** The base32 letters in the upper-case form of a character. Besides a-z a few
      code points have such a form, some with two or three letters. */
  function Capitals(c: char): string {
    if 'a' <= c <= 'z' then [c - 'a' + 'A']
    else if c == '\U{DF}' then "SS"
    else if c == '\U{131}' then "I"
    else if c == '\U{149}' then "N"
    else if c == '\U{17F}' then "S"
    else if c == '\U{1F0}' then "J"
    else if c == '\U{1E96}' then "H"
    else if c == '\U{1E97}' then "T"
    else if c == '\U{1E98}' then "W"
    else if c == '\U{1E99}' then "Y"
    else if c == '\U{1E9A}' then "A"
    else if c == '\U{FB00}' then "FF"
    else if c == '\U{FB01}' then "FI"
    else if c == '\U{FB02}' then "FL"
    else if c == '\U{FB03}' then "FFI"
    else if c == '\U{FB04}' then "FFL"
    else if c == '\U{FB05}' || c == '\U{FB06}' then "ST"
    else [c]
  }

  /** `toUpperCase`, as far as the decoder can tell. */
  function UpperCase(s: string): string {
    if s == "" then "" else Capitals(s[0]) + UpperCase(s[1..])
  }

  function StripPadding(s: string): string {
    if s != "" && s[|s| - 1] == '=' then StripPadding(s[..|s| - 1]) else s
  }

  function Encoded(bytes: seq<Byte>): string {
    EncodeBits(BytesBits(bytes))
  }

  function Decoded(s: string): seq<Byte> {
    DecodeBits(LettersBits(UpperCase(StripPadding(s))))
  }

  // ---------- The loops ----------

  /** `(value << k) | x` on 32-bit words, for x below 2^k. */
  function ShiftIn(value: Word, k: nat, x: nat): (w: Word)
    requires (k == 5 && x < 32) || (k == 8 && x < 256)
  {
    (if k == 5 then value * 32 % WORD else value * 256 % WORD) + x
  }

  /** `value >>> k`. */
  function Shr(value: nat, k: nat): nat {
    if k == 0 then value else Shr(value / 2, k - 1)
  }

  /** `value << k`, before any truncation. */
  function Shl(value: nat, k: nat): nat {
    if k == 0 then value else 2 * Shl(value, k - 1)
  }

  method GenerateSecret(bytes: seq<Byte>) returns (output: string)
    ensures output == Encoded(bytes)
  {
    hide EncodeBits, LowBits, Pow2, FromBits, Shr, Shl, LetterAt, Letter, Zeros, ALPHABET, ShiftIn, BytesBits, WholeGroups;
    NoGroups();
    output := "";
    var bits: nat, value: Word := 0, 0;
    ghost var done: Bits := [];
    Nothing(value);
    for i := 0 to |bytes|
      invariant bits < 5 && WholeGroups(done)
      invariant done + LowBits(value, bits) == BytesBits(bytes[..i])
      invariant output == EncodeBits(done)
    {
      ghost var before := value;
      value := ShiftIn(value, 8, bytes[i]);
      ShiftInBits(before, bits, 8, bytes[i]);
      bits := bits + 8;
      NextByte(bytes, i);
      Regroup(done, LowBits(before, bits - 8), LowBits(bytes[i], 8));
      assert done + LowBits(value, bits) == BytesBits(bytes[..i + 1]);
      while bits >= 5
        invariant bits <= 12 && WholeGroups(done)
        invariant done + LowBits(value, bits) == BytesBits(bytes[..i + 1])
        invariant output == EncodeBits(done)
      {
        var digit := Shr(value, bits - 5) % 32;
        ghost var group := FullGroup(done, value, bits);
        output := output + [LetterAt(digit)];
        done := done + group;
        bits := bits - 5;
      }
    }
    assert bytes[..|bytes|] == bytes;
    if bits > 0 {
      output := output + [LetterAt(Shl(value, 5 - bits) % 32)];
      LastGroup(done, value, bits);
    } else {
      Nothing(value);
      assert done + [] == done;
    }
  }

  predicate WholeGroups(done: Bits) {
    |done| % 5 == 0
  }

  lemma NoGroups()
    ensures WholeGroups([])
  {
  }

  /** Printing one letter takes five bits from the pending ones. */
  lemma FullGroup(done: Bits, value: nat, bits: nat) returns (group: Bits)
    requires WholeGroups(done) && bits >= 5
    ensures WholeGroups(done + group) && done + group + LowBits(value, bits - 5) == done + LowBits(value, bits)
    ensures EncodeBits(done + group) == EncodeBits(done) + [LetterAt(Shr(value, bits - 5) % 32)]
  {
    hide EncodeBits, LowBits, FromBits, Shr, LetterAt;
    group := TopBits(value, bits, 5);
    Append(done, group);
    Regroup(done, group, LowBits(value, bits - 5));
  }

  /** The last letter prints what is pending. */
  lemma LastGroup(done: Bits, value: nat, bits: nat)
    requires WholeGroups(done) && 0 < bits < 5
    ensures EncodeBits(done + LowBits(value, bits)) == EncodeBits(done) + [LetterAt(Shl(value, 5 - bits) % 32)]
  {
    hide EncodeBits, LowBits, FromBits, Shl, LetterAt, Zeros;
    LastLetter(value, bits);
    AppendTail(done, LowBits(value, bits));
    assert LowBits(value, bits) != [];
  }

  lemma Regroup(a: Bits, b: Bits, c: Bits)
    ensures a + b + c == a + (b + c)
  {
  }

  method DecodeBase32(text: string) returns (bytes: seq<Byte>)
    ensures bytes == Decoded(text)
  {
    hide DecodeBits, LowBits, Pow2, FromBits, Shr, ShiftIn, IndexOf, UpperCase, StripPadding, LettersBits;
    var s := UpperCase(StripPadding(text));
    var bits: nat, current: Word := 0, 0;
    bytes := [];
    ghost var done: Bits := [];
    Nothing(current);
    for i := 0 to |s|
      invariant bits < 8 && |done| % 8 == 0
      invariant done + LowBits(current, bits) == LettersBits(s[..i])
      invariant bytes == DecodeBits(done)
    {
      var index := IndexOf(s[i]);
      NextLetter(s, i);
      if index >= 0 {
        ghost var before := current;
        current := ShiftIn(current, 5, index);
        ShiftInBits(before, bits, 5, index);
        bits := bits + 5;
        assert done + LowBits(current, bits) == LettersBits(s[..i + 1]);
        if bits >= 8 {
          ghost var group := TopBits(current, bits, 8);
          AppendByte(done, group);
          Regroup(done, group, LowBits(current, bits - 8));
          bytes := bytes + [Shr(current, bits - 8) % 256];
          done := done + group;
          bits := bits - 8;
        }
      }
    }
    assert s[..|s|] == s;
    DropTail(done, LowBits(current, bits));
  }

  // ---------- The low bits survive the overflow ----------

  lemma Nothing(v: nat)
    ensures LowBits(v, 0) == [] && EncodeBits([]) == "" && DecodeBits([]) == []
    ensures BytesBits([]) == [] && LettersBits("") == []
  {
  }

  lemma NextByte(bytes: seq<Byte>, i: nat)
    requires i < |bytes|
    ensures BytesBits(bytes[..i + 1]) == BytesBits(bytes[..i]) + LowBits(bytes[i], 8)
  {
    assert bytes[..i + 1][..i] == bytes[..i];
  }

  lemma NextLetter(s: string, i: nat)
    requires i < |s|
    ensures LettersBits(s[..i + 1]) == LettersBits(s[..i]) + CharBits(s[i])
  {
    assert s[..i + 1][..i] == s[..i];
  }

  lemma Powers()
    ensures Pow2(1) == 2 && Pow2(2) == 4 && Pow2(3) == 8 && Pow2(4) == 16 && Pow2(5) == 32 && Pow2(8) == 256
  {
    assert Pow2(3) == 8;
    assert Pow2(6) == 64;
  }

  lemma Shifted(c: nat, k: nat)
    ensures Shl(c, 1) == 2 * c && Shl(c, 2) == 4 * c && Shl(c, 3) == 8 * c && Shl(c, 4) == 16 * c
    ensures Shl(c, k + 5) == 32 * Shl(c, k) && Shl(c, k + 8) == 256 * Shl(c, k)
  {
    assert Shl(c, 0) == c;
    assert Shl(c, k + 2) == 4 * Shl(c, k);
    assert Shl(c, k + 4) == 16 * Shl(c, k);
    assert Shl(c, k + 6) == 64 * Shl(c, k);
  }

  lemma ShiftedOut(c: nat)
    ensures Shl(c, 32) == c * WORD
  {
    hide Shl;
    Shifted(c, 24);
    Shifted(c, 16);
    Shifted(c, 8);
    Shifted(c, 0);
    ShiftedNone(c);
  }

  lemma ShiftedNone(c: nat)
    ensures Shl(c, 0) == c
  {
  }

  /** Whatever is added above position k leaves the low bits alone. */
  lemma {:induction false} HighBitsIgnored(v: nat, c: nat, k: nat, n: nat)
    requires n <= k
    ensures LowBits(v + Shl(c, k), n) == LowBits(v, n)
  {
    if n > 0 {
      HighBitsIgnored(v / 2, c, k - 1, n - 1);
      assert (v + Shl(c, k)) / 2 == v / 2 + Shl(c, k - 1);
    }
  }

  /** Shifting k bits in appends them to the bits already there. */
  lemma {:induction false} AppendBits(v: nat, x: nat, k: nat, n: nat)
    requires x < Pow2(k)
    ensures LowBits(x + Shl(v, k), n + k) == LowBits(v, n) + LowBits(x, k)
  {
    if k > 0 {
      AppendBits(v, x / 2, k - 1, n);
      assert (x + Shl(v, k)) / 2 == x / 2 + Shl(v, k - 1);
      assert (x + Shl(v, k)) % 2 == x % 2;
    }
  }

  /** The loops' shift keeps up to 24 old bits, although the word overflows. */
  lemma ShiftInBits(value: Word, n: nat, k: nat, x: nat)
    requires n <= 24 && ((k == 5 && x < 32) || (k == 8 && x < 256))
    ensures LowBits(ShiftIn(value, k, x), n + k) == LowBits(value, n) + LowBits(x, k)
  {
    hide LowBits, Shl, Pow2;
    Powers();
    Shifted(value, 0);
    ShiftedNone(value);
    AppendBits(value, x, k, n);
    var product := if k == 5 then value * 32 else value * 256;
    ShiftedOut(product / WORD);
    HighBitsIgnored(ShiftIn(value, k, x), product / WORD, 32, n + k);
  }

  lemma {:induction false} BitsRoundTrip(v: nat, n: nat)
    requires v < Pow2(n)
    ensures FromBits(LowBits(v, n)) == v
  {
    if n > 0 {
      BitsRoundTrip(v / 2, n - 1);
      assert LowBits(v, n)[..n - 1] == LowBits(v / 2, n - 1);
    }
  }

  lemma {:induction false} NumberRoundTrip(b: Bits)
    ensures LowBits(FromBits(b), |b|) == b
  {
    if b != [] {
      NumberRoundTrip(b[..|b| - 1]);
    }
  }

  /** Splitting a number at position k, by division, splits its bits there. */
  lemma LowPart(v: nat, k: nat, high: nat, low: nat)
    requires low < Pow2(k) && v == low + Shl(high, k)
    ensures FromBits(LowBits(v, k)) == low
  {
    HighBitsIgnored(low, high, k, k);
    BitsRoundTrip(low, k);
  }

  /** Masking a word: its low bits, read as a number. */
  lemma Masked(v: nat, k: nat)
    requires 0 < k < 6 || k == 8
    ensures FromBits(LowBits(v, k)) == v % Mask(k)
  {
    hide LowBits, FromBits, Shl, Pow2;
    Powers();
    Shifted(v / Mask(k), 0);
    ShiftedNone(v / Mask(k));
    if k == 1 { LowPart(v, 1, v / 2, v % 2); }
    else if k == 2 { LowPart(v, 2, v / 4, v % 4); }
    else if k == 3 { LowPart(v, 3, v / 8, v % 8); }
    else if k == 4 { LowPart(v, 4, v / 16, v % 16); }
    else if k == 5 { LowPart(v, 5, v / 32, v % 32); }
    else { LowPart(v, 8, v / 256, v % 256); }
  }

  function Mask(k: nat): (m: nat)
    requires 0 < k < 6 || k == 8
    ensures m > 0
  {
    if k == 1 then 2 else if k == 2 then 4 else if k == 3 then 8 else if k == 4 then 16 else if k == 5 then 32 else 256
  }

  lemma {:induction false} SplitBits(v: nat, high: nat, low: nat)
    ensures LowBits(v, high + low) == LowBits(Shr(v, low), high) + LowBits(v, low)
  {
    if low > 0 {
      SplitBits(v / 2, high, low - 1);
      assert LowBits(v, low) == LowBits(v / 2, low - 1) + [v % 2 == 1];
    }
  }

  /** The shift-and-mask of the loops reads the oldest `k` pending bits. */
  lemma TopBits(value: nat, bits: nat, k: nat) returns (group: Bits)
    requires k <= bits && (k == 5 || k == 8)
    ensures LowBits(value, bits) == group + LowBits(value, bits - k)
    ensures |group| == k && FromBits(group) == Shr(value, bits - k) % Mask(k)
  {
    hide LowBits, FromBits, Shr;
    group := LowBits(Shr(value, bits - k), k);
    SplitBits(value, k, bits - k);
    Masked(Shr(value, bits - k), k);
  }

  lemma {:induction false} ZerosAppended(b: Bits, n: nat)
    ensures FromBits(b + Zeros(n)) == Shl(FromBits(b), n)
  {
    if n == 0 {
      assert b + Zeros(0) == b;
    } else {
      ZerosAppended(b, n - 1);
      var c := b + Zeros(n);
      assert c[..|c| - 1] == b + Zeros(n - 1) && !c[|c| - 1];
    }
  }

  /** The last, partial letter: `(value << (5 - bits)) & 31`. */
  lemma LastLetter(value: nat, bits: nat)
    requires 0 < bits < 5
    ensures FromBits(LowBits(value, bits) + Zeros(5 - bits)) == Shl(value, 5 - bits) % 32
  {
    hide LowBits, FromBits, Zeros, Shl, Mask;
    ZerosAppended(LowBits(value, bits), 5 - bits);
    Masked(value, bits);
    PadMasked(value, bits);
  }

  lemma PadMasked(value: nat, bits: nat)
    requires 0 < bits < 5
    ensures Shl(value % Mask(bits), 5 - bits) == Shl(value, 5 - bits) % 32
  {
    hide Shl;
    var c, n := value % Mask(bits), 5 - bits;
    Shifted(value, 0);
    Shifted(c, 0);
    if bits == 1 { ModScaled(value / 2, c, 16, 2); }
    else if bits == 2 { ModScaled(value / 4, c, 8, 4); }
    else if bits == 3 { ModScaled(value / 8, c, 4, 8); }
    else { ModScaled(value / 16, c, 2, 16); }
  }

  lemma ModScaled(q: nat, r: nat, scale: nat, m: nat)
    requires r < m && (scale, m) in {(16, 2), (8, 4), (4, 8), (2, 16)}
    ensures scale * (m * q + r) % 32 == scale * r
  {
    if scale == 16 {
      assert 16 * (2 * q + r) == 32 * q + 16 * r;
    } else if scale == 8 {
      assert 8 * (4 * q + r) == 32 * q + 8 * r;
    } else if scale == 4 {
      assert 4 * (8 * q + r) == 32 * q + 4 * r;
    } else {
      assert 2 * (16 * q + r) == 32 * q + 2 * r;
    }
  }

  // ---------- Grouping ----------

  lemma {:induction false} EncodeAppend(a: Bits, b: Bits)
    requires |a| % 5 == 0
    ensures EncodeBits(a + b) == EncodeBits(a) + EncodeBits(b)
    decreases |a|
  {
    hide Letter;
    if a == [] {
      assert a + b == b;
    } else {
      EncodeAppend(a[5..], b);
      assert (a + b)[..5] == a[..5] && (a + b)[5..] == a[5..] + b;
    }
  }

  lemma Append(done: Bits, group: Bits)
    requires |done| % 5 == 0 && |group| == 5
    ensures FromBits(group) < 32
    ensures EncodeBits(done + group) == EncodeBits(done) + [LetterAt(FromBits(group))]
  {
    EncodeAppend(done, group);
    Powers();
    assert group[..5] == group && group[5..] == [];
  }

  lemma AppendTail(done: Bits, tail: Bits)
    requires |done| % 5 == 0 && |tail| < 5
    ensures EncodeBits(done + tail) == EncodeBits(done) + (if tail == [] then "" else [Letter(tail + Zeros(5 - |tail|))])
  {
    EncodeAppend(done, tail);
  }

  lemma {:induction false} DecodeAppend(a: Bits, b: Bits)
    requires |a| % 8 == 0
    ensures DecodeBits(a + b) == DecodeBits(a) + DecodeBits(b)
    decreases |a|
  {
    hide ByteOf;
    if a == [] {
      assert a + b == b;
    } else {
      DecodeAppend(a[8..], b);
      assert (a + b)[..8] == a[..8] && (a + b)[8..] == a[8..] + b;
    }
  }

  lemma AppendByte(done: Bits, group: Bits)
    requires |done| % 8 == 0 && |group| == 8
    ensures DecodeBits(done + group) == DecodeBits(done) + [FromBits(group)]
  {
    DecodeAppend(done, group);
    assert group[..8] == group && group[8..] == [];
  }

  lemma DropTail(done: Bits, tail: Bits)
    requires |done| % 8 == 0 && |tail| < 8
    ensures DecodeBits(done + tail) == DecodeBits(done)
  {
    DecodeAppend(done, tail);
  }

  // ---------- Round trip ----------

  predicate Letters(s: string) {
    forall i :: 0 <= i < |s| ==> IndexOf(s[i]) >= 0
  }

  lemma LetterIndex(group: Bits)
    requires |group| == 5
    ensures IndexOf(Letter(group)) == FromBits(group)
  {
    hide ALPHABET;
    Powers();
    AlphabetAt(FromBits(group));
  }

  lemma {:induction false} EncodedLetters(b: Bits)
    ensures Letters(EncodeBits(b))
    ensures |EncodeBits(b)| == (|b| + 4) / 5
    decreases |b|
  {
    hide IndexOf, Letter;
    if 0 < |b| < 5 {
      LetterIndex(b + Zeros(5 - |b|));
    } else if |b| >= 5 {
      LetterIndex(b[..5]);
      EncodedLetters(b[5..]);
    }
  }

  lemma LetterStays(c: char)
    requires IndexOf(c) >= 0
    ensures Capitals(c) == [c]
  {
  }

  lemma {:induction false} LettersStay(s: string)
    requires Letters(s)
    ensures UpperCase(s) == s
    decreases |s|
  {
    hide IndexOf, Capitals;
    if s != "" {
      LetterStays(s[0]);
      LettersStay(s[1..]);
      assert s == [s[0]] + s[1..];
    }
  }

  /** Clean-up leaves a printed secret alone. */
  lemma CleanLetters(s: string)
    requires Letters(s)
    ensures UpperCase(StripPadding(s)) == s
  {
    if s != "" { assert IndexOf(s[|s| - 1]) >= 0; }
    LettersStay(s);
  }

  lemma {:induction false} LettersAppend(a: string, b: string)
    ensures LettersBits(a + b) == LettersBits(a) + LettersBits(b)
    decreases |b|
  {
    hide CharBits;
    if b == "" {
      assert a + b == a;
    } else {
      var c := b[..|b| - 1];
      LettersAppend(a, c);
      assert (a + b)[..|a| + |b| - 1] == a + c;
    }
  }

  lemma LetterBits(group: Bits)
    requires |group| == 5
    ensures LettersBits([Letter(group)]) == group
  {
    hide IndexOf, Letter, LowBits, FromBits;
    LetterIndex(group);
    NumberRoundTrip(group);
    var s := [Letter(group)];
    assert s[..0] == "";
  }

  /** How many zero bits the encoder pads with. */
  function Padding(bits: nat): (n: nat)
    ensures n < 5
  {
    (5 - bits % 5) % 5
  }

  lemma PaddingIs(bits: nat)
    ensures bits == 0 ==> Padding(bits) == 0
    ensures 0 < bits < 5 ==> Padding(bits) == 5 - bits
    ensures bits >= 5 ==> Padding(bits) == Padding(bits - 5)
  {
  }

  lemma EncodeUnfolds(b: Bits)
    ensures |b| >= 5 ==> EncodeBits(b) == [Letter(b[..5])] + EncodeBits(b[5..])
    ensures 0 < |b| < 5 ==> EncodeBits(b) == [Letter(b + Zeros(5 - |b|))]
  {
  }

  /** The letters carry the bits, and fewer than five zero bits more. */
  lemma {:induction false} EncodeKeepsBits(b: Bits)
    ensures LettersBits(EncodeBits(b)) == b + Zeros(Padding(|b|))
    decreases |b|
  {
    hide LettersBits, Letter, EncodeBits, Zeros, Padding;
    EncodeUnfolds(b);
    PaddingIs(|b|);
    if b == [] {
      Nothing(0);
    } else if |b| < 5 {
      LetterBits(b + Zeros(5 - |b|));
    } else {
      var group, tail, zeros := b[..5], b[5..], Zeros(Padding(|b|));
      LetterBits(group);
      EncodeKeepsBits(tail);
      LettersAppend([Letter(group)], EncodeBits(tail));
      Regroup(group, tail, zeros);
      assert group + tail == b;
    }
  }

  lemma {:induction false} DecodeBytes(bytes: seq<Byte>)
    ensures DecodeBits(BytesBits(bytes)) == bytes
  {
    hide DecodeBits, LowBits, FromBits;
    Nothing(0);
    if bytes != [] {
      var front, last := bytes[..|bytes| - 1], bytes[|bytes| - 1];
      DecodeBytes(front);
      Powers();
      BitsRoundTrip(last, 8);
      AppendByte(BytesBits(front), LowBits(last, 8));
    }
  }

  /** Decoding a printed secret gives back its bytes, whatever their number. */
  lemma RoundTrip(bytes: seq<Byte>)
    ensures Decoded(Encoded(bytes)) == bytes
    ensures |Encoded(bytes)| == (8 * |bytes| + 4) / 5
  {
    hide EncodeBits, DecodeBits, LettersBits, UpperCase, StripPadding, Letters, BytesBits;
    var b := BytesBits(bytes);
    EncodedLetters(b);
    CleanLetters(Encoded(bytes));
    EncodeKeepsBits(b);
    DropTail(b, Zeros(Padding(|b|)));
    DecodeBytes(bytes);
  }

  /** One byte prints as the letters of its upper five bits and of its lower three,
      moved up by two. */
  lemma OneByte(b: Byte)
    ensures Encoded([b]) == [LetterAt(b / 8), LetterAt(b % 8 * 4)]
  {
    hide EncodeBits, LowBits, Shr, Shl, LetterAt, WholeGroups;
    NoGroups();
    var group := FullGroup([], b, 8);
    assert [] + group == group;
    LastGroup(group, b, 3);
    assert [] + LowBits(b, 8) == LowBits(b, 8);
    OneByteBits(b);
    OneByteShifts(b);
    Nothing(b);
  }

  lemma OneByteBits(b: Byte)
    ensures BytesBits([b]) == LowBits(b, 8)
  {
    hide LowBits;
    assert [b][..0] == [];
    Nothing(b);
    assert [] + LowBits(b, 8) == LowBits(b, 8);
  }

  lemma OneByteShifts(b: Byte)
    ensures Shr(b, 3) % 32 == b / 8 && Shl(b, 2) % 32 == b % 8 * 4
  {
    assert Shr(b, 3) == Shr(b / 2, 2) == Shr(b / 2 / 2, 1) == Shr(b / 2 / 2 / 2, 0);
    assert Shl(b, 2) == 2 * Shl(b, 1) == 4 * Shl(b, 0) == 4 * b;
    assert 4 * b == 32 * (b / 8) + b % 8 * 4;
  }

  /** The published vector: the letter f prints as MY. */
  lemma PublishedVector()
    ensures Encoded([0x66]) == "MY"
  {
    OneByte(0x66);
    AlphabetAt(12);
    AlphabetAt(24);
    hide Encoded, ALPHABET;
  }

  // ---------- Case and ligatures ----------

  /** The same character, or the small letter of a capital. */
  predicate SameLetter(c: char, d: char) {
    c == d || ('A' <= d <= 'Z' && c == d - 'A' + 'a')
  }

  predicate SameLetters(s: string, t: string) {
    |s| == |t| && forall i :: 0 <= i < |s| ==> SameLetter(s[i], t[i])
  }

  lemma {:induction false} SameCapitals(s: string, t: string)
    requires SameLetters(s, t)
    ensures UpperCase(s) == UpperCase(t)
  {
    if s != "" {
      assert SameLetter(s[0], t[0]);
      SameCapitals(s[1..], t[1..]);
    }
  }

  lemma {:induction false} SamePadding(s: string, t: string)
    requires SameLetters(s, t)
    ensures SameLetters(StripPadding(s), StripPadding(t))
  {
    if s != "" && s[|s| - 1] == '=' {
      assert SameLetter(s[|s| - 1], t[|s| - 1]);
      SamePadding(s[..|s| - 1], t[..|s| - 1]);
    } else if s != "" {
      assert SameLetter(s[|s| - 1], t[|s| - 1]);
    }
  }

  /** A secret typed in small letters, in part or in whole, is the same secret. */
  lemma CaseIgnored(s: string, t: string)
    requires SameLetters(s, t)
    ensures Decoded(s) == Decoded(t)
  {
    SamePadding(s, t);
    SameCapitals(StripPadding(s), StripPadding(t));
  }

  lemma SmallLetter(c: char, capital: char)
    requires 'A' <= capital <= 'Z' && c as int == capital as int + 32
    ensures Capitals(c) == [capital]
  {
  }

  /** A ligature reads as its letters. */
  lemma LigaturesRead()
    ensures Capitals('\U{DF}') == Capitals('s') + Capitals('s') && Capitals('\U{FB00}') == Capitals('f') + Capitals('f')
    ensures Capitals('\U{FB01}') == Capitals('f') + Capitals('i') && Capitals('\U{FB02}') == Capitals('f') + Capitals('l')
    ensures Capitals('\U{FB03}') == Capitals('f') + Capitals('f') + Capitals('i')
    ensures Capitals('\U{FB04}') == Capitals('f') + Capitals('f') + Capitals('l')
    ensures Capitals('\U{FB05}') == Capitals('\U{FB06}') == Capitals('s') + Capitals('t')
  {
    SmallLetter('f', 'F');
    SmallLetter('i', 'I');
    SmallLetter('l', 'L');
    SmallLetter('s', 'S');
    SmallLetter('t', 'T');
  }

  /** A letter with a mark reads as the letter. */
  lemma MarkedLettersRead()
    ensures Capitals('\U{131}') == Capitals('i') && Capitals('\U{149}') == Capitals('n') && Capitals('\U{17F}') == Capitals('s')
    ensures Capitals('\U{1F0}') == Capitals('j') && Capitals('\U{1E96}') == Capitals('h') && Capitals('\U{1E97}') == Capitals('t')
    ensures Capitals('\U{1E98}') == Capitals('w') && Capitals('\U{1E99}') == Capitals('y') && Capitals('\U{1E9A}') == Capitals('a')
  {
    SmallLetter('i', 'I');
    SmallLetter('n', 'N');
    SmallLetter('s', 'S');
    SmallLetter('j', 'J');
    SmallLetter('h', 'H');
    SmallLetter('t', 'T');
    SmallLetter('w', 'W');
    SmallLetter('y', 'Y');
    SmallLetter('a', 'A');
  }
}
