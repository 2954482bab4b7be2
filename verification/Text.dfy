/** Text helpers shared by the import, document and coverage models: the
    whitespace that `String.prototype.trim` removes, digit filtering, decimal
    printing and ASCII case mapping. */
module Text {

  datatype Option<+T> = None | Some(value: T)

  /** The characters `trim` strips: ECMAScript white space and line terminators. */
  predicate IsSpace(c: char) {
    || c in "\t\n\U{B}\U{C}\r \U{A0}\U{1680}\U{2028}\U{2029}\U{202F}\U{205F}\U{3000}\U{FEFF}"
    || '\U{2000}' <= c <= '\U{200A}'
  }

  function Trim(s: string): string {
    if s == "" then s
    else if IsSpace(s[0]) then Trim(s[1..])
    else if IsSpace(s[|s| - 1]) then Trim(s[..|s| - 1])
    else s
  }

  /** Text trims to nothing exactly when every character is white space. */
  lemma {:induction false} TrimEmptyIffBlank(s: string)
    ensures Trim(s) == "" <==> forall i :: 0 <= i < |s| ==> IsSpace(s[i])
    decreases |s|
  {
    if s == "" {
    } else if IsSpace(s[0]) {
      TrimEmptyIffBlank(s[1..]);
      assert forall i :: 0 < i < |s| ==> s[i] == s[1..][i - 1];
    } else if IsSpace(s[|s| - 1]) {
      TrimEmptyIffBlank(s[..|s| - 1]);
      assert s[..|s| - 1][0] == s[0];
    }
  }

  predicate Blank(s: string) {
    forall i :: 0 <= i < |s| ==> IsSpace(s[i])
  }

  lemma BlankAround(c: char, s: string)
    requires IsSpace(c) && Blank(s)
    ensures Blank([c] + s) && Blank(s + [c])
  {
    hide IsSpace;
  }

  /** Trimming takes white space off both ends and nothing else. */
  lemma {:induction false} TrimMeans(s: string) returns (left: string, right: string)
    ensures s == left + (Trim(s) + right) && Blank(left) && Blank(right)
    ensures var t := Trim(s); t != "" ==> !IsSpace(t[0]) && !IsSpace(t[|t| - 1])
    decreases |s|
  {
    hide IsSpace, Blank;
    left, right := "", "";
    NothingBlank();
    if s == "" {
      assert s == left + (s + right);
    } else if IsSpace(s[0]) {
      left, right := TrimMeans(s[1..]);
      BlankAround(s[0], left);
      assert s == [s[0]] + s[1..];
      assert [s[0]] + (left + (Trim(s) + right)) == [s[0]] + left + (Trim(s) + right);
      left := [s[0]] + left;
    } else if IsSpace(s[|s| - 1]) {
      var front, last := s[..|s| - 1], s[|s| - 1];
      left, right := TrimMeans(front);
      BlankAround(last, right);
      assert s == front + [last];
      assert left + (Trim(s) + right) + [last] == left + (Trim(s) + (right + [last]));
      right := right + [last];
    } else {
      assert s == left + (s + right);
    }
  }

  lemma NothingBlank()
    ensures Blank("")
  {
  }

  predicate IsDigit(c: char) {
    '0' <= c <= '9'
  }

  predicate AllDigits(s: string) {
    forall i :: 0 <= i < |s| ==> IsDigit(s[i])
  }

  /** `value.replace(/\D/g, '')`. */
  function OnlyDigits(s: string): (r: string)
    ensures AllDigits(r)
    ensures AllDigits(s) ==> r == s
  {
    if s == "" then ""
    else (if IsDigit(s[0]) then [s[0]] else "") + OnlyDigits(s[1..])
  }

  function DigitChar(d: nat): (c: char)
    requires d < 10
    ensures IsDigit(c) && DigitValue(c) == d
  {
    '0' + d as char
  }

  function DigitValue(c: char): nat
    requires IsDigit(c)
  {
    (c - '0') as int
  }

  /** `String(n)` for a natural number. */
  function Decimal(n: nat): (s: string)
    ensures s != "" && AllDigits(s)
  {
    if n < 10 then [DigitChar(n)] else Decimal(n / 10) + [DigitChar(n % 10)]
  }

  function ToUpper(s: string): (r: string)
    ensures |r| == |s|
  {
    seq(|s|, i requires 0 <= i < |s| => if 'a' <= s[i] <= 'z' then s[i] - 'a' + 'A' else s[i])
  }

  function ToLower(s: string): (r: string)
    ensures |r| == |s|
  {
    seq(|s|, i requires 0 <= i < |s| => if 'A' <= s[i] <= 'Z' then s[i] - 'A' + 'a' else s[i])
  }

  /** Each character is kept or dropped on its own, and the digits keep their order. */
  lemma {:induction false} OnlyDigitsAppend(a: string, b: string)
    ensures OnlyDigits(a + b) == OnlyDigits(a) + OnlyDigits(b)
  {
    hide IsDigit;
    if a == "" {
      assert a + b == b;
      assert OnlyDigits(a) == "";
    } else {
      OnlyDigitsAppend(a[1..], b);
      assert (a + b)[1..] == a[1..] + b && (a + b)[0] == a[0];
      var kept := if IsDigit(a[0]) then [a[0]] else "";
      assert kept + (OnlyDigits(a[1..]) + OnlyDigits(b)) == kept + OnlyDigits(a[1..]) + OnlyDigits(b);
    }
  }

  lemma OnlyDigitsOne(c: char)
    ensures OnlyDigits([c]) == if IsDigit(c) then [c] else ""
  {
    assert [c][1..] == "";
  }

  /** `Number(s)` of a digit string; the empty one is zero. */
  function NumberOf(s: string): nat
    requires AllDigits(s)
  {
    if s == "" then 0 else 10 * NumberOf(s[..|s| - 1]) + DigitValue(s[|s| - 1])
  }

  /** A printed number reads as itself. */
  lemma {:induction false} DecimalReads(n: nat)
    ensures NumberOf(Decimal(n)) == n
  {
    if n < 10 {
      assert [DigitChar(n)][..0] == "";
    } else {
      DecimalReads(n / 10);
      var s := Decimal(n / 10) + [DigitChar(n % 10)];
      assert s[..|s| - 1] == Decimal(n / 10);
    }
  }

  /** Spaces, tabs, line ends, the no-break space and the byte order mark are white
      space; letters, digits and punctuation are not. */
  lemma WhiteSpaceMeans(c: char)
    ensures c == ' ' || c == '\t' || c == '\n' || c == '\r' || c == '\U{A0}' || c == '\U{FEFF}' || c == '\U{3000}' ==> IsSpace(c)
    ensures '!' <= c <= '~' || '\U{A1}' <= c <= '\U{FF}' ==> !IsSpace(c)
  {
  }

  /** Case mapping moves the twenty-six letters by 32 and nothing else, so either
      direction undoes the other on text of the one case. */
  lemma CaseMeans(s: string)
    ensures forall i :: 0 <= i < |s| ==> ToUpper(s)[i] as int == s[i] as int - if 97 <= s[i] as int <= 122 then 32 else 0
    ensures ToUpper(ToLower(s)) == ToUpper(s) && ToLower(ToUpper(s)) == ToLower(s)
    ensures ToUpper(ToUpper(s)) == ToUpper(s)
  {
    forall i | 0 <= i < |s| ensures ToUpper(s)[i] as int == s[i] as int - if 97 <= s[i] as int <= 122 then 32 else 0 {
    }
  }
}
