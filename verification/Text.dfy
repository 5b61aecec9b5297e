// Strings as the preprocessors use them: Go's ordering on strings, white space
// trimming, and the decimal formats produced by strconv and fmt.
module Text {

  /** Go's `a < b` on strings. For valid UTF-8 the order of the bytes is the order of the code points. */
  predicate Less(a: string, b: string) {
    if b == "" then false
    else if a == "" then true
    else if a[0] == b[0] then Less(a[1..], b[1..])
    else a[0] < b[0]
  }

  lemma {:induction false} LessTotal(a: string, b: string)
    ensures a == b || Less(a, b) || Less(b, a)
    ensures !(Less(a, b) && Less(b, a))
    ensures !Less(a, a)
  {
    if a != "" && b != "" && a[0] == b[0] {
      LessTotal(a[1..], b[1..]);
      assert a == [a[0]] + a[1..] && b == [b[0]] + b[1..];
    }
    LessIrreflexive(a);
  }

  lemma {:induction false} LessIrreflexive(a: string)
    ensures !Less(a, a)
  {
    if a != "" {
      LessIrreflexive(a[1..]);
    }
  }

  lemma {:induction false} LessTransitive(a: string, b: string, c: string)
    requires Less(a, b) && Less(b, c)
    ensures Less(a, c)
  {
    if a != "" && a[0] == b[0] && b[0] == c[0] {
      LessTransitive(a[1..], b[1..], c[1..]);
    }
  }

  /** The complement of `Less` is transitive as well, which is what sorting by a key needs. */
  lemma NotLessTransitive(a: string, b: string, c: string)
    requires !Less(b, a) && !Less(c, b)
    ensures !Less(c, a)
  {
    LessTotal(a, b);
    LessTotal(b, c);
    if Less(c, a) {
      if a == b || b == c {
      } else {
        LessTransitive(c, a, b);
      }
    }
  }

  /** Strings that start with equally long parts are ordered by those parts first. */
  lemma {:induction false} LessOfParts(p: string, q: string, r: string, s: string)
    requires |p| == |q|
    ensures Less(p + r, q + s) <==> Less(p, q) || (p == q && Less(r, s))
  {
    if p == "" {
      assert p + r == r && q + s == s;
    } else {
      assert (p + r)[1..] == p[1..] + r && (q + s)[1..] == q[1..] + s;
      assert p == [p[0]] + p[1..] && q == [q[0]] + q[1..];
      LessOfParts(p[1..], q[1..], r, s);
    }
  }

  // ---------------------------------------------------------------- white space

  /** unicode.IsSpace. */
  predicate IsSpace(c: char) {
    || c == ' ' || '\t' <= c <= '\r'
    || c == '\U{0085}' || c == '\U{00A0}' || c == '\U{1680}'
    || '\U{2000}' <= c <= '\U{200A}'
    || c == '\U{2028}' || c == '\U{2029}' || c == '\U{202F}' || c == '\U{205F}' || c == '\U{3000}'
  }

  function TrimLeft(s: string): (r: string)
    ensures |r| <= |s| && r == s[|s| - |r|..]
    ensures r != "" ==> !IsSpace(r[0])
    ensures forall i :: 0 <= i < |s| - |r| ==> IsSpace(s[i])
  {
    if s != "" && IsSpace(s[0]) then TrimLeft(s[1..]) else s
  }

  function TrimRight(s: string): (r: string)
    ensures |r| <= |s| && r == s[..|r|]
    ensures r != "" ==> !IsSpace(r[|r| - 1])
    ensures forall i :: |r| <= i < |s| ==> IsSpace(s[i])
  {
    if s != "" && IsSpace(s[|s| - 1]) then TrimRight(s[..|s| - 1]) else s
  }

  /** strings.TrimSpace. */
  function TrimSpace(s: string): (r: string)
    ensures r != "" ==> !IsSpace(r[0]) && !IsSpace(r[|r| - 1])
  {
    TrimRight(TrimLeft(s))
  }

  /** `r` is `s` without the first `i` and the last `j` characters, which are spaces. */
  ghost predicate IsStripped(s: string, r: string, i: nat, j: nat) {
    && i + |r| + j == |s| && s[i..i + |r|] == r
    && (forall k :: 0 <= k < i ==> IsSpace(s[k])) && forall k :: |s| - j <= k < |s| ==> IsSpace(s[k])
  }

  lemma {:induction false} TrimLeftStrips(s: string) returns (i: nat)
    ensures IsStripped(s, TrimLeft(s), i, 0)
  {
    i := 0;
    if s != "" && IsSpace(s[0]) {
      i := TrimLeftStrips(s[1..]);
      i := i + 1;
      assert forall k :: 0 < k < |s| ==> s[k] == s[1..][k - 1];
    }
  }

  lemma {:induction false} TrimRightStrips(s: string) returns (j: nat)
    ensures IsStripped(s, TrimRight(s), 0, j)
  {
    j := 0;
    if s != "" && IsSpace(s[|s| - 1]) {
      j := TrimRightStrips(s[..|s| - 1]);
      j := j + 1;
    }
  }

  /** Only spaces at the two ends are removed, and no space is left there. */
  lemma TrimSpaceStrips(s: string)
    ensures exists i, j :: IsStripped(s, TrimSpace(s), i, j)
    ensures TrimSpace(s) != "" ==> !IsSpace(TrimSpace(s)[0]) && !IsSpace(TrimSpace(s)[|TrimSpace(s)| - 1])
  {
    var i := TrimLeftStrips(s);
    var j := TrimRightStrips(TrimLeft(s));
    hide TrimLeft, TrimRight;
    StrippedTwice(s, TrimLeft(s), TrimSpace(s), i, j);
  }

  lemma StrippedTwice(s: string, left: string, r: string, i: nat, j: nat)
    requires IsStripped(s, left, i, 0) && IsStripped(left, r, 0, j)
    ensures IsStripped(s, r, i, j)
  {
    assert forall k :: 0 <= k < |left| ==> left[k] == s[i + k];
    assert forall k :: |s| - j <= k < |s| ==> s[k] == left[k - i];
  }

  lemma TrimSpaceKeepsTrimmed(s: string)
    requires s != "" ==> !IsSpace(s[0]) && !IsSpace(s[|s| - 1])
    ensures TrimSpace(s) == s
  {
    assert TrimLeft(s) == s;
    assert TrimRight(s) == s;
  }

  // ---------------------------------------------------------------- decimal numbers

  predicate IsDigit(c: char) { '0' <= c <= '9' }

  predicate IsDigits(s: string) { forall i :: 0 <= i < |s| ==> IsDigit(s[i]) }

  function DigitChar(d: nat): (c: char)
    requires d < 10
    ensures IsDigit(c) && (c as int) - ('0' as int) == d
  {
    ('0' as int + d) as char
  }

  /** The digits of `n` without leading zeros, as strconv writes them. */
  function Decimal(n: nat): (s: string)
    ensures s != "" && IsDigits(s)
  {
    if n < 10 then [DigitChar(n)] else Decimal(n / 10) + [DigitChar(n % 10)]
  }

  /** The number a string of digits denotes. */
  function DecimalValue(s: string): nat
    requires IsDigits(s)
  {
    if s == "" then 0
    else 10 * DecimalValue(s[..|s| - 1]) + (s[|s| - 1] as int - '0' as int)
  }

  lemma {:induction false} DecimalRoundTrip(n: nat)
    ensures DecimalValue(Decimal(n)) == n
  {
    if n < 10 {
      assert Decimal(n)[..0] == "";
    } else {
      DecimalRoundTrip(n / 10);
      assert Decimal(n)[..|Decimal(n)| - 1] == Decimal(n / 10);
    }
  }

  function Zeros(n: nat): (s: string)
    ensures |s| == n
  {
    seq(n, _ => '0')
  }

  lemma {:induction false} ZerosHaveNoValue(k: nat)
    ensures IsDigits(Zeros(k)) && DecimalValue(Zeros(k)) == 0
  {
    if k > 0 {
      ZerosHaveNoValue(k - 1);
      assert Zeros(k)[..k - 1] == Zeros(k - 1);
    }
  }

  lemma {:induction false} LeadingZeros(k: nat, s: string)
    requires IsDigits(s)
    ensures IsDigits(Zeros(k) + s) && DecimalValue(Zeros(k) + s) == DecimalValue(s)
  {
    if s == "" {
      ZerosHaveNoValue(k);
      assert Zeros(k) + s == Zeros(k);
    } else {
      LeadingZeros(k, s[..|s| - 1]);
      assert (Zeros(k) + s)[..k + |s| - 1] == Zeros(k) + s[..|s| - 1];
    }
  }

  /** Every string of digits is a decimal number behind some zeros. */
  lemma {:induction false} DigitsArePadded(s: string) returns (k: nat)
    requires s != "" && IsDigits(s)
    ensures s == Zeros(k) + Decimal(DecimalValue(s))
  {
    var front, last := s[..|s| - 1], s[|s| - 1];
    k := 0;
    if front == "" {
      assert s == [last];
    } else {
      k := DigitsArePadded(front);
      DecimalStep(DecimalValue(front), last);
      hide Decimal;
      if DecimalValue(front) == 0 {
        k := k + 1;
        assert Zeros(k) == Zeros(k - 1) + "0";
      }
      assert s == front + [last];
    }
  }

  lemma DecimalStep(n: nat, last: char)
    requires IsDigit(last)
    ensures Decimal(0) == "0"
    ensures Decimal(10 * n + (last as int - '0' as int)) == (if n == 0 then [] else Decimal(n)) + [last]
  {
    var d := last as int - '0' as int;
    assert DigitChar(d) == last;
    assert (10 * n + d) / 10 == n && (10 * n + d) % 10 == d;
  }

  /** strconv.FormatInt(n, 10), and fmt's %d. */
  function FormatInt(n: int): string {
    if n < 0 then "-" + Decimal(-n) else Decimal(n)
  }

  lemma SignedStartsDifferently(negative: int, other: int)
    requires negative < 0 <= other
    ensures FormatInt(negative) != FormatInt(other)
  {
    assert FormatInt(negative)[0] == '-';
    assert IsDigit(FormatInt(other)[0]);
  }

  lemma FormatIntInjective(a: int, b: int)
    requires FormatInt(a) == FormatInt(b)
    ensures a == b
  {
    if a < 0 && b < 0 {
      assert Decimal(-a) == FormatInt(a)[1..] == FormatInt(b)[1..] == Decimal(-b);
      DecimalRoundTrip(-a);
      DecimalRoundTrip(-b);
    } else if a >= 0 && b >= 0 {
      DecimalRoundTrip(a);
      DecimalRoundTrip(b);
    } else {
      SignedStartsDifferently(if a < 0 then a else b, if a < 0 then b else a);
    }
  }

  /** Pads on the left with zeros up to a width, as the `0` flag of fmt does. */
  function ZeroPad(s: string, width: nat): (r: string)
    ensures |s| <= width ==> |r| == width
  {
    if |s| < width then Zeros(width - |s|) + s else s
  }

  /** The last `width` digits of `n`. */
  function FixedWidth(n: nat, width: nat): (s: string)
    ensures |s| == width
  {
    if width == 0 then "" else FixedWidth(n / 10, width - 1) + [DigitChar(n % 10)]
  }

  lemma {:induction false} FixedWidthIsDigits(n: nat, width: nat)
    ensures IsDigits(FixedWidth(n, width))
  {
    if width > 0 {
      FixedWidthIsDigits(n / 10, width - 1);
    }
  }

  function Pow10(k: nat): (p: nat)
    ensures p > 0
  {
    if k == 0 then 1 else 10 * Pow10(k - 1)
  }

  lemma {:induction false} FixedWidthOfZero(width: nat)
    ensures FixedWidth(0, width) == Zeros(width)
  {
    if width > 0 {
      FixedWidthOfZero(width - 1);
      assert Zeros(width) == Zeros(width - 1) + ['0'];
      assert DigitChar(0) == '0';
    }
  }

  lemma {:induction false} ZeroPadIsFixedWidth(n: nat, width: nat)
    requires 0 < width && n < Pow10(width)
    ensures |Decimal(n)| <= width
    ensures ZeroPad(Decimal(n), width) == FixedWidth(n, width)
  {
    if n < 10 {
      FixedWidthOfZero(width - 1);
      assert n / 10 == 0;
      assert ZeroPad(Decimal(n), width) == Zeros(width - 1) + Decimal(n);
    } else {
      assert Pow10(1) == 10;
      assert n / 10 < Pow10(width - 1);
      ZeroPadIsFixedWidth(n / 10, width - 1);
      assert ZeroPad(Decimal(n), width) == ZeroPad(Decimal(n / 10), width - 1) + [DigitChar(n % 10)];
    }
  }

  /** On numbers that fit the width, the string order is the numeric order. */
  lemma {:induction false} FixedWidthOrder(a: nat, b: nat, width: nat)
    requires a < Pow10(width) && b < Pow10(width)
    ensures Less(FixedWidth(a, width), FixedWidth(b, width)) <==> a < b
    ensures FixedWidth(a, width) == FixedWidth(b, width) <==> a == b
  {
    if width > 0 {
      var p, q := FixedWidth(a / 10, width - 1), FixedWidth(b / 10, width - 1);
      var c, d := DigitChar(a % 10), DigitChar(b % 10);
      assert a / 10 < Pow10(width - 1) && b / 10 < Pow10(width - 1);
      FixedWidthOrder(a / 10, b / 10, width - 1);
      LessOfParts(p, q, [c], [d]);
      assert Less([c], [d]) <==> c < d;
      assert a == 10 * (a / 10) + a % 10 && b == 10 * (b / 10) + b % 10;
      if FixedWidth(a, width) == FixedWidth(b, width) {
        assert p == FixedWidth(a, width)[..width - 1] == FixedWidth(b, width)[..width - 1] == q;
        assert c == FixedWidth(a, width)[width - 1] == d;
      }
    }
  }

  lemma Pow10Of19()
    ensures Pow10(19) == 10_000_000_000_000_000_000
    ensures Pow10(20) == 100_000_000_000_000_000_000
  {
    assert Pow10(4) == 10_000;
    assert Pow10(8) == 100_000_000;
    assert Pow10(12) == 1_000_000_000_000;
    assert Pow10(16) == 10_000_000_000_000_000;
  }
}
