/**
 * Text and number helpers the codecs share: decimal text of integers and its
 * parse (Python's str(int) and int()), zero-padded digit fields, float() on
 * decimal text, the two float renderings the writers use (str(float) and
 * the ".6f" format), round-half-to-even, and the single-character string
 * operations (strip, split, join, lower, upper, replace) the tag names and
 * values go through. Strings are sequences of Unicode scalar values; bytes are
 * integers 0..255.
 */
module Text {
  import opened Wrappers

  type Byte = x: int | 0 <= x < 256

  // ----- digits -----

  predicate IsDigit(c: char) { '0' <= c <= '9' }

  predicate AllDigits(s: string) { forall i :: 0 <= i < |s| ==> IsDigit(s[i]) }

  function DigitValue(c: char): nat
    requires IsDigit(c)
  {
    c as int - '0' as int
  }

  function DigitChar(d: nat): (c: char)
    requires d < 10
    ensures IsDigit(c) && DigitValue(c) == d
  {
    (d + '0' as int) as char
  }

  function Pow10(n: nat): (p: nat)
    ensures p >= 1
  {
    if n == 0 then 1 else 10 * Pow10(n - 1)
  }

  /** The value of a run of decimal digits, most significant first. */
  function DigitsValue(s: string): nat
    requires AllDigits(s)
  {
    if s == [] then 0 else 10 * DigitsValue(s[..|s| - 1]) + DigitValue(s[|s| - 1])
  }

  /** Decimal text of a natural number without leading zeros (str(n)). */
  function NatText(n: nat): (s: string)
    ensures 0 < |s| && AllDigits(s)
  {
    if n < 10 then [DigitChar(n)] else NatText(n / 10) + [DigitChar(n % 10)]
  }

  /** str(i) for a Python int. */
  function IntText(i: int): (s: string)
    ensures 0 < |s|
  {
    if i < 0 then "-" + NatText(-i) else NatText(i)
  }

  /** A field of exactly `width` digits, zero-padded on the left (strftime's %m, %06d, ...). */
  function PadDigits(n: nat, width: nat): (s: string)
    requires n < Pow10(width)
    ensures |s| == width && AllDigits(s)
  {
    if width == 0 then "" else PadDigits(n / 10, width - 1) + [DigitChar(n % 10)]
  }

  lemma {:induction false} DigitsValueOfNatText(n: nat)
    ensures DigitsValue(NatText(n)) == n
  {
    if n >= 10 {
      var s := NatText(n);
      assert s[..|s| - 1] == NatText(n / 10);
      DigitsValueOfNatText(n / 10);
    }
  }

  lemma {:induction false} DigitsValueOfPadDigits(n: nat, width: nat)
    requires n < Pow10(width)
    ensures DigitsValue(PadDigits(n, width)) == n
  {
    if width > 0 {
      var s := PadDigits(n, width);
      assert s[..|s| - 1] == PadDigits(n / 10, width - 1);
      DigitsValueOfPadDigits(n / 10, width - 1);
    }
  }

  lemma DigitsValueAppend(s: string, c: char)
    requires AllDigits(s) && IsDigit(c)
    ensures AllDigits(s + [c])
    ensures DigitsValue(s + [c]) == 10 * DigitsValue(s) + DigitValue(c)
  {
    assert (s + [c])[..|s + [c]| - 1] == s;
  }

  // ----- whitespace -----

  /** The ASCII characters Python's str.strip() and int()/float() treat as whitespace. */
  predicate IsSpace(c: char)
  {
    (9 <= c as int <= 13) || (28 <= c as int <= 32)
  }

  function LStrip(s: string): (t: string)
    ensures t == [] || !IsSpace(t[0])
  {
    if s != [] && IsSpace(s[0]) then LStrip(s[1..]) else s
  }

  function RStrip(s: string): (t: string)
    ensures t == [] || !IsSpace(t[|t| - 1])
  {
    if s != [] && IsSpace(s[|s| - 1]) then RStrip(s[..|s| - 1]) else s
  }

  /** str.strip(): the text without leading and trailing whitespace. */
  function Strip(s: string): string
  {
    RStrip(LStrip(s))
  }

  lemma StripUnspaced(s: string)
    requires s == [] || (!IsSpace(s[0]) && !IsSpace(s[|s| - 1]))
    ensures Strip(s) == s
  {
  }

  // ----- int() -----

  /** int(text): optional surrounding whitespace, an optional sign, then at least one digit. */
  function ParseInt(s: string): Option<int>
  {
    var t := Strip(s);
    if t != [] && (t[0] == '-' || t[0] == '+') then
      var body := t[1..];
      if body != [] && AllDigits(body) then
        var v: int := DigitsValue(body);
        Some(if t[0] == '-' then -v else v)
      else None
    else if t != [] && AllDigits(t) then Some(DigitsValue(t))
    else None
  }

  /** int() reads back every integer str() writes. */
  lemma ParseIntOfIntText(i: int)
    ensures ParseInt(IntText(i)) == Some(i)
  {
    var s := IntText(i);
    var m: nat := if i < 0 then -i else i;
    var d := NatText(m);
    assert IsDigit(d[0]) && IsDigit(d[|d| - 1]);
    DigitsValueOfNatText(m);
    if i < 0 {
      assert s == "-" + d;
      StripUnspaced(s);
      assert s[1..] == d;
    } else {
      assert s == d;
      StripUnspaced(s);
    }
  }

  // ----- rounding -----

  /** Round to the nearest integer, ties to the even neighbour (numpy.round, format()). */
  function RoundHalfEven(x: real): (r: int)
    ensures x - 1.0 / 2.0 <= r as real <= x + 1.0 / 2.0
    ensures (r as real - x == 1.0 / 2.0 || x - r as real == 1.0 / 2.0) ==> r % 2 == 0
  {
    var f := x.Floor;
    var d := x - f as real;
    if d < 1.0 / 2.0 then f
    else if d > 1.0 / 2.0 then f + 1
    else if f % 2 == 0 then f else f + 1
  }

  // ----- float() -----

  /** m * 10^e for an integer exponent. */
  function Scale10(m: real, e: int): real
  {
    if e >= 0 then m * Pow10(e) as real else m / Pow10(-e) as real
  }

  /** The digits of a mantissa "ddd", "ddd.ddd", ".ddd" or "ddd.": (integer part, fraction part). */
  function MantissaParts(s: string): Option<(string, string)>
  {
    match IndexOfChar(s, '.')
    case None => if s != [] && AllDigits(s) then Some((s, "")) else None
    case Some(p) =>
      var ip := s[..p];
      var fp := s[p + 1..];
      if AllDigits(ip) && AllDigits(fp) && |ip| + |fp| > 0 then Some((ip, fp)) else None
  }

  /** An exponent "ddd", "+ddd" or "-ddd". */
  function ParseExponent(s: string): Option<int>
  {
    if s != [] && (s[0] == '-' || s[0] == '+') then
      var body := s[1..];
      if body != [] && AllDigits(body) then
        var v: int := DigitsValue(body);
        Some(if s[0] == '-' then -v else v)
      else None
    else if s != [] && AllDigits(s) then Some(DigitsValue(s))
    else None
  }

  function UnsignedDecimal(s: string): Option<real>
  {
    var e := IndexOfExponent(s);
    var mant := if e.Some? then s[..e.value] else s;
    var expo := if e.Some? then ParseExponent(s[e.value + 1..]) else Some(0);
    match MantissaParts(mant)
    case None => None
    case Some(parts) =>
      if expo.None? then None
      else
        var digits := parts.0 + parts.1;
        Some(Scale10(DigitsValue(digits) as real, expo.value - |parts.1|))
  }

  function IndexOfExponent(s: string): (r: Option<nat>)
    ensures r.Some? ==> r.value < |s|
  {
    match IndexOfChar(s, 'e')
    case Some(i) => Some(i)
    case None => IndexOfChar(s, 'E')
  }

  /**
   * float(text) on decimal text: optional whitespace, an optional sign, a
   * mantissa with at least one digit, an optional exponent. The model's
   * floats are exact rationals, so the value is the exact decimal value.
   */
  function ParseFloat(s: string): Option<real>
  {
    SignedDecimal(Strip(s))
  }

  function SignedDecimal(t: string): Option<real>
  {
    if t != [] && (t[0] == '-' || t[0] == '+') then
      match UnsignedDecimal(t[1..])
      case None => None
      case Some(v) => Some(if t[0] == '-' then -v else v)
    else UnsignedDecimal(t)
  }

  // ----- float text -----

  /** The least number of fraction digits (at most 17) that writes `frac` exactly. */
  function FractionWidth(frac: real, k: nat): (w: nat)
    requires 1 <= k <= 17
    ensures k <= w <= 17
    decreases 17 - k
  {
    if k == 17 || (frac * Pow10(k) as real).Floor as real == frac * Pow10(k) as real then k
    else FractionWidth(frac, k + 1)
  }

  /**
   * str(float). Integral values below 10^16 are written as Python writes them
   * ("100000000.0"); other values as their decimal expansion with at most 17
   * fraction digits.
   */
  function FloatText(x: real): string
  {
    var a := if x < 0.0 then -x else x;
    var sign := if x < 0.0 then "-" else "";
    var ip := a.Floor;
    var frac := a - ip as real;
    if frac == 0.0 then sign + NatText(ip) + ".0"
    else
      var w := FractionWidth(frac, 1);
      var digits := (frac * Pow10(w) as real).Floor;
      sign + NatText(ip) + "." + PadDigits(if digits < Pow10(w) then digits else Pow10(w) - 1, w)
  }

  /** format(x, ".6f"): six fraction digits, rounded half to even; a negative value keeps its sign. */
  function FixedSix(x: real): string
  {
    var a := if x < 0.0 then -x else x;
    var q := RoundHalfEven(a * 1000000.0);
    Signed(x < 0.0, FixedBody(if q < 0 then 0 else q))
  }

  /** A body of digits with a leading minus sign when negative. */
  function Signed(negative: bool, body: string): string
  {
    (if negative then "-" else "") + body
  }

  /** q millionths written with six fraction digits. */
  function FixedBody(q: nat): string
  {
    NatText(q / 1000000) + "." + PadDigits(q % 1000000, 6)
  }

  /** float() of an optionally negated unsigned decimal with no surrounding whitespace. */
  lemma ParseFloatSigned(negative: bool, body: string, v: real)
    requires body != [] && IsDigit(body[0]) && IsDigit(body[|body| - 1])
    requires UnsignedDecimal(body) == Some(v)
    ensures ParseFloat(Signed(negative, body)) == Some(if negative then -v else v)
  {
    var t := Signed(negative, body);
    StripUnspaced(t);
    if negative {
      assert t[1..] == body;
      assert SignedDecimal(t) == Some(-v);
    } else {
      assert t == body;
      assert SignedDecimal(t) == Some(v);
    }
  }

  lemma FloatTextOfIntegral(n: int)
    ensures var m: nat := if n < 0 then -n else n;
            FloatText(n as real) == (if n < 0 then "-" else "") + (NatText(m) + "." + "0")
  {
    var x := n as real;
    var m: nat := if n < 0 then -n else n;
    assert (if x < 0.0 then -x else x).Floor == m;
  }

  lemma PointZeroValue(m: nat)
    ensures UnsignedDecimal(NatText(m) + "." + "0") == Some(m as real)
  {
    var ip := NatText(m);
    UnsignedDecimalOfPoint(ip, "0");
    DigitsValueAppend(ip, '0');
    DigitsValueOfNatText(m);
    assert ip + "0" == ip + ['0'];
    assert Pow10(1) == 10;
    assert Scale10((10 * m) as real, -1) == m as real;
  }

  /** float() reads back the text str() writes for an integral float. */
  lemma ParseFloatOfFloatText(n: int)
    ensures ParseFloat(FloatText(n as real)) == Some(n as real)
  {
    var m: nat := if n < 0 then -n else n;
    var body := NatText(m) + "." + "0";
    PointZeroValue(m);
    assert IsDigit(body[0]) && IsDigit(body[|body| - 1]);
    ParseFloatSigned(n < 0, body, m as real);
    FloatTextOfIntegral(n);
    assert Signed(n < 0, body) == FloatText(n as real);
  }

  /** The ".6f" text reads back as a value at most half a unit of the sixth decimal away. */
  lemma FixedSixWithinHalfUnit(x: real)
    ensures var v := ParseFloat(FixedSix(x));
            v.Some? && -1.0 / 2000000.0 <= v.value - x <= 1.0 / 2000000.0
  {
    var a := if x < 0.0 then -x else x;
    var q := RoundHalfEven(a * 1000000.0);
    assert q >= 0;
    assert FixedSix(x) == Signed(x < 0.0, FixedBody(q));
    SignedFixedValue(x < 0.0, q);
    ScaledRoundingError(x, a, q);
  }

  lemma SignedFixedValue(negative: bool, q: nat)
    ensures var v := q as real / 1000000.0;
            ParseFloat(Signed(negative, FixedBody(q))) == Some(if negative then -v else v)
  {
    var body := FixedBody(q);
    var v := q as real / 1000000.0;
    assert UnsignedDecimal(body) == Some(v) by {
      FixedSixBody(q);
    }
    assert body != [] && IsDigit(body[0]) && IsDigit(body[|body| - 1]) by {
      PointEnds(NatText(q / 1000000), PadDigits(q % 1000000, 6));
    }
    assert ParseFloat(Signed(negative, body)) == Some(if negative then -v else v) by {
      ParseFloatSigned(negative, body, v);
    }
  }

  lemma PointEnds(ip: string, fp: string)
    requires AllDigits(ip) && AllDigits(fp) && ip != [] && fp != []
    ensures var b := ip + "." + fp; IsDigit(b[0]) && IsDigit(b[|b| - 1])
  {
  }

  lemma ScaledRoundingError(x: real, a: real, q: int)
    requires a == (if x < 0.0 then -x else x)
    requires a * 1000000.0 - 1.0 / 2.0 <= q as real <= a * 1000000.0 + 1.0 / 2.0
    ensures var v := q as real / 1000000.0;
            var w := if x < 0.0 then -v else v;
            -1.0 / 2000000.0 <= w - x <= 1.0 / 2000000.0
  {
  }

  lemma FixedSixBody(q: nat)
    ensures UnsignedDecimal(FixedBody(q)) == Some(q as real / 1000000.0)
  {
    var ip := NatText(q / 1000000);
    var fp := PadDigits(q % 1000000, 6);
    FixedSixDigits(q);
    SixthsScale(q);
    PointValue(ip, fp, q, q as real / 1000000.0);
  }

  lemma SixthsScale(q: nat)
    ensures Scale10(q as real, -6) == q as real / 1000000.0
  {
    assert Pow10(6) == 1000000;
  }

  /** Digits, a point and digits read back as the scaled value of all the digits. */
  lemma PointValue(ip: string, fp: string, n: nat, v: real)
    requires AllDigits(ip) && AllDigits(fp) && ip != []
    requires DigitsValue(ip + fp) == n && Scale10(n as real, -|fp|) == v
    ensures UnsignedDecimal(ip + "." + fp) == Some(v)
  {
    UnsignedDecimalOfPoint(ip, fp);
  }

  lemma FixedSixDigits(q: nat)
    ensures DigitsValue(NatText(q / 1000000) + PadDigits(q % 1000000, 6)) == q
  {
    var ip := NatText(q / 1000000);
    var fp := PadDigits(q % 1000000, 6);
    DigitsValueOfNatText(q / 1000000);
    DigitsValueOfPadDigits(q % 1000000, 6);
    DigitsValueConcat(ip, fp);
    assert Pow10(6) == 1000000;
  }

  lemma {:induction false} DigitsValueConcat(s: string, t: string)
    requires AllDigits(s) && AllDigits(t)
    ensures AllDigits(s + t)
    ensures DigitsValue(s + t) == DigitsValue(s) * Pow10(|t|) + DigitsValue(t)
  {
    if t == [] {
      assert s + t == s;
    } else {
      var t' := t[..|t| - 1];
      var d := DigitValue(t[|t| - 1]);
      assert (s + t)[..|s + t| - 1] == s + t';
      assert (s + t)[|s + t| - 1] == t[|t| - 1];
      assert DigitsValue(t) == 10 * DigitsValue(t') + d;
      assert DigitsValue(s + t) == 10 * DigitsValue(s + t') + d;
      DigitsValueConcat(s, t');
      assert Pow10(|t|) == 10 * Pow10(|t'|);
      ShiftDecimal(DigitsValue(s), Pow10(|t'|), DigitsValue(t'), d);
    }
  }

  lemma ShiftDecimal(a: int, p: int, b: int, d: int)
    ensures 10 * (a * p + b) + d == a * (10 * p) + (10 * b + d)
  {
  }

  lemma AbsentFromNumber(ip: string, fp: string, c: char)
    requires AllDigits(ip) && AllDigits(fp) && !IsDigit(c) && c != '.'
    ensures c !in ip + "." + fp
  {
    var body := ip + "." + fp;
    forall k | 0 <= k < |body|
      ensures body[k] != c
    {
      if k < |ip| {
        assert body[k] == ip[k];
      } else if k > |ip| {
        assert body[k] == fp[k - |ip| - 1];
      }
    }
  }

  lemma MantissaPartsOfPoint(ip: string, fp: string)
    requires AllDigits(ip) && AllDigits(fp) && ip != []
    ensures MantissaParts(ip + "." + fp) == Some((ip, fp))
  {
    var body := ip + "." + fp;
    assert '.' !in ip;
    IndexOfCharAfter(ip, '.', fp);
    assert body[..|ip|] == ip;
    assert body[|ip| + 1..] == fp;
  }

  /** float() of "ip.fp" (digits, a point, digits) is the digits' value over 10^|fp|. */
  lemma UnsignedDecimalOfPoint(ip: string, fp: string)
    requires AllDigits(ip) && AllDigits(fp) && ip != []
    ensures AllDigits(ip + fp)
    ensures UnsignedDecimal(ip + "." + fp) == Some(Scale10(DigitsValue(ip + fp) as real, -|fp|))
  {
    var body := ip + "." + fp;
    AbsentFromNumber(ip, fp, 'e');
    AbsentFromNumber(ip, fp, 'E');
    assert IndexOfExponent(body) == None;
    MantissaPartsOfPoint(ip, fp);
    assert AllDigits(ip + fp);
  }

  // ----- single-character string operations -----

  function IndexOfChar(s: string, c: char): (r: Option<nat>)
    ensures r.Some? ==> r.value < |s| && s[r.value] == c && c !in s[..r.value]
    ensures r.None? ==> c !in s
  {
    if s == [] then None
    else if s[0] == c then Some(0)
    else match IndexOfChar(s[1..], c)
      case None => None
      case Some(i) =>
        assert s[..i + 1] == [s[0]] + s[1..][..i];
        Some(i + 1)
  }

  lemma {:induction false} IndexOfCharAfter(a: string, c: char, b: string)
    requires c !in a
    ensures IndexOfChar(a + [c] + b, c) == Some(|a|)
  {
    if a != [] {
      assert (a + [c] + b)[1..] == a[1..] + [c] + b;
      IndexOfCharAfter(a[1..], c, b);
    }
  }

  /** str.split(sep) for a one-character separator: never empty. */
  function Split(s: string, sep: char): (parts: seq<string>)
    ensures |parts| >= 1
    decreases |s|
  {
    match IndexOfChar(s, sep)
    case None => [s]
    case Some(i) => [s[..i]] + Split(s[i + 1..], sep)
  }

  /** sep.join(parts). */
  function Join(parts: seq<string>, sep: string): string
  {
    if |parts| == 0 then ""
    else if |parts| == 1 then parts[0]
    else parts[0] + sep + Join(parts[1..], sep)
  }

  /** Splitting a join on a separator none of the parts contains gives the parts back. */
  lemma {:induction false} SplitJoin(parts: seq<string>, sep: char)
    requires |parts| >= 1
    requires forall i :: 0 <= i < |parts| ==> sep !in parts[i]
    ensures Split(Join(parts, [sep]), sep) == parts
  {
    if |parts| > 1 {
      var rest := Join(parts[1..], [sep]);
      IndexOfCharAfter(parts[0], sep, rest);
      var s := parts[0] + [sep] + rest;
      assert s[..|parts[0]|] == parts[0];
      assert s[|parts[0]| + 1..] == rest;
      SplitJoin(parts[1..], sep);
    }
  }

  /** A character in neither the parts nor the separator is not in their join. */
  lemma {:induction false} JoinAbsent(parts: seq<string>, sep: string, c: char)
    requires c !in sep
    requires forall i :: 0 <= i < |parts| ==> c !in parts[i]
    ensures c !in Join(parts, sep)
  {
    if |parts| > 1 {
      JoinAbsent(parts[1..], sep, c);
    }
  }

  /** The text of an integer holds only digits and a leading minus. */
  lemma IntTextAbsent(i: int, c: char)
    requires !IsDigit(c) && c != '-'
    ensures c !in IntText(i)
  {
    var d := NatText(if i < 0 then -i else i);
    assert forall k :: 0 <= k < |d| ==> IsDigit(d[k]);
    if i < 0 {
      assert IntText(i) == "-" + d;
    }
  }

  function LowerChar(c: char): char
  {
    if 'A' <= c <= 'Z' then (c as int + 32) as char else c
  }

  function UpperChar(c: char): char
  {
    if 'a' <= c <= 'z' then (c as int - 32) as char else c
  }

  /** str.lower() on ASCII letters. */
  function Lower(s: string): (t: string)
    ensures |t| == |s| && forall i :: 0 <= i < |s| ==> t[i] == LowerChar(s[i])
  {
    seq(|s|, i requires 0 <= i < |s| => LowerChar(s[i]))
  }

  /** str.upper() on ASCII letters. */
  function Upper(s: string): (t: string)
    ensures |t| == |s| && forall i :: 0 <= i < |s| ==> t[i] == UpperChar(s[i])
  {
    seq(|s|, i requires 0 <= i < |s| => UpperChar(s[i]))
  }

  /** str.replace(c, r) for a one-character pattern. */
  function ReplaceChar(s: string, c: char, r: string): (t: string)
    ensures c !in r ==> c !in t
  {
    if s == [] then [] else (if s[0] == c then r else [s[0]]) + ReplaceChar(s[1..], c, r)
  }

  lemma {:induction false} ReplaceConcat(a: string, b: string, c: char, r: string)
    ensures ReplaceChar(a + b, c, r) == ReplaceChar(a, c, r) + ReplaceChar(b, c, r)
  {
    if a != [] {
      assert (a + b)[0] == a[0] && (a + b)[1..] == a[1..] + b;
      ReplaceConcat(a[1..], b, c, r);
    } else {
      assert a + b == b;
    }
  }

  lemma {:induction false} ReplaceAbsent(s: string, c: char, r: string)
    requires c !in s
    ensures ReplaceChar(s, c, r) == s
  {
    if s != [] {
      ReplaceAbsent(s[1..], c, r);
    }
  }

  // ----- substrings -----

  predicate OccursAt(s: string, pat: string, i: nat)
  {
    i + |pat| <= |s| && s[i..i + |pat|] == pat
  }

  predicate Contains(s: string, pat: string)
  {
    exists i: nat | i <= |s| :: OccursAt(s, pat, i)
  }

  // ----- encoding -----

  /** The UTF-8 encoding of one character. */
  function Utf8(c: char): (b: seq<Byte>)
    ensures 1 <= |b| <= 4
    ensures c as int < 128 ==> b == [c as int]
  {
    var n := c as int;
    if n < 0x80 then [n]
    else if n < 0x800 then [0xC0 + n / 64, 0x80 + n % 64]
    else if n < 0x10000 then [0xE0 + n / 4096, 0x80 + (n / 64) % 64, 0x80 + n % 64]
    else [0xF0 + n / 262144, 0x80 + (n / 4096) % 64, 0x80 + (n / 64) % 64, 0x80 + n % 64]
  }

  /** str.encode("utf-8"). */
  function Encode(s: string): seq<Byte>
  {
    if s == [] then [] else Utf8(s[0]) + Encode(s[1..])
  }

  predicate IsAscii(s: string)
  {
    forall i :: 0 <= i < |s| ==> s[i] as int < 128
  }

  /** ASCII text encodes to one byte per character, the character's code. */
  lemma {:induction false} EncodeAscii(s: string)
    requires IsAscii(s)
    ensures |Encode(s)| == |s|
    ensures forall i :: 0 <= i < |s| ==> Encode(s)[i] == s[i] as int
  {
    if s != [] {
      EncodeAscii(s[1..]);
    }
  }

  lemma {:induction false} EncodeConcat(s: string, t: string)
    ensures Encode(s + t) == Encode(s) + Encode(t)
  {
    if s != [] {
      assert (s + t)[1..] == s[1..] + t;
      EncodeConcat(s[1..], t);
    } else {
      assert s + t == t;
    }
  }
}
