/**
 * The binary sections of a WV file. A section is written
 *   {NAME-count:#<count - 1 payload bytes>}
 * where the count includes the closing brace. The loader finds a section
 * by three searches over the bytes: the tag after a '{', the decimal
 * count after "NAME-", then "count:#" (or "count: #"); the payload
 * follows. A full read checks the count against the bytes there and the
 * brace after the payload; a partial read (a file read only up to some
 * point) keeps everything after the '#'.
 */
module WvBinary {
  import opened Wrappers
  import opened Text
  import opened Sequences

  const LBrace: Byte := 123
  const RBrace: Byte := 125
  const Colon: Byte := 58
  const Dash: Byte := 45
  const Hash: Byte := 35
  const Space: Byte := 32
  const UpperW: Byte := 87

  /** str.encode() of ASCII text: one byte per character. */
  function Ascii(s: string): (b: seq<Byte>)
    requires IsAscii(s)
    ensures |b| == |s| && forall i :: 0 <= i < |s| ==> b[i] == s[i] as int
  {
    seq(|s|, i requires 0 <= i < |s| => s[i] as int)
  }

  lemma AsciiIsEncode(s: string)
    requires IsAscii(s)
    ensures Ascii(s) == Encode(s)
  {
    EncodeAscii(s);
  }

  /** bytes.decode() of ASCII bytes. */
  function Chars(b: seq<Byte>): (s: string)
    ensures |s| == |b| && forall i :: 0 <= i < |b| ==> s[i] as int == b[i]
  {
    seq(|b|, i requires 0 <= i < |b| => b[i] as char)
  }

  /** The decimal text of a count, as bytes (str(n).encode()). */
  function CountBytes(n: nat): (b: seq<Byte>)
    ensures |b| == |NatText(n)| > 0
    ensures forall i :: 0 <= i < |b| ==> b[i] == NatText(n)[i] as int && IsDigitByte(b[i])
  {
    var s := NatText(n);
    seq(|s|, i requires 0 <= i < |s| => s[i] as int)
  }

  lemma CountBytesValue(n: nat)
    ensures Chars(CountBytes(n)) == NatText(n)
    ensures DigitsValue(Chars(CountBytes(n))) == n
  {
    DigitsValueOfNatText(n);
  }

  predicate IsDigitByte(b: Byte)
  {
    48 <= b <= 57
  }

  /** \w in a bytes pattern: an ASCII letter, digit or underscore. */
  predicate IsWordByte(b: Byte)
  {
    IsDigitByte(b) || 65 <= b <= 90 || 97 <= b <= 122 || b == 95
  }

  /** `pat` occurs in `s` at `i`. */
  predicate BytesAt(s: seq<Byte>, pat: seq<Byte>, i: int)
  {
    0 <= i && i + |pat| <= |s| && s[i..i + |pat|] == pat
  }

  /** The length of the run of decimal digits starting at `q` (what a greedy [\d]+ takes). */
  function DigitRun(s: seq<Byte>, q: nat): (n: nat)
    requires q <= |s|
    ensures q + n <= |s|
    ensures forall i :: q <= i < q + n ==> IsDigitByte(s[i])
    ensures q + n == |s| || !IsDigitByte(s[q + n])
    decreases |s| - q
  {
    if q == |s| || !IsDigitByte(s[q]) then 0 else 1 + DigitRun(s, q + 1)
  }

  /** A match of (?<={)TAG at `p`. */
  predicate TagAt(content: seq<Byte>, tag: seq<Byte>, p: int)
  {
    1 <= p <= |content| && content[p - 1] == LBrace && BytesAt(content, tag, p)
  }

  /** A match of (?<=TAG\-)([\d]+)(?=\:) at `q`: the digits after "TAG-", then a colon. */
  predicate CountAt(tc: seq<Byte>, tag: seq<Byte>, q: int)
  {
    q >= |tag| + 1 && q <= |tc| && BytesAt(tc, tag + [Dash], q - |tag| - 1)
    && var n := DigitRun(tc, q); n > 0 && q + n < |tc| && tc[q + n] == Colon
  }

  /** A match of "count:( |)#" at `r`, `digits` being the count's decimal text. */
  predicate SectionAt(tc: seq<Byte>, digits: seq<Byte>, r: int)
  {
    BytesAt(tc, digits + [Colon], r)
    && (BytesAt(tc, [Space, Hash], r + |digits| + 1) || BytesAt(tc, [Hash], r + |digits| + 1))
  }

  /** The three searches, as the predicates First scans with. */
  function TagSearch(content: seq<Byte>, tag: seq<Byte>): int -> bool
  {
    p => TagAt(content, tag, p)
  }

  function CountSearch(tc: seq<Byte>, tag: seq<Byte>): int -> bool
  {
    q => CountAt(tc, tag, q)
  }

  function SectionSearch(tc: seq<Byte>, digits: seq<Byte>): int -> bool
  {
    r => SectionAt(tc, digits, r)
  }

  /** Where that match ends: just after the '#'. */
  function SectionEnd(tc: seq<Byte>, digits: seq<Byte>, r: int): (e: nat)
    requires SectionAt(tc, digits, r)
    ensures 1 <= e <= |tc| && tc[e - 1] == Hash
  {
    r + |digits| + 1 + (if BytesAt(tc, [Space, Hash], r + |digits| + 1) then 2 else 1)
  }

  /**
   * _extract_binary_tags(content, tag, partial_read): None when no '{'
   * precedes the tag; a ValueError when the count or the "count:#" marker
   * is missing, or, on a full read, when the count overruns the bytes or
   * the byte after the payload is not '}'.
   */
  function ExtractBinaryTag(content: seq<Byte>, tag: seq<Byte>, partial: bool): (r: Result<Option<seq<Byte>>>)
    ensures r == Ok(None) <==> forall p :: !TagAt(content, tag, p)
    ensures r.Err? ==> SectionError(r.error)
  {
    NoTag(content, tag);
    match First(TagSearch(content, tag), 0, |content|)
    case None => Ok(None)
    case Some(p) => ReadSection(content[p..], |content|, tag, partial)
  }

  /** The byte count written after "TAG-" at `q`. */
  function CountValue(tc: seq<Byte>, q: nat): nat
    requires q <= |tc|
  {
    DigitsValue(Chars(tc[q..q + DigitRun(tc, q)]))
  }

  /**
   * The rest of _extract_binary_tags, on `tc`, the bytes from the tag on
   * (`size` being the length of the whole content).
   */
  function ReadSection(tc: seq<Byte>, size: nat, tag: seq<Byte>, partial: bool): (r: Result<Option<seq<Byte>>>)
    ensures r.Ok? ==> r.value.Some?
    ensures r.Err? ==> SectionError(r.error)
  {
    match First(CountSearch(tc, tag), 0, |tc|)
    case None => Err(ValueError(NoByteCount))
    case Some(q) => ReadCounted(tc, size, CountValue(tc, q), partial)
  }

  /** Finding "count:#" and cutting the payload, once the count is known. */
  function ReadCounted(tc: seq<Byte>, size: nat, count: nat, partial: bool): (r: Result<Option<seq<Byte>>>)
    ensures r.Ok? ==> r.value.Some?
    ensures r.Err? ==> SectionError(r.error)
  {
    var digits := CountBytes(count);
    match First(SectionSearch(tc, digits), 0, |tc|)
    case None => Err(ValueError(NoSection))
    case Some(r) => Cut(tc, size, count, partial, SectionEnd(tc, digits, r))
  }

  /** The cut after the '#' at `start`: to the byte before the file's end, or `count - 1` bytes closed by a brace. */
  function Cut(tc: seq<Byte>, size: nat, count: nat, partial: bool, start: nat): (r: Result<Option<seq<Byte>>>)
    ensures r.Ok? ==> r.value.Some?
    ensures r.Err? ==> SectionError(r.error)
  {
    var stop := (if partial then size else start + count) - 1;
    if !partial && start + count > |tc| then Err(ValueError(CountInconclusive))
    else if !partial && !ClosedAt(tc, stop) then Err(ValueError(NoClosingBrace))
    else Ok(Some(Slice(tc, start, stop)))
  }

  /** The errors a malformed section raises. */
  predicate SectionError(e: Error)
  {
    e in {ValueError(NoByteCount), ValueError(NoSection), ValueError(CountInconclusive), ValueError(NoClosingBrace)}
  }

  /** The byte at `i` is the closing brace. */
  predicate ClosedAt(tc: seq<Byte>, i: int)
  {
    0 <= i < |tc| && tc[i] == RBrace
  }

  /** The tag search fails exactly when no '{' precedes the tag anywhere. */
  lemma NoTag(content: seq<Byte>, tag: seq<Byte>)
    ensures First(TagSearch(content, tag), 0, |content|).None? <==> forall p :: !TagAt(content, tag, p)
  {
    var r := First(TagSearch(content, tag), 0, |content|);
    if r.None? {
      forall p
        ensures !TagAt(content, tag, p)
      {
        if 0 <= p <= |content| {
          assert !TagSearch(content, tag)(p);
        }
      }
    }
  }

  /** The bytes the saver writes for a section: {NAME-(n+1):#, the n payload bytes, '}'. */
  function Section(name: string, payload: seq<Byte>): (s: seq<Byte>)
    requires IsAscii(name)
    ensures |s| >= |name| + |payload| + 5
  {
    [LBrace] + Body(Ascii(name), CountBytes(|payload| + 1), payload)
  }

  /**
   * A section written after any bytes that hold no '{' + tag is read back:
   * a full read returns the payload, a partial read everything after '#'.
   * The tag may not contain '{' or ':'.
   */
  lemma SectionRoundTrip(prefix: seq<Byte>, name: string, payload: seq<Byte>, rest: seq<Byte>)
    requires IsAscii(name) && '{' !in name && ':' !in name
    requires forall p :: !TagAt(prefix, Ascii(name), p)
    ensures ExtractBinaryTag(prefix + Section(name, payload) + rest, Ascii(name), false) == Ok(Some(payload))
    ensures ExtractBinaryTag(prefix + Section(name, payload) + rest, Ascii(name), true) == Ok(Some(payload + [RBrace] + rest))
  {
    var t := Ascii(name);
    var tc := Body(t, CountBytes(|payload| + 1), payload) + rest;
    var content := prefix + Section(name, payload) + rest;
    assert content == prefix + [LBrace] + tc;
    BodyLayout(t, CountBytes(|payload| + 1), payload, rest);
    TagFound(prefix, t, tc);
    assert content[|prefix| + 1..] == tc;
    ReadBody(t, payload, rest, |content|);
  }

  /** Reading a section body gives its payload (full read) or all that follows the '#' (partial read). */
  lemma ReadBody(t: seq<Byte>, payload: seq<Byte>, rest: seq<Byte>, size: nat)
    requires Colon !in t
    requires size > |Body(t, CountBytes(|payload| + 1), payload) + rest|
    ensures ReadSection(Body(t, CountBytes(|payload| + 1), payload) + rest, size, t, false) == Ok(Some(payload))
    ensures ReadSection(Body(t, CountBytes(|payload| + 1), payload) + rest, size, t, true) == Ok(Some(payload + [RBrace] + rest))
  {
    var d := CountBytes(|payload| + 1);
    var tc := Body(t, d, payload) + rest;
    BodyLayout(t, d, payload, rest);
    CountLaidOut(t, d, |payload|, tc, size);
    ReadLaidOut(t, d, payload, rest, tc, size);
  }

  /** The count search over a section body finds the count the saver wrote. */
  lemma CountLaidOut(t: seq<Byte>, d: seq<Byte>, n: nat, tc: seq<Byte>, size: nat)
    requires d == CountBytes(n + 1)
    requires |tc| > |t| + 1 + |d|
    requires tc[..|t| + 1] == t + [Dash] && tc[|t| + 1..|t| + 1 + |d|] == d
    requires tc[|t| + 1 + |d|] == Colon
    ensures ReadSection(tc, size, t, false) == ReadCounted(tc, size, n + 1, false)
    ensures ReadSection(tc, size, t, true) == ReadCounted(tc, size, n + 1, true)
  {
    var q := |t| + 1;
    CountFound(t, d, tc);
    assert tc[q..q + DigitRun(tc, q)] == d;
    CountValueOf(tc, q, n + 1);
  }

  /** The section search over a section body, and the cut that follows. */
  lemma ReadLaidOut(t: seq<Byte>, d: seq<Byte>, payload: seq<Byte>, rest: seq<Byte>, tc: seq<Byte>, size: nat)
    requires Colon !in t && d == CountBytes(|payload| + 1)
    requires |tc| == |t| + |d| + 4 + |payload| + |rest| < size
    requires tc[..|t| + 1] == t + [Dash] && tc[|t| + 1..|t| + 1 + |d|] == d
    requires tc[|t| + 1 + |d|] == Colon && tc[|t| + 2 + |d|] == Hash
    requires tc[|t| + |d| + 3..|t| + |d| + 3 + |payload|] == payload
    requires tc[|t| + |d| + 3 + |payload|] == RBrace
    requires tc[|t| + |d| + 3..] == payload + [RBrace] + rest
    ensures ReadCounted(tc, size, |payload| + 1, false) == Ok(Some(payload))
    ensures ReadCounted(tc, size, |payload| + 1, true) == Ok(Some(payload + [RBrace] + rest))
  {
    ReadLaidFull(t, d, payload, tc, size);
    ReadLaidPartial(t, d, payload, rest, tc, size);
  }

  /** The full read of a section body stops at the '}' the count points to. */
  lemma ReadLaidFull(t: seq<Byte>, d: seq<Byte>, payload: seq<Byte>, tc: seq<Byte>, size: nat)
    requires Colon !in t && d == CountBytes(|payload| + 1)
    requires |tc| >= |t| + |d| + 4 + |payload|
    requires tc[..|t| + 1] == t + [Dash] && tc[|t| + 1..|t| + 1 + |d|] == d
    requires tc[|t| + 1 + |d|] == Colon && tc[|t| + 2 + |d|] == Hash
    requires tc[|t| + |d| + 3..|t| + |d| + 3 + |payload|] == payload
    requires tc[|t| + |d| + 3 + |payload|] == RBrace
    ensures ReadCounted(tc, size, |payload| + 1, false) == Ok(Some(payload))
  {
    MarkerCut(t, d, tc, size, |payload| + 1, false);
    ReadFound(tc, size, |payload| + 1, |t| + |d| + 3, payload);
  }

  /** The partial read of a section body keeps everything after the '#'. */
  lemma ReadLaidPartial(t: seq<Byte>, d: seq<Byte>, payload: seq<Byte>, rest: seq<Byte>, tc: seq<Byte>, size: nat)
    requires Colon !in t && d == CountBytes(|payload| + 1)
    requires |t| + |d| + 3 <= |tc| < size
    requires tc[..|t| + 1] == t + [Dash] && tc[|t| + 1..|t| + 1 + |d|] == d
    requires tc[|t| + 1 + |d|] == Colon && tc[|t| + 2 + |d|] == Hash
    requires tc[|t| + |d| + 3..] == payload + [RBrace] + rest
    ensures ReadCounted(tc, size, |payload| + 1, true) == Ok(Some(payload + [RBrace] + rest))
  {
    MarkerCut(t, d, tc, size, |payload| + 1, true);
    ReadPartial(tc, size, |payload| + 1, |t| + |d| + 3);
  }

  /** In a section body the read is the cut right after the '#'. */
  lemma MarkerCut(t: seq<Byte>, d: seq<Byte>, tc: seq<Byte>, size: nat, count: nat, partial: bool)
    requires Colon !in t && d == CountBytes(count)
    requires |tc| > |t| + 2 + |d| && tc[..|t| + 1] == t + [Dash]
    requires tc[|t| + 1..|t| + 1 + |d|] == d && tc[|t| + 1 + |d|] == Colon && tc[|t| + 2 + |d|] == Hash
    ensures ReadCounted(tc, size, count, partial) == Cut(tc, size, count, partial, |t| + |d| + 3)
  {
    SectionFound(t, d, tc);
    ReadCountedAt(tc, size, count, partial, |t| + 1);
  }

  /** Once the marker search stops at `r`, the read is the cut after that marker. */
  lemma ReadCountedAt(tc: seq<Byte>, size: nat, count: nat, partial: bool, r: int)
    requires First(SectionSearch(tc, CountBytes(count)), 0, |tc|) == Some(r)
    ensures SectionAt(tc, CountBytes(count), r)
    ensures ReadCounted(tc, size, count, partial) == Cut(tc, size, count, partial, SectionEnd(tc, CountBytes(count), r))
  {
  }

  /** A partial read after a '#' at `start` takes every byte up to the end of a file larger than what is read. */
  lemma ReadPartial(tc: seq<Byte>, size: nat, count: nat, start: nat)
    requires start <= |tc| < size
    ensures Cut(tc, size, count, true, start) == Ok(Some(tc[start..]))
  {
    SliceToEnd(tc, start, size - 1);
  }

  /** A full read after a '#' at `start` cuts `count - 1` bytes closed by a brace. */
  lemma ReadFound(tc: seq<Byte>, size: nat, count: nat, start: nat, payload: seq<Byte>)
    requires count == |payload| + 1 && start + count <= |tc|
    requires tc[start..start + |payload|] == payload && tc[start + |payload|] == RBrace
    ensures Cut(tc, size, count, false, start) == Ok(Some(payload))
  {
    var stop := start + count - 1;
    assert ClosedAt(tc, stop);
    assert Slice(tc, start, stop) == payload;
  }

  lemma CountValueOf(tc: seq<Byte>, q: nat, n: nat)
    requires q <= |tc| && tc[q..q + DigitRun(tc, q)] == CountBytes(n)
    ensures CountValue(tc, q) == n
  {
    CountBytesValue(n);
  }

  /** What follows the '{' of a section, up to and including its '}'. */
  function Body(t: seq<Byte>, d: seq<Byte>, payload: seq<Byte>): seq<Byte>
  {
    t + [Dash] + d + [Colon, Hash] + payload + [RBrace]
  }

  /** Where each part of a section body lies. */
  lemma BodyLayout(t: seq<Byte>, d: seq<Byte>, payload: seq<Byte>, rest: seq<Byte>)
    ensures var tc := Body(t, d, payload) + rest;
      var h := |t| + 1 + |d|;
      && |tc| == h + 3 + |payload| + |rest|
      && tc[..|t| + 1] == t + [Dash]
      && tc[|t| + 1..h] == d
      && tc[h] == Colon && tc[h + 1] == Hash
      && tc[h + 2..h + 2 + |payload|] == payload
      && tc[h + 2 + |payload|] == RBrace
      && tc[h + 2..] == payload + [RBrace] + rest
  {
    var a := t + [Dash];
    var b := a + d;
    var c := b + [Colon, Hash];
    var e := c + payload;
    var tc := e + [RBrace] + rest;
    assert Body(t, d, payload) + rest == tc;
    assert tc[..|a|] == a;
    assert tc[|a|..|b|] == d;
    assert tc[|c|..|e|] == payload;
    assert tc[|c|..] == payload + [RBrace] + rest;
  }

  /** The tag search stops at the section's own '{'. */
  lemma TagFound(prefix: seq<Byte>, t: seq<Byte>, tc: seq<Byte>)
    requires LBrace !in t && BytesAt(tc, t, 0)
    requires forall p :: !TagAt(prefix, t, p)
    ensures First(TagSearch(prefix + [LBrace] + tc, t), 0, |prefix + [LBrace] + tc|) == Some(|prefix| + 1)
  {
    var content := prefix + [LBrace] + tc;
    assert content[|prefix| + 1..] == tc;
    assert TagAt(content, t, |prefix| + 1);
    forall p | 0 <= p < |prefix| + 1
      ensures !TagAt(content, t, p)
    {
      NoTagBefore(prefix, t, tc, p);
    }
    FirstIs(TagSearch(content, t), 0, |content|, |prefix| + 1);
  }

  lemma NoTagBefore(prefix: seq<Byte>, t: seq<Byte>, tc: seq<Byte>, p: int)
    requires LBrace !in t && BytesAt(tc, t, 0)
    requires forall p :: !TagAt(prefix, t, p)
    requires 0 <= p <= |prefix|
    ensures !TagAt(prefix + [LBrace] + tc, t, p)
  {
    var content := prefix + [LBrace] + tc;
    if 1 <= p && p + |t| <= |prefix| {
      assert content[p..p + |t|] == prefix[p..p + |t|];
      assert content[p - 1] == prefix[p - 1];
      assert !TagAt(prefix, t, p);
    } else if 1 <= p && p + |t| <= |content| {
      assert content[p..p + |t|][|prefix| - p] == LBrace;
    }
  }

  /** The count search stops right after "TAG-". */
  lemma CountFound(t: seq<Byte>, d: seq<Byte>, tc: seq<Byte>)
    requires |tc| > |t| + 1 + |d| && tc[..|t| + 1] == t + [Dash]
    requires tc[|t| + 1..|t| + 1 + |d|] == d && tc[|t| + 1 + |d|] == Colon
    requires d != [] && forall i :: 0 <= i < |d| ==> IsDigitByte(d[i])
    ensures DigitRun(tc, |t| + 1) == |d|
    ensures First(CountSearch(tc, t), 0, |tc|) == Some(|t| + 1)
  {
    CountHere(t, d, tc);
    FirstIs(CountSearch(tc, t), 0, |tc|, |t| + 1);
  }

  lemma CountHere(t: seq<Byte>, d: seq<Byte>, tc: seq<Byte>)
    requires |tc| > |t| + 1 + |d| && tc[..|t| + 1] == t + [Dash]
    requires tc[|t| + 1..|t| + 1 + |d|] == d && tc[|t| + 1 + |d|] == Colon
    requires d != [] && forall i :: 0 <= i < |d| ==> IsDigitByte(d[i])
    ensures DigitRun(tc, |t| + 1) == |d|
    ensures CountAt(tc, t, |t| + 1)
  {
    var q := |t| + 1;
    DigitsWithin(tc, q, d);
    assert tc[q + |d|] == Colon && !IsDigitByte(Colon);
    RunOfDigits(tc, q, |d|);
    assert tc[0..q] == t + [Dash];
  }

  lemma DigitsWithin(s: seq<Byte>, q: nat, d: seq<Byte>)
    requires q + |d| <= |s| && s[q..q + |d|] == d
    requires forall i :: 0 <= i < |d| ==> IsDigitByte(d[i])
    ensures forall i :: q <= i < q + |d| ==> IsDigitByte(s[i])
  {
    forall i | q <= i < q + |d|
      ensures IsDigitByte(s[i])
    {
      assert s[i] == d[i - q];
    }
  }

  /** A run of `k` digits followed by a non-digit is what DigitRun measures. */
  lemma {:induction false} RunOfDigits(s: seq<Byte>, q: nat, k: nat)
    requires q + k < |s| && !IsDigitByte(s[q + k])
    requires forall i :: q <= i < q + k ==> IsDigitByte(s[i])
    ensures DigitRun(s, q) == k
    decreases k
  {
    if k > 0 {
      RunOfDigits(s, q + 1, k - 1);
    }
  }

  /** The "count:#" search stops at the count itself, since no colon comes earlier. */
  lemma SectionFound(t: seq<Byte>, d: seq<Byte>, tc: seq<Byte>)
    requires |tc| > |t| + 2 + |d| && tc[..|t| + 1] == t + [Dash]
    requires tc[|t| + 1..|t| + 1 + |d|] == d && tc[|t| + 1 + |d|] == Colon && tc[|t| + 2 + |d|] == Hash
    requires Colon !in t && forall i :: 0 <= i < |d| ==> IsDigitByte(d[i])
    ensures First(SectionSearch(tc, d), 0, |tc|) == Some(|t| + 1)
    ensures SectionEnd(tc, d, |t| + 1) == |t| + |d| + 3
  {
    SectionAtCount(t, d, tc);
    NoSectionBefore(t, d, tc);
    FirstIs(SectionSearch(tc, d), 0, |tc|, |t| + 1);
  }

  /** The marker "count:#" is found right after the dash, with no blank before the '#'. */
  lemma SectionAtCount(t: seq<Byte>, d: seq<Byte>, tc: seq<Byte>)
    requires |tc| > |t| + 2 + |d| && tc[..|t| + 1] == t + [Dash]
    requires tc[|t| + 1..|t| + 1 + |d|] == d && tc[|t| + 1 + |d|] == Colon && tc[|t| + 2 + |d|] == Hash
    ensures SectionAt(tc, d, |t| + 1)
    ensures SectionEnd(tc, d, |t| + 1) == |t| + |d| + 3
  {
    var r0 := |t| + 1;
    assert tc[r0..r0 + |d| + 1] == d + [Colon];
    assert !BytesAt(tc, [Space, Hash], r0 + |d| + 1);
    assert BytesAt(tc, [Hash], r0 + |d| + 1);
  }

  /** No match starts before the count: it would need a colon where the tag or the digits are. */
  lemma NoSectionBefore(t: seq<Byte>, d: seq<Byte>, tc: seq<Byte>)
    requires |tc| > |t| + 2 + |d| && tc[..|t| + 1] == t + [Dash]
    requires tc[|t| + 1..|t| + 1 + |d|] == d
    requires Colon !in t && forall i :: 0 <= i < |d| ==> IsDigitByte(d[i])
    ensures forall r :: 0 <= r < |t| + 1 ==> !SectionAt(tc, d, r)
  {
    forall r | 0 <= r < |t| + 1
      ensures !SectionAt(tc, d, r)
    {
      NoColonBefore(t, d, tc, r + |d|);
    }
  }

  /** Before the colon that ends the count, no byte is a colon. */
  lemma NoColonBefore(t: seq<Byte>, d: seq<Byte>, tc: seq<Byte>, c: int)
    requires |tc| > |t| + 1 + |d| && tc[..|t| + 1] == t + [Dash]
    requires tc[|t| + 1..|t| + 1 + |d|] == d
    requires Colon !in t && forall i :: 0 <= i < |d| ==> IsDigitByte(d[i])
    requires 0 <= c < |t| + 1 + |d|
    ensures tc[c] != Colon
  {
    if c <= |t| {
      assert tc[c] == (t + [Dash])[c];
    } else {
      assert tc[c] == d[c - |t| - 1];
    }
  }

  // ----- the waveform section -----

  /** "WAVEFORM" and "WWAVEFORM" as bytes. */
  const WaveformTag: seq<Byte> := [87, 65, 86, 69, 70, 79, 82, 77]
  const EncryptedTag: seq<Byte> := [UpperW] + WaveformTag

  lemma TagNames()
    ensures WaveformTag == Ascii("WAVEFORM") && EncryptedTag == Ascii("WWAVEFORM")
  {
  }

  /** One word byte, then WAVEFORM, at `p` (what \w{0,1}WAVEFORM takes when it can). */
  predicate WordPrefixedAt(content: seq<Byte>, p: int)
  {
    0 <= p < |content| && IsWordByte(content[p]) && BytesAt(content, WaveformTag, p + 1)
  }

  /** A match of (?<={)(\w{0,1}WAVEFORM) at `p`. */
  predicate WaveformAt(content: seq<Byte>, p: int)
  {
    1 <= p <= |content| && content[p - 1] == LBrace
    && (WordPrefixedAt(content, p) || BytesAt(content, WaveformTag, p))
  }

  function WaveformSearch(content: seq<Byte>): int -> bool
  {
    p => WaveformAt(content, p)
  }

  /** The text the match covers: the greedy \w{0,1} takes the word byte when WAVEFORM follows it. */
  function WaveformMatch(content: seq<Byte>, p: int): (m: seq<Byte>)
    requires WaveformAt(content, p)
    ensures 8 <= |m| <= 9
  {
    if WordPrefixedAt(content, p) then content[p..p + 9] else content[p..p + 8]
  }

  /**
   * _is_waveform_encrypted: the byte before WAVEFORM in the matched tag
   * decides. None means a plain waveform, 'W' an encrypted one; any other
   * word byte (a lower-case 'w' included) is refused.
   */
  function IsWaveformEncrypted(matched: seq<Byte>): (r: Result<bool>)
    requires |matched| >= 8
    ensures r == Ok(false) <==> |matched| == 8
    ensures r == Ok(true) <==> |matched| == 9 && matched[0] == UpperW
    ensures r.Err? <==> |matched| > 9 || (|matched| == 9 && matched[0] != UpperW)
  {
    var prefix := matched[..|matched| - 8];
    if prefix == [] then Ok(false)
    else if prefix == [UpperW] then Ok(true)
    else Err(ValueError(UnknownWaveformPrefix))
  }

  /**
   * _extract_waveform: the first "{WAVEFORM" or "{xWAVEFORM" decides
   * whether the waveform is encrypted, then the section of that name is
   * read. Returns the waveform bytes and the encryption flag.
   */
  function ExtractWaveform(content: seq<Byte>, partial: bool): (r: Result<(seq<Byte>, bool)>)
    ensures r == Err(ValueError(NoWaveformTag)) <==> forall p :: !WaveformAt(content, p)
  {
    NoWaveform(content);
    match First(WaveformSearch(content), 0, |content|)
    case None => Err(ValueError(NoWaveformTag))
    case Some(p) =>
      var encrypted :- IsWaveformEncrypted(WaveformMatch(content, p));
      var tag := if encrypted then EncryptedTag else WaveformTag;
      WaveformNamesSection(content, p, encrypted);
      var iq :- ExtractBinaryTag(content, tag, partial);
      Ok((iq.value, encrypted))
  }

  lemma NoWaveform(content: seq<Byte>)
    ensures First(WaveformSearch(content), 0, |content|).None? <==> forall p :: !WaveformAt(content, p)
  {
    if First(WaveformSearch(content), 0, |content|).None? {
      forall p
        ensures !WaveformAt(content, p)
      {
        if 0 <= p <= |content| {
          assert !WaveformSearch(content)(p);
        }
      }
    }
  }

  /** The section the waveform match names is there, so reading it never finds nothing. */
  lemma WaveformNamesSection(content: seq<Byte>, p: int, encrypted: bool)
    requires WaveformAt(content, p)
    requires IsWaveformEncrypted(WaveformMatch(content, p)) == Ok(encrypted)
    ensures TagAt(content, if encrypted then EncryptedTag else WaveformTag, p)
  {
    if encrypted {
      assert content[p..p + 9] == [UpperW] + content[p + 1..p + 9];
    }
  }

  /**
   * A waveform section written after bytes holding no waveform tag is read
   * back with the encryption flag its name carries: the payload on a full
   * read, everything after the '#' on a partial one.
   */
  lemma WaveformRoundTrip(prefix: seq<Byte>, encrypted: bool, payload: seq<Byte>, rest: seq<Byte>)
    requires forall p :: !WaveformAt(prefix, p)
    ensures var content := prefix + Section(if encrypted then "WWAVEFORM" else "WAVEFORM", payload) + rest;
      && ExtractWaveform(content, false) == Ok((payload, encrypted))
      && ExtractWaveform(content, true) == Ok((payload + [RBrace] + rest, encrypted))
  {
    TagNames();
    assert '{' !in "WWAVEFORM" && ':' !in "WWAVEFORM" && '{' !in "WAVEFORM" && ':' !in "WAVEFORM";
    WaveformSectionRead(prefix, if encrypted then "WWAVEFORM" else "WAVEFORM", encrypted, payload, rest);
  }

  lemma WaveformSectionRead(prefix: seq<Byte>, name: string, encrypted: bool, payload: seq<Byte>, rest: seq<Byte>)
    requires IsAscii(name) && '{' !in name && ':' !in name
    requires Ascii(name) == if encrypted then EncryptedTag else WaveformTag
    requires forall p :: !WaveformAt(prefix, p)
    ensures ExtractWaveform(prefix + Section(name, payload) + rest, false) == Ok((payload, encrypted))
    ensures ExtractWaveform(prefix + Section(name, payload) + rest, true) == Ok((payload + [RBrace] + rest, encrypted))
  {
    var t := Ascii(name);
    var tc := Body(t, CountBytes(|payload| + 1), payload) + rest;
    var content := prefix + Section(name, payload) + rest;
    assert content == prefix + [LBrace] + tc;
    BodyLayout(t, CountBytes(|payload| + 1), payload, rest);
    WaveformFound(prefix, t, tc);
    forall p
      ensures !TagAt(prefix, t, p)
    {
      TagIsWaveform(prefix, t, p);
    }
    SectionRoundTrip(prefix, name, payload, rest);
  }

  /** A section tag after '{' is a waveform match there. */
  lemma TagIsWaveform(content: seq<Byte>, t: seq<Byte>, p: int)
    requires t == WaveformTag || t == EncryptedTag
    ensures TagAt(content, t, p) ==> WaveformAt(content, p)
  {
    if TagAt(content, t, p) && t == EncryptedTag {
      assert content[p + 1..p + 9] == content[p..p + 9][1..];
    }
  }

  /** The waveform search stops at the section's '{', and matches its name. */
  lemma WaveformFound(prefix: seq<Byte>, t: seq<Byte>, tc: seq<Byte>)
    requires t == WaveformTag || t == EncryptedTag
    requires |tc| > |t| && tc[..|t| + 1] == t + [Dash]
    requires forall p :: !WaveformAt(prefix, p)
    ensures First(WaveformSearch(prefix + [LBrace] + tc), 0, |prefix + [LBrace] + tc|) == Some(|prefix| + 1)
    ensures WaveformMatch(prefix + [LBrace] + tc, |prefix| + 1) == t
  {
    var content := prefix + [LBrace] + tc;
    var p0 := |prefix| + 1;
    assert content[p0..] == tc;
    assert content[p0..p0 + |t|] == t;
    if t == EncryptedTag {
      assert content[p0 + 1..p0 + 9] == t[1..];
      assert WordPrefixedAt(content, p0);
    } else {
      assert t[1] == 65;
      assert tc[1] == tc[..|t| + 1][1] == (t + [Dash])[1] == t[1];
      assert content[p0 + 1] == content[p0..][1] == tc[1];
    }
    forall p | 0 <= p < p0
      ensures !WaveformAt(content, p)
    {
      NoWaveformBefore(prefix, tc, p);
    }
    FirstIs(WaveformSearch(content), 0, |content|, p0);
  }

  lemma NoWaveformBefore(prefix: seq<Byte>, tc: seq<Byte>, p: int)
    requires forall p :: !WaveformAt(prefix, p)
    requires 0 <= p <= |prefix|
    ensures !WaveformAt(prefix + [LBrace] + tc, p)
  {
    var content := prefix + [LBrace] + tc;
    if 1 <= p && p + 9 <= |prefix| {
      assert !WaveformAt(prefix, p);
      assert content[p - 1] == prefix[p - 1] && content[p] == prefix[p];
      assert content[p + 1..p + 9] == prefix[p + 1..p + 9];
      assert content[p..p + 8] == prefix[p..p + 8];
    } else if 1 <= p {
      var k := |prefix| - p;
      assert LBrace !in WaveformTag;
      if k == 0 {
        assert content[p] == LBrace;
      } else if p + 9 <= |content| {
        assert content[p + 1..p + 9][k - 1] == LBrace;
      }
      if k < 8 && p + 8 <= |content| {
        assert content[p..p + 8][k] == LBrace;
      } else if k == 8 {
        assert !WaveformAt(prefix, p);
        assert content[p - 1] == prefix[p - 1];
        assert content[p..p + 8] == prefix[p..p + 8];
      }
    }
  }

  /** A word byte other than 'W' before WAVEFORM is refused. */
  lemma UnknownPrefixRefused(prefix: seq<Byte>, c: Byte, rest: seq<Byte>, partial: bool)
    requires IsWordByte(c) && c != UpperW
    requires forall p :: !WaveformAt(prefix, p)
    ensures ExtractWaveform(prefix + [LBrace, c] + WaveformTag + rest, partial) == Err(ValueError(UnknownWaveformPrefix))
  {
    var tc := [c] + WaveformTag + rest;
    var content := prefix + [LBrace] + tc;
    assert prefix + [LBrace, c] + WaveformTag + rest == content;
    var p0 := |prefix| + 1;
    assert content[p0..] == tc;
    assert content[p0 + 1..p0 + 9] == WaveformTag;
    assert WordPrefixedAt(content, p0);
    forall p | 0 <= p < p0
      ensures !WaveformAt(content, p)
    {
      NoWaveformBefore(prefix, tc, p);
    }
    FirstIs(WaveformSearch(content), 0, |content|, p0);
  }
}
