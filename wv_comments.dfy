/**
 * The segment comments of a multi-segment WV file. _extract_mwv_comments
 * does not reuse the header scan. It first takes the meta part: the bytes
 * from the start of the file up to and including the first "{WAV" or
 * "{WWAV" (the pattern ^(.*?)\{W{0,1}WAV, whose '.' stops at a line feed,
 * so a line feed before that tag leaves no meta part at all). It then
 * searches the meta part for "{MWV_SEGMENT<i>_COMMENT:" of the segments i
 * below the count, followed by at most one whitespace byte, a run of
 * [\w \.] and '}'. The whole match (the whitespace byte included) is
 * stored under "mwv_segment<i>_comment"; a later comment of a segment
 * replaces an earlier one.
 */
module WvComments {
  import opened Wrappers
  import opened Text
  import opened Values
  import Dicts
  import opened WvBinary
  import opened WvHeader
  import WvMeta

  const LineFeed: Byte := 10

  // ----- the meta part -----

  /** The length of the "{WWAV" or "{WAV" match at p, if any (W{0,1} first tries one W). */
  function WavAt(s: seq<Byte>, p: nat): (r: Option<nat>)
    ensures r.Some? ==> 4 <= r.value <= 5 && p + r.value <= |s| && s[p] == LBrace
  {
    if p + 5 <= |s| && s[p] == LBrace && s[p + 1] == UpperW && s[p + 2] == UpperW && s[p + 3] == 65 && s[p + 4] == 86 then Some(5)
    else if p + 4 <= |s| && s[p] == LBrace && s[p + 1] == UpperW && s[p + 2] == 65 && s[p + 3] == 86 then Some(4)
    else None
  }

  /** The lazy (.*?) from p: the end of the first tag match, unless a line feed comes before it. */
  function MetaPartFrom(s: seq<Byte>, p: nat): (r: Option<nat>)
    ensures r.Some? ==> p < r.value <= |s|
    decreases |s| - p
  {
    match WavAt(s, p)
    case Some(n) => Some(p + n)
    case None => if p < |s| && s[p] != LineFeed then MetaPartFrom(s, p + 1) else None
  }

  /** No tag match and no line feed in s[p..q]. */
  predicate Clear(s: seq<Byte>, p: nat, q: nat)
    requires q <= |s|
  {
    forall j :: p <= j < q ==> WavAt(s, j).None? && s[j] != LineFeed
  }

  /**
   * The meta part ends after the first tag match whose bytes before it hold
   * no line feed, and there is none exactly when no such match exists.
   */
  lemma {:induction false} MetaPartFirst(s: seq<Byte>, p: nat, q: nat)
    requires p <= q <= |s| && Clear(s, p, q)
    ensures WavAt(s, q).Some? ==> MetaPartFrom(s, p) == Some(q + WavAt(s, q).value)
    ensures WavAt(s, q).None? && q < |s| && s[q] == LineFeed ==> MetaPartFrom(s, p) == None
    decreases q - p
  {
    if p < q {
      MetaPartFirst(s, p + 1, q);
    }
  }

  /** When there is a meta part it ends after the first tag match, with no line feed before that match. */
  lemma {:induction false} MetaPartFound(s: seq<Byte>, p: nat)
    requires MetaPartFrom(s, p).Some?
    ensures exists q :: p <= q <= |s| && Clear(s, p, q) && WavAt(s, q).Some? && MetaPartFrom(s, p) == Some(q + WavAt(s, q).value)
    decreases |s| - p
  {
    if WavAt(s, p).None? {
      MetaPartFound(s, p + 1);
      var q :| p + 1 <= q <= |s| && Clear(s, p + 1, q) && WavAt(s, q).Some? && MetaPartFrom(s, p + 1) == Some(q + WavAt(s, q).value);
      assert Clear(s, p, q);
    } else {
      assert Clear(s, p, p);
    }
  }

  /** Bytes after the meta part do not change it. */
  lemma {:induction false} MetaPartExtended(s: seq<Byte>, more: seq<Byte>, p: nat)
    requires MetaPartFrom(s, p).Some?
    ensures MetaPartFrom(s + more, p) == MetaPartFrom(s, p)
    decreases |s| - p
  {
    var t := s + more;
    if WavAt(s, p).None? {
      MetaPartExtended(s, more, p + 1);
      MetaPartFound(s, p + 1);
      var q :| p + 1 <= q <= |s| && WavAt(s, q).Some? && MetaPartFrom(s, p + 1) == Some(q + WavAt(s, q).value);
      assert p + 5 <= |s|;
      assert t[p..p + 5] == s[p..p + 5];
    }
  }

  // ----- the comment search -----

  /** "{MWV_SEGMENT<i>_COMMENT:" as bytes: what the look-behind of segment i's group must find. */
  function OpenBytes(i: nat): (b: seq<Byte>)
    ensures |b| == 21 + |NatText(i)|
  {
    [LBrace] + Ascii(CommentPrefix) + CountBytes(i) + Ascii(CommentSuffix + ":")
  }

  /** No byte of an opening but the first is '{'. */
  lemma OpenBraceFirst(i: nat, k: nat)
    requires 1 <= k < |OpenBytes(i)|
    ensures OpenBytes(i)[k] != LBrace
  {
    var d := |NatText(i)|;
    if 12 <= k < 12 + d {
      assert OpenBytes(i)[k] == CountBytes(i)[k - 12];
    }
  }

  /** Segment i's opening ends at p. */
  predicate OpensAt(s: seq<Byte>, p: nat, i: nat)
  {
    |OpenBytes(i)| <= p <= |s| && s[p - |OpenBytes(i)|..p] == OpenBytes(i)
  }

  /** Where two openings end at the same position, the shorter one's '{' lies inside the longer. */
  lemma OpensAtNested(s: seq<Byte>, p: nat, i: nat, j: nat)
    requires OpensAt(s, p, i) && OpensAt(s, p, j) && |OpenBytes(j)| <= |OpenBytes(i)|
    ensures OpenBytes(i)[|OpenBytes(i)| - |OpenBytes(j)|] == LBrace
  {
    var a, b := OpenBytes(i), OpenBytes(j);
    var k := |a| - |b|;
    assert s[p - |b|] == b[0];
    assert s[p - |b|] == s[p - |a|..p][k];
  }

  /** At most one segment's opening ends at a position. */
  lemma OpensAtUnique(s: seq<Byte>, p: nat, i: nat, j: nat)
    requires OpensAt(s, p, i) && OpensAt(s, p, j)
    ensures i == j
  {
    var a, b := OpenBytes(i), OpenBytes(j);
    if |b| <= |a| {
      OpensAtNested(s, p, i, j);
      if |a| - |b| >= 1 {
        OpenBraceFirst(i, |a| - |b|);
      }
    } else {
      OpensAtNested(s, p, j, i);
      OpenBraceFirst(j, |b| - |a|);
    }
    assert a == b;
    var d := |NatText(i)|;
    assert CountBytes(i) == a[12..12 + d] == b[12..12 + d] == CountBytes(j);
    CountBytesValue(i);
    CountBytesValue(j);
  }

  /** The alternation tried in segment order from i: the first segment below the count whose opening ends at p. */
  function CommentOpenAt(s: seq<Byte>, p: nat, i: nat, count: int): (r: Option<nat>)
    ensures r.Some? ==> i <= r.value < count && OpensAt(s, p, r.value)
    decreases if count < i then 0 else count - i
  {
    if i >= count then None
    else if OpensAt(s, p, i) then Some(i)
    else CommentOpenAt(s, p, i + 1, count)
  }

  /** The alternation picks segment i wherever i's opening ends. */
  lemma {:induction false} CommentOpenAtIs(s: seq<Byte>, p: nat, i: nat, j: nat, count: int)
    requires j <= i < count && OpensAt(s, p, i)
    ensures CommentOpenAt(s, p, j, count) == Some(i)
    decreases i - j
  {
    if OpensAt(s, p, j) {
      OpensAtUnique(s, p, i, j);
    } else {
      CommentOpenAtIs(s, p, i, j + 1, count);
    }
  }

  /** The first '}' at or after p. */
  function CloseFrom(s: seq<Byte>, p: nat): (r: Option<nat>)
    ensures r.Some? ==> p <= r.value < |s| && s[r.value] == RBrace
    decreases |s| - p
  {
    if p >= |s| then None
    else if s[p] == RBrace then Some(p)
    else CloseFrom(s, p + 1)
  }

  lemma {:induction false} CloseFromAt(s: seq<Byte>, p: nat, q: nat)
    requires p <= q < |s| && s[q] == RBrace
    requires forall k :: p <= k < q ==> s[k] != RBrace
    ensures CloseFrom(s, p) == Some(q)
    decreases q - p
  {
    if p < q {
      CloseFromAt(s, p + 1, q);
    }
  }

  /** The comment value at p: the text up to the next '}', when \s{0,1}[\w \.]+ takes all of it. */
  function CommentValue(s: seq<Byte>, p: nat): Option<string>
  {
    match CloseFrom(s, p)
    case None => None
    case Some(q) =>
      var t := Chars(s[p..q]);
      if Accepts(Run(CommentChars), t) then Some(t) else None
  }

  /** The comment found at p: its segment and its value. */
  function CommentAt(s: seq<Byte>, p: nat, count: int): Option<(nat, string)>
  {
    match CommentOpenAt(s, p, 0, count)
    case None => None
    case Some(i) =>
      match CommentValue(s, p)
      case None => None
      case Some(t) => Some((i, t))
  }

  /** The tags after the match tried at p, if there is one, is assigned. */
  function TryAt(count: int, tags: Dicts.Items<Value>, s: seq<Byte>, p: nat): Dicts.Items<Value>
  {
    match CommentAt(s, p, count)
    case None => tags
    case Some(c) => Dicts.Set(tags, SegmentCommentKey(c.0), PyStr(c.1))
  }

  /**
   * re.finditer over the meta part, every match assigned into the tags.
   * Every position is tried in turn: finditer resumes after a match, but a
   * match holds no ':', so no opening ends inside one and trying every
   * position finds the same matches.
   */
  function ScanFrom(count: int, tags: Dicts.Items<Value>, s: seq<Byte>, p: nat): Dicts.Items<Value>
    decreases |s| - p
  {
    if p >= |s| then tags else ScanFrom(count, TryAt(count, tags, s, p), s, p + 1)
  }

  /** _extract_mwv_comments(count, tags, content). */
  function ExtractMwvComments(count: int, tags: Dicts.Items<Value>, content: seq<Byte>): Dicts.Items<Value>
  {
    match MetaPartFrom(content, 0)
    case None => tags
    case Some(e) => ScanFrom(count, tags, content[..e], 0)
  }

  // ----- what the search keeps -----

  predicate IsCommentKeyBelow(k: string, count: int)
  {
    exists i: nat | i < count :: k == SegmentCommentKey(i)
  }

  /**
   * One position: the keys stay distinct, only a comment key below the
   * count is added, and a segment's key changes only when its comment is
   * found there, to that comment.
   */
  lemma TryAtKeys(count: int, tags: Dicts.Items<Value>, s: seq<Byte>, p: nat, i: nat)
    requires Dicts.DistinctKeys(tags)
    ensures Dicts.DistinctKeys(TryAt(count, tags, s, p))
    ensures forall k :: k in Dicts.Keys(TryAt(count, tags, s, p)) ==> k in Dicts.Keys(tags) || IsCommentKeyBelow(k, count)
    ensures Dicts.Get(TryAt(count, tags, s, p), SegmentCommentKey(i)) ==
      if CommentAt(s, p, count).Some? && CommentAt(s, p, count).value.0 == i
      then Some(PyStr(CommentAt(s, p, count).value.1))
      else Dicts.Get(tags, SegmentCommentKey(i))
  {
    match CommentAt(s, p, count) {
      case Some(c) =>
        Dicts.SetKeys(tags, SegmentCommentKey(c.0), PyStr(c.1));
        Dicts.GetSet(tags, SegmentCommentKey(c.0), PyStr(c.1), SegmentCommentKey(i));
        assert IsCommentKeyBelow(SegmentCommentKey(c.0), count);
        if SegmentCommentKey(c.0) == SegmentCommentKey(i) {
          WvMeta.CommentKeyInjective(c.0, i);
        }
      case None =>
    }
  }

  /** The search keeps the keys distinct and adds only comment keys of segments below the count. */
  lemma {:induction false} ScanKeys(count: int, tags: Dicts.Items<Value>, s: seq<Byte>, p: nat)
    requires Dicts.DistinctKeys(tags)
    ensures Dicts.DistinctKeys(ScanFrom(count, tags, s, p))
    ensures forall k :: k in Dicts.Keys(ScanFrom(count, tags, s, p)) ==> k in Dicts.Keys(tags) || IsCommentKeyBelow(k, count)
    decreases |s| - p
  {
    if p < |s| {
      TryAtKeys(count, tags, s, p, 0);
      ScanKeys(count, TryAt(count, tags, s, p), s, p + 1);
    }
  }

  /** _extract_mwv_comments keeps the keys distinct and adds only comment keys of segments below the count. */
  lemma CommentKeys(count: int, tags: Dicts.Items<Value>, content: seq<Byte>)
    requires Dicts.DistinctKeys(tags)
    ensures Dicts.DistinctKeys(ExtractMwvComments(count, tags, content))
    ensures forall k :: k in Dicts.Keys(ExtractMwvComments(count, tags, content)) ==>
      k in Dicts.Keys(tags) || IsCommentKeyBelow(k, count)
  {
    if MetaPartFrom(content, 0).Some? {
      ScanKeys(count, tags, content[..MetaPartFrom(content, 0).value], 0);
    }
  }

  /** A line feed before the first waveform tag leaves the tags as they were. */
  lemma LineFeedFirst(count: int, tags: Dicts.Items<Value>, content: seq<Byte>, k: nat)
    requires k < |content| && content[k] == LineFeed
    requires forall j :: 0 <= j < k ==> content[j] != LineFeed
    requires forall j :: 0 <= j <= k ==> WavAt(content, j).None?
    ensures ExtractMwvComments(count, tags, content) == tags
  {
    MetaPartFirst(content, 0, k);
  }

  /** Whatever follows the first waveform tag, comment records included, is not searched. */
  lemma AfterWaveformIgnored(count: int, tags: Dicts.Items<Value>, content: seq<Byte>, more: seq<Byte>)
    requires MetaPartFrom(content, 0).Some?
    ensures ExtractMwvComments(count, tags, content + more) == ExtractMwvComments(count, tags, content)
  {
    MetaPartExtended(content, more, 0);
    var e := MetaPartFrom(content, 0).value;
    MetaPartFound(content, 0);
    assert (content + more)[..e] == content[..e];
  }

  /** A position where no comment of segment i is found leaves i's key alone. */
  lemma {:induction false} ScanKeepsKey(count: int, tags: Dicts.Items<Value>, s: seq<Byte>, p: nat, i: nat)
    requires Dicts.DistinctKeys(tags)
    requires forall q :: p <= q < |s| && CommentAt(s, q, count).Some? ==> CommentAt(s, q, count).value.0 != i
    ensures Dicts.Get(ScanFrom(count, tags, s, p), SegmentCommentKey(i)) == Dicts.Get(tags, SegmentCommentKey(i))
    decreases |s| - p
  {
    if p < |s| {
      TryAtKeys(count, tags, s, p, i);
      ScanKeepsKey(count, TryAt(count, tags, s, p), s, p + 1, i);
    }
  }

  /** The comment found at p0 is what i's key holds after the search, when no later comment of i is found. */
  lemma {:induction false} ScanFindsAt(count: int, tags: Dicts.Items<Value>, s: seq<Byte>, p: nat, p0: nat, i: nat, text: string)
    requires Dicts.DistinctKeys(tags)
    requires p <= p0 < |s| && CommentAt(s, p0, count) == Some((i, text))
    requires forall q :: p0 < q < |s| && CommentAt(s, q, count).Some? ==> CommentAt(s, q, count).value.0 != i
    ensures Dicts.Get(ScanFrom(count, tags, s, p), SegmentCommentKey(i)) == Some(PyStr(text))
    decreases p0 - p
  {
    if p < p0 {
      assert Dicts.DistinctKeys(TryAt(count, tags, s, p)) by {
        TryAtKeys(count, tags, s, p, i);
      }
      ScanFindsAt(count, TryAt(count, tags, s, p), s, p + 1, p0, i, text);
    } else {
      TryAtKeys(count, tags, s, p, i);
      ScanKeepsKey(count, TryAt(count, tags, s, p), s, p + 1, i);
    }
  }

  /** An accepted comment value is ASCII and holds neither ':' nor '}'. */
  lemma AcceptedValue(text: string)
    requires Accepts(Run(CommentChars), text)
    ensures IsAscii(text)
    ensures forall k :: 0 <= k < |text| ==> text[k] != ':' && text[k] != '}'
  {
  }

  lemma CharsOfAscii(text: string)
    requires IsAscii(text)
    ensures Chars(Ascii(text)) == text
  {
  }

  /** A comment record of segment i whose value starts at p0: its opening, the value and '}'. */
  predicate RecordAt(s: seq<Byte>, p0: nat, i: nat, text: string)
  {
    && IsAscii(text)
    && OpensAt(s, p0, i)
    && p0 + |text| < |s|
    && s[p0..p0 + |text|] == Ascii(text)
    && s[p0 + |text|] == RBrace
  }

  lemma RecordParts(s: seq<Byte>, pre: seq<Byte>, o: seq<Byte>, a: seq<Byte>, post: seq<Byte>)
    requires s == pre + o + a + [RBrace] + post
    ensures s[|pre|..|pre| + |o|] == o
    ensures s[|pre| + |o|..|pre| + |o| + |a|] == a
    ensures s[|pre| + |o| + |a|] == RBrace
  {
  }

  /** The bytes of a comment record, in any surroundings, are a record at the end of its opening. */
  lemma RecordOf(s: seq<Byte>, pre: seq<Byte>, i: nat, text: string, post: seq<Byte>)
    requires IsAscii(text)
    requires s == pre + OpenBytes(i) + Ascii(text) + [RBrace] + post
    ensures RecordAt(s, |pre| + |OpenBytes(i)|, i, text)
  {
    RecordParts(s, pre, OpenBytes(i), Ascii(text), post);
  }

  /** The value of a comment record ends at the '}' that closes it. */
  lemma ValueClosed(s: seq<Byte>, p0: nat, text: string)
    requires Accepts(Run(CommentChars), text)
    requires p0 + |text| < |s| && s[p0..p0 + |text|] == Ascii(text) && s[p0 + |text|] == RBrace
    ensures CommentValue(s, p0) == Some(text)
  {
    AcceptedValue(text);
    var q := p0 + |text|;
    forall k | p0 <= k < q
      ensures s[k] != RBrace
    {
      assert s[k] == Ascii(text)[k - p0] == text[k - p0] as int;
    }
    CloseFromAt(s, p0, q);
    CharsOfAscii(text);
  }

  /** A comment record of a segment below the count is found where its value starts, with its whole value. */
  lemma RecordFound(count: int, s: seq<Byte>, p0: nat, i: nat, text: string)
    requires i < count && Accepts(Run(CommentChars), text) && RecordAt(s, p0, i, text)
    ensures CommentAt(s, p0, count) == Some((i, text))
  {
    CommentOpenAtIs(s, p0, i, 0, count);
    ValueClosed(s, p0, text);
  }

  /**
   * A comment record of segment i in the meta part is what i's key holds
   * once the search is done, when no later comment of segment i is found.
   */
  lemma CommentFound(count: int, tags: Dicts.Items<Value>, s: seq<Byte>, p0: nat, i: nat, text: string)
    requires Dicts.DistinctKeys(tags)
    requires i < count && Accepts(Run(CommentChars), text) && RecordAt(s, p0, i, text)
    requires forall q :: p0 < q < |s| && CommentAt(s, q, count).Some? ==> CommentAt(s, q, count).value.0 != i
    ensures Dicts.Get(ScanFrom(count, tags, s, 0), SegmentCommentKey(i)) == Some(PyStr(text))
  {
    RecordFound(count, s, p0, i, text);
    ScanFindsAt(count, tags, s, 0, p0, i, text);
  }

  /**
   * _extract_mwv_comments reads the comment of segment i from a comment
   * record that lies in the meta part, when no later comment of segment i
   * is found there.
   */
  lemma CommentRead(count: int, tags: Dicts.Items<Value>, content: seq<Byte>, e: nat, p0: nat, i: nat, text: string)
    requires Dicts.DistinctKeys(tags) && MetaPartFrom(content, 0) == Some(e)
    requires i < count && Accepts(Run(CommentChars), text) && RecordAt(content[..e], p0, i, text)
    requires forall q :: p0 < q < e && CommentAt(content[..e], q, count).Some? ==> CommentAt(content[..e], q, count).value.0 != i
    ensures Dicts.Get(ExtractMwvComments(count, tags, content), SegmentCommentKey(i)) == Some(PyStr(text))
  {
    CommentFound(count, tags, content[..e], p0, i, text);
  }
}
