/**
 * The text header of a WV file: records `{NAME:value}`. The loader scans
 * the file for the names of a fixed token table; a record is taken when
 * its value text is of the token's form, and it is stored under a group
 * name derived from the token (lower case, spaces to '_', dots dropped,
 * the suffix appended after '_'). A later record of the same token
 * replaces an earlier one. Multi-segment files carry one comment record
 * per segment, MWV_SEGMENT<i>_COMMENT, scanned separately.
 *
 * The occurrences themselves (what the regular expression engine finds in
 * the bytes) are the input: a `Record` is the name after a '{' and the
 * text up to the next '}'.
 */
module WvHeader {
  import opened Wrappers
  import opened Text
  import opened Values
  import Dicts

  datatype Record = Record(name: string, text: string)

  // ----- the value forms -----

  /** \w on bytes: ASCII letters, digits and '_'. */
  predicate IsWordChar(c: char)
  {
    ('a' <= c <= 'z') || ('A' <= c <= 'Z') || ('0' <= c <= '9') || c == '_'
  }

  /** \s on bytes. */
  predicate IsRegexSpace(c: char)
  {
    c == ' ' || c == '\t' || c == '\n' || c == '\r' || c == 11 as char || c == 12 as char
  }

  /** The character classes of the token table. */
  datatype CharClass =
    | TypeChars        // [\w-]
    | CopyrightChars   // [\w \&]
    | CommentChars     // [\w \.]
    | DateChars        // [\d\-;\:]
    | SampleChars      // [\de\-\+]
    | NumberChars      // [\d\.e\-\+]
    | LengthListChars  // [\d,]
    | NumberListChars  // [\d\.e\-\+,]
    | MarkerChars      // [\d:;]
    | WordChars        // [\w]

  predicate InClass(k: CharClass, c: char)
  {
    match k
    case TypeChars => IsWordChar(c) || c == '-'
    case CopyrightChars => IsWordChar(c) || c == ' ' || c == '&'
    case CommentChars => IsWordChar(c) || c == ' ' || c == '.'
    case DateChars => IsDigit(c) || c == '-' || c == ';' || c == ':'
    case SampleChars => IsDigit(c) || c == 'e' || c == '-' || c == '+'
    case NumberChars => IsDigit(c) || c == '.' || c == 'e' || c == '-' || c == '+'
    case LengthListChars => IsDigit(c) || c == ','
    case NumberListChars => IsDigit(c) || c == '.' || c == 'e' || c == '-' || c == '+' || c == ','
    case MarkerChars => IsDigit(c) || c == ':' || c == ';'
    case WordChars => IsWordChar(c)
  }

  predicate AllIn(k: CharClass, s: string)
  {
    forall i :: 0 <= i < |s| ==> InClass(k, s[i])
  }

  /**
   * The value patterns: a run of one class; the TYPE form
   * ([\w-]+)(,[\s]*([\d]+))?; the LEVEL OFFS form (X+),(X+).
   */
  datatype Pattern = Run(k: CharClass) | TypeValue | PairValue(k: CharClass)

  function DropSpaces(s: string): (t: string)
    ensures |t| <= |s|
  {
    if s != [] && IsRegexSpace(s[0]) then DropSpaces(s[1..]) else s
  }

  /** The whole text `s` is of the pattern's form (the match must reach the closing brace). */
  predicate BodyMatches(p: Pattern, s: string)
  {
    match p
    case Run(k) => s != [] && AllIn(k, s)
    case TypeValue =>
      (match IndexOfChar(s, ',')
       case None => s != [] && AllIn(TypeChars, s)
       case Some(i) =>
         var t := DropSpaces(s[i + 1..]);
         i > 0 && AllIn(TypeChars, s[..i]) && t != [] && AllDigits(t))
    case PairValue(k) =>
      match IndexOfChar(s, ',')
      case None => false
      case Some(i) => i > 0 && AllIn(k, s[..i]) && i + 1 < |s| && AllIn(k, s[i + 1..])
  }

  /** The value text, after at most one leading whitespace character, is of the pattern's form. */
  predicate Accepts(p: Pattern, text: string)
  {
    BodyMatches(p, text) || (text != [] && IsRegexSpace(text[0]) && BodyMatches(p, text[1..]))
  }

  // ----- the token table -----

  datatype Token = Token(name: string, suffix: string, pattern: Pattern)

  const HeaderTokens: seq<Token> := [
    Token("TYPE", "", TypeValue),
    Token("COPYRIGHT", "", Run(CopyrightChars)),
    Token("COMMENT", "", Run(CommentChars)),
    Token("DATE", "", Run(DateChars)),
    Token("SAMPLES", "", Run(SampleChars)),
    Token("CLOCK", "", Run(NumberChars)),
    Token("REFLEVEL", "", Run(NumberChars)),
    Token("VECTOR MAX", "", Run(NumberChars)),
    Token("LEVEL OFFS", "", PairValue(NumberChars)),
    Token("CONTROL LENGTH", "", Run(NumberChars)),
    Token("MWV_SEGMENT_LENGTH", "", Run(LengthListChars)),
    Token("MWV_SEGMENT_COUNT", "", Run(NumberChars)),
    Token("MWV_SEGMENT_CLOCK", "", Run(NumberListChars)),
    Token("MWV_SEGMENT_LEVEL_OFFS", "", Run(NumberListChars)),
    Token("MARKER LIST", " 1", Run(MarkerChars)),
    Token("MARKER LIST", " 2", Run(MarkerChars)),
    Token("MARKER LIST", " 3", Run(MarkerChars)),
    Token("MARKER LIST", " 4", Run(MarkerChars)),
    Token("MARKER MODE", " 1", Run(WordChars)),
    Token("MARKER MODE", " 2", Run(WordChars)),
    Token("MARKER MODE", " 3", Run(WordChars)),
    Token("MARKER MODE", " 4", Run(WordChars))
  ]

  /** The name of the regular expression group of a token. */
  function GroupName(t: Token): string
  {
    ReplaceChar(ReplaceChar(Lower(t.name), ' ', "_"), '.', "")
      + (if t.suffix != "" then "_" + ReplaceChar(t.suffix, ' ', "") else "")
  }

  /** The group names of the table, in its order. */
  function GroupNames(): (g: seq<string>)
    ensures |g| == |HeaderTokens| && forall i :: 0 <= i < |g| ==> g[i] == GroupName(HeaderTokens[i])
  {
    seq(|HeaderTokens|, i requires 0 <= i < |HeaderTokens| => GroupName(HeaderTokens[i]))
  }

  /** Lower case with spaces turned into '_', character by character. */
  function KeyChars(s: string): (t: string)
    ensures |t| == |s|
  {
    seq(|s|, i requires 0 <= i < |s| => if s[i] == ' ' then '_' else LowerChar(s[i]))
  }

  /** The group name of a token whose name has no dot, written character by character. */
  lemma GroupNameCharwise(t: Token)
    requires '.' !in t.name
    requires t.suffix == "" || (|t.suffix| == 2 && t.suffix[0] == ' ' && t.suffix[1] != ' ')
    ensures GroupName(t) == KeyChars(t.name) + (if t.suffix != "" then "_" + t.suffix[1..] else "")
  {
    var lowered := Lower(t.name);
    ReplaceWithChar(lowered, ' ', '_');
    var spaced := ReplaceChar(lowered, ' ', "_");
    assert spaced == KeyChars(t.name);
    assert '.' !in spaced;
    ReplaceAbsent(spaced, '.', "");
    if t.suffix != "" {
      var x := t.suffix;
      assert ReplaceChar(x[2..], ' ', "") == [];
      assert ReplaceChar(x[1..], ' ', "") == [x[1]] + ReplaceChar(x[2..], ' ', "");
      assert ReplaceChar(x, ' ', "") == x[1..];
    }
  }

  /** Replacing a character by one character keeps every other position. */
  lemma {:induction false} ReplaceWithChar(s: string, c: char, d: char)
    ensures ReplaceChar(s, c, [d]) == seq(|s|, i requires 0 <= i < |s| => if s[i] == c then d else s[i])
  {
    if s != [] {
      ReplaceWithChar(s[1..], c, d);
    }
  }

  /**
   * No group name has a space in it: spaces in the name become '_' and
   * the suffix loses its spaces. So "mwv segment count" is never a key of
   * the scanned tags.
   */
  lemma GroupNameUnspaced(t: Token)
    ensures ' ' !in GroupName(t)
  {
    var spaced := ReplaceChar(Lower(t.name), ' ', "_");
    ReplaceKeepsAbsent(spaced, '.', "", ' ');
    if t.suffix != "" {
      assert ' ' !in ReplaceChar(t.suffix, ' ', "");
    }
  }

  /** The first character of a group name is the lower-cased first character of the token name. */
  lemma GroupNameHead(t: Token)
    requires |t.name| > 0 && 'A' <= t.name[0] <= 'Z'
    ensures |GroupName(t)| > 0 && GroupName(t)[0] == LowerChar(t.name[0])
  {
    var l := Lower(t.name);
    var a := ReplaceChar(l, ' ', "_");
    assert a == [l[0]] + ReplaceChar(l[1..], ' ', "_");
    var b := ReplaceChar(a, '.', "");
    assert b == [a[0]] + ReplaceChar(a[1..], '.', "");
  }

  /** Every token name of the table starts with one of the capitals T, C, D, S, R, V, L, M. */
  lemma TokenInitials()
    ensures forall i :: 0 <= i < |HeaderTokens| ==>
      |HeaderTokens[i].name| > 0 && HeaderTokens[i].name[0] in "TCDSRVLM"
  {
  }

  /** A group name starts with one of t, c, d, s, r, v, l, m: "waveform", "no_defaults" and "encryption_flag" are none. */
  lemma GroupNameInitial(k: string)
    requires IsGroupName(k)
    ensures |k| > 0 && k[0] in "tcdsrvlm"
  {
    var i :| 0 <= i < |HeaderTokens| && GroupNames()[i] == k;
    TokenInitials();
    InitialOfToken(HeaderTokens[i]);
  }

  /** No group name holds a space, so a key spelled with spaces is never among the scanned tags. */
  lemma GroupNameNoSpace(k: string)
    requires IsGroupName(k)
    ensures ' ' !in k
  {
    var i :| 0 <= i < |HeaderTokens| && GroupNames()[i] == k;
    GroupNameUnspaced(HeaderTokens[i]);
  }

  lemma InitialOfToken(t: Token)
    requires |t.name| > 0 && t.name[0] in "TCDSRVLM"
    ensures |GroupName(t)| > 0 && GroupName(t)[0] in "tcdsrvlm"
  {
    GroupNameHead(t);
  }

  /** Replacing by text without `x` adds no `x`. */
  lemma {:induction false} ReplaceKeepsAbsent(s: string, c: char, r: string, x: char)
    requires x !in s && x !in r
    ensures x !in ReplaceChar(s, c, r)
  {
    if s != [] {
      ReplaceKeepsAbsent(s[1..], c, r, x);
    }
  }

  /** The token a record is an occurrence of: its name and a value of the token's form. */
  function Recognise(r: Record): (t: Option<nat>)
    ensures t.Some? ==> (t.value < |HeaderTokens|
      && HeaderTokens[t.value].name + HeaderTokens[t.value].suffix == r.name
      && Accepts(HeaderTokens[t.value].pattern, r.text))
  {
    FindToken(r, 0)
  }

  function FindToken(r: Record, i: nat): (t: Option<nat>)
    requires i <= |HeaderTokens|
    ensures t.Some? ==> (i <= t.value < |HeaderTokens|
      && HeaderTokens[t.value].name + HeaderTokens[t.value].suffix == r.name
      && Accepts(HeaderTokens[t.value].pattern, r.text))
    ensures t.None? ==> forall j :: i <= j < |HeaderTokens| ==>
      !(HeaderTokens[j].name + HeaderTokens[j].suffix == r.name && Accepts(HeaderTokens[j].pattern, r.text))
    decreases |HeaderTokens| - i
  {
    if i == |HeaderTokens| then None
    else
      var t := HeaderTokens[i];
      if t.name + t.suffix == r.name && Accepts(t.pattern, r.text) then Some(i) else FindToken(r, i + 1)
  }

  /** The group and value a record contributes to the tags, if it is recognised. */
  function Contribution(r: Record): (c: Option<(string, Value)>)
    ensures c.Some? ==> IsGroupName(c.value.0)
  {
    match Recognise(r)
    case None => None
    case Some(i) =>
      assert GroupNames()[i] == GroupName(HeaderTokens[i]);
      Some((GroupName(HeaderTokens[i]), PyStr(r.text)))
  }

  predicate IsGroupName(k: string)
  {
    k in GroupNames()
  }

  function Contributions(records: seq<Record>): (cs: seq<Option<(string, Value)>>)
    ensures |cs| == |records| && forall i :: 0 <= i < |records| ==> cs[i] == Contribution(records[i])
  {
    seq(|records|, i requires 0 <= i < |records| => Contribution(records[i]))
  }

  /** _split_data_via_tags_meta: the recognised records assigned in order of occurrence. */
  function Scan(records: seq<Record>): Dicts.Items<Value>
  {
    Assign([], Contributions(records))
  }

  function AssignOne(tags: Dicts.Items<Value>, c: Option<(string, Value)>): Dicts.Items<Value>
  {
    match c
    case None => tags
    case Some(kv) => Dicts.Set(tags, kv.0, kv.1)
  }

  /** dict.update of each contribution in turn. */
  function Assign(tags: Dicts.Items<Value>, cs: seq<Option<(string, Value)>>): Dicts.Items<Value>
    decreases |cs|
  {
    if cs == [] then tags else Assign(AssignOne(tags, cs[0]), cs[1..])
  }

  /** The value of the last contribution to key `g`, searched from the end. */
  function LastFor(cs: seq<Option<(string, Value)>>, g: string): Option<Value>
    decreases |cs|
  {
    if cs == [] then None
    else
      var c := cs[|cs| - 1];
      if c.Some? && c.value.0 == g then Some(c.value.1) else LastFor(cs[..|cs| - 1], g)
  }

  predicate Contributes(cs: seq<Option<(string, Value)>>, k: string)
  {
    exists i :: 0 <= i < |cs| && cs[i].Some? && cs[i].value.0 == k
  }

  /** Assigning keeps the keys distinct and adds only contributed keys. */
  lemma {:induction false} AssignKeys(tags: Dicts.Items<Value>, cs: seq<Option<(string, Value)>>)
    requires Dicts.DistinctKeys(tags)
    ensures Dicts.DistinctKeys(Assign(tags, cs))
    ensures forall k :: k in Dicts.Keys(Assign(tags, cs)) ==> k in Dicts.Keys(tags) || Contributes(cs, k)
    decreases |cs|
  {
    if cs != [] {
      var tags' := AssignOne(tags, cs[0]);
      match cs[0] {
        case None =>
        case Some(kv) =>
          Dicts.SetKeys(tags, kv.0, kv.1);
          assert Contributes(cs, kv.0);
      }
      AssignKeys(tags', cs[1..]);
      forall k | Contributes(cs[1..], k)
        ensures Contributes(cs, k)
      {
        var i :| 0 <= i < |cs[1..]| && cs[1..][i].Some? && cs[1..][i].value.0 == k;
        assert cs[i + 1] == cs[1..][i];
      }
    }
  }

  /** Assigning the contributions one after the other leaves, under each key, the last one. */
  lemma {:induction false} AssignGet(tags: Dicts.Items<Value>, cs: seq<Option<(string, Value)>>, g: string)
    requires Dicts.DistinctKeys(tags)
    ensures Dicts.Get(Assign(tags, cs), g) == if LastFor(cs, g).Some? then LastFor(cs, g) else Dicts.Get(tags, g)
    decreases |cs|
  {
    if cs != [] {
      var n := |cs| - 1;
      AssignSplit(tags, cs[..n], cs[n]);
      assert cs[..n] + [cs[n]] == cs;
      var before := Assign(tags, cs[..n]);
      AssignKeys(tags, cs[..n]);
      AssignGet(tags, cs[..n], g);
      match cs[n]
      case None =>
      case Some(kv) =>
        Dicts.GetSet(before, kv.0, kv.1, g);
    }
  }

  /** Assigning one more contribution after a sequence of them. */
  lemma {:induction false} AssignSplit(tags: Dicts.Items<Value>, cs: seq<Option<(string, Value)>>, c: Option<(string, Value)>)
    ensures Assign(tags, cs + [c]) == AssignOne(Assign(tags, cs), c)
    decreases |cs|
  {
    if cs == [] {
      assert Assign(tags, [c]) == Assign(AssignOne(tags, c), []);
    } else {
      assert (cs + [c])[1..] == cs[1..] + [c];
      AssignSplit(AssignOne(tags, cs[0]), cs[1..], c);
    }
  }

  /**
   * What the header scan yields: distinct keys, every key a group of the
   * table, and under each group the last recognised record of it.
   */
  lemma ScanOfRecords(records: seq<Record>, g: string)
    ensures Dicts.DistinctKeys(Scan(records))
    ensures forall k :: k in Dicts.Keys(Scan(records)) ==> IsGroupName(k)
    ensures Dicts.Get(Scan(records), g) == LastFor(Contributions(records), g)
  {
    var cs := Contributions(records);
    AssignKeys([], cs);
    AssignGet([], cs, g);
    forall k | Contributes(cs, k)
      ensures IsGroupName(k)
    {
      var i :| 0 <= i < |cs| && cs[i].Some? && cs[i].value.0 == k;
      assert cs[i] == Contribution(records[i]);
    }
  }

  /** The scan's keys are distinct, and each is a group of the table. */
  lemma ScanKeys(records: seq<Record>)
    ensures Dicts.DistinctKeys(Scan(records))
    ensures forall k :: k in Dicts.Keys(Scan(records)) ==> IsGroupName(k)
  {
    ScanOfRecords(records, []);
  }

  // ----- the segment comments -----

  const CommentPrefix: string := "MWV_SEGMENT"
  const CommentSuffix: string := "_COMMENT"

  /** The key a segment's comment is stored under (the lower-cased token name). */
  function SegmentCommentKey(index: nat): string
  {
    "mwv_segment" + NatText(index) + "_comment"
  }
}
