/**
 * The meta dictionary of one segment of a WV file, built from the scanned
 * tags. Every tag is converted by a rule chosen by its key: TYPE keeps its
 * first comma field, LEVEL OFFS becomes rms and peak, numbers are parsed,
 * the date is read with "%Y-%m-%d;%H:%M:%S", MARKER LIST values become
 * lists of integer lists collected under one "marker" dict, and of the
 * multi-segment lists only the entries of the segment asked for are kept.
 * A second pass renames the multi-segment keys to the single-segment ones.
 */
module WvMeta {
  import opened Wrappers
  import opened Text
  import opened Dates
  import opened Values
  import Dicts
  import opened WvHeader

  /** What one tag does to the dictionaries being built. */
  datatype Effect =
    | Store(v: Value)               // meta[key] = value
    | Levels(rms: real, peak: real) // meta.update(rms=..., peak=...); the tag itself is dropped
    | Markers(list: Value)          // marker[key] = list; the tag itself is dropped
    | Skip                          // the tag is dropped

  /** A str method called on the value: only text has one. */
  function AsText(v: Value): Result<string>
  {
    if v.PyStr? then Ok(v.s) else Err(AttributeError)
  }

  function Float(s: string): Result<real>
  {
    OptionToResult(ParseFloat(s), ValueError(FloatSyntax))
  }

  function Int(s: string): Result<int>
  {
    OptionToResult(ParseInt(s), ValueError(IntSyntax))
  }

  /** re.match(r"marker_list_\d+", key): the key starts with "marker_list_" and a digit. */
  predicate IsMarkerListKey(key: string)
  {
    |key| > 12 && key[..12] == "marker_list_" && IsDigit(key[12])
  }

  /** The number of digits in a row from position q. */
  function DigitCount(key: string, q: nat): (n: nat)
    ensures q + n <= |key| || (q > |key| && n == 0)
    decreases |key| - q
  {
    if q < |key| && IsDigit(key[q]) then 1 + DigitCount(key, q + 1) else 0
  }

  /** "mwv_segment", one or more digits, "_comment" at position p. */
  predicate SegmentCommentAt(key: string, p: nat)
  {
    p + 11 <= |key| && key[p..p + 11] == "mwv_segment"
    && var n := DigitCount(key, p + 11);
       n > 0 && p + 19 + n <= |key| && key[p + 11 + n..p + 19 + n] == "_comment"
  }

  /** re.search(r"mwv_segment\d{1,}_comment", key). */
  predicate NamesSegmentComment(key: string)
  {
    exists p: nat | p <= |key| :: SegmentCommentAt(key, p)
  }

  /** The integers of "x:y:...". */
  function ParseInts(parts: seq<string>): Result<seq<Value>>
    decreases |parts|
  {
    if parts == [] then Ok([])
    else
      var x :- Int(parts[0]);
      var rest :- ParseInts(parts[1..]);
      Ok([PyInt(x)] + rest)
  }

  /** The entries of "x:y;z:w": one integer list per ';' part. */
  function ParseMarkerEntries(subs: seq<string>): Result<seq<Value>>
    decreases |subs|
  {
    if subs == [] then Ok([])
    else
      var entry :- ParseInts(Split(subs[0], ':'));
      var rest :- ParseMarkerEntries(subs[1..]);
      Ok([PyList(entry)] + rest)
  }

  /** Which branch of _extract_meta's if-chain a key takes, for the segment `index`. */
  datatype Rule =
    | TypeRule | LevelOffsRule | FloatRule | DateRule | IntRule | MarkerRule
    | SegmentLevelsRule | SegmentEntryRule | OtherCommentRule | PlainRule

  /** The branches in the order the source tests them. */
  function RuleOf(key: string, index: nat): Rule
  {
    if key == "type" then TypeRule
    else if key == "level_offs" then LevelOffsRule
    else if key == "vector_max" || key == "clock" then FloatRule
    else if key == "date" then DateRule
    else if key == "control_length" then IntRule
    else if IsMarkerListKey(key) then MarkerRule
    else if key == "samples" then IntRule
    else if key == "reflevel" then FloatRule
    else if key == "mwv_segment_level_offs" then SegmentLevelsRule
    else if key == "mwv_segment_clock" || key == "mwv_segment_length" then SegmentEntryRule
    else if NamesSegmentComment(key) && key != SegmentCommentKey(index) then OtherCommentRule
    else PlainRule
  }

  /** TYPE: the first comma field, stripped. */
  function TypeEffect(v: Value): Result<Effect>
  {
    var s :- AsText(v);
    Ok(Store(PyStr(Strip(Split(s, ',')[0]))))
  }

  /** LEVEL OFFS: exactly two comma fields, the rms and peak offsets. */
  function LevelOffsEffect(v: Value): Result<Effect>
  {
    var s :- AsText(v);
    var parts := Split(s, ',');
    if |parts| != 2 then Err(ValueError(WrongFieldCount))
    else
      var rms :- Float(parts[0]);
      var peak :- Float(parts[1]);
      Ok(Levels(rms, peak))
  }

  function FloatEffect(v: Value): Result<Effect>
  {
    var x :- ToFloat(v);
    Ok(Store(PyFloat(x)))
  }

  /** DATE: read with the layout "%Y-%m-%d;%H:%M:%S"; only text can be parsed. */
  function DateEffect(v: Value): Result<Effect>
  {
    if !v.PyStr? then Err(TypeError)
    else
      var d :- Parse(v.s, WvLayout);
      Ok(Store(PyDate(d)))
  }

  function IntEffect(v: Value): Result<Effect>
  {
    var n :- ToInt(v);
    Ok(Store(PyInt(n)))
  }

  /** MARKER LIST: "x:y;z:w" becomes [[x, y], [z, w]]. */
  function MarkerEffect(v: Value): Result<Effect>
  {
    var s :- AsText(v);
    var entries :- ParseMarkerEntries(Split(s, ';'));
    Ok(Markers(PyList(entries)))
  }

  /** MWV_SEGMENT_LEVEL_OFFS: the pair at fields 2 index and 2 index + 1. */
  function SegmentLevelsEffect(v: Value, index: nat): Result<Effect>
  {
    var s :- AsText(v);
    var parts := Split(s, ',');
    if 2 * index + 1 >= |parts| then Err(IndexError)
    else
      var rms :- Float(parts[2 * index]);
      var peak :- Float(parts[2 * index + 1]);
      Ok(Store(PyTuple([PyFloat(rms), PyFloat(peak)])))
  }

  /** MWV_SEGMENT_CLOCK and MWV_SEGMENT_LENGTH: the field at `index`, as a float. */
  function SegmentEntryEffect(v: Value, index: nat): Result<Effect>
  {
    var s :- AsText(v);
    var parts := Split(s, ',');
    if index >= |parts| then Err(IndexError)
    else
      var x :- Float(parts[index]);
      Ok(Store(PyFloat(x)))
  }

  /** The conversion _extract_meta applies to one tag of the segment `index`. */
  function TagEffect(key: string, v: Value, index: nat): Result<Effect>
  {
    RuleEffect(RuleOf(key, index), v, index)
  }

  /** The conversion one rule applies to a tag value. */
  function RuleEffect(rule: Rule, v: Value, index: nat): Result<Effect>
  {
    match rule
    case TypeRule => TypeEffect(v)
    case LevelOffsRule => LevelOffsEffect(v)
    case FloatRule => FloatEffect(v)
    case DateRule => DateEffect(v)
    case IntRule => IntEffect(v)
    case MarkerRule => MarkerEffect(v)
    case SegmentLevelsRule => SegmentLevelsEffect(v, index)
    case SegmentEntryRule => SegmentEntryEffect(v, index)
    case OtherCommentRule => Ok(Skip)
    case PlainRule => if v == PyNone then Ok(Skip) else Ok(Store(v))
  }

  /** The dictionaries (meta, marker) after one tag's effect. */
  function Apply(meta: Dicts.Items<Value>, marker: Dicts.Items<Value>, key: string, e: Effect): (Dicts.Items<Value>, Dicts.Items<Value>)
  {
    match e
    case Store(v) => (Dicts.Set(meta, key, v), marker)
    case Levels(rms, peak) => (Dicts.Set(Dicts.Set(meta, "rms", PyFloat(rms)), "peak", PyFloat(peak)), marker)
    case Markers(list) => (meta, Dicts.Set(marker, key, list))
    case Skip => (meta, marker)
  }

  /** The loop of _extract_meta over the tags in order, from the given dictionaries. */
  function Fold(tags: Dicts.Items<Value>, index: nat, meta: Dicts.Items<Value>, marker: Dicts.Items<Value>)
    : Result<(Dicts.Items<Value>, Dicts.Items<Value>)>
    decreases |tags|
  {
    if tags == [] then Ok((meta, marker))
    else
      var e :- TagEffect(tags[0].0, tags[0].1, index);
      var next := Apply(meta, marker, tags[0].0, e);
      Fold(tags[1..], index, next.0, next.1)
  }

  /** _extract_meta(tags, index): the converted tags, then the marker dict under "marker". */
  function ExtractMeta(tags: Dicts.Items<Value>, index: nat): Result<Dicts.Items<Value>>
  {
    var acc :- Fold(tags, index, [], []);
    Ok(Dicts.Set(acc.0, "marker", PyDict(acc.1)))
  }

  /** The Fold behind a successful _extract_meta, and the marker dictionary added to its result. */
  lemma ExtractMetaFold(tags: Dicts.Items<Value>, index: nat) returns (acc: (Dicts.Items<Value>, Dicts.Items<Value>))
    requires ExtractMeta(tags, index).Ok?
    ensures Fold(tags, index, [], []) == Ok(acc)
    ensures ExtractMeta(tags, index) == Ok(Dicts.Set(acc.0, "marker", PyDict(acc.1)))
  {
    acc := Fold(tags, index, [], []).value;
  }

  /** _extract_meta as the source runs it: one pass over the tags updating the two dictionaries. */
  method ExtractMetaItems(tags: Dicts.Items<Value>, index: nat) returns (r: Result<Dicts.Items<Value>>)
    ensures r == ExtractMeta(tags, index)
  {
    var meta: Dicts.Items<Value> := [];
    var marker: Dicts.Items<Value> := [];
    var i := 0;
    while i < |tags|
      invariant 0 <= i <= |tags|
      invariant Fold(tags[i..], index, meta, marker) == Fold(tags, index, [], [])
    {
      assert tags[i..][1..] == tags[i + 1..];
      var e := TagEffect(tags[i].0, tags[i].1, index);
      if e.Err? {
        return Err(e.error);
      }
      var next := Apply(meta, marker, tags[i].0, e.value);
      meta, marker := next.0, next.1;
      i := i + 1;
    }
    assert tags[i..] == [];
    r := Ok(Dicts.Set(meta, "marker", PyDict(marker)));
  }

  // ----- what the loop stores -----

  /** The value _extract_meta stores under key `k` for the tag of that key, if it stores one. */
  function StoredFor(tags: Dicts.Items<Value>, index: nat, k: string): Option<Value>
  {
    match Dicts.Get(tags, k)
    case None => None
    case Some(v) =>
      match TagEffect(k, v, index)
      case Ok(Store(x)) => Some(x)
      case _ => None
  }

  /** The (rms, peak) pair the LEVEL OFFS tag yields, if there is one. */
  function LevelsFor(tags: Dicts.Items<Value>): Option<(real, real)>
  {
    match Dicts.Get(tags, "level_offs")
    case None => None
    case Some(v) =>
      match LevelOffsEffect(v)
      case Ok(Levels(rms, peak)) => Some((rms, peak))
      case _ => None
  }

  /** The marker lists of the tags, in order. */
  function MarkerItems(tags: Dicts.Items<Value>, index: nat): Dicts.Items<Value>
    decreases |tags|
  {
    if tags == [] then []
    else
      var rest := MarkerItems(tags[1..], index);
      match TagEffect(tags[0].0, tags[0].1, index)
      case Ok(Markers(list)) => [(tags[0].0, list)] + rest
      case _ => rest
  }

  lemma GetTail(tags: Dicts.Items<Value>, k: string)
    requires tags != [] && tags[0].0 != k
    ensures Dicts.Get(tags, k) == Dicts.Get(tags[1..], k)
  {
  }

  lemma GetHead(tags: Dicts.Items<Value>)
    requires tags != [] && Dicts.DistinctKeys(tags)
    ensures Dicts.Get(tags, tags[0].0) == Some(tags[0].1)
    ensures !Dicts.HasKey(tags[1..], tags[0].0)
  {
    assert Dicts.IndexOf(tags, tags[0].0) == Some(0);
  }

  /** Applying an effect keeps the keys distinct. */
  lemma ApplyDistinct(meta: Dicts.Items<Value>, marker: Dicts.Items<Value>, key: string, e: Effect)
    requires Dicts.DistinctKeys(meta)
    ensures Dicts.DistinctKeys(Apply(meta, marker, key, e).0)
  {
    match e {
      case Store(v) => Dicts.SetKeys(meta, key, v);
      case Levels(rms, peak) =>
        Dicts.SetKeys(meta, "rms", PyFloat(rms));
        Dicts.SetKeys(Dicts.Set(meta, "rms", PyFloat(rms)), "peak", PyFloat(peak));
      case Markers(_) =>
      case Skip =>
    }
  }

  /** What the fold leaves under an ordinary key: the stored value of that tag, or what was there. */
  lemma {:induction false} FoldGet(tags: Dicts.Items<Value>, index: nat, meta: Dicts.Items<Value>, marker: Dicts.Items<Value>, k: string)
    requires Dicts.DistinctKeys(tags) && Dicts.DistinctKeys(meta)
    requires Fold(tags, index, meta, marker).Ok?
    requires k != "rms" && k != "peak"
    ensures Dicts.DistinctKeys(Fold(tags, index, meta, marker).value.0)
    ensures Dicts.Get(Fold(tags, index, meta, marker).value.0, k) ==
      if StoredFor(tags, index, k).Some? then StoredFor(tags, index, k) else Dicts.Get(meta, k)
    decreases |tags|
  {
    if tags != [] {
      var key := tags[0].0;
      var e := TagEffect(key, tags[0].1, index).value;
      var next := Apply(meta, marker, key, e);
      ApplyDistinct(meta, marker, key, e);
      assert Dicts.DistinctKeys(tags[1..]);
      FoldGet(tags[1..], index, next.0, next.1, k);
      if key == k {
        GetHead(tags);
        assert StoredFor(tags[1..], index, k).None?;
        match e {
          case Store(v) => Dicts.GetSet(meta, key, v, k);
          case Levels(rms, peak) =>
            Dicts.GetSet(meta, "rms", PyFloat(rms), k);
            Dicts.SetKeys(meta, "rms", PyFloat(rms));
            Dicts.GetSet(Dicts.Set(meta, "rms", PyFloat(rms)), "peak", PyFloat(peak), k);
          case Markers(_) =>
          case Skip =>
        }
      } else {
        GetTail(tags, k);
        assert StoredFor(tags, index, k) == StoredFor(tags[1..], index, k);
        match e {
          case Store(v) => Dicts.GetSet(meta, key, v, k);
          case Levels(rms, peak) =>
            Dicts.GetSet(meta, "rms", PyFloat(rms), k);
            Dicts.SetKeys(meta, "rms", PyFloat(rms));
            Dicts.GetSet(Dicts.Set(meta, "rms", PyFloat(rms)), "peak", PyFloat(peak), k);
          case Markers(_) =>
          case Skip =>
        }
      }
    }
  }

  /** The LEVEL OFFS branch is taken by the key "level_offs" alone. */
  lemma RuleOfLevelOffs(key: string, index: nat)
    ensures RuleOf(key, index) == LevelOffsRule <==> key == "level_offs"
  {
    if key != "level_offs" && key != "type" {
      var later := if key == "vector_max" || key == "clock" then FloatRule
        else if key == "date" then DateRule
        else if key == "control_length" then IntRule
        else if IsMarkerListKey(key) then MarkerRule
        else if key == "samples" then IntRule
        else if key == "reflevel" then FloatRule
        else if key == "mwv_segment_level_offs" then SegmentLevelsRule
        else if key == "mwv_segment_clock" || key == "mwv_segment_length" then SegmentEntryRule
        else if NamesSegmentComment(key) && key != SegmentCommentKey(index) then OtherCommentRule
        else PlainRule;
      assert RuleOf(key, index) == later;
    }
  }

  /** Only the LEVEL OFFS rule yields a pair of levels. */
  lemma RuleEffectLevels(rule: Rule, v: Value, index: nat)
    requires RuleEffect(rule, v, index).Ok? && RuleEffect(rule, v, index).value.Levels?
    ensures rule == LevelOffsRule
  {
    match rule
    case TypeRule =>
    case LevelOffsRule =>
    case FloatRule =>
    case DateRule =>
    case IntRule =>
    case MarkerRule =>
    case SegmentLevelsRule =>
    case SegmentEntryRule =>
    case OtherCommentRule =>
    case PlainRule =>
  }

  /** Only the LEVEL OFFS tag yields rms and peak. */
  lemma LevelsOnlyFromLevelOffs(key: string, v: Value, index: nat)
    requires TagEffect(key, v, index).Ok? && TagEffect(key, v, index).value.Levels?
    ensures key == "level_offs"
  {
    RuleEffectLevels(RuleOf(key, index), v, index);
    RuleOfLevelOffs(key, index);
  }

  lemma LevelOffsRuleOf(index: nat)
    ensures RuleOf("level_offs", index) == LevelOffsRule
  {
  }

  /** One effect on rms and peak: set by a LEVEL OFFS effect, otherwise untouched. */
  lemma ApplyLevels(meta: Dicts.Items<Value>, marker: Dicts.Items<Value>, key: string, e: Effect)
    requires Dicts.DistinctKeys(meta) && key != "rms" && key != "peak"
    ensures Dicts.Get(Apply(meta, marker, key, e).0, "rms") == if e.Levels? then Some(PyFloat(e.rms)) else Dicts.Get(meta, "rms")
    ensures Dicts.Get(Apply(meta, marker, key, e).0, "peak") == if e.Levels? then Some(PyFloat(e.peak)) else Dicts.Get(meta, "peak")
  {
    match e {
      case Store(v) =>
        Dicts.GetSet(meta, key, v, "rms");
        Dicts.GetSet(meta, key, v, "peak");
      case Levels(rms, peak) =>
        Dicts.GetSet(meta, "rms", PyFloat(rms), "rms");
        Dicts.GetSet(meta, "rms", PyFloat(rms), "peak");
        Dicts.SetKeys(meta, "rms", PyFloat(rms));
        Dicts.GetSet(Dicts.Set(meta, "rms", PyFloat(rms)), "peak", PyFloat(peak), "rms");
        Dicts.GetSet(Dicts.Set(meta, "rms", PyFloat(rms)), "peak", PyFloat(peak), "peak");
      case Markers(_) =>
      case Skip =>
    }
  }

  /** What the fold leaves under "rms" and "peak" when no tag has those keys: the LEVEL OFFS pair. */
  lemma {:induction false} FoldLevels(tags: Dicts.Items<Value>, index: nat, meta: Dicts.Items<Value>, marker: Dicts.Items<Value>)
    requires Dicts.DistinctKeys(tags) && Dicts.DistinctKeys(meta)
    requires Fold(tags, index, meta, marker).Ok?
    requires !Dicts.HasKey(tags, "rms") && !Dicts.HasKey(tags, "peak")
    ensures Dicts.Get(Fold(tags, index, meta, marker).value.0, "rms") ==
      if LevelsFor(tags).Some? then Some(PyFloat(LevelsFor(tags).value.0)) else Dicts.Get(meta, "rms")
    ensures Dicts.Get(Fold(tags, index, meta, marker).value.0, "peak") ==
      if LevelsFor(tags).Some? then Some(PyFloat(LevelsFor(tags).value.1)) else Dicts.Get(meta, "peak")
    decreases |tags|
  {
    if tags != [] {
      var key := tags[0].0;
      var e := TagEffect(key, tags[0].1, index).value;
      var next := Apply(meta, marker, key, e);
      ApplyDistinct(meta, marker, key, e);
      assert Dicts.DistinctKeys(tags[1..]);
      assert Dicts.IndexOf(tags, key) == Some(0);
      GetTail(tags, "rms");
      GetTail(tags, "peak");
      FoldLevels(tags[1..], index, next.0, next.1);
      ApplyLevels(meta, marker, key, e);
      if key == "level_offs" {
        GetHead(tags);
        LevelOffsRuleOf(index);
        assert LevelsFor(tags[1..]).None?;
      } else {
        GetTail(tags, "level_offs");
        if e.Levels? {
          LevelsOnlyFromLevelOffs(key, tags[0].1, index);
        }
      }
    }
  }

  /** The marker dict the fold builds: the marker lists assigned in order of the tags. */
  lemma {:induction false} FoldMarkers(tags: Dicts.Items<Value>, index: nat, meta: Dicts.Items<Value>, marker: Dicts.Items<Value>)
    requires Fold(tags, index, meta, marker).Ok?
    ensures Fold(tags, index, meta, marker).value.1 == Dicts.UpdateAll(marker, MarkerItems(tags, index))
    decreases |tags|
  {
    if tags != [] {
      var key := tags[0].0;
      var e := TagEffect(key, tags[0].1, index).value;
      var next := Apply(meta, marker, key, e);
      FoldMarkers(tags[1..], index, next.0, next.1);
      match e {
        case Markers(list) =>
          var items := [(key, list)] + MarkerItems(tags[1..], index);
          assert items[1..] == MarkerItems(tags[1..], index);
        case Store(_) =>
        case Levels(_, _) =>
        case Skip =>
      }
    }
  }

  /**
   * What _extract_meta returns: distinct keys; under an ordinary key the
   * converted tag of that key; under "marker" always a dict of the marker
   * lists, in order.
   */
  lemma ExtractMetaContents(tags: Dicts.Items<Value>, index: nat, k: string)
    requires Dicts.DistinctKeys(tags)
    requires ExtractMeta(tags, index).Ok?
    requires k != "rms" && k != "peak" && k != "marker"
    ensures Dicts.DistinctKeys(ExtractMeta(tags, index).value)
    ensures Dicts.Get(ExtractMeta(tags, index).value, k) == StoredFor(tags, index, k)
    ensures Dicts.Get(ExtractMeta(tags, index).value, "marker") == Some(PyDict(Dicts.UpdateAll([], MarkerItems(tags, index))))
  {
    var acc := Fold(tags, index, [], []).value;
    FoldGet(tags, index, [], [], k);
    FoldMarkers(tags, index, [], []);
    Dicts.SetKeys(acc.0, "marker", PyDict(acc.1));
    Dicts.GetSet(acc.0, "marker", PyDict(acc.1), k);
    Dicts.GetSet(acc.0, "marker", PyDict(acc.1), "marker");
  }

  /** A tag whose conversion stores a value leaves that value under its key. */
  lemma ExtractStores(tags: Dicts.Items<Value>, index: nat, key: string, v: Value, x: Value)
    requires key != "rms" && key != "peak" && key != "marker"
    requires Dicts.DistinctKeys(tags) && Dicts.Get(tags, key) == Some(v)
    requires TagEffect(key, v, index) == Ok(Store(x))
    requires ExtractMeta(tags, index).Ok?
    ensures Dicts.Get(ExtractMeta(tags, index).value, key) == Some(x)
  {
    ExtractMetaContents(tags, index, key);
  }

  /** A LEVEL OFFS value "a,b" becomes the floats rms = a and peak = b, and is not kept itself. */
  lemma LevelOffsBecomeRmsPeak(tags: Dicts.Items<Value>, index: nat, a: string, b: string, rms: real, peak: real)
    requires Dicts.DistinctKeys(tags) && !Dicts.HasKey(tags, "rms") && !Dicts.HasKey(tags, "peak")
    requires Dicts.Get(tags, "level_offs") == Some(PyStr(a + "," + b))
    requires ',' !in a && ',' !in b
    requires ParseFloat(a) == Some(rms) && ParseFloat(b) == Some(peak)
    requires ExtractMeta(tags, index).Ok?
    ensures Dicts.Get(ExtractMeta(tags, index).value, "rms") == Some(PyFloat(rms))
    ensures Dicts.Get(ExtractMeta(tags, index).value, "peak") == Some(PyFloat(peak))
    ensures !Dicts.HasKey(ExtractMeta(tags, index).value, "level_offs")
  {
    var acc := ExtractMetaFold(tags, index);
    LevelOffsOfTexts(a, b, rms, peak);
    LevelOffsNotStored(tags, index);
    assert LevelsFor(tags) == Some((rms, peak));
    FoldGet(tags, index, [], [], "level_offs");
    FoldLevels(tags, index, [], []);
    Dicts.GetSet(acc.0, "marker", PyDict(acc.1), "rms");
    Dicts.GetSet(acc.0, "marker", PyDict(acc.1), "peak");
    Dicts.GetSet(acc.0, "marker", PyDict(acc.1), "level_offs");
  }

  /** A LEVEL OFFS tag that converts is not stored under its own key. */
  lemma LevelOffsNotStored(tags: Dicts.Items<Value>, index: nat)
    requires LevelsFor(tags).Some?
    ensures StoredFor(tags, index, "level_offs") == None
  {
    LevelOffsRuleOf(index);
    var v := Dicts.Get(tags, "level_offs").value;
    assert TagEffect("level_offs", v, index) == LevelOffsEffect(v);
  }

  lemma LevelOffsOfFields(s: string, rms: real, peak: real)
    requires |Split(s, ',')| == 2
    requires ParseFloat(Split(s, ',')[0]) == Some(rms) && ParseFloat(Split(s, ',')[1]) == Some(peak)
    ensures LevelOffsEffect(PyStr(s)) == Ok(Levels(rms, peak))
  {
  }

  lemma EntryOfFields(s: string, index: nat, x: real)
    requires index < |Split(s, ',')| && ParseFloat(Split(s, ',')[index]) == Some(x)
    ensures SegmentEntryEffect(PyStr(s), index) == Ok(Store(PyFloat(x)))
  {
  }

  lemma LevelPairOfFields(s: string, index: nat, rms: real, peak: real)
    requires 2 * index + 1 < |Split(s, ',')|
    requires ParseFloat(Split(s, ',')[2 * index]) == Some(rms) && ParseFloat(Split(s, ',')[2 * index + 1]) == Some(peak)
    ensures SegmentLevelsEffect(PyStr(s), index) == Ok(Store(PyTuple([PyFloat(rms), PyFloat(peak)])))
  {
  }

  lemma LevelOffsOfTexts(a: string, b: string, rms: real, peak: real)
    requires ',' !in a && ',' !in b
    requires ParseFloat(a) == Some(rms) && ParseFloat(b) == Some(peak)
    ensures LevelOffsEffect(PyStr(a + "," + b)) == Ok(Levels(rms, peak))
  {
    SplitTwo(a, b, ',');
    LevelOffsOfFields(a + "," + b, rms, peak);
  }

  lemma SplitTwo(a: string, b: string, sep: char)
    requires sep !in a && sep !in b
    ensures Split(a + [sep] + b, sep) == [a, b]
  {
    SplitJoin([a, b], sep);
    assert Join([a, b], [sep]) == a + [sep] + b;
  }

  lemma TypeRuleOf(index: nat)
    ensures RuleOf("type", index) == TypeRule
  {
  }

  /** TYPE keeps the first comma field, stripped: "SMU-WV, 0" gives "SMU-WV". */
  lemma TypeKeepsFirstField(tags: Dicts.Items<Value>, index: nat, first: string, rest: string)
    requires Dicts.DistinctKeys(tags)
    requires Dicts.Get(tags, "type") == Some(PyStr(first + "," + rest))
    requires ',' !in first
    requires ExtractMeta(tags, index).Ok?
    ensures Dicts.Get(ExtractMeta(tags, index).value, "type") == Some(PyStr(Strip(first)))
  {
    FirstFieldOf(first, rest);
    TypeRuleOf(index);
    ExtractMetaContents(tags, index, "type");
  }

  lemma FirstFieldOf(first: string, rest: string)
    requires ',' !in first
    ensures Split(first + "," + rest, ',')[0] == first
  {
    IndexOfCharAfter(first, ',', rest);
    var s := first + "," + rest;
    assert s[..|first|] == first;
  }

  lemma SegmentEntryRuleOf(index: nat)
    ensures RuleOf("mwv_segment_clock", index) == SegmentEntryRule
    ensures RuleOf("mwv_segment_length", index) == SegmentEntryRule
    ensures RuleOf("mwv_segment_level_offs", index) == SegmentLevelsRule
  {
  }

  /**
   * Of a multi-segment list (MWV_SEGMENT_CLOCK, MWV_SEGMENT_LENGTH), segment
   * `index` keeps the entry at `index`.
   */
  lemma SegmentEntry(tags: Dicts.Items<Value>, key: string, index: nat, texts: seq<string>, x: real)
    requires key == "mwv_segment_clock" || key == "mwv_segment_length"
    requires Dicts.DistinctKeys(tags)
    requires Dicts.Get(tags, key) == Some(PyStr(Join(texts, ",")))
    requires forall i :: 0 <= i < |texts| ==> ',' !in texts[i]
    requires index < |texts| && ParseFloat(texts[index]) == Some(x)
    requires ExtractMeta(tags, index).Ok?
    ensures Dicts.Get(ExtractMeta(tags, index).value, key) == Some(PyFloat(x))
  {
    EntryOfTexts(key, index, texts, x);
    ExtractStores(tags, index, key, PyStr(Join(texts, ",")), PyFloat(x));
  }

  lemma EntryOfTexts(key: string, index: nat, texts: seq<string>, x: real)
    requires key == "mwv_segment_clock" || key == "mwv_segment_length"
    requires forall i :: 0 <= i < |texts| ==> ',' !in texts[i]
    requires index < |texts| && ParseFloat(texts[index]) == Some(x)
    ensures TagEffect(key, PyStr(Join(texts, ",")), index) == Ok(Store(PyFloat(x)))
  {
    var v := PyStr(Join(texts, ","));
    assert RuleOf(key, index) == SegmentEntryRule by {
      SegmentEntryRuleOf(index);
    }
    assert TagEffect(key, v, index) == SegmentEntryEffect(v, index);
    EntryOfJoined(index, texts, x);
  }

  lemma EntryOfJoined(index: nat, texts: seq<string>, x: real)
    requires forall i :: 0 <= i < |texts| ==> ',' !in texts[i]
    requires index < |texts| && ParseFloat(texts[index]) == Some(x)
    ensures SegmentEntryEffect(PyStr(Join(texts, ",")), index) == Ok(Store(PyFloat(x)))
  {
    SplitJoin(texts, ',');
    EntryOfFields(Join(texts, ","), index, x);
  }

  /** Of the multi-segment level list, segment `index` keeps the entries 2 index and 2 index + 1 as a pair. */
  lemma SegmentLevels(tags: Dicts.Items<Value>, index: nat, texts: seq<string>, rms: real, peak: real)
    requires Dicts.DistinctKeys(tags)
    requires Dicts.Get(tags, "mwv_segment_level_offs") == Some(PyStr(Join(texts, ",")))
    requires forall i :: 0 <= i < |texts| ==> ',' !in texts[i]
    requires 2 * index + 1 < |texts|
    requires ParseFloat(texts[2 * index]) == Some(rms) && ParseFloat(texts[2 * index + 1]) == Some(peak)
    requires ExtractMeta(tags, index).Ok?
    ensures Dicts.Get(ExtractMeta(tags, index).value, "mwv_segment_level_offs") == Some(PyTuple([PyFloat(rms), PyFloat(peak)]))
  {
    LevelPairOfTexts(index, texts, rms, peak);
    ExtractStores(tags, index, "mwv_segment_level_offs", PyStr(Join(texts, ",")), PyTuple([PyFloat(rms), PyFloat(peak)]));
  }

  lemma LevelPairOfTexts(index: nat, texts: seq<string>, rms: real, peak: real)
    requires forall i :: 0 <= i < |texts| ==> ',' !in texts[i]
    requires 2 * index + 1 < |texts|
    requires ParseFloat(texts[2 * index]) == Some(rms) && ParseFloat(texts[2 * index + 1]) == Some(peak)
    ensures TagEffect("mwv_segment_level_offs", PyStr(Join(texts, ",")), index) == Ok(Store(PyTuple([PyFloat(rms), PyFloat(peak)])))
  {
    var s := Join(texts, ",");
    SplitJoin(texts, ',');
    SegmentLevelsTagEffect(PyStr(s), index);
    LevelPairOfFields(s, index, rms, peak);
  }

  lemma SegmentLevelsTagEffect(v: Value, index: nat)
    ensures TagEffect("mwv_segment_level_offs", v, index) == SegmentLevelsEffect(v, index)
  {
    SegmentEntryRuleOf(index);
  }

  /** The comment key of a segment: "mwv_segment", its digits, "_comment". */
  lemma CommentKeyShape(i: nat)
    ensures |SegmentCommentKey(i)| == 19 + |NatText(i)|
    ensures SegmentCommentKey(i)[..11] == "mwv_segment" && IsDigit(SegmentCommentKey(i)[11])
    ensures SegmentCommentKey(i)[11..11 + |NatText(i)|] == NatText(i)
    ensures SegmentCommentKey(i)[11 + |NatText(i)|..] == "_comment"
  {
  }

  /** A segment comment key is none of the keys the other branches test, nor a result key. */
  lemma CommentKeyIsNoOtherKey(i: nat)
    ensures var k := SegmentCommentKey(i);
      k != "type" && k != "level_offs" && k != "vector_max" && k != "clock" && k != "date"
      && k != "control_length" && !IsMarkerListKey(k) && k != "samples" && k != "reflevel"
      && k != "mwv_segment_level_offs" && k != "mwv_segment_clock" && k != "mwv_segment_length"
      && k != "rms" && k != "peak" && k != "marker" && k != "comment"
  {
    CommentKeyShape(i);
    var k := SegmentCommentKey(i);
    assert k[1] == 'w' && k[11] != '_';
    assert "mwv_segment_level_offs"[11] == '_';
  }

  /** The comment key of a segment names a segment comment. */
  lemma CommentKeyNamed(i: nat)
    ensures NamesSegmentComment(SegmentCommentKey(i))
  {
    var key := SegmentCommentKey(i);
    var d := NatText(i);
    CommentKeyShape(i);
    DigitsThenStop(key, 11, d);
    assert key[11 + |d|..19 + |d|] == "_comment";
    assert SegmentCommentAt(key, 0);
  }

  lemma {:induction false} DigitsThenStop(key: string, q: nat, d: string)
    requires AllDigits(d) && q + |d| < |key| && key[q..q + |d|] == d && !IsDigit(key[q + |d|])
    ensures DigitCount(key, q) == |d|
    decreases |d|
  {
    if d != [] {
      assert key[q + 1..q + |d|] == d[1..];
      DigitsThenStop(key, q + 1, d[1..]);
    }
  }

  /** Different segments have different comment keys. */
  lemma CommentKeyInjective(i: nat, j: nat)
    requires SegmentCommentKey(i) == SegmentCommentKey(j)
    ensures i == j
  {
    CommentKeyShape(i);
    CommentKeyShape(j);
    assert NatText(i) == SegmentCommentKey(i)[11..|SegmentCommentKey(i)| - 8];
    assert NatText(j) == SegmentCommentKey(j)[11..|SegmentCommentKey(j)| - 8];
    DigitsValueOfNatText(i);
    DigitsValueOfNatText(j);
  }

  /** The comment key of another segment takes the branch that drops it; that of this segment is kept as it is. */
  lemma CommentKeyRuleOf(i: nat, index: nat)
    ensures RuleOf(SegmentCommentKey(i), index) == if i == index then PlainRule else OtherCommentRule
  {
    CommentKeyIsNoOtherKey(i);
    CommentKeyNamed(i);
    if i != index && SegmentCommentKey(i) == SegmentCommentKey(index) {
      CommentKeyInjective(i, index);
    }
  }

  /** Only the comment of the segment asked for survives; the other segments' comments are dropped. */
  lemma OtherCommentsDropped(tags: Dicts.Items<Value>, index: nat, j: nat)
    requires Dicts.DistinctKeys(tags) && j != index
    requires ExtractMeta(tags, index).Ok?
    ensures !Dicts.HasKey(ExtractMeta(tags, index).value, SegmentCommentKey(j))
  {
    CommentKeyRuleOf(j, index);
    CommentKeyIsNoOtherKey(j);
    ExtractMetaContents(tags, index, SegmentCommentKey(j));
  }

  /** The comment of the segment asked for is kept as it was read. */
  lemma OwnCommentKept(tags: Dicts.Items<Value>, index: nat, c: string)
    requires Dicts.DistinctKeys(tags)
    requires Dicts.Get(tags, SegmentCommentKey(index)) == Some(PyStr(c))
    requires ExtractMeta(tags, index).Ok?
    ensures Dicts.Get(ExtractMeta(tags, index).value, SegmentCommentKey(index)) == Some(PyStr(c))
  {
    CommentKeyRuleOf(index, index);
    CommentKeyIsNoOtherKey(index);
    ExtractMetaContents(tags, index, SegmentCommentKey(index));
  }

  // ----- _handle_mwv_meta_data -----

  /** meta[dst] = meta.pop(src) when src is present. */
  function Rename(meta: Dicts.Items<Value>, src: string, dst: string): Dicts.Items<Value>
  {
    match Dicts.Get(meta, src)
    case None => meta
    case Some(v) => Dicts.Set(Dicts.Remove(meta, src), dst, v)
  }

  /** offset, peak = value: a pair of values. */
  function UnpackPair(v: Value): Result<(Value, Value)>
  {
    match v
    case PyTuple(items) => if |items| == 2 then Ok((items[0], items[1])) else Err(ValueError(WrongFieldCount))
    case PyList(items) => if |items| == 2 then Ok((items[0], items[1])) else Err(ValueError(WrongFieldCount))
    case _ => Err(TypeError)
  }

  /** The level pair of the segment replaced by rms and peak. */
  function SplitLevels(meta: Dicts.Items<Value>): Result<Dicts.Items<Value>>
  {
    match Dicts.Get(meta, "mwv_segment_level_offs")
    case None => Ok(meta)
    case Some(v) =>
      var m := Dicts.Remove(meta, "mwv_segment_level_offs");
      var pair :- UnpackPair(v);
      var rms :- ToFloat(pair.0);
      var peak :- ToFloat(pair.1);
      Ok(Dicts.Set(Dicts.Set(m, "rms", PyFloat(rms)), "peak", PyFloat(peak)))
  }

  /** _handle_mwv_meta_data(meta, index): the segment keys renamed to clock, rms/peak, samples, comment. */
  function HandleMwvMetaData(meta: Dicts.Items<Value>, index: nat): Result<Dicts.Items<Value>>
  {
    var m1 := Rename(meta, "mwv_segment_clock", "clock");
    var m2 :- SplitLevels(m1);
    var m3 := Rename(m2, "mwv_segment_length", "samples");
    Ok(Rename(m3, SegmentCommentKey(index), "comment"))
  }

  /** After a rename the source key is gone and the target holds its value; other keys are untouched. */
  lemma RenameGet(meta: Dicts.Items<Value>, src: string, dst: string, k: string)
    requires Dicts.DistinctKeys(meta) && src != dst
    ensures Dicts.DistinctKeys(Rename(meta, src, dst))
    ensures Dicts.Get(Rename(meta, src, dst), k) ==
      if k == src then None
      else if k == dst && Dicts.HasKey(meta, src) then Dicts.Get(meta, src)
      else Dicts.Get(meta, k)
  {
    match Dicts.Get(meta, src) {
      case None =>
      case Some(v) =>
        Dicts.RemoveKeys(meta, src);
        Dicts.GetRemove(meta, src, k);
        Dicts.SetKeys(Dicts.Remove(meta, src), dst, v);
        Dicts.GetSet(Dicts.Remove(meta, src), dst, v, k);
    }
  }

  lemma SplitLevelsGet(meta: Dicts.Items<Value>, k: string)
    requires Dicts.DistinctKeys(meta) && SplitLevels(meta).Ok?
    ensures Dicts.DistinctKeys(SplitLevels(meta).value)
    ensures k != "rms" && k != "peak" ==>
      (Dicts.Get(SplitLevels(meta).value, k) == if k == "mwv_segment_level_offs" then None else Dicts.Get(meta, k))
  {
    match Dicts.Get(meta, "mwv_segment_level_offs") {
      case None =>
      case Some(v) =>
        var m := Dicts.Remove(meta, "mwv_segment_level_offs");
        var r := SplitLevels(meta).value;
        var rms := r;
        Dicts.RemoveKeys(meta, "mwv_segment_level_offs");
        Dicts.GetRemove(meta, "mwv_segment_level_offs", k);
        var pair := UnpackPair(v).value;
        var x := ToFloat(pair.0).value;
        var y := ToFloat(pair.1).value;
        Dicts.SetKeys(m, "rms", PyFloat(x));
        Dicts.GetSet(m, "rms", PyFloat(x), k);
        Dicts.SetKeys(Dicts.Set(m, "rms", PyFloat(x)), "peak", PyFloat(y));
        Dicts.GetSet(Dicts.Set(m, "rms", PyFloat(x)), "peak", PyFloat(y), k);
    }
  }

  /**
   * _handle_mwv_meta_data moves the segment's clock, length and comment to
   * clock, samples and comment (keeping the single-segment values when the
   * segment ones are absent), leaves no segment key behind and changes no
   * other key but rms and peak.
   */
  lemma HandleMwvGet(meta: Dicts.Items<Value>, index: nat, k: string)
    requires Dicts.DistinctKeys(meta) && HandleMwvMetaData(meta, index).Ok?
    requires k != "rms" && k != "peak"
    ensures Dicts.DistinctKeys(HandleMwvMetaData(meta, index).value)
    ensures Dicts.Get(HandleMwvMetaData(meta, index).value, k) ==
      if k == "mwv_segment_clock" || k == "mwv_segment_level_offs" || k == "mwv_segment_length"
         || k == SegmentCommentKey(index) then None
      else if k == "clock" && Dicts.HasKey(meta, "mwv_segment_clock") then Dicts.Get(meta, "mwv_segment_clock")
      else if k == "samples" && Dicts.HasKey(meta, "mwv_segment_length") then Dicts.Get(meta, "mwv_segment_length")
      else if k == "comment" && Dicts.HasKey(meta, SegmentCommentKey(index)) then Dicts.Get(meta, SegmentCommentKey(index))
      else Dicts.Get(meta, k)
  {
    var ck := SegmentCommentKey(index);
    CommentKeyIsNoOtherKey(index);
    var m1 := Rename(meta, "mwv_segment_clock", "clock");
    var m2 := SplitLevels(m1).value;
    var m3 := Rename(m2, "mwv_segment_length", "samples");
    RenameGet(meta, "mwv_segment_clock", "clock", k);
    SplitLevelsGet(m1, k);
    RenameGet(m2, "mwv_segment_length", "samples", k);
    RenameGet(m3, ck, "comment", k);
    RenameGet(meta, "mwv_segment_clock", "clock", "mwv_segment_length");
    SplitLevelsGet(m1, "mwv_segment_length");
    RenameGet(meta, "mwv_segment_clock", "clock", ck);
    SplitLevelsGet(m1, ck);
    RenameGet(m2, "mwv_segment_length", "samples", ck);
  }
}
