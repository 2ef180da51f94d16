/**
 * Properties of the iq.tar saver: how the member names follow from the
 * file name, which exception stops the XML member, and what the loader
 * reads back from a saved archive.
 */
module IqtarSaveFacts {
  import opened Wrappers
  import opened Text
  import opened Dates
  import opened Values
  import Dicts
  import opened Storages
  import opened Output
  import Iqw
  import IqwFacts
  import opened IqtarLoad
  import opened IqtarSave

  // ----- member names -----

  predicate NoMatch(s: string)
  {
    forall i :: 0 <= i < |s| ==> !MatchesAt(s, i)
  }

  lemma {:induction false} NoMatchTail(s: string)
    requires s != [] && NoMatch(s)
    ensures NoMatch(s[1..])
  {
    forall i | 0 <= i < |s[1..]|
      ensures !MatchesAt(s[1..], i)
    {
      MatchShift(s, i + 1);
    }
  }

  /** A match in s past its first character is a match in s[1..], one place earlier. */
  lemma MatchShift(s: string, i: nat)
    requires 0 < i <= |s|
    ensures MatchesAt(s, i) <==> MatchesAt(s[1..], i - 1)
  {
    if i + 6 <= |s| {
      assert s[1..][i - 1] == s[i] && s[1..][i] == s[i + 1] && s[1..][i + 1] == s[i + 2];
      assert s[1..][i + 2] == s[i + 3] && s[1..][i + 3] == s[i + 4] && s[1..][i + 4] == s[i + 5];
    }
  }

  /** With no match, re.sub leaves the name as it is. */
  lemma {:induction false} SubNoMatch(s: string, repl: string)
    requires NoMatch(s)
    ensures Sub(s, repl) == s
    decreases |s|
  {
    if s != [] {
      NoMatchTail(s);
      SubNoMatch(s[1..], repl);
    }
  }

  /** A prefix in which no match starts is kept as it is. */
  lemma {:induction false} SubPrefix(p: string, t: string, repl: string)
    requires forall i :: 0 <= i < |p| ==> !MatchesAt(p + t, i)
    ensures Sub(p + t, repl) == p + Sub(t, repl)
    decreases |p|
  {
    if p == [] {
      assert p + t == t;
    } else {
      var s := p + t;
      assert s[1..] == p[1..] + t;
      assert s[0] == p[0];
      forall i | 0 <= i < |p[1..]|
        ensures !MatchesAt(p[1..] + t, i)
      {
        MatchShift(s, i + 1);
      }
      SubPrefix(p[1..], t, repl);
    }
  }

  /** A name "<stem>.iq.tar" in which no match starts within the stem becomes "<stem>.<repl>". */
  lemma IqTarName(stem: string, repl: string)
    requires forall i :: 0 <= i < |stem| ==> !MatchesAt(stem + ".iq.tar", i)
    ensures Sub(stem + ".iq.tar", repl) == stem + "." + repl
  {
    assert stem + ".iq.tar" == stem + ("." + "iq.tar");
    assert !MatchesAt("." + "iq.tar", 0);
    assert ("." + "iq.tar")[1..] == "iq.tar";
    assert MatchesAt("iq.tar", 0);
    assert Sub("iq.tar", repl) == repl + Sub([], repl);
    SubPrefix(stem, "." + "iq.tar", repl);
  }

  /** The two substitutions of a name differ exactly when "iq.tar" occurs in it. */
  lemma {:induction false} SubsDiffer(s: string)
    ensures Sub(s, BinaryExtension) == Sub(s, "xml") <==> NoMatch(s)
    decreases |s|
  {
    if s == [] {
    } else if MatchesAt(s, 0) {
      assert Sub(s, BinaryExtension)[0] == 'c' && Sub(s, "xml")[0] == 'x';
    } else {
      SubsDiffer(s[1..]);
      assert Sub(s, BinaryExtension) == [s[0]] + Sub(s[1..], BinaryExtension);
      assert Sub(s, "xml") == [s[0]] + Sub(s[1..], "xml");
      if NoMatch(s[1..]) {
        forall i | 0 <= i < |s|
          ensures !MatchesAt(s, i)
        {
          if i > 0 {
            MatchShift(s, i);
          }
        }
      } else {
        var i :| 0 <= i < |s[1..]| && MatchesAt(s[1..], i);
        MatchShift(s, i + 1);
        assert Sub(s[1..], BinaryExtension) == Sub(s, BinaryExtension)[1..];
        assert Sub(s[1..], "xml") == Sub(s, "xml")[1..];
      }
    }
  }

  /**
   * A str path gives both temporary files one name exactly when its last
   * component does not contain "iq.tar" (in any case); a stream never does.
   */
  lemma NamesCollide(file: Option<string>)
    ensures MemberNames(file).0 == MemberNames(file).1 <==> file.Some? && NoMatch(PathName(file.value))
  {
    if file.Some? {
      SubsDiffer(PathName(file.value));
    }
  }

  /** "İQ.tar" (upper-case "IQ.TAR" typed with the dotted capital İ) is matched, so both members get the replacement names. */
  lemma DottedCapitalName()
    ensures MemberNames(Some("\U{0130}Q.tar")) == (BinaryExtension, "xml")
  {
    var name := "\U{0130}Q.tar";
    assert Split(name, '/') == [name];
    assert PathName(name) == name;
    assert MatchesAt(name, 0);
    assert name[6..] == [];
    assert Sub(name, BinaryExtension) == BinaryExtension + Sub([], BinaryExtension);
    assert Sub(name, "xml") == "xml" + Sub([], "xml");
    assert BinaryExtension + Sub([], BinaryExtension) == BinaryExtension;
    assert "xml" + Sub([], "xml") == "xml";
    assert MemberNames(Some(name)) == (Sub(PathName(name), BinaryExtension), Sub(PathName(name), "xml"));
  }

  /** A name ending in ".xml" is one the loader takes for the XML member. */
  lemma XmlSuffix(stem: string)
    ensures IsXmlName(stem + ".xml")
  {
    var l := Text.Lower(stem + ".xml");
    assert l[|stem|..|stem| + 4] == ".xml";
    assert OccursAt(l, ".xml", |stem|);
  }

  /** A name in which no '.' is followed by an 'x' of either case is not taken for the XML member. */
  lemma NotXmlName(s: string)
    requires forall i :: 0 <= i < |s| - 1 ==> s[i] == '.' ==> s[i + 1] != 'x' && s[i + 1] != 'X'
    ensures !IsXmlName(s)
  {
    var l := Text.Lower(s);
    forall i: nat
      ensures !OccursAt(l, ".xml", i)
    {
      if i + 4 <= |l| {
        if s[i] == '.' {
          assert l[i + 1] != 'x';
          assert l[i..i + 4][1] != 'x';
        } else {
          assert l[i..i + 4][0] != '.';
        }
      }
    }
  }

  /** The names of a save to a stream: the loader takes the second, and only it, for the XML member. */
  lemma StreamNames()
    ensures MemberNames(None) == ("data.complex.1ch.float32", "data.xml")
    ensures IsXmlName(MemberNames(None).1) && !IsXmlName(MemberNames(None).0)
  {
    XmlSuffix("data");
    assert "data" + ".xml" == "data.xml";
    var bin := "data.complex.1ch.float32";
    assert "data." + BinaryExtension == bin;
    forall i | 0 <= i < |bin| - 1 && bin[i] == '.'
      ensures bin[i + 1] != 'x' && bin[i + 1] != 'X'
    {
      assert i == 4 || i == 12 || i == 16;
    }
    NotXmlName(bin);
  }

  // ----- the XML member -----

  lemma {:induction false} RunFirstErr<T>(steps: seq<Result<seq<T>>>, k: nat)
    requires k < |steps| && steps[k].Err?
    requires forall i :: 0 <= i < k ==> steps[i].Ok?
    ensures Run(steps).1 == Some(steps[k].error)
    decreases k
  {
    if k > 0 {
      RunFirstErr(steps[1..], k - 1);
    }
  }

  lemma {:induction false} RunAllOk<T>(steps: seq<Result<seq<T>>>)
    requires forall i :: 0 <= i < |steps| ==> steps[i].Ok?
    ensures Run(steps).1 == None
    decreases |steps|
  {
    if steps != [] {
      RunAllOk(steps[1..]);
    }
  }

  /** The first exception of the writes that read the first storage. */
  function StorageError(first: StorageValue): Option<Error>
  {
    var clock, cf := Truthy(Clock(first)), NotZero(CenterFrequency(first));
    if clock.Err? then Some(clock.error)
    else if !clock.value then Some(ValueError(ClockMissing))
    else if cf.Err? then Some(cf.error)
    else None
  }

  lemma StorageStepsError(first: StorageValue, n: nat, bin: string)
    ensures Run(StorageSteps(first, n, bin)).1 == StorageError(first)
  {
    var steps := StorageSteps(first, n, bin);
    StepsThatRun(first, n, bin);
    ClockStepError(first);
    if ClockStep(first).Err? {
      RunFirstErr(steps, 2);
    } else {
      CenterFrequencyStepError(first);
      if CenterFrequencyStep(first).Err? {
        RunFirstErr(steps, 8);
      } else {
        RunAllOk(steps);
      }
    }
  }

  /** Every write but the clock's and the center frequency's succeeds. */
  lemma StepsThatRun(first: StorageValue, n: nat, bin: string)
    ensures var steps := StorageSteps(first, n, bin);
            steps[2] == ClockStep(first) && steps[8] == CenterFrequencyStep(first)
            && forall i :: 0 <= i < |steps| && i != 2 && i != 8 ==> steps[i].Ok?
  {
  }

  /** The clock's write fails exactly when the storage's first exception is the clock's. */
  lemma ClockStepError(first: StorageValue)
    ensures ClockStep(first).Err? <==> Truthy(Clock(first)) != Ok(true)
    ensures ClockStep(first).Err? ==> StorageError(first) == Some(ClockStep(first).error)
  {
  }

  lemma CenterFrequencyStepError(first: StorageValue)
    requires ClockStep(first).Ok?
    ensures CenterFrequencyStep(first).Err? <==> NotZero(CenterFrequency(first)).Err?
    ensures StorageError(first) == if CenterFrequencyStep(first).Err? then Some(CenterFrequencyStep(first).error) else None
  {
  }

  /**
   * The exception that stops _write_xml: IndexError with no storages;
   * otherwise the clock's (an ambiguous truth value, or ValueError when it
   * is missing or false), then the center frequency's comparison; none
   * when both pass.
   */
  lemma XmlErrors(ds: seq<StorageValue>, timestamp: ValidDateTime, bin: string)
    ensures ds == [] ==> XmlFile(ds, timestamp, bin).1 == Some(IndexError)
    ensures ds != [] ==> XmlFile(ds, timestamp, bin).1 == StorageError(ds[0])
  {
    var head: seq<XmlStep> := [OverheadStep, DateStep(timestamp)];
    RunAllOk(head);
    if ds == [] {
      RunConcat(head, [Err(IndexError)]);
    } else {
      RunConcat(head, StorageSteps(ds[0], |ds|, bin));
      StorageStepsError(ds[0], |ds|, bin);
    }
  }

  /** An ambiguous truth value is the only other exception: a clock or center frequency held as an array of several values. */
  lemma XmlErrorKinds(ds: seq<StorageValue>, timestamp: ValidDateTime, bin: string)
    requires XmlFile(ds, timestamp, bin).1.Some?
    ensures XmlFile(ds, timestamp, bin).1.value in {IndexError, ValueError(ClockMissing), ValueError(AmbiguousTruth)}
    ensures XmlFile(ds, timestamp, bin).1.value == ValueError(AmbiguousTruth) ==>
              ds != [] && (Clock(ds[0]).PyArray? || CenterFrequency(ds[0]).PyArray?)
  {
    XmlErrors(ds, timestamp, bin);
    if ds != [] {
      StorageErrorKinds(ds[0]);
    }
  }

  lemma StorageErrorKinds(first: StorageValue)
    requires StorageError(first).Some?
    ensures StorageError(first).value in {ValueError(ClockMissing), ValueError(AmbiguousTruth)}
    ensures StorageError(first).value == ValueError(AmbiguousTruth) ==> Clock(first).PyArray? || CenterFrequency(first).PyArray?
  {
  }

  // ----- reading the XML member back -----

  /** The path root.find resolves an element by. */
  function Key(e: XmlElement): string
  {
    Join(e.path, "/")
  }

  /** The attributes of an element as ElementTree keeps them. */
  function AttrMap(attrs: seq<(string, string)>): map<string, string>
  {
    if attrs == [] then map[] else AttrMap(attrs[1..])[attrs[0].0 := attrs[0].1]
  }

  /** A written element as ElementTree reads it: an empty text is None. */
  function ElementOf(e: XmlElement): Element
  {
    Element(if e.text == "" then None else Some(e.text), AttrMap(e.attrs))
  }

  /**
   * The document an XML parser makes of the written pieces: each element
   * under its path, the first element of a path winning as with root.find.
   */
  function Parsed(ps: seq<XmlPiece>): Xml
  {
    if ps == [] then map[]
    else match ps[0]
      case Raw(_) => Parsed(ps[1..])
      case Elem(e) => Parsed(ps[1..])[Key(e) := ElementOf(e)]
  }

  /** No element of the pieces lies at path k. */
  predicate Misses(ps: seq<XmlPiece>, k: string)
  {
    forall q :: 0 <= q < |ps| ==> !(ps[q].Elem? && Key(ps[q].e) == k)
  }

  lemma {:induction false} ParsedMisses(a: seq<XmlPiece>, b: seq<XmlPiece>, k: string)
    requires Misses(a, k)
    ensures k in Parsed(a + b) <==> k in Parsed(b)
    ensures k in Parsed(b) ==> Parsed(a + b)[k] == Parsed(b)[k]
    decreases |a|
  {
    if a == [] {
      assert a + b == b;
    } else {
      assert (a + b)[0] == a[0] && (a + b)[1..] == a[1..] + b;
      ParsedMisses(a[1..], b, k);
    }
  }

  /** The element a run writes alone in step j, no earlier step writing one at its path, is what the parser finds there. */
  lemma {:induction false} ParsedRun(steps: seq<XmlStep>, j: nat, e: XmlElement)
    requires j < |steps| && steps[j] == Ok([Elem(e)])
    requires forall i :: 0 <= i < j ==> steps[i].Ok? && Misses(steps[i].value, Key(e))
    ensures Key(e) in Parsed(Run(steps).0) && Parsed(Run(steps).0)[Key(e)] == ElementOf(e)
    decreases j
  {
    var rest := Run(steps[1..]).0;
    if j == 0 {
      assert Run(steps).0 == [Elem(e)] + rest;
      assert ([Elem(e)] + rest)[1..] == rest;
    } else {
      ParsedRun(steps[1..], j - 1, e);
      assert Run(steps).0 == steps[0].value + rest;
      ParsedMisses(steps[0].value, rest, Key(e));
    }
  }

  /** A step that writes one element, a child of the root named `name`. */
  predicate SingleAt(step: XmlStep, name: string)
  {
    step.Ok? && |step.value| == 1 && step.value[0].Elem? && step.value[0].e.path == [name]
  }

  lemma SingleMisses(step: XmlStep, name: string, k: string)
    requires SingleAt(step, name) && name != k
    ensures Misses(step.value, k)
  {
    assert Key(step.value[0].e) == name;
  }

  /** The elements the writes that read the first storage put under the root, before the center frequency. */
  const StorageNames: seq<string> :=
    ["Comment", "Samples", "Clock", "Format", "DataType", "ScalingFactor", "DataFilename", "NumberOfChannels"]

  lemma StorageStepNames(first: StorageValue, n: nat, bin: string, i: nat)
    requires ClockStep(first).Ok? && i < |StorageNames|
    ensures SingleAt(StorageSteps(first, n, bin)[i], StorageNames[i])
  {
  }

  /** The data file name and the channel count the parser finds in a document whose first storage has a clock. */
  lemma ParsedNames(first: StorageValue, n: nat, bin: string)
    requires ClockStep(first).Ok?
    ensures var x := Parsed(Run(StorageSteps(first, n, bin)).0);
            "DataFilename" in x && x["DataFilename"] == ElementOf(Line("DataFilename", bin).e)
            && "NumberOfChannels" in x && x["NumberOfChannels"] == ElementOf(Line("NumberOfChannels", NatText(n)).e)
  {
    var steps := StorageSteps(first, n, bin);
    forall i | 0 <= i < 7
      ensures steps[i].Ok? && Misses(steps[i].value, "NumberOfChannels")
      ensures i < 6 ==> Misses(steps[i].value, "DataFilename")
    {
      StorageStepNames(first, n, bin, i);
      SingleMisses(steps[i], StorageNames[i], "NumberOfChannels");
      if i < 6 {
        SingleMisses(steps[i], StorageNames[i], "DataFilename");
      }
    }
    assert Key(Line("DataFilename", bin).e) == "DataFilename";
    assert Key(Line("NumberOfChannels", NatText(n)).e) == "NumberOfChannels";
    ParsedRun(steps, 6, Line("DataFilename", bin).e);
    ParsedRun(steps, 7, Line("NumberOfChannels", NatText(n)).e);
  }

  /** The pieces _write_xml writes before it reads a storage: the overhead and the date. */
  function HeadPieces(timestamp: ValidDateTime): seq<XmlPiece>
  {
    [Raw(Declaration), Raw(Stylesheet), Raw(RootOpen), Line("Name", WriterName), Line("DateTime", IsoFormat(timestamp, 'T'))]
  }

  lemma XmlFileSplit(ds: seq<StorageValue>, timestamp: ValidDateTime, bin: string)
    requires ds != []
    ensures var rest := Run(StorageSteps(ds[0], |ds|, bin));
            XmlFile(ds, timestamp, bin) == (HeadPieces(timestamp) + rest.0, rest.1)
  {
    var head: seq<XmlStep> := [OverheadStep, DateStep(timestamp)];
    assert XmlSteps(ds, timestamp, bin) == head + StorageSteps(ds[0], |ds|, bin);
    RunAllOk(head);
    RunConcat(head, StorageSteps(ds[0], |ds|, bin));
    assert head[1..] == [DateStep(timestamp)] && [DateStep(timestamp)][1..] == [];
    assert Run(head[1..]).0 == DateStep(timestamp).value + [];
    assert Run(head).0 == OverheadStep.value + Run(head[1..]).0;
    assert OverheadStep.value + (DateStep(timestamp).value + []) == HeadPieces(timestamp);
  }

  lemma HeadMisses(timestamp: ValidDateTime, k: string)
    requires k != "Name" && k != "DateTime"
    ensures Misses(HeadPieces(timestamp), k)
  {
    assert Key(Line("Name", WriterName).e) == "Name";
    assert Key(Line("DateTime", IsoFormat(timestamp, 'T')).e) == "DateTime";
  }

  /** What a parser finds in the XML member when the first storage has a clock: the binary member's name and the channel count. */
  lemma ParsedDocument(first: StorageValue, n: nat, timestamp: ValidDateTime, bin: string)
    requires ClockStep(first).Ok?
    ensures var x := Parsed(HeadPieces(timestamp) + Run(StorageSteps(first, n, bin)).0);
            "DataFilename" in x && x["DataFilename"] == ElementOf(Line("DataFilename", bin).e)
            && "NumberOfChannels" in x && x["NumberOfChannels"] == ElementOf(Line("NumberOfChannels", NatText(n)).e)
  {
    var rest := Run(StorageSteps(first, n, bin)).0;
    HeadMisses(timestamp, "DataFilename");
    HeadMisses(timestamp, "NumberOfChannels");
    ParsedMisses(HeadPieces(timestamp), rest, "DataFilename");
    ParsedMisses(HeadPieces(timestamp), rest, "NumberOfChannels");
    ParsedNames(first, n, bin);
  }

  // ----- what the loader makes of it -----

  /** The split looks each tag up once: a tag whose key no other tag has is found under its key. */
  lemma {:induction false} SplitTagsGet(xml: Xml, ts: seq<AllowedTag>, j: nat)
    requires j < |ts| && forall i :: 0 <= i < |ts| && i != j ==> TagKey(ts[i]) != TagKey(ts[j])
    ensures var p := SearchPath(ts[j]);
            Dicts.Get(SplitTags(xml, ts), TagKey(ts[j]))
            == if p in xml then Some(Tag(xml[p].text, UnitOf(ts[j], xml[p]))) else None
    decreases |ts|
  {
    var init, t := ts[..|ts| - 1], ts[|ts| - 1];
    var k := TagKey(ts[j]);
    SplitTagsKeys(xml, init);
    var acc := SplitTags(xml, init);
    if j == |ts| - 1 {
      SplitTagsAbsent(xml, init, k);
      if SearchPath(t) in xml {
        Dicts.GetSet(acc, k, Tag(xml[SearchPath(t)].text, UnitOf(t, xml[SearchPath(t)])), k);
      }
    } else {
      assert init[j] == ts[j];
      SplitTagsGet(xml, init, j);
      if SearchPath(t) in xml {
        Dicts.GetSet(acc, TagKey(t), Tag(xml[SearchPath(t)].text, UnitOf(t, xml[SearchPath(t)])), k);
      }
    }
  }

  lemma {:induction false} SplitTagsAbsent(xml: Xml, ts: seq<AllowedTag>, k: string)
    requires forall i :: 0 <= i < |ts| ==> TagKey(ts[i]) != k
    ensures Dicts.Get(SplitTags(xml, ts), k) == None
    decreases |ts|
  {
    if ts != [] {
      var init, t := ts[..|ts| - 1], ts[|ts| - 1];
      SplitTagsAbsent(xml, init, k);
      SplitTagsKeys(xml, init);
      if SearchPath(t) in xml {
        Dicts.GetSet(SplitTags(xml, init), TagKey(t), Tag(xml[SearchPath(t)].text, UnitOf(t, xml[SearchPath(t)])), k);
      }
    }
  }

  /** _extract_meta keeps every entry but the sample count, each under its key, converted. */
  lemma {:induction false} MetaOfGet(tags: Dicts.Items<Tag>, k: string)
    requires Dicts.DistinctKeys(tags) && MetaOf(tags).Ok? && k != "samples"
    ensures Dicts.Get(tags, k).Some? ==> Convert(k, Dicts.Get(tags, k).value).Ok?
    ensures Dicts.Get(MetaOf(tags).value, k)
            == match Dicts.Get(tags, k)
               case None => None
               case Some(t) => Some(Convert(k, t).value)
    decreases |tags|
  {
    if tags != [] {
      var init := tags[..|tags| - 1];
      var (key, tag) := tags[|tags| - 1];
      assert Dicts.DistinctKeys(init);
      MetaOfGet(init, k);
      MetaOfKeys(init);
      GetLast(tags, k);
      if key != "samples" {
        Dicts.GetSet(MetaOf(init).value, key, Convert(key, tag).value, k);
      }
    }
  }

  /** Reading a dict with distinct keys through its last pair. */
  lemma GetLast<V>(d: Dicts.Items<V>, k: string)
    requires d != [] && Dicts.DistinctKeys(d)
    ensures Dicts.Get(d, k) == if d[|d| - 1].0 == k then Some(d[|d| - 1].1) else Dicts.Get(d[..|d| - 1], k)
  {
    var init := d[..|d| - 1];
    if d[|d| - 1].0 == k {
      Dicts.IndexOfDistinct(d, |d| - 1);
    } else {
      match Dicts.IndexOf(init, k)
      case None =>
      case Some(i) =>
        assert d[i] == init[i];
        Dicts.IndexOfDistinct(d, i);
    }
  }

  /** No other allowed tag has the key of DataFilename or of NumberOfChannels: their lengths differ from all others. */
  lemma TagKeyUnique(j: nat)
    requires j == 1 || j == 4
    ensures forall i :: 0 <= i < |AllowedTags| && i != j ==> TagKey(AllowedTags[i]) != TagKey(AllowedTags[j])
  {
    TagKeys();
    forall i | 0 <= i < |LoaderKeys| && i != j
      ensures |LoaderKeys[i]| != |LoaderKeys[j]|
    {
    }
  }

  /** The path root.find is given for a tag of one segment without underscores is that segment. */
  lemma SearchPathOfName(j: nat, name: string)
    requires j < |AllowedTags| && AllowedTags[j].path == [name] && '_' !in name
    ensures SearchPath(AllowedTags[j]) == name
  {
    ReplaceAbsent(name, '_', " ");
  }

  lemma SearchPathDataFilename()
    ensures SearchPath(AllowedTags[1]) == "DataFilename"
  {
    SearchPathOfName(1, "DataFilename");
  }

  lemma SearchPathChannels()
    ensures SearchPath(AllowedTags[4]) == "NumberOfChannels"
  {
    SearchPathOfName(4, "NumberOfChannels");
  }

  /** The split of a document holding the saver's DataFilename and NumberOfChannels elements. */
  lemma SplitNames(x: Xml, bin: string, n: nat)
    requires "DataFilename" in x && x["DataFilename"] == ElementOf(Line("DataFilename", bin).e)
    requires "NumberOfChannels" in x && x["NumberOfChannels"] == ElementOf(Line("NumberOfChannels", NatText(n)).e)
    requires bin != []
    ensures Dicts.DistinctKeys(SplitTags(x, AllowedTags))
    ensures Dicts.Get(SplitTags(x, AllowedTags), "datafilename") == Some(Tag(Some(bin), None))
    ensures Dicts.Get(SplitTags(x, AllowedTags), "numberofchannels") == Some(Tag(Some(NatText(n)), None))
  {
    SplitDataFilename(x, bin);
    SplitChannels(x, n);
    SplitTagsKeys(x, AllowedTags);
  }

  lemma SplitDataFilename(x: Xml, bin: string)
    requires "DataFilename" in x && x["DataFilename"] == ElementOf(Line("DataFilename", bin).e)
    requires bin != []
    ensures Dicts.Get(SplitTags(x, AllowedTags), "datafilename") == Some(Tag(Some(bin), None))
  {
    SearchPathDataFilename();
    SplitNameAt(x, 1);
    DataFilenameKey();
  }

  lemma SplitChannels(x: Xml, n: nat)
    requires "NumberOfChannels" in x && x["NumberOfChannels"] == ElementOf(Line("NumberOfChannels", NatText(n)).e)
    ensures Dicts.Get(SplitTags(x, AllowedTags), "numberofchannels") == Some(Tag(Some(NatText(n)), None))
  {
    SearchPathChannels();
    SplitNameAt(x, 4);
    ChannelsKey();
    assert x["NumberOfChannels"].text == Some(NatText(n));
  }

  /** A found DataFilename or NumberOfChannels element, which has no attributes, is split under its key with no unit. */
  lemma SplitNameAt(x: Xml, j: nat)
    requires j == 1 || j == 4
    requires var p := SearchPath(AllowedTags[j]); p in x && x[p].attrs == map[]
    ensures Dicts.Get(SplitTags(x, AllowedTags), TagKey(AllowedTags[j])) == Some(Tag(x[SearchPath(AllowedTags[j])].text, None))
  {
    TagKeyUnique(j);
    SplitTagsGet(x, AllowedTags, j);
  }

  /** The meta _extract_meta makes of entries holding the saver's data file name and channel count. */
  lemma LoadedNames(tags: Dicts.Items<Tag>, bin: string, n: nat)
    requires Dicts.DistinctKeys(tags) && MetaOf(tags).Ok?
    requires Dicts.Get(tags, "datafilename") == Some(Tag(Some(bin), None))
    requires Dicts.Get(tags, "numberofchannels") == Some(Tag(Some(NatText(n)), None))
    ensures Dicts.Get(MetaOf(tags).value, "datafilename") == Some(PyStr(bin))
    ensures Dicts.Get(MetaOf(tags).value, "numberofchannels") == Some(PyInt(n))
  {
    MetaOfGet(tags, "datafilename");
    MetaOfGet(tags, "numberofchannels");
    ParseIntOfIntText(n);
  }

  // ----- save, then load -----

  lemma SubNonEmpty(s: string, repl: string)
    requires s != [] && repl != []
    ensures Sub(s, repl) != []
  {
  }

  /** A successful save writes a non-empty binary name, then an XML name of its own, and reads a first storage with a clock. */
  lemma SavedArchive(file: Option<string>, p: ParentValue, timestamp: ValidDateTime, scale: real, enc: real -> Iqw.Word)
    requires SaveSpec(file, p, timestamp, scale, enc).Ok?
    ensures var (bin, xml) := MemberNames(file);
            var w := XmlFile(p.storages, timestamp, bin);
            && bin != [] && bin != xml && p.storages != [] && w.1 == None
            && ClockStep(p.storages[0]).Ok?
            && Iqw.SaveFile(Iqw.Datas(p), scale, enc).Ok?
            && SaveSpec(file, p, timestamp, scale, enc).value
               == [Member(bin, Iqw.SaveFile(Iqw.Datas(p), scale, enc).value), Member(xml, Encode(XmlText(w.0)))]
  {
    var (bin, xml) := MemberNames(file);
    if file.Some? && PathName(file.value) != [] {
      SubNonEmpty(PathName(file.value), BinaryExtension);
    }
    XmlErrors(p.storages, timestamp, bin);
    if p.storages != [] {
      ClockStepError(p.storages[0]);
    }
  }

  /** The loader finds the saver's XML member when its name, and not the binary's, contains ".xml". */
  lemma XmlOfSaved(bin: string, payload: seq<Byte>, xml: string, text: seq<Byte>, parse: seq<Byte> -> Option<Xml>)
    requires bin != xml && IsXmlName(xml) && !IsXmlName(bin)
    ensures XmlOf([Member(bin, payload), Member(xml, text)], parse) == OptionToResult(parse(text), ArchiveError)
  {
    var archive := [Member(bin, payload), Member(xml, text)];
    assert IqtarLoad.Names(archive) == [bin, xml];
    assert [bin, xml][1..] == [xml];
    assert XmlName([bin, xml]) == XmlName([xml]) == Ok(xml);
    assert MemberContent(archive, xml) == Ok(text);
  }

  /** tar.extract of the binary name reads the payload member. */
  lemma PayloadMember(bin: string, payload: seq<Byte>, xml: string, text: seq<Byte>)
    requires bin != xml
    ensures MemberContent([Member(bin, payload), Member(xml, text)], bin) == Ok(payload)
  {
    assert [Member(bin, payload), Member(xml, text)][..1] == [Member(bin, payload)];
  }

  /** The meta the loader reads from an archive of the saver's two members. */
  lemma SavedMeta(ds: seq<StorageValue>, timestamp: ValidDateTime, bin: string, xml: string, payload: seq<Byte>,
                  parse: seq<Byte> -> Option<Xml>, meta: Dicts.Items<Value>)
    requires ds != [] && ClockStep(ds[0]).Ok? && bin != [] && bin != xml && IsXmlName(xml) && !IsXmlName(bin)
    requires var w := XmlFile(ds, timestamp, bin).0; parse(Encode(XmlText(w))) == Some(Parsed(w))
    requires ArchiveMeta([Member(bin, payload), Member(xml, Encode(XmlText(XmlFile(ds, timestamp, bin).0)))], parse) == Ok(meta)
    ensures Dicts.Get(meta, "datafilename") == Some(PyStr(bin))
    ensures Dicts.Get(meta, "numberofchannels") == Some(PyInt(|ds|))
  {
    var w := XmlFile(ds, timestamp, bin).0;
    XmlOfSaved(bin, payload, xml, Encode(XmlText(w)), parse);
    XmlFileSplit(ds, timestamp, bin);
    ParsedDocument(ds[0], |ds|, timestamp, bin);
    SplitNames(Parsed(w), bin, |ds|);
    LoadedNames(SplitTags(Parsed(w), AllowedTags), bin, |ds|);
  }

  /**
   * Save, then load, assuming the parser reads back the elements the saver
   * wrote and the loader converts every entry: the loader's meta names the
   * saver's binary member, as the data file it reads, and the number of
   * storages.
   */
  lemma SaveThenLoad(file: Option<string>, p: ParentValue, timestamp: ValidDateTime, scale: real,
                     enc: real -> Iqw.Word, parse: seq<Byte> -> Option<Xml>, archive: Archive, meta: Dicts.Items<Value>)
    requires SaveSpec(file, p, timestamp, scale, enc) == Ok(archive)
    requires IsXmlName(MemberNames(file).1) && !IsXmlName(MemberNames(file).0)
    requires var w := XmlFile(p.storages, timestamp, MemberNames(file).0).0;
             parse(Encode(XmlText(w))) == Some(Parsed(w))
    requires ArchiveMeta(archive, parse) == Ok(meta)
    ensures Dicts.Get(meta, "datafilename") == Some(PyStr(MemberNames(file).0))
    ensures Dicts.Get(meta, "numberofchannels") == Some(PyInt(|p.storages|))
    ensures DataName(meta) == Ok(MemberNames(file).0)
  {
    var (bin, xml) := MemberNames(file);
    SavedArchive(file, p, timestamp, scale, enc);
    var w := XmlFile(p.storages, timestamp, bin).0;
    var payload := Iqw.SaveFile(Iqw.Datas(p), scale, enc).value;
    SavedMeta(p.storages, timestamp, bin, xml, payload, parse, meta);
    assert DataName(meta) == Ok(StrOf(PyStr(bin)));
  }

  /** The DateTime text the saver writes converts back, under any unit, to the parent's time stamp. */
  lemma SavedDateConverts(d: ValidDateTime, unit: Option<string>)
    ensures Convert("date", Tag(Some(IsoFormat(d, 'T')), unit)) == Ok(PyDate(d))
  {
    IsoFormatDot(d);
    ParseIsoFormat(d);
  }

  /**
   * The member the loader then reads holds the IQW of all storages'
   * samples, one storage after the other, divided by the scale.
   */
  lemma SavedPayload(file: Option<string>, p: ParentValue, timestamp: ValidDateTime, scale: real,
                     enc: real -> Iqw.Word, dec: Iqw.Word -> real, archive: Archive)
    requires SaveSpec(file, p, timestamp, scale, enc) == Ok(archive)
    ensures MemberContent(archive, MemberNames(file).0) == Iqw.SaveFile(Iqw.Datas(p), scale, enc)
    ensures Iqw.SaveFile(Iqw.Datas(p), scale, enc).Ok? && p.storages != [] && scale != 0.0
    ensures Iqw.ExtractData(Iqw.SaveFile(Iqw.Datas(p), scale, enc).value, dec)
            == Ok(IqwFacts.Through(Iqw.Scaled(IqwFacts.Joined(Iqw.Datas(p)), scale), enc, dec))
  {
    var (bin, xml) := MemberNames(file);
    SavedArchive(file, p, timestamp, scale, enc);
    var text := Encode(XmlText(XmlFile(p.storages, timestamp, bin).0));
    PayloadMember(bin, Iqw.SaveFile(Iqw.Datas(p), scale, enc).value, xml, text);
    IqwFacts.SaveLoadRoundTrip(Iqw.Datas(p), scale, enc, dec);
  }
}
