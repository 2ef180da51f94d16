/**
 * The iq.tar loader (both editions): an archive holding an XML description
 * and an IQW payload. The XML member is the first whose name contains
 * ".xml"; a fixed list of element paths is read from it into a dict of
 * (text, unit) pairs, converted to meta values, and the payload member it
 * names is decoded as IQW, scaled, and split into one storage per channel.
 *
 * The tar container and the XML parser are not modelled: the archive is
 * the list of its members, and the parser is the parameter `parse`, which
 * gives the elements of a document by path (None when the bytes do not
 * parse).
 */
module IqtarLoad {
  import opened Wrappers
  import opened Text
  import opened Dates
  import opened Values
  import Dicts
  import opened Metadata
  import opened Storages
  import opened MetaUtils
  import Iqw

  /** One member of a tar archive: its name and its bytes. */
  datatype Member = Member(name: string, content: seq<Byte>)

  type Archive = seq<Member>

  /** An XML element as ElementTree gives it: its text (None when it has none) and its attributes. */
  datatype Element = Element(text: Option<string>, attrs: map<string, string>)

  /** A parsed document: for each path root.find can resolve, the first element there. */
  type Xml = map<string, Element>

  /** An entry of _allowed_tags: the element path under the root, and the attribute naming its unit, if any. */
  datatype AllowedTag = AllowedTag(path: seq<string>, unit: Option<string>)

  /** What _split_data_via_tags keeps of an element: its text and its unit. */
  datatype Tag = Tag(value: Option<string>, unit: Option<string>)

  /** _allowed_tags. */
  const AllowedTags: seq<AllowedTag> := [
    AllowedTag(["Clock"], Some("unit")),
    AllowedTag(["DataFilename"], None),
    AllowedTag(["Samples"], None),
    AllowedTag(["ScalingFactor"], Some("unit")),
    AllowedTag(["NumberOfChannels"], Some("unit")),
    AllowedTag(["DataType"], None),
    AllowedTag(["Format"], None),
    AllowedTag(["Name"], None),
    AllowedTag(["Comment"], None),
    AllowedTag(["DateTime"], None),
    AllowedTag(["UserData", "RohdeSchwarz", "SpectrumAnalyzer", "CenterFrequency"], None)
  ]

  // ----- _split_data_via_tags -----

  function Last(path: seq<string>): string
  {
    if path == [] then "" else path[|path| - 1]
  }

  /** The path root.find is given: the segments joined by "/", underscores read as spaces. */
  function SearchPath(t: AllowedTag): string
  {
    ReplaceChar(Join(t.path, "/"), '_', " ")
  }

  /** The dict key of an allowed tag: its last segment in lower case, "datetime" renamed "date". */
  function TagKey(t: AllowedTag): string
  {
    MapMetaInformationName(Text.Lower(Last(t.path)))
  }

  /** The unit of a found element: the attribute the tag names, when it names one and the element has it. */
  function UnitOf(t: AllowedTag, e: Element): Option<string>
  {
    if t.unit.Some? && t.unit.value != "" && t.unit.value in e.attrs then Some(e.attrs[t.unit.value]) else None
  }

  /** One turn of the loop: a found element is recorded under the tag's key. */
  function AddTag(acc: Dicts.Items<Tag>, xml: Xml, t: AllowedTag): Dicts.Items<Tag>
  {
    var p := SearchPath(t);
    if p in xml then Dicts.Set(acc, TagKey(t), Tag(xml[p].text, UnitOf(t, xml[p]))) else acc
  }

  /** The dict the loop has built after the tags `ts`. */
  function SplitTags(xml: Xml, ts: seq<AllowedTag>): Dicts.Items<Tag>
    decreases |ts|
  {
    if ts == [] then [] else AddTag(SplitTags(xml, ts[..|ts| - 1]), xml, ts[|ts| - 1])
  }

  /** _split_data_via_tags: the loop over the allowed tags. */
  method SplitDataViaTags(xml: Xml) returns (extracted: Dicts.Items<Tag>)
    ensures extracted == SplitTags(xml, AllowedTags)
  {
    extracted := [];
    var i := 0;
    while i < |AllowedTags|
      invariant 0 <= i <= |AllowedTags|
      invariant extracted == SplitTags(xml, AllowedTags[..i])
    {
      SplitTagsStep(xml, AllowedTags, i);
      extracted := ExtractTag(extracted, xml, AllowedTags[i]);
      i := i + 1;
    }
    assert AllowedTags[..|AllowedTags|] == AllowedTags;
  }

  lemma SplitTagsStep(xml: Xml, ts: seq<AllowedTag>, i: nat)
    requires i < |ts|
    ensures SplitTags(xml, ts[..i + 1]) == AddTag(SplitTags(xml, ts[..i]), xml, ts[i])
  {
    assert ts[..i + 1][..i] == ts[..i];
  }

  /** The body of the loop: the element found at the tag's path, its text and unit, under the tag's key. */
  method ExtractTag(extracted: Dicts.Items<Tag>, xml: Xml, t: AllowedTag) returns (r: Dicts.Items<Tag>)
    ensures r == AddTag(extracted, xml, t)
  {
    var searchTag := ReplaceChar(Join(t.path, "/"), '_', " ");
    var metaKey := Text.Lower(Last(t.path));
    r := extracted;
    if searchTag in xml {
      var element := xml[searchTag];
      var unit := None;
      if t.unit.Some? && t.unit.value != "" && t.unit.value in element.attrs {
        unit := Some(element.attrs[t.unit.value]);
      }
      r := Dicts.Set(extracted, MapMetaInformationName(metaKey), Tag(element.text, unit));
    }
  }

  // ----- _extract_meta -----

  /** The Python value of an element's text: None when it has none. */
  function TextValue(text: Option<string>): Value
  {
    if text.Some? then PyStr(text.value) else PyNone
  }

  /**
   * The conversion _extract_meta applies to one entry: clock and
   * scalingfactor by float(), numberofchannels by int(), datafilename by
   * str(), date by strptime with or without fractional seconds; a scaling
   * factor whose unit is set and is not "V" is refused. Other keys keep
   * their text.
   */
  function Convert(key: string, tag: Tag): Result<Value>
  {
    if key == "clock" then
      var x :- ToFloat(TextValue(tag.value));
      Ok(PyFloat(x))
    else if key == "numberofchannels" then
      var n :- ToInt(TextValue(tag.value));
      Ok(PyInt(n))
    else if key == "scalingfactor" then
      var x :- ToFloat(TextValue(tag.value));
      if tag.unit.Some? && tag.unit.value != "" && tag.unit.value != "V" then Err(ValueError(UnsupportedUnit))
      else Ok(PyFloat(x))
    else if key == "datafilename" then
      Ok(PyStr(StrOf(TextValue(tag.value))))
    else if key == "date" then
      if tag.value.None? then Err(TypeError)
      else
        var s := tag.value.value;
        var d :- Parse(s, DateLayout(s));
        Ok(PyDate(d))
    else Ok(TextValue(tag.value))
  }

  /** The strptime pattern for a DateTime text: with ".%f" exactly when the text has a '.'. */
  function DateLayout(s: string): Layout
  {
    if '.' in s then IsoMicroLayout else IsoLayout('T')
  }

  /** The meta dict the loop of _extract_meta has built after the entries `tags`; Samples is skipped. */
  function MetaOf(tags: Dicts.Items<Tag>): Result<Dicts.Items<Value>>
    decreases |tags|
  {
    if tags == [] then Ok([])
    else
      var acc :- MetaOf(tags[..|tags| - 1]);
      var (key, tag) := tags[|tags| - 1];
      if key == "samples" then Ok(acc)
      else
        var v :- Convert(key, tag);
        Ok(Dicts.Set(acc, key, v))
  }

  /** _extract_meta: the loop over the extracted entries; the first failing conversion raises. */
  method ExtractMeta(tags: Dicts.Items<Tag>) returns (r: Result<Dicts.Items<Value>>)
    ensures r == MetaOf(tags)
  {
    var meta: Dicts.Items<Value> := [];
    var i := 0;
    while i < |tags|
      invariant 0 <= i <= |tags|
      invariant MetaOf(tags[..i]) == Ok(meta)
    {
      var (key, tag) := tags[i];
      assert tags[..i + 1][..i] == tags[..i];
      if key != "samples" {
        var v := Convert(key, tag);
        if v.Err? {
          assert MetaOf(tags[..i + 1]) == Err(v.error);
          MetaOfFails(tags, i + 1);
          return Err(v.error);
        }
        meta := Dicts.Set(meta, key, v.value);
      }
      i := i + 1;
    }
    assert tags[..|tags|] == tags;
    r := Ok(meta);
  }

  /** Once an entry fails, the whole dict fails with its error. */
  lemma {:induction false} MetaOfFails(tags: Dicts.Items<Tag>, i: nat)
    requires 0 < i <= |tags| && MetaOf(tags[..i]).Err?
    ensures MetaOf(tags) == MetaOf(tags[..i])
    decreases |tags| - i
  {
    if i < |tags| {
      assert tags[..i + 1][..i] == tags[..i];
      MetaOfFails(tags, i + 1);
    } else {
      assert tags[..i] == tags;
    }
  }

  // ----- the archive -----

  function Names(archive: Archive): (ns: seq<string>)
    ensures |ns| == |archive| && forall i :: 0 <= i < |ns| ==> ns[i] == archive[i].name
  {
    seq(|archive|, i requires 0 <= i < |archive| => archive[i].name)
  }

  predicate IsXmlName(name: string)
  {
    Contains(Text.Lower(name), ".xml")
  }

  /** The XML member: the first name that contains ".xml" in any case; IndexError when none does. */
  function XmlName(names: seq<string>): (r: Result<string>)
    ensures r.Err? ==> r.error == IndexError
  {
    if names == [] then Err(IndexError)
    else if IsXmlName(names[0]) then Ok(names[0])
    else XmlName(names[1..])
  }

  /** tar.extract(name) then read: the last member of that name, KeyError when there is none. */
  function MemberContent(archive: Archive, name: string): (r: Result<seq<Byte>>)
    ensures r.Err? ==> r.error == KeyError(name)
    decreases |archive|
  {
    if archive == [] then Err(KeyError(name))
    else if archive[|archive| - 1].name == name then Ok(archive[|archive| - 1].content)
    else MemberContent(archive[..|archive| - 1], name)
  }

  /** _extract_data_from_xml_file, then ET.parse: the parsed XML member. */
  function XmlOf(archive: Archive, parse: seq<Byte> -> Option<Xml>): Result<Xml>
  {
    var name :- XmlName(Names(archive));
    var content :- MemberContent(archive, name);
    OptionToResult(parse(content), ArchiveError)
  }

  /** The meta dict the loader builds from an archive: split, then converted. */
  function ArchiveMeta(archive: Archive, parse: seq<Byte> -> Option<Xml>): Result<Dicts.Items<Value>>
  {
    var xml :- XmlOf(archive, parse);
    MetaOf(SplitTags(xml, AllowedTags))
  }

  // ----- _scale_data, the channels -----

  /** factor * samples. */
  function Times(f: real, data: seq<Complex>): (r: seq<Complex>)
    ensures |r| == |data| && forall k :: 0 <= k < |data| ==> r[k] == Complex(f * data[k].re, f * data[k].im)
  {
    seq(|data|, k requires 0 <= k < |data| => Complex(f * data[k].re, f * data[k].im))
  }

  /** _scale_data: multiplied by meta's scalingfactor unless it is 1 or absent. */
  function ScaleData(data: seq<Complex>, meta: Dicts.Items<Value>): Result<seq<Complex>>
  {
    var factor := Dicts.Get(meta, "scalingfactor").GetOr(PyInt(1));
    if PyEq(factor, PyInt(1)) then Ok(data)
    else match Number(factor)
      case Some(f) => Ok(Times(f, data))
      case None => Err(TypeError)
  }

  /** meta.pop("numberofchannels", 1), as the count range() takes. */
  function ChannelCount(meta: Dicts.Items<Value>): Result<int>
  {
    var v := Dicts.Get(meta, "numberofchannels").GetOr(PyInt(1));
    if v.PyInt? then Ok(v.i) else Err(TypeError)
  }

  /** The samples of channel c of n: the c-th run of floor(len / n) samples. */
  function Channel(samples: seq<Complex>, n: nat, c: nat): seq<Complex>
    requires c < n
  {
    var q := |samples| / n;
    ChannelBounds(|samples|, n, c);
    samples[c * q..(c + 1) * q]
  }

  /** The channels of _read: n runs of floor(len / n) samples (none when n is not positive); the tail is dropped. */
  function Channels(samples: seq<Complex>, n: int): (cs: seq<seq<Complex>>)
    ensures |cs| == (if n > 0 then n else 0)
  {
    if n <= 0 then [] else seq(n, c requires 0 <= c < n => Channel(samples, n, c))
  }

  lemma ChannelBounds(len: nat, n: nat, c: nat)
    requires c < n
    ensures 0 <= c * (len / n) <= (c + 1) * (len / n) <= len
  {
    var q := len / n;
    assert (c + 1) * q <= n * q by {
      MulLeq(c + 1, n, q);
    }
    assert n * q <= len;
  }

  lemma MulLeq(a: nat, b: nat, c: nat)
    requires a <= b
    ensures a * c <= b * c
  {
  }

  /** meta.pop("datafilename") as the name tar.extract is given; KeyError when absent. */
  function DataName(meta: Dicts.Items<Value>): Result<string>
  {
    match Dicts.Get(meta, "datafilename")
    case None => Err(KeyError("datafilename"))
    case Some(v) => Ok(StrOf(v))
  }

  /** What _read gives: the channels' samples, and the meta (less datafilename and numberofchannels) every storage gets. */
  function ReadSpec(archive: Archive, parse: seq<Byte> -> Option<Xml>, dec: Iqw.Word -> real)
    : Result<(seq<seq<Complex>>, Dicts.Items<Value>)>
  {
    var meta :- ArchiveMeta(archive, parse);
    var name :- DataName(meta);
    var rest := Dicts.Remove(meta, "datafilename");
    var content :- MemberContent(archive, name);
    var samples :- Iqw.ExtractData(content, dec);
    var scaled :- ScaleData(samples, rest);
    var n :- ChannelCount(rest);
    Ok((Channels(scaled, n), Dicts.Remove(rest, "numberofchannels")))
  }

  /**
   * What _read_in_chunks gives: one storage of the samples offset to
   * offset + samples; more than one channel is refused before the payload
   * is read.
   */
  function ReadChunkSpec(archive: Archive, parse: seq<Byte> -> Option<Xml>, dec: Iqw.Word -> real, samples: int, offset: int)
    : Result<(seq<Complex>, Dicts.Items<Value>)>
  {
    var meta :- ArchiveMeta(archive, parse);
    var n :- ChannelCount(meta);
    var rest := Dicts.Remove(meta, "numberofchannels");
    if n > 1 then Err(ValueError(MultiChannelChunks))
    else
      var name :- DataName(rest);
      var rest' := Dicts.Remove(rest, "datafilename");
      var content :- MemberContent(archive, name);
      var data :- Iqw.ExtractData(Iqw.Window(content, samples, offset), dec);
      var scaled :- ScaleData(data, rest');
      Ok((scaled, rest'))
  }

  // ----- the keys the loader produces -----

  /** The keys of the allowed tags, in table order. */
  const LoaderKeys: seq<string> := ["clock", "datafilename", "samples", "scalingfactor", "numberofchannels",
                                    "datatype", "format", "name", "comment", "date", "centerfrequency"]

  lemma LowerKey(s: string, k: string)
    requires |s| == |k| && forall i :: 0 <= i < |s| ==> LowerChar(s[i]) == k[i]
    ensures Text.Lower(s) == k
  {
  }

  /** Each allowed tag's key, as the loop derives it. */
  lemma TagKeys()
    ensures forall i :: 0 <= i < |AllowedTags| ==> TagKey(AllowedTags[i]) == LoaderKeys[i]
  {
    forall i | 0 <= i < |AllowedTags|
      ensures TagKey(AllowedTags[i]) == LoaderKeys[i]
    {
      TagKeyAt(i);
    }
  }

  /** The key of the DataFilename tag. */
  lemma DataFilenameKey()
    ensures TagKey(AllowedTags[1]) == "datafilename"
  {
    assert Last(AllowedTags[1].path) == "DataFilename";
    LowerKey("DataFilename", "datafilename");
  }

  /** The key of the NumberOfChannels tag. */
  lemma ChannelsKey()
    ensures TagKey(AllowedTags[4]) == "numberofchannels"
  {
    assert Last(AllowedTags[4].path) == "NumberOfChannels";
    LowerKey("NumberOfChannels", "numberofchannels");
  }

  lemma TagKeyAt(i: nat)
    requires i < |AllowedTags|
    ensures TagKey(AllowedTags[i]) == LoaderKeys[i]
  {
    if i < 5 { TagKeyFront(i); } else { TagKeyBack(i); }
  }

  lemma TagKeyFront(i: nat)
    requires i < 5
    ensures TagKey(AllowedTags[i]) == LoaderKeys[i]
  {
    if i == 0 { LowerKey("Clock", "clock"); }
    else if i == 1 { DataFilenameKey(); }
    else if i == 2 { LowerKey("Samples", "samples"); }
    else if i == 3 { LowerKey("ScalingFactor", "scalingfactor"); }
    else { ChannelsKey(); }
  }

  lemma TagKeyBack(i: nat)
    requires 5 <= i < |AllowedTags|
    ensures TagKey(AllowedTags[i]) == LoaderKeys[i]
  {
    if i == 5 { LowerKey("DataType", "datatype"); }
    else if i == 6 { LowerKey("Format", "format"); }
    else if i == 7 { LowerKey("Name", "name"); }
    else if i == 8 { LowerKey("Comment", "comment"); }
    else if i == 9 { LowerKey("DateTime", "datetime"); }
    else { LowerKey("CenterFrequency", "centerfrequency"); }
  }

  /** The dict the split builds has distinct keys, each the key of one of the tags looked up. */
  lemma {:induction false} SplitTagsKeys(xml: Xml, ts: seq<AllowedTag>)
    ensures Dicts.DistinctKeys(SplitTags(xml, ts))
    ensures forall i :: 0 <= i < |SplitTags(xml, ts)| ==> exists j :: 0 <= j < |ts| && SplitTags(xml, ts)[i].0 == TagKey(ts[j])
    decreases |ts|
  {
    if ts != [] {
      var init := ts[..|ts| - 1];
      var t := ts[|ts| - 1];
      SplitTagsKeys(xml, init);
      var acc := SplitTags(xml, init);
      var p := SearchPath(t);
      if p in xml {
        var v := Tag(xml[p].text, UnitOf(t, xml[p]));
        Dicts.SetKeys(acc, TagKey(t), v);
        var d := Dicts.Set(acc, TagKey(t), v);
        forall i | 0 <= i < |d|
          ensures exists j :: 0 <= j < |ts| && d[i].0 == TagKey(ts[j])
        {
          assert d[i].0 == Dicts.Keys(d)[i];
          if i < |acc| {
            assert Dicts.Keys(acc)[i] == acc[i].0;
            var j :| 0 <= j < |init| && acc[i].0 == TagKey(init[j]);
            assert ts[j] == init[j];
          } else {
            assert d[i].0 == TagKey(ts[|ts| - 1]);
          }
        }
      } else {
        forall i | 0 <= i < |acc|
          ensures exists j :: 0 <= j < |ts| && acc[i].0 == TagKey(ts[j])
        {
          var j :| 0 <= j < |init| && acc[i].0 == TagKey(init[j]);
          assert ts[j] == init[j];
        }
      }
    }
  }

  /** _extract_meta keeps the keys distinct, takes each from the entries, and never keeps "samples". */
  lemma {:induction false} MetaOfKeys(tags: Dicts.Items<Tag>)
    ensures MetaOf(tags).Ok? ==> Dicts.DistinctKeys(MetaOf(tags).value)
    ensures MetaOf(tags).Ok? ==> forall i :: 0 <= i < |MetaOf(tags).value| ==>
              MetaOf(tags).value[i].0 != "samples" && exists j :: 0 <= j < |tags| && MetaOf(tags).value[i].0 == tags[j].0
    decreases |tags|
  {
    if tags != [] && MetaOf(tags).Ok? {
      var init := tags[..|tags| - 1];
      MetaOfKeys(init);
      var acc := MetaOf(init).value;
      var (key, tag) := tags[|tags| - 1];
      if key != "samples" {
        var v := Convert(key, tag).value;
        Dicts.SetKeys(acc, key, v);
        var d := Dicts.Set(acc, key, v);
        assert d == MetaOf(tags).value;
        forall i | 0 <= i < |d|
          ensures d[i].0 != "samples" && exists j :: 0 <= j < |tags| && d[i].0 == tags[j].0
        {
          assert d[i].0 == Dicts.Keys(d)[i];
          if i < |acc| {
            assert Dicts.Keys(acc)[i] == acc[i].0;
            var j :| 0 <= j < |init| && acc[i].0 == init[j].0;
            assert tags[j] == init[j];
          } else {
            assert d[i].0 == tags[|tags| - 1].0;
          }
        }
      } else {
        forall i | 0 <= i < |acc|
          ensures exists j :: 0 <= j < |tags| && acc[i].0 == tags[j].0
        {
          var j :| 0 <= j < |init| && acc[i].0 == init[j].0;
          assert tags[j] == init[j];
        }
      }
    }
  }

  /** A meta dict the loader builds is a valid keyword set for Meta: distinct keys, all among LoaderKeys, never "samples". */
  lemma ArchiveMetaKeys(archive: Archive, parse: seq<Byte> -> Option<Xml>)
    ensures ArchiveMeta(archive, parse).Ok? ==> Dicts.DistinctKeys(ArchiveMeta(archive, parse).value)
    ensures ArchiveMeta(archive, parse).Ok? ==> forall i :: 0 <= i < |ArchiveMeta(archive, parse).value| ==>
              ArchiveMeta(archive, parse).value[i].0 in LoaderKeys && ArchiveMeta(archive, parse).value[i].0 != "samples"
  {
    var xml := XmlOf(archive, parse);
    if xml.Ok? {
      TagKeys();
      MetaKeysAmong(xml.value, AllowedTags, LoaderKeys);
    }
  }

  lemma MetaKeysAmong(xml: Xml, ts: seq<AllowedTag>, keys: seq<string>)
    requires forall j :: 0 <= j < |ts| ==> TagKey(ts[j]) in keys
    ensures MetaOf(SplitTags(xml, ts)).Ok? ==> Dicts.DistinctKeys(MetaOf(SplitTags(xml, ts)).value)
    ensures MetaOf(SplitTags(xml, ts)).Ok? ==> forall i :: 0 <= i < |MetaOf(SplitTags(xml, ts)).value| ==>
              MetaOf(SplitTags(xml, ts)).value[i].0 in keys && MetaOf(SplitTags(xml, ts)).value[i].0 != "samples"
  {
    var tags := SplitTags(xml, ts);
    SplitTagsKeys(xml, ts);
    MetaOfKeys(tags);
    if MetaOf(tags).Ok? {
      var m := MetaOf(tags).value;
      forall i | 0 <= i < |m|
        ensures m[i].0 in keys
      {
        var j :| 0 <= j < |tags| && m[i].0 == tags[j].0;
        var k :| 0 <= k < |ts| && tags[j].0 == TagKey(ts[k]);
      }
    }
  }

  /** Removing keys keeps a keyword set valid. */
  lemma RemoveKeeps(d: Dicts.Items<Value>, k: string)
    requires Dicts.DistinctKeys(d) && forall i :: 0 <= i < |d| ==> d[i].0 in LoaderKeys
    ensures Dicts.DistinctKeys(Dicts.Remove(d, k)) && forall i :: 0 <= i < |Dicts.Remove(d, k)| ==> Dicts.Remove(d, k)[i].0 in LoaderKeys
    ensures !Dicts.HasKey(Dicts.Remove(d, k), k)
  {
    Dicts.RemoveKeys(d, k);
  }

  /** None of the loader's keys is "no_defaults", so its dict can be passed to Meta(**meta). */
  lemma KeywordsOk(d: Dicts.Items<Value>)
    requires Dicts.DistinctKeys(d) && forall i :: 0 <= i < |d| ==> d[i].0 in LoaderKeys
    ensures !Dicts.HasKey(d, "no_defaults")
  {
    assert "no_defaults" !in LoaderKeys;
  }

  // ----- the loader -----

  /** _extract_data_from_xml_file, _split_data_via_tags and _extract_meta, in turn. */
  method ReadMeta(archive: Archive, parse: seq<Byte> -> Option<Xml>) returns (r: Result<Dicts.Items<Value>>)
    ensures r == ArchiveMeta(archive, parse)
  {
    var xml := XmlOf(archive, parse);
    if xml.Err? {
      return Err(xml.error);
    }
    var tags := SplitDataViaTags(xml.value);
    r := ExtractMeta(tags);
  }

  /**
   * _read: the meta, the payload member it names decoded and scaled, then
   * one new storage per channel, each with its run of samples and its own
   * Meta(**meta) built from the same dict.
   */
  method Read(archive: Archive, parse: seq<Byte> -> Option<Xml>, dec: Iqw.Word -> real, edition: Edition, now: ValidDateTime)
    returns (r: Result<ParentStorage>)
    ensures r.Err? <==> ReadSpec(archive, parse, dec).Err?
    ensures r.Err? ==> r.error == ReadSpec(archive, parse, dec).error
    ensures r.Ok? ==> fresh(r.value) && r.value.edition == edition && r.value.timestamp == now && r.value.filename == ""
    ensures r.Ok? ==> |r.value.storages| == |ReadSpec(archive, parse, dec).value.0|
    ensures r.Ok? ==> forall i :: 0 <= i < |r.value.storages| ==>
              r.value.storages[i].Value() == StorageValue(ReadSpec(archive, parse, dec).value.0[i],
                                                          InitialItems(Combined, false, ReadSpec(archive, parse, dec).value.1))
  {
    var meta := ReadMeta(archive, parse);
    if meta.Err? {
      return Err(meta.error);
    }
    ArchiveMetaKeys(archive, parse);
    var name := DataName(meta.value);
    if name.Err? {
      return Err(name.error);
    }
    var rest := Dicts.Remove(meta.value, "datafilename");
    RemoveKeeps(meta.value, "datafilename");
    var content := MemberContent(archive, name.value);
    if content.Err? {
      return Err(content.error);
    }
    var samples := Iqw.ExtractIq(content.value, dec);
    if samples.Err? {
      return Err(samples.error);
    }
    var scaled := ScaleData(samples.value, rest);
    if scaled.Err? {
      return Err(scaled.error);
    }
    var parent := new ParentStorage(edition, 1, false, now);
    parent.SetStorages([]);
    var n := ChannelCount(rest);
    if n.Err? {
      return Err(n.error);
    }
    var kwargs := Dicts.Remove(rest, "numberofchannels");
    RemoveKeeps(rest, "numberofchannels");
    KeywordsOk(kwargs);
    assert ReadSpec(archive, parse, dec) == Ok((Channels(scaled.value, n.value), kwargs));
    FillChannels(parent, scaled.value, n.value, kwargs, edition);
    r := Ok(parent);
  }

  /** The loop of _read: for each channel a new Storage holding its samples and a new Meta(**meta). */
  method FillChannels(parent: ParentStorage, samples: seq<Complex>, n: int, kwargs: Dicts.Items<Value>, edition: Edition)
    requires parent.storages == []
    requires Dicts.DistinctKeys(kwargs) && !Dicts.HasKey(kwargs, "no_defaults")
    modifies parent
    ensures parent.filename == old(parent.filename)
    ensures |parent.storages| == |Channels(samples, n)|
    ensures forall i :: 0 <= i < |parent.storages| ==> fresh(parent.storages[i])
    ensures forall i :: 0 <= i < |parent.storages| ==>
              parent.storages[i].Value() == StorageValue(Channels(samples, n)[i], InitialItems(Combined, false, kwargs))
  {
    var c := 0;
    while c < n
      invariant 0 <= c <= (if n > 0 then n else 0)
      invariant |parent.storages| == c && parent.filename == old(parent.filename)
      invariant forall i :: 0 <= i < c ==> fresh(parent.storages[i])
      invariant forall i :: 0 <= i < c ==>
                  parent.storages[i].Value() == StorageValue(Channel(samples, n, i), InitialItems(Combined, false, kwargs))
    {
      var s := NewChannel(Channel(samples, n, c), kwargs, edition);
      parent.AddStorage(s);
      c := c + 1;
    }
  }

  /** One storage of the loop of _read: a new Storage whose samples are data and whose Meta is Meta(**meta). */
  method NewChannel(data: seq<Complex>, kwargs: Dicts.Items<Value>, edition: Edition) returns (s: Storage)
    requires Dicts.DistinctKeys(kwargs) && !Dicts.HasKey(kwargs, "no_defaults")
    ensures fresh(s) && s.Value() == StorageValue(data, InitialItems(Combined, false, kwargs))
  {
    s := new Storage(edition, None, false);
    s.data := data;
    var m := new Meta(Combined, false, kwargs);
    s.meta := m;
  }

  /** load(file): _read, and the file name when the file was given as a str. */
  method Load(archive: Archive, file: Option<string>, parse: seq<Byte> -> Option<Xml>, dec: Iqw.Word -> real,
              edition: Edition, now: ValidDateTime)
    returns (r: Result<ParentStorage>)
    ensures r.Err? <==> ReadSpec(archive, parse, dec).Err?
    ensures r.Err? ==> r.error == ReadSpec(archive, parse, dec).error
    ensures r.Ok? ==> fresh(r.value) && r.value.edition == edition && r.value.timestamp == now
    ensures r.Ok? ==> r.value.filename == Iqw.NameOf(file)
    ensures r.Ok? ==> |r.value.storages| == |ReadSpec(archive, parse, dec).value.0|
    ensures r.Ok? ==> forall i :: 0 <= i < |r.value.storages| ==>
              r.value.storages[i].Value() == StorageValue(ReadSpec(archive, parse, dec).value.0[i],
                                                          InitialItems(Combined, false, ReadSpec(archive, parse, dec).value.1))
  {
    r := Read(archive, parse, dec, edition, now);
    if r.Ok? && file.Some? {
      r.value.SetFilename(file.value);
    }
  }

  /** _read_in_chunks: one new storage of the chunk's samples. */
  method ReadInChunks(archive: Archive, parse: seq<Byte> -> Option<Xml>, dec: Iqw.Word -> real, samples: int, offset: int,
                      edition: Edition, now: ValidDateTime)
    returns (r: Result<ParentStorage>)
    ensures r.Err? <==> ReadChunkSpec(archive, parse, dec, samples, offset).Err?
    ensures r.Err? ==> r.error == ReadChunkSpec(archive, parse, dec, samples, offset).error
    ensures r.Ok? ==> fresh(r.value) && r.value.edition == edition && r.value.timestamp == now && r.value.filename == ""
    ensures r.Ok? ==> |r.value.storages| == 1 && fresh(r.value.storages[0])
    ensures r.Ok? ==> r.value.storages[0].Value() == StorageValue(ReadChunkSpec(archive, parse, dec, samples, offset).value.0,
                                                               InitialItems(Combined, false, ReadChunkSpec(archive, parse, dec, samples, offset).value.1))
  {
    var values := ChunkValues(archive, parse, dec, samples, offset);
    if values.Err? {
      return Err(values.error);
    }
    var parent := new ParentStorage(edition, 1, false, now);
    parent.SetStorages([]);
    var s := NewChannel(values.value.0, values.value.1, edition);
    parent.AddStorage(s);
    r := Ok(parent);
  }

  /** The samples and keywords of _read_in_chunks, before the storage is built. */
  method ChunkValues(archive: Archive, parse: seq<Byte> -> Option<Xml>, dec: Iqw.Word -> real, samples: int, offset: int)
    returns (r: Result<(seq<Complex>, Dicts.Items<Value>)>)
    ensures r == ReadChunkSpec(archive, parse, dec, samples, offset)
    ensures r.Ok? ==> Dicts.DistinctKeys(r.value.1) && !Dicts.HasKey(r.value.1, "no_defaults")
  {
    var meta := ReadMeta(archive, parse);
    if meta.Err? {
      return Err(meta.error);
    }
    ArchiveMetaKeys(archive, parse);
    var n := ChannelCount(meta.value);
    if n.Err? {
      return Err(n.error);
    }
    var rest := Dicts.Remove(meta.value, "numberofchannels");
    RemoveKeeps(meta.value, "numberofchannels");
    if n.value > 1 {
      return Err(ValueError(MultiChannelChunks));
    }
    var name := DataName(rest);
    if name.Err? {
      return Err(name.error);
    }
    var kwargs := Dicts.Remove(rest, "datafilename");
    RemoveKeeps(rest, "datafilename");
    KeywordsOk(kwargs);
    var content := MemberContent(archive, name.value);
    if content.Err? {
      return Err(content.error);
    }
    var data := Iqw.ExtractIq(Iqw.Window(content.value, samples, offset), dec);
    if data.Err? {
      return Err(data.error);
    }
    var scaled := ScaleData(data.value, kwargs);
    if scaled.Err? {
      return Err(scaled.error);
    }
    r := Ok((scaled.value, kwargs));
  }

  /** load_in_chunks(file, samples, offset): _read_in_chunks, and the file name when given as a str. */
  method LoadInChunks(archive: Archive, file: Option<string>, parse: seq<Byte> -> Option<Xml>, dec: Iqw.Word -> real,
                      samples: int, offset: int, edition: Edition, now: ValidDateTime)
    returns (r: Result<ParentStorage>)
    ensures r.Err? <==> ReadChunkSpec(archive, parse, dec, samples, offset).Err?
    ensures r.Err? ==> r.error == ReadChunkSpec(archive, parse, dec, samples, offset).error
    ensures r.Ok? ==> fresh(r.value) && r.value.edition == edition && r.value.timestamp == now
    ensures r.Ok? ==> r.value.filename == Iqw.NameOf(file) && |r.value.storages| == 1
    ensures r.Ok? ==> r.value.storages[0].Value() == StorageValue(ReadChunkSpec(archive, parse, dec, samples, offset).value.0,
                                                               InitialItems(Combined, false, ReadChunkSpec(archive, parse, dec, samples, offset).value.1))
  {
    r := ReadInChunks(archive, parse, dec, samples, offset, edition, now);
    if r.Ok? && file.Some? {
      r.value.SetFilename(file.value);
    }
  }

  /**
   * load_meta(file): one storage with no samples whose Meta is built from
   * the whole dict, DataFilename and NumberOfChannels included; the file
   * name is not recorded.
   */
  method LoadMeta(archive: Archive, parse: seq<Byte> -> Option<Xml>, edition: Edition, now: ValidDateTime)
    returns (r: Result<ParentStorage>)
    ensures r.Err? <==> ArchiveMeta(archive, parse).Err?
    ensures r.Err? ==> r.error == ArchiveMeta(archive, parse).error
    ensures r.Ok? ==> fresh(r.value) && r.value.edition == edition && r.value.timestamp == now && r.value.filename == ""
    ensures r.Ok? ==> |r.value.storages| == 1
    ensures r.Ok? ==> r.value.storages[0].Value() == StorageValue([], InitialItems(Combined, false, ArchiveMeta(archive, parse).value))
  {
    var meta := ReadMeta(archive, parse);
    if meta.Err? {
      return Err(meta.error);
    }
    ArchiveMetaKeys(archive, parse);
    KeywordsOk(meta.value);
    var parent := new ParentStorage(edition, 1, false, now);
    var s := parent.storages[0];
    s.data := [];
    var m := new Meta(Combined, false, meta.value);
    s.meta := m;
    r := Ok(parent);
  }
}
