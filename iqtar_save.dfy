/**
 * The iq.tar saver: the storages' samples are written as an IQW payload
 * member, then an XML member describes them, element by element in a fixed
 * order; both go into a tar archive under names derived from the file
 * name.
 *
 * The temporary files, the tar container and the home directory are not
 * modelled: the archive is the list of its members. Writing both temporary
 * files to one name (a file name with no "iq.tar" in it) ends, after the
 * archive is written, in the FileNotFoundError of the second os.remove.
 */
module IqtarSave {
  import opened Wrappers
  import opened Text
  import opened Dates
  import opened Values
  import Dicts
  import opened Metadata
  import opened Storages
  import opened Output
  import Iqw
  import opened IqtarLoad

  // ----- member names (_write) -----

  /**
   * c matches the lower-case letter l under re.IGNORECASE: l itself, its
   * upper case, and for 'i' also the dotless ı (U+0131) and the dotted
   * capital İ (U+0130), whose one-character lower case is 'i'. No other
   * character folds to one of the letters of "iq.tar".
   */
  predicate Folds(c: char, l: char)
  {
    c == l || c == UpperChar(l) || (l == 'i' && (c == '\U{0131}' || c == '\U{0130}'))
  }

  /** The pattern "iq.tar" matches s at i, the '.' standing for any character but a line break. */
  predicate MatchesAt(s: string, i: nat)
  {
    i + 6 <= |s| && Folds(s[i], 'i') && Folds(s[i + 1], 'q') && s[i + 2] != '\n'
    && Folds(s[i + 3], 't') && Folds(s[i + 4], 'a') && Folds(s[i + 5], 'r')
  }

  /** re.sub("iq.tar", repl, s, flags=re.IGNORECASE): the matches, left to right and not overlapping, replaced. */
  function Sub(s: string, repl: string): string
    decreases |s|
  {
    if s == [] then []
    else if MatchesAt(s, 0) then repl + Sub(s[6..], repl)
    else [s[0]] + Sub(s[1..], repl)
  }

  /** The last component of a split path that is neither empty nor ".". */
  function LastComponent(parts: seq<string>): string
  {
    if parts == [] then ""
    else
      var last := parts[|parts| - 1];
      if last == "" || last == "." then LastComponent(parts[..|parts| - 1]) else last
  }

  /** Path(file).name for a POSIX path. */
  function PathName(path: string): string
  {
    LastComponent(Split(path, '/'))
  }

  const BinaryExtension := "complex.1ch.float32"

  /** The binary and the XML member names: derived from the name of a str path, fixed for a stream. */
  function MemberNames(file: Option<string>): (string, string)
  {
    match file
    case None => ("data." + BinaryExtension, "data.xml")
    case Some(path) => (Sub(PathName(path), BinaryExtension), Sub(PathName(path), "xml"))
  }

  // ----- the XML member (_write_xml) -----

  /** One element the saver writes: the path of nested element names, the innermost's attributes and text, and whether a line break follows. */
  datatype XmlElement = XmlElement(path: seq<string>, attrs: seq<(string, string)>, text: string, newline: bool)

  /** What one write puts into the XML member: a fixed line, or an element. */
  datatype XmlPiece = Raw(line: string) | Elem(e: XmlElement)

  const Declaration := "<?xml version=\"1.0\" encoding=\"UTF-8\"?>\n"
  const Stylesheet := "<?xml-stylesheet type=\"text/xsl\" href=\"open_IqTar_xml_file_in_web_browser.xslt\"?>\n"
  const RootOpen := "<RS_IQ_TAR_FileFormat fileFormatVersion=\"2\" "
                    + "xsi:noNamespaceSchemaLocation=\"http://www.rohde-schwarz.com/file/RsIqTar.xsd\" "
                    + "xmlns:xsi=\"http://www.w3.org/2001/XMLSchema-instance\">\n"
  const RootClose := "</RS_IQ_TAR_FileFormat>\n"
  const WriterName := "Python iq.tar Writer"
  const CenterFrequencyPath: seq<string> := ["UserData", "RohdeSchwarz", "SpectrumAnalyzer", "CenterFrequency"]

  function AttrsText(attrs: seq<(string, string)>): string
  {
    if attrs == [] then "" else " " + attrs[0].0 + "=\"" + attrs[0].1 + "\"" + AttrsText(attrs[1..])
  }

  /** The opening tags of the enclosing elements, outermost first. */
  function OpenTags(path: seq<string>): string
  {
    if path == [] then "" else "<" + path[0] + ">" + OpenTags(path[1..])
  }

  /** The closing tags of the enclosing elements, innermost first. */
  function CloseTags(path: seq<string>): string
  {
    if path == [] then "" else CloseTags(path[1..]) + "</" + path[0] + ">"
  }

  function ElementText(e: XmlElement): string
  {
    if e.path == [] then e.text
    else
      var outer, name := e.path[..|e.path| - 1], e.path[|e.path| - 1];
      OpenTags(outer) + "<" + name + AttrsText(e.attrs) + ">" + e.text + "</" + name + ">" + CloseTags(outer)
      + (if e.newline then "\n" else "")
  }

  function PieceText(p: XmlPiece): string
  {
    match p
    case Raw(line) => line
    case Elem(e) => ElementText(e)
  }

  /** The text of pieces written one after the other. */
  function XmlText(ps: seq<XmlPiece>): string
  {
    if ps == [] then "" else PieceText(ps[0]) + XmlText(ps[1..])
  }

  /** What one _write_* call writes, or the exception it raises. */
  type XmlStep = Result<seq<XmlPiece>>

  function Line(name: string, text: string): XmlPiece
  {
    Elem(XmlElement([name], [], text, true))
  }

  /** _write_overhead: declaration, stylesheet, the opening root element and the writer's Name. */
  const OverheadStep: XmlStep := Ok([Raw(Declaration), Raw(Stylesheet), Raw(RootOpen), Line("Name", WriterName)])

  /** _write_date: the parent's time stamp in isoformat(). */
  function DateStep(timestamp: ValidDateTime): XmlStep
  {
    Ok([Line("DateTime", IsoFormat(timestamp, 'T'))])
  }

  /** _write_comment: meta.get("comment", the iq.tar default comment). */
  function CommentStep(st: StorageValue): XmlStep
  {
    Ok([Line("Comment", StrOf(Dicts.Get(st.meta, "comment").GetOr(DefaultComment)))])
  }

  /** _write_samples: the number of samples of the storage. */
  function SamplesStep(st: StorageValue): XmlStep
  {
    Ok([Line("Samples", NatText(|st.data|))])
  }

  /** meta.get("clock"). */
  function Clock(st: StorageValue): Value
  {
    Dicts.Get(st.meta, "clock").GetOr(PyNone)
  }

  /** _write_clock: a missing or false clock raises ValueError; the element has no line break after it. */
  function ClockStep(st: StorageValue): XmlStep
  {
    var clock := Clock(st);
    var given :- Truthy(clock);
    if !given then Err(ValueError(ClockMissing))
    else Ok([Elem(XmlElement(["Clock"], [("unit", "Hz")], StrOf(clock), false))])
  }

  const FormatStep: XmlStep := Ok([Line("Format", "complex")])
  const DataTypeStep: XmlStep := Ok([Line("DataType", "float32")])

  /** _write_scaling_factor: meta.get("scalingfactor", 1), in volts. */
  function ScalingFactorStep(st: StorageValue): XmlStep
  {
    Ok([Elem(XmlElement(["ScalingFactor"], [("unit", "V")], StrOf(Dicts.Get(st.meta, "scalingfactor").GetOr(PyInt(1))), true))])
  }

  /** _write_datafilename: the binary member's name. */
  function DataFilenameStep(bin: string): XmlStep
  {
    Ok([Line("DataFilename", bin)])
  }

  /** _write_number_of_channels: the number of storages. */
  function ChannelsStep(n: nat): XmlStep
  {
    Ok([Line("NumberOfChannels", NatText(n))])
  }

  /**
   * `v != 0` taken as a condition: a number compares by value; an array
   * compares element by element and the truth of the result decides;
   * anything else differs from 0.
   */
  function NotZero(v: Value): (r: Result<bool>)
    ensures Number(v).Some? ==> r == Ok(Number(v).value != 0.0)
    ensures r.Err? <==> v.PyArray? && |Flat(v.a)| > 1
  {
    if Number(v).Some? then Ok(Number(v).value != 0.0)
    else if v.PyArray? then Truthy(v)
    else Ok(true)
  }

  /** meta.get("center_frequency", 0). */
  function CenterFrequency(st: StorageValue): Value
  {
    Dicts.Get(st.meta, "center_frequency").GetOr(PyInt(0))
  }

  /** _write_center_frequency: the nested element only when meta.get("center_frequency", 0) != 0. */
  function CenterFrequencyStep(st: StorageValue): XmlStep
  {
    var v := CenterFrequency(st);
    var nonzero :- NotZero(v);
    if nonzero then Ok([Elem(XmlElement(CenterFrequencyPath, [("unit", "Hz")], StrOf(v), true))]) else Ok([])
  }

  const CloseStep: XmlStep := Ok([Raw(RootClose)])

  /** The writes of _write_xml that read the first storage, in order. */
  function StorageSteps(first: StorageValue, n: nat, bin: string): seq<XmlStep>
  {
    [CommentStep(first), SamplesStep(first), ClockStep(first), FormatStep, DataTypeStep,
     ScalingFactorStep(first), DataFilenameStep(bin), ChannelsStep(n), CenterFrequencyStep(first), CloseStep]
  }

  /** _write_xml: with no storages, data.storages[0] raises IndexError after the overhead and the date. */
  function XmlSteps(ds: seq<StorageValue>, timestamp: ValidDateTime, bin: string): seq<XmlStep>
  {
    [OverheadStep, DateStep(timestamp)] + (if ds == [] then [Err(IndexError)] else StorageSteps(ds[0], |ds|, bin))
  }

  /** The XML member: what _write_xml writes, or the exception that stops it. */
  function XmlFile(ds: seq<StorageValue>, timestamp: ValidDateTime, bin: string): (seq<XmlPiece>, Option<Error>)
  {
    Run(XmlSteps(ds, timestamp, bin))
  }

  // ----- save (_write) -----

  /**
   * save(file, datas, scale): the IQW payload first, then the XML member;
   * the archive holds the payload, then the XML. When both names are one,
   * the second os.remove raises FileNotFoundError.
   */
  function SaveSpec(file: Option<string>, p: ParentValue, timestamp: ValidDateTime, scale: real, enc: real -> Iqw.Word)
    : Result<Archive>
  {
    var (bin, xml) := MemberNames(file);
    var payload :- Iqw.SaveFile(Iqw.Datas(p), scale, enc);
    var written := XmlFile(p.storages, timestamp, bin);
    if written.1.Some? then Err(written.1.value)
    else if bin == xml then Err(FileNotFoundError)
    else Ok([Member(bin, payload), Member(xml, Encode(XmlText(written.0)))])
  }

  /** save: the payload and the XML written to their own files, then both added to the archive in that order. */
  method Save(file: Option<string>, datas: ParentStorage, scale: real, enc: real -> Iqw.Word) returns (r: Result<Archive>)
    ensures r == SaveSpec(file, datas.Snapshot(), datas.timestamp, scale, enc)
  {
    r := Write(file, datas.Snapshot(), datas.timestamp, scale, enc);
  }

  /** _write on the parent's contents: the payload file, the XML file, then the archive. */
  method Write(file: Option<string>, p: ParentValue, timestamp: ValidDateTime, scale: real, enc: real -> Iqw.Word)
    returns (r: Result<Archive>)
    ensures r == SaveSpec(file, p, timestamp, scale, enc)
  {
    var names := MemberNames(file);
    var bin, xml := names.0, names.1;
    var binary := new Sink();
    var w := Iqw.WriteStorages(binary, Iqw.Datas(p), scale, enc);
    if w.Err? {
      assert SaveSpec(file, p, timestamp, scale, enc) == Err(ZeroDivisionError);
      return Err(w.error);
    }
    var xmlFile := new Sink();
    var x := WriteXml(xmlFile, p.storages, timestamp, bin);
    if x.Err? {
      assert SaveSpec(file, p, timestamp, scale, enc) == Err(x.error);
      return Err(x.error);
    }
    if bin == xml {
      assert SaveSpec(file, p, timestamp, scale, enc) == Err(FileNotFoundError);
      return Err(FileNotFoundError);
    }
    assert binary.bytes == Iqw.SaveFile(Iqw.Datas(p), scale, enc).value;
    assert xmlFile.bytes == Encode(XmlText(XmlFile(p.storages, timestamp, bin).0));
    r := Ok([Member(bin, binary.bytes), Member(xml, xmlFile.bytes)]);
  }

  /** _write_xml: each write in turn, up to the first exception. */
  method WriteXml(fp: Sink, ds: seq<StorageValue>, timestamp: ValidDateTime, bin: string) returns (r: Result<()>)
    modifies fp
    ensures r == Outcome(XmlFile(ds, timestamp, bin))
    ensures fp.bytes == old(fp.bytes) + Encode(XmlText(XmlFile(ds, timestamp, bin).0))
  {
    var steps := XmlSteps(ds, timestamp, bin);
    r := WriteSteps(fp, steps);
  }

  /** Writes taken in turn, each line encoded as UTF-8, up to the first exception. */
  method WriteSteps(fp: Sink, steps: seq<XmlStep>) returns (r: Result<()>)
    modifies fp
    ensures r == Outcome(Run(steps))
    ensures fp.bytes == old(fp.bytes) + Encode(XmlText(Run(steps).0))
  {
    ghost var base := fp.bytes;
    assert steps[..0] == [];
    var i := 0;
    while i < |steps|
      invariant i <= |steps|
      invariant Run(steps[..i]).1 == None
      invariant fp.bytes == base + Encode(XmlText(Run(steps[..i]).0))
    {
      RunStep(steps, i);
      if steps[i].Err? {
        return Err(steps[i].error);
      }
      WrittenStep(base, Run(steps[..i]).0, steps[i].value);
      fp.Write(Encode(XmlText(steps[i].value)));
      i := i + 1;
    }
    assert steps[..i] == steps;
    r := Ok(());
  }

  lemma WrittenStep(base: seq<Byte>, done: seq<XmlPiece>, next: seq<XmlPiece>)
    ensures base + Encode(XmlText(done)) + Encode(XmlText(next)) == base + Encode(XmlText(done + next))
  {
    XmlTextConcat(done, next);
    EncodeConcat(XmlText(done), XmlText(next));
  }

  lemma {:induction false} XmlTextConcat(a: seq<XmlPiece>, b: seq<XmlPiece>)
    ensures XmlText(a + b) == XmlText(a) + XmlText(b)
  {
    if a == [] {
      assert a + b == b;
    } else {
      assert (a + b)[1..] == a[1..] + b;
      XmlTextConcat(a[1..], b);
    }
  }
}
