/**
 * What a WV file written by the saver gives back to the loader: the marker
 * lists, the tag names, and the stop at a missing clock.
 */
module WvSaveFacts {
  import opened Wrappers
  import opened Text
  import opened Values
  import WvMeta
  import opened Metadata
  import opened WvBinary
  import opened WvSamples
  import opened WvSave
  import opened Output
  import Dates
  import Storages
  import Dicts
  import WvHeader
  import WvComments

  // ----- marker lists -----

  /** A marker entry [x, y, ...] of integers. */
  function IntRow(row: seq<int>): Value
  {
    PyList(seq(|row|, j requires 0 <= j < |row| => PyInt(row[j])))
  }

  /** A marker list [[x, y], [z, w], ...]. */
  function IntRows(rows: seq<seq<int>>): Value
  {
    PyList(seq(|rows|, i requires 0 <= i < |rows| => IntRow(rows[i])))
  }

  function IntTexts(row: seq<int>): seq<string>
  {
    seq(|row|, j requires 0 <= j < |row| => IntText(row[j]))
  }

  /** "x:y:..." for one entry. */
  function RowText(row: seq<int>): string
  {
    Join(IntTexts(row), ":")
  }

  function RowTexts(rows: seq<seq<int>>): seq<string>
  {
    seq(|rows|, i requires 0 <= i < |rows| => RowText(rows[i]))
  }

  lemma EntryTextOfRow(row: seq<int>)
    ensures EntryText(IntRow(row)) == Ok(RowText(row))
  {
    var els := IntRow(row).items;
    assert seq(|els|, i requires 0 <= i < |els| => StrOf(els[i])) == IntTexts(row);
  }

  lemma {:induction false} EntryTextsOfRows(rows: seq<seq<int>>)
    ensures EntryTexts(IntRows(rows).items) == Ok(RowTexts(rows))
  {
    if rows != [] {
      var items := IntRows(rows).items;
      IntRowsCons(rows);
      EntryTextOfRow(rows[0]);
      EntryTextsOfRows(rows[1..]);
      EntryTextsCons(items, RowText(rows[0]), RowTexts(rows[1..]));
      assert RowTexts(rows) == [RowText(rows[0])] + RowTexts(rows[1..]);
    } else {
      assert IntRows(rows).items == [] && RowTexts(rows) == [];
    }
  }

  /** The texts of a nonempty list of entries: the first entry's, then the rest's. */
  lemma EntryTextsCons(entries: seq<Value>, t: string, rest: seq<string>)
    requires entries != [] && EntryText(entries[0]) == Ok(t) && EntryTexts(entries[1..]) == Ok(rest)
    ensures EntryTexts(entries) == Ok([t] + rest)
  {
  }

  lemma {:induction false} ParseIntsOfRow(row: seq<int>)
    ensures WvMeta.ParseInts(IntTexts(row)) == Ok(IntRow(row).items)
  {
    if row != [] {
      var texts, rest := IntTexts(row), IntRow(row[1..]).items;
      IntRowCons(row);
      ParseIntOfIntText(row[0]);
      ParseIntsOfRow(row[1..]);
      ParseIntsCons(texts, row[0], rest);
    } else {
      assert IntRow(row).items == [] && IntTexts(row) == [];
    }
  }

  lemma IntRowCons(row: seq<int>)
    requires row != []
    ensures IntTexts(row)[0] == IntText(row[0]) && IntTexts(row)[1..] == IntTexts(row[1..])
    ensures IntRow(row).items == [PyInt(row[0])] + IntRow(row[1..]).items
  {
    assert IntTexts(row)[1..] == IntTexts(row[1..]);
    assert IntRow(row).items == [PyInt(row[0])] + IntRow(row[1..]).items;
  }

  lemma IntRowsCons(rows: seq<seq<int>>)
    requires rows != []
    ensures RowTexts(rows)[0] == RowText(rows[0]) && RowTexts(rows)[1..] == RowTexts(rows[1..])
    ensures IntRows(rows).items == [IntRow(rows[0])] + IntRows(rows[1..]).items
  {
    assert RowTexts(rows)[1..] == RowTexts(rows[1..]);
    assert IntRows(rows).items == [IntRow(rows[0])] + IntRows(rows[1..]).items;
  }

  lemma ParseIntsCons(parts: seq<string>, x: int, rest: seq<Value>)
    requires parts != [] && WvMeta.Int(parts[0]) == Ok(x) && WvMeta.ParseInts(parts[1..]) == Ok(rest)
    ensures WvMeta.ParseInts(parts) == Ok([PyInt(x)] + rest)
  {
  }

  /** Splitting an entry's text on ':' gives back its numbers' texts. */
  lemma RowTextSplits(row: seq<int>, c: char)
    requires |row| >= 1 && !IsDigit(c) && c != '-' && c != ':'
    ensures c !in RowText(row)
    ensures Split(RowText(row), ':') == IntTexts(row)
  {
    forall j | 0 <= j < |row|
      ensures c !in IntTexts(row)[j] && ':' !in IntTexts(row)[j]
    {
      IntTextAbsent(row[j], c);
      IntTextAbsent(row[j], ':');
    }
    JoinAbsent(IntTexts(row), ":", c);
    SplitJoin(IntTexts(row), ':');
  }

  lemma {:induction false} ParseRows(rows: seq<seq<int>>)
    requires forall i :: 0 <= i < |rows| ==> |rows[i]| >= 1
    ensures WvMeta.ParseMarkerEntries(RowTexts(rows)) == Ok(IntRows(rows).items)
  {
    if rows != [] {
      var subs, rest := RowTexts(rows), IntRows(rows[1..]).items;
      IntRowsCons(rows);
      RowTextSplits(rows[0], ';');
      ParseIntsOfRow(rows[0]);
      ParseRows(rows[1..]);
      ParseEntriesCons(subs, IntRow(rows[0]).items, rest);
      assert PyList(IntRow(rows[0]).items) == IntRow(rows[0]);
    } else {
      assert RowTexts(rows) == [] && IntRows(rows).items == [];
    }
  }

  lemma ParseEntriesCons(subs: seq<string>, entry: seq<Value>, rest: seq<Value>)
    requires subs != [] && WvMeta.ParseInts(Split(subs[0], ':')) == Ok(entry)
    requires WvMeta.ParseMarkerEntries(subs[1..]) == Ok(rest)
    ensures WvMeta.ParseMarkerEntries(subs) == Ok([PyList(entry)] + rest)
  {
  }

  /**
   * A marker list of integer entries, written by _write_marker, reads back
   * through the loader's MARKER LIST rule as the same list.
   */
  lemma MarkerRoundTrip(rows: seq<seq<int>>)
    requires |rows| >= 1 && forall i :: 0 <= i < |rows| ==> |rows[i]| >= 1
    ensures MarkerString(IntRows(rows)).Ok?
    ensures WvMeta.MarkerEffect(PyStr(MarkerString(IntRows(rows)).value)) == Ok(WvMeta.Markers(IntRows(rows)))
  {
    EntryTextsOfRows(rows);
    forall i | 0 <= i < |rows|
      ensures ';' !in RowTexts(rows)[i]
    {
      RowTextSplits(rows[i], ';');
    }
    SplitJoin(RowTexts(rows), ';');
    ParseRows(rows);
  }

  /** An empty marker list is written as an empty value, which the loader refuses. */
  lemma EmptyMarkerListNotReloaded()
    ensures MarkerString(PyList([])) == Ok("")
    ensures WvMeta.MarkerEffect(PyStr("")).Err?
  {
    assert Split("", ';') == [""];
    assert Split("", ':') == [""];
  }

  // ----- the single-segment file -----

  /** The steps of _write begin with the ten head tags, CLOCK sixth. */
  lemma SingleStepsHead(st: Storages.StorageValue, timestamp: Dates.ValidDateTime, words: seq<Int16>,
                        peakOf: seq<Complex> -> Db, rmsOf: seq<Complex> -> Db, emptyCount: nat)
    ensures var head := SingleHead(st, timestamp, peakOf, rmsOf);
      var steps := SingleSteps(st, timestamp, words, peakOf, rmsOf, emptyCount);
      |steps| > 10 && steps[..10] == head
  {
    var head := SingleHead(st, timestamp, peakOf, rmsOf);
    var tail := MarkerSteps(st.meta) + [EmptyStep(emptyCount)];
    PrefixOf(head, tail, [WaveformStep(st.meta, "encryption_flag", words)]);
  }

  lemma SingleHeadClock(st: Storages.StorageValue, timestamp: Dates.ValidDateTime,
                        peakOf: seq<Complex> -> Db, rmsOf: seq<Complex> -> Db)
    ensures SingleHead(st, timestamp, peakOf, rmsOf)[5] == ClockStep(st.meta)
  {
  }

  lemma PrefixOf<T>(a: seq<T>, b: seq<T>, c: seq<T>)
    ensures |a + b + c| > |a| || c == []
    ensures (a + b + c)[..|a|] == a
  {
    assert (a + b + c)[..|a|] == a;
  }

  /** A step that raises stops the run there: nothing after it is written. */
  lemma RunStopsAt(steps: seq<Step>, k: nat)
    requires k < |steps| && steps[k].Err?
    ensures Run(steps).1.Some?
    ensures Run(steps).0 == Run(steps[..k]).0
    ensures Run(steps[..k]).1 == None ==> Run(steps).1 == Some(steps[k].error)
  {
    if Run(steps[..k]).1 == None {
      RunStep(steps, k);
    } else {
      assert steps == steps[..k] + steps[k..];
      RunConcat(steps[..k], steps[k..]);
    }
  }

  /**
   * _write_clock raises ValueError when meta has no truthy clock: the file
   * holds at most the five tags before CLOCK and never reaches the waveform.
   */
  lemma ClockMandatory(st: Storages.StorageValue, timestamp: Dates.ValidDateTime, scale: real, round: real -> int,
                       peakOf: seq<Complex> -> Db, rmsOf: seq<Complex> -> Db, emptyCount: nat)
    requires Truthy(GetOr(st.meta, "clock", PyNone)) == Ok(false)
    ensures var head := SingleHead(st, timestamp, peakOf, rmsOf);
      && SingleFile(st, timestamp, scale, round, peakOf, rmsOf, emptyCount).1.Some?
      && SingleFile(st, timestamp, scale, round, peakOf, rmsOf, emptyCount).0 == Run(head[..5]).0
      && (Run(head[..5]).1 == None ==>
            SingleFile(st, timestamp, scale, round, peakOf, rmsOf, emptyCount).1 == Some(ValueError(ClockMissing)))
  {
    var head := SingleHead(st, timestamp, peakOf, rmsOf);
    var steps := SingleSteps(st, timestamp, Prepared(st.data, scale, round), peakOf, rmsOf, emptyCount);
    SingleStepsHead(st, timestamp, Prepared(st.data, scale, round), peakOf, rmsOf, emptyCount);
    SingleHeadClock(st, timestamp, peakOf, rmsOf);
    assert steps[5] == head[5] && steps[..5] == head[..5];
    RunStopsAt(steps, 5);
  }

  /**
   * When _write runs to the end, the waveform is the file's last section:
   * the loader's waveform search finds it, with the flag read from
   * meta["encryption_flag"], as long as no tag before it holds a waveform
   * tag of its own.
   */
  lemma SingleWaveformReads(st: Storages.StorageValue, timestamp: Dates.ValidDateTime, scale: real, round: real -> int,
                            peakOf: seq<Complex> -> Db, rmsOf: seq<Complex> -> Db, emptyCount: nat)
    requires SingleFile(st, timestamp, scale, round, peakOf, rmsOf, emptyCount).1 == None
    requires forall p :: !WaveformAt(Render(Run(SingleTags(st, timestamp, peakOf, rmsOf, emptyCount)).0), p)
    ensures var enc := Truthy(GetOr(st.meta, "encryption_flag", PyBool(false)));
      && enc.Ok?
      && ExtractWaveform(Render(SingleFile(st, timestamp, scale, round, peakOf, rmsOf, emptyCount).0), false)
         == Ok((ToBytes(Prepared(st.data, scale, round)), enc.value))
  {
    TagsThenWaveformReads(SingleTags(st, timestamp, peakOf, rmsOf, emptyCount), st.meta, "encryption_flag",
                          Prepared(st.data, scale, round));
  }

  /** Tags that all ran, then the waveform with its flag from meta[key]. */
  lemma TagsThenWaveformReads(tags: seq<Step>, meta: Dicts.Items<Value>, key: string, words: seq<Int16>)
    requires Run(tags + [WaveformStep(meta, key, words)]).1 == None
    requires forall p :: !WaveformAt(Render(Run(tags).0), p)
    ensures var enc := Truthy(GetOr(meta, key, PyBool(false)));
      && enc.Ok?
      && ExtractWaveform(Render(Run(tags + [WaveformStep(meta, key, words)]).0), false) == Ok((ToBytes(words), enc.value))
  {
    var w := WaveformStep(meta, key, words);
    var enc := Truthy(GetOr(meta, key, PyBool(false)));
    var payload := ToBytes(words);
    var prefix := Render(Run(tags).0);
    LastStepWrites(tags, w);
    var section := Section(if enc.value then "WWAVEFORM" else "WAVEFORM", payload);
    assert Render(Run(tags + [w]).0) == prefix + section + [] by {
      assert w == Ok([Binary(WaveformSection(enc.value), payload)]);
      SectionFraming(WaveformSection(enc.value), payload);
    }
    WaveformRoundTrip(prefix, enc.value, payload, []);
  }

  /** The bytes of steps that all ran, the last of which writes one piece. */
  lemma LastStepWrites(tags: seq<Step>, w: Step)
    requires Run(tags + [w]).1 == None
    ensures Run(tags).1 == None && w.Ok?
    ensures |w.value| == 1 ==> Render(Run(tags + [w]).0) == Render(Run(tags).0) + RenderPiece(w.value[0])
  {
    RunConcat(tags, [w]);
    assert [w][1..] == [];
    if |w.value| == 1 {
      assert Run([w]).0 == w.value + [];
      assert w.value + [] == [w.value[0]];
      RenderConcat(Run(tags).0, [w.value[0]]);
      assert Render([w.value[0]]) == RenderPiece(w.value[0]) + Render([]);
    }
  }

  // ----- segment comments -----

  lemma AsciiConcat(x: string, y: string)
    requires IsAscii(x) && IsAscii(y)
    ensures IsAscii(x + y) && Ascii(x + y) == Ascii(x) + Ascii(y)
  {
    assert IsAscii(x + y) by {
      forall k | 0 <= k < |x + y|
        ensures (x + y)[k] as int < 128
      {
        if k >= |x| {
          assert (x + y)[k] == y[k - |x|];
        }
      }
    }
  }

  /** The decimal text of a segment index, as ASCII bytes. */
  lemma DigitsAscii(i: nat)
    ensures IsAscii(IntText(i)) && Ascii(IntText(i)) == CountBytes(i)
  {
    assert IntText(i) == NatText(i);
    var c := CountBytes(i);
    assert IsAscii(NatText(i)) by {
      forall k | 0 <= k < |NatText(i)|
        ensures NatText(i)[k] as int < 128
      {
        assert c[k] == NatText(i)[k] as int;
      }
    }
  }

  /** "{MWV_SEGMENT<i>_COMMENT:" is segment i's opening. */
  lemma OpenText(i: nat)
    ensures IsAscii("{" + ("MWV_SEGMENT" + IntText(i) + "_COMMENT") + ":")
    ensures Ascii("{" + ("MWV_SEGMENT" + IntText(i) + "_COMMENT") + ":") == WvComments.OpenBytes(i)
  {
    var digits := IntText(i);
    DigitsAscii(i);
    AsciiConcat("MWV_SEGMENT", digits);
    AsciiConcat("MWV_SEGMENT" + digits, "_COMMENT");
    AsciiConcat("{", "MWV_SEGMENT" + digits + "_COMMENT");
    AsciiConcat("{" + ("MWV_SEGMENT" + digits + "_COMMENT"), ":");
    AsciiConcat("_COMMENT", ":");
    assert Ascii("{") == [LBrace];
  }

  lemma ClosedText(open: string, text: string)
    requires IsAscii(open) && IsAscii(text)
    ensures IsAscii(open + text + "}") && Ascii(open + text + "}") == Ascii(open) + Ascii(text) + [RBrace]
  {
    AsciiConcat(open, text);
    AsciiConcat(open + text, "}");
    assert Ascii("}") == [RBrace];
  }

  /** The MWV_SEGMENT<i>_COMMENT line the saver writes is segment i's comment record. */
  lemma SavedCommentBytes(i: nat, text: string)
    requires IsAscii(text)
    ensures RenderPiece(Line("MWV_SEGMENT" + IntText(i) + "_COMMENT", text)) == WvComments.OpenBytes(i) + Ascii(text) + [RBrace]
  {
    var open := "{" + ("MWV_SEGMENT" + IntText(i) + "_COMMENT") + ":";
    OpenText(i);
    ClosedText(open, text);
    AsciiIsEncode(open + text + "}");
  }

  /**
   * A comment the saver wrote for segment i below the count, in bytes the
   * comment search reads, is what segment i's key holds afterwards, when no
   * later comment of segment i is found.
   */
  lemma SavedCommentRead(count: int, tags: Dicts.Items<Value>, s: seq<Byte>, pre: seq<Byte>, i: nat, text: string, post: seq<Byte>)
    requires Dicts.DistinctKeys(tags)
    requires i < count && WvHeader.Accepts(WvHeader.Run(WvHeader.CommentChars), text)
    requires s == pre + RenderPiece(Line("MWV_SEGMENT" + IntText(i) + "_COMMENT", text)) + post
    requires forall q :: |pre| + |WvComments.OpenBytes(i)| < q < |s| && WvComments.CommentAt(s, q, count).Some? ==>
      WvComments.CommentAt(s, q, count).value.0 != i
    ensures Dicts.Get(WvComments.ScanFrom(count, tags, s, 0), WvHeader.SegmentCommentKey(i)) == Some(PyStr(text))
  {
    WvComments.AcceptedValue(text);
    SavedCommentBytes(i, text);
    WvComments.RecordOf(s, pre, i, text, post);
    WvComments.CommentFound(count, tags, s, |pre| + |WvComments.OpenBytes(i)|, i, text);
  }
}
