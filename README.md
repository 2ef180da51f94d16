# RsWaveform in Dafny

A model of the core of RsWaveform, the Python library that reads and writes
Rohde & Schwarz waveform files for signal generators and analysers. The
library reads these formats into Storages:

- WV: a text header of `{TAG: value}` sections, then a binary
  `{WAVEFORM-n:#...}` section of little-endian int16 I/Q pairs.
  Multi-segment files are MWV.
- IQW: bare float32 I/Q pairs.
- iq.tar: an XML description and a float32 binary file inside a tar
  archive.
- NPZ: numpy archives of I/Q records.

A Storage holds the complex samples of one segment and its Meta: an ordered
dictionary of metadata, with typed properties and per-format defaults. A
ParentStorage holds the storages of one file, its file name and its time
stamp. The library writes the same formats back. The `RsWaveform` facade
is built with a loader class and a saver class, the WV ones by default;
its `Iqw` and `IqTar` subclasses default to the IQW and iq.tar ones. It
does not look at the file's extension.

The model follows the source's own form:

- Meta, Storage and ParentStorage are classes whose methods update their
  fields in place.
- The loaders and savers are methods that build those objects or write to
  an output sink. Their loops carry invariants.
- Every method is proved against a specification function on values: the
  bytes a save writes, the storages a load fills.
- Lemmas relate those functions: round trips, error conditions, and what
  each step keeps.

Bytes are `int`s in `[0, 256)`. Samples are pairs of reals. Python's dict
is an insertion-ordered list of pairs with distinct keys.

WV tags are text sections: `{NAME:value}` for plain tags and
`{NAME-count:#payload}` for binary ones, where count is the payload's
length plus one. Points where the code behaves differently from what its
documentation suggests are listed under "Behaviour kept as written" below.

## Model

| member | source | states |
|---|---|---|
| MetaUtils.MapMetaInformationName | src/RsWaveform/utility/meta_utils.py:4-10 | "datetime" maps to "date" and every other key to itself |
| MetaUtils.MapMetaInformationNameIdempotent | src/RsWaveform/utility/meta_utils.py:4-10 | mapping twice is mapping once, and the result is never "datetime" |
| MetaUtils.MapMetaInformationNameCollisions | src/RsWaveform/utility/meta_utils.py:4-10 | two keys map to the same name only when they are equal, or are "date" and "datetime" |
| Metadata.KeyOfInjective | src/RsWaveform/meta/meta_base.py:111-129 | each property reads and writes a key of its own, so no two properties share a key |
| Metadata.Meta.constructor | src/RsWaveform/meta/__init__.py:10-13 | Meta(no_defaults, **kwargs) holds the MetaWv step's items, then the MetaIqtar step's, over the same dictionary |
| Metadata.Meta.Absorb | src/RsWaveform/meta/meta_base.py:11-18 | MetaBase.__init__ assigns each pair of the values in turn: existing keys keep their place, new keys go last |
| Metadata.Meta.GetItem | src/RsWaveform/meta/meta_base.py:20-22 | meta[key] is the stored value, and KeyError(key) exactly when the key is absent |
| Metadata.Meta.Get | src/RsWaveform/meta/meta_base.py:101-103 | get(key, default) is the stored value, or the default when the key is absent |
| Metadata.Meta.SetItem | src/RsWaveform/meta/meta_base.py:24-26 | meta[key] = value is a dict assignment: the key keeps its place or is appended |
| Metadata.Meta.DelItem | src/RsWaveform/meta/meta_base.py:28-30 | del removes the key; KeyError(key) with nothing changed when it is absent |
| Metadata.Meta.Contains | src/RsWaveform/meta/meta_base.py:32-34 | `key in meta` holds exactly when the key is stored |
| Metadata.Meta.Len | src/RsWaveform/meta/meta_base.py:40-42 | len(meta) is the number of keys |
| Metadata.Meta.Equals | src/RsWaveform/meta/meta_base.py:48-54 | two metas are equal exactly when their items are equal as dicts, whatever their order |
| Metadata.Meta.EqualsDict | src/RsWaveform/meta/meta_base.py:48-54 | a meta equals a dict exactly when its items do |
| Metadata.Meta.NotEquals | src/RsWaveform/meta/meta_base.py:56-58 | != is the negation of == |
| Metadata.Meta.Pop | src/RsWaveform/meta/meta_base.py:60-62 | pop(key, default) returns the stored value or the default, and the key is gone afterwards |
| Metadata.Meta.PopItem | src/RsWaveform/meta/meta_base.py:64-69 | popitem() removes and returns the last pair (LIFO); KeyError with nothing changed when empty |
| Metadata.Meta.Clear | src/RsWaveform/meta/meta_base.py:71-73 | clear() leaves no items |
| Metadata.Meta.SetDefault | src/RsWaveform/meta/meta_base.py:75-80 | setdefault inserts the default only when the key is absent and returns what is then stored |
| Metadata.Meta.Copy | src/RsWaveform/meta/meta_base.py:82-87 | copy() is a fresh meta of the same class whose items are the original's without a "no_defaults" entry |
| Metadata.Meta.Update | src/RsWaveform/meta/meta_base.py:105-107 | update(other) assigns the other dict's pairs in its order |
| Metadata.Meta.GetProperty | src/RsWaveform/meta/meta_wv.py:23-99 | a property getter returns the stored value or None and inserts nothing; AttributeError on a class without that property |
| Metadata.Meta.SetProperty | src/RsWaveform/meta/meta_base.py:116-129 | a property setter assigns its own key |
| Metadata.Meta.Marker | src/RsWaveform/meta/meta_wv.py:41-46 | the marker getter inserts an empty dict when "marker" is absent, then returns the stored value |
| Metadata.NoDefaultsItems | src/RsWaveform/meta/meta_wv.py:14-21 | with no_defaults=True the items are exactly the keyword arguments in their order, for every class |
| Metadata.InitialItemsGet | src/RsWaveform/meta/__init__.py:10-13 | after construction each key reads as its keyword argument when one is given, otherwise as the class's default |
| Metadata.LayerGet | src/RsWaveform/meta/meta_iqtar.py:12-19 | one class's step reads each key as its keyword argument, else from its default table unless no_defaults is set |
| Metadata.CombinedKeepsWvKeys | src/RsWaveform/meta/__init__.py:10-13 | Meta()'s keys start with the WV table's keys in that table's order, because the iq.tar step keeps existing items |
| Metadata.CombinedDefaultItems | src/RsWaveform/meta/__init__.py:10-13 | Meta(no_defaults=b) with no arguments holds nothing, or the WV defaults followed by center_frequency and scalingfactor |
| Metadata.DefaultTablesOverlap | src/RsWaveform/meta/defaults.py:3-20 | the two default tables share "comment" and "clock" with equal values, at WV places 2 and 3 |
| Metadata.CopyEqualsOriginal | src/RsWaveform/meta/meta_base.py:82-87 | a copy of a meta without a "no_defaults" item equals the original |
| Metadata.PopItemAfterSet | src/RsWaveform/meta/meta_base.py:64-69 | popitem() right after assigning a new key gives back that pair and the dict as it was |
| Metadata.SetThenGet | src/RsWaveform/meta/meta_base.py:111-129 | a setter followed by the getter of the same property returns the value set |
| Storages.DefaultData | src/RsWaveform/Storage.py:40-46 | a new lower-case storage holds 1024 zero samples; an upper-case one holds none |
| Storages.Storage.constructor | src/RsWaveform/storage.py:47-55 | Storage(serialized, no_defaults) restores the serialised data and meta when given, else the edition's default samples and a new Meta |
| Storages.Storage.Samples | src/RsWaveform/storage.py:57-60 | samples is the number of samples held |
| Storages.ParentStorage.constructor | src/RsWaveform/parent_storage.py:23-31 | for a count n, n fresh distinct storages with the edition's default contents, an empty file name and the time stamp "now" |
| Storages.ParentStorage.NumberOfStorages | src/RsWaveform/parent_storage.py:38-40 | number_of_storages() is the length of the list |
| Storages.ParentStorage.AddStorage | src/RsWaveform/parent_storage.py:42-44 | add_storage appends the storage last and leaves the others as they were |
| Storages.ParentStorage.SetStorages | src/RsWaveform/parent_storage.py:51-54 | the storages setter replaces the list as given, even by an empty one |
| Storages.ParentStorage.SetFilename | src/RsWaveform/parent_storage.py:61-64 | the filename setter changes only the file name |
| Storages.NewStorages | src/RsWaveform/parent_storage.py:27-29 | n distinct fresh storages, each with the edition's default samples and meta |
| Storages.NewParentStorage | src/RsWaveform/ParentStorage.py:13-19 | ValueError when the count is not positive; otherwise that many fresh default storages, an empty file name and the time "now" |
| Storages.EncodeDatetime | src/RsWaveform/storage.py:30-34 | a date-time becomes {"__datetime__": True, "as_str": its "%Y%m%dT%H:%M:%S.%f" text}; any other value passes unchanged |
| Storages.DecodeDatetime | src/RsWaveform/storage.py:23-27 | a dict with a "__datetime__" key becomes the date-time its "as_str" names; anything else passes unchanged |
| Storages.DecodeEncodeDatetime | src/RsWaveform/storage.py:23-34 | decoding an encoded date-time gives it back, and encoding changes no other value |
| ArrayToBytes.Pack | src/RsWaveform/wv/utility/array_to_bytes.py:10-47 | ValueError exactly when the array is not two-dimensional or neither dimension is 4; otherwise ceil(N / 2) bytes |
| ArrayToBytes.PackedByteAt | src/RsWaveform/wv/utility/array_to_bytes.py:32-45 | packed byte k holds the four marker bits of sample 2k in its high nibble and those of sample 2k+1 in its low nibble |
| ArrayToBytes.SliceStop | src/RsWaveform/wv/utility/array_to_bytes.py:68 | `[:stop]` keeps min(stop, len) columns, counting a negative stop from the end |
| ArrayToBytes.UnpackShape | src/RsWaveform/wv/utility/array_to_bytes.py:50-70 | unpacking gives a 4-row bit matrix whose columns are the requested count, cut to twice the byte count |
| ArrayToBytes.UnpackedPackedBit | src/RsWaveform/wv/utility/array_to_bytes.py:50-70 | every unpacked bit is the marker bit that was packed at that sample |
| ArrayToBytes.UnpackPack | src/RsWaveform/wv/utility/array_to_bytes.py:10-70 | unpack(pack(A), N) == A for every 4 x N bit array, odd N included |
| ArrayToBytes.UnpackPackTransposed | src/RsWaveform/wv/utility/array_to_bytes.py:32-33 | an N x 4 bit array (N other than 4) unpacks to its transpose |
| ArrayToBytes.PackTranspose | src/RsWaveform/wv/utility/array_to_bytes.py:27-33 | a 4 x N array and its N x 4 transpose pack to the same bytes |
| ArrayToBytes.PackExample | tests/test_array_to_bytes.py:11-12 | the suite's example [[0,1],[1,0],[1,0],[0,1]] packs to the single byte 0x69 |
| Iqw.ExtractPairs | src/RsWaveform/iqw/Load.py:68-76 | the loop gathers the 4-byte runs at 4 * start, 4 * start + 8, ...; the last run is cut at the end of the buffer |
| Iqw.Words | src/RsWaveform/iqw/Load.py:52-60 | frombuffer(float32) raises ValueError exactly when the length is not a multiple of 4, else gives one word per 4 bytes |
| Values.Combine | src/RsWaveform/iqw/Load.py:61 | i + 1j * q (here and in wv/Load.py:170) pairs the parts element by element, repeats a length-one side, and raises ValueError for any other length mismatch |
| Iqw.ExtractIq | src/RsWaveform/iqw/Load.py:64-66 | _extract_iq is the I words and the Q words decoded and combined |
| Iqw.Load | src/RsWaveform/iqw/load.py:21-30 | one fresh storage holding the decoded samples, with an empty meta in the lower-case edition and the defaults in the upper-case one, and the file name when a path is given; the error of the decode otherwise |
| Iqw.LoadInChunks | src/RsWaveform/iqw/Load.py:32-44 | the samples of the bytes after the first 8 * offset, at most 8 * samples of them |
| Iqw.Fill | src/RsWaveform/iqw/Load.py:26-29 | the samples go into the single storage, the path into the parent, and nothing else changes |
| Iqw.Window | src/RsWaveform/iqw/Load.py:37-39 | read(8 * offset), then read(8 * samples): a slice of the content, to the end for a negative count |
| Iqw.LoadMeta | src/RsWaveform/iqw/Load.py:46-48 | load_meta always raises: an IQW file has no meta |
| Iqw.ScaleData | src/RsWaveform/iqw/Save.py:32-36 | (1 / scale) * samples; ZeroDivisionError exactly when scale is 0 |
| Iqw.Interleaved | src/RsWaveform/iqw/Save.py:38-46 | _prepare_data gives 2n numbers, the real part and then the imaginary part of each sample |
| Iqw.Save | src/RsWaveform/iqw/Save.py:23-30 | the sink receives the bytes of every storage's scaled samples in order; ZeroDivisionError with nothing written for a zero scale |
| Iqw.WriteStorages | src/RsWaveform/iqw/save.py:48-56 | the loop of _write appends each storage's bytes in turn |
| Iqw.WriteNext | src/RsWaveform/iqw/Save.py:55-56 | one pass appends storage i's bytes to those of the storages before it |
| Iqw.WriteData | src/RsWaveform/iqw/Save.py:58-70 | _write_data appends the float32 words of the interleaved, scaled samples |
| Iqw.WriteBlocks | src/RsWaveform/iqw/Save.py:62-70 | blocks of 82000000 numbers, the last cut at the end, together write every number once and in order |
| Iqw.BlockStep | src/RsWaveform/iqw/Save.py:64-68 | block b starts where the earlier blocks end and stays inside the data |
| Iqw.DoneAll | src/RsWaveform/iqw/Save.py:54-56 | after the last storage the sink holds the whole file |
| Iqw.InterleavedBytes | src/RsWaveform/iqw/Save.py:59-69 | the interleaved numbers written word by word are the storage's I word, Q word, sample by sample |
| IqwFacts.WordsOfPairs | src/RsWaveform/iqw/Load.py:50-76 | for a file of whole samples, gathering the pairs and then reading float32 gives one word per sample |
| IqwFacts.WholeSamples | src/RsWaveform/iqw/Load.py:50-66 | a file of n whole samples loads as n samples; sample k is the k-th I word and the k-th Q word |
| IqwFacts.PairsLength | src/RsWaveform/iqw/Load.py:68-76 | _extract_pairs gathers four bytes per whole sample, plus the part of the last sample that falls in its half |
| IqwFacts.LoadAccepts | src/RsWaveform/iqw/Load.py:50-66 | the loader accepts exactly whole-sample files, plus 4 bytes (no samples) and 12 bytes (two samples, one Q word repeated) |
| IqwFacts.CellsOfSamples | src/RsWaveform/iqw/Save.py:58-70 | the saved I words are the encoded real parts and the Q words the encoded imaginary parts |
| IqwFacts.StorageRoundTrip | src/RsWaveform/iqw/Save.py:58-70 | loading the bytes of a storage gives its samples back, each part through float32 |
| IqwFacts.StoragesJoined | src/RsWaveform/iqw/Save.py:48-56 | saving several storages writes the same bytes as saving their samples joined |
| IqwFacts.SaveLoadRoundTrip | src/RsWaveform/iqw/Save.py:23-70 | save then load: one storage whose samples are all saved samples in order, divided by the scale, through float32 |
| IqwFacts.ChunkIsSlice | src/RsWaveform/iqw/Load.py:32-44 | a chunk load of a whole-sample file gives samples offset up to offset + count, cut at the end; a negative count reads to the end |
| IqwFacts.ChunkRoundTrip | src/RsWaveform/iqw/Load.py:32-44 | a chunk of a saved storage loads as that slice of its samples |
| WvHeader.GroupNames | src/RsWaveform/wv/Load.py:400-443 | one group name per token of the header table, in the table's order |
| WvHeader.GroupNameCharwise | src/RsWaveform/wv/Load.py:404-405 | a group name is the token name lower-cased with blanks turned to '_' and dots dropped, then "_" and the suffix without blanks when there is one |
| WvHeader.GroupNameUnspaced | src/RsWaveform/wv/Load.py:404-405 | no group name holds a blank |
| WvHeader.GroupNameHead | src/RsWaveform/wv/Load.py:404 | a group name starts with the lower-cased first letter of its token |
| WvHeader.TokenInitials | src/RsWaveform/wv/Load.py:411-443 | every token of the table starts with one of T, C, D, S, R, V, L, M |
| WvHeader.GroupNameInitial | src/RsWaveform/wv/Load.py:400-443 | every group starts with one of t, c, d, s, r, v, l, m, so "waveform" or "encryption_flag" never comes from the header scan |
| WvHeader.GroupNameNoSpace | src/RsWaveform/wv/Load.py:111 | no scanned key holds a blank, so the key "mwv segment count" that load_in_chunks pops is never among them |
| WvHeader.Recognise | src/RsWaveform/wv/Load.py:298-307 | a header record is recognised only as the first token of the table whose name and value form it matches |
| WvHeader.FindToken | src/RsWaveform/wv/Load.py:400-409 | the alternation picks the first matching token from the given one on, and none when no later token matches |
| WvHeader.Contribution | src/RsWaveform/wv/Load.py:301-306 | a recognised record contributes its group name and its text; records without a group contribute nothing |
| WvHeader.Contributions | src/RsWaveform/wv/Load.py:301-306 | one contribution per record, in the file's order |
| WvHeader.AssignKeys | src/RsWaveform/wv/Load.py:306 | assigning contributions keeps the keys distinct and adds only contributed keys |
| WvHeader.AssignGet | src/RsWaveform/wv/Load.py:306 | after the assignments each key holds its last contribution, or what it held before |
| WvHeader.ScanOfRecords | src/RsWaveform/wv/Load.py:296-307 | _split_data_via_tags_meta gives distinct keys, each a group of the table, each holding the last recognised record of its group |
| WvHeader.ScanKeys | src/RsWaveform/wv/Load.py:296-307 | the scan's keys are distinct group names |
| WvComments.MetaPartFirst | src/RsWaveform/wv/Load.py:472-473 | the meta part ends after the first "{WAV" or "{WWAV" with no line feed before it, and there is none when a line feed comes first |
| WvComments.MetaPartFound | src/RsWaveform/wv/Load.py:472-473 | a meta part that exists ends after the first "{WAV" or "{WWAV", with no line feed before that tag |
| WvComments.LineFeedFirst | src/RsWaveform/wv/Load.py:472-480 | a line feed before the first waveform tag leaves the tags unchanged |
| WvComments.AfterWaveformIgnored | src/RsWaveform/wv/Load.py:472-480 | bytes after the first waveform tag, comment records included, change nothing |
| WvComments.OpensAtUnique | src/RsWaveform/wv/Load.py:454-462 | at most one segment's look-behind "{MWV_SEGMENTi_COMMENT:" ends at a position |
| WvComments.CommentOpenAtIs | src/RsWaveform/wv/Load.py:454-462 | the alternation of the segments' groups picks segment i wherever i's opening ends |
| WvComments.CommentKeys | src/RsWaveform/wv/Load.py:466-481 | _extract_mwv_comments keeps the keys distinct and adds only the comment keys of segments below the count |
| WvComments.RecordFound | src/RsWaveform/wv/Load.py:454-462 | a comment record of a segment below the count is matched at its value, with the whole value, the optional leading blank included |
| WvComments.CommentFound | src/RsWaveform/wv/Load.py:474-480 | the last comment record of segment i in the searched bytes is what "mwv_segmenti_comment" holds afterwards |
| WvComments.CommentRead | src/RsWaveform/wv/Load.py:466-481 | a comment record in the meta part is read into the tags, when no later one of the same segment follows |
| WvSaveFacts.SavedCommentBytes | src/RsWaveform/wv/Save.py:301-305 | the MWV_SEGMENTi_COMMENT line the saver writes is segment i's comment record |
| WvSaveFacts.SavedCommentRead | src/RsWaveform/wv/Save.py:301-305 | a comment the saver wrote is read back by the comment search |
| WvBinary.Ascii | src/RsWaveform/wv/Load.py:354 | an ASCII tag name encodes to one byte per character |
| WvBinary.Chars | src/RsWaveform/wv/Load.py:364 | bytes.decode() of ASCII bytes gives one character per byte |
| WvBinary.CountBytes | src/RsWaveform/wv/Load.py:365 | the count's decimal text is a non-empty run of digit bytes |
| WvBinary.CountBytesValue | src/RsWaveform/wv/Load.py:364 | the digits of a count read back as that count |
| WvBinary.DigitRun | src/RsWaveform/wv/Load.py:359-361 | a greedy [\d]+ takes the digits from a position up to the first non-digit or the end |
| WvBinary.SectionEnd | src/RsWaveform/wv/Load.py:365-371 | the "count:( \|)#" match ends just after a '#' |
| WvBinary.ExtractBinaryTag | src/RsWaveform/wv/Load.py:351-386 | _extract_binary_tags finds nothing exactly when no '{' precedes the tag, and every error it raises is one of the four ValueErrors of the section |
| WvBinary.ReadSection | src/RsWaveform/wv/Load.py:357-386 | from the tag on, either a payload or one of the section's ValueErrors |
| WvBinary.ReadCounted | src/RsWaveform/wv/Load.py:364-386 | once the count is known, a payload or one of the section's ValueErrors |
| WvBinary.Cut | src/RsWaveform/wv/Load.py:371-386 | the cut after '#': to the file's end minus one on a partial read, else count - 1 bytes closed by '}', refused when too short or unclosed |
| WvBinary.NoTag | src/RsWaveform/wv/Load.py:354-356 | the tag search fails exactly when the tag follows no '{' anywhere |
| WvBinary.Section | src/RsWaveform/wv/Save.py:228-244 | a section is {NAME-(n+1):#, the n payload bytes and '}' |
| WvBinary.SectionRoundTrip | src/RsWaveform/wv/Load.py:351-386 | a section written after bytes without that tag reads back as its payload; a partial read gives everything after '#' |
| WvBinary.ReadBody | src/RsWaveform/wv/Load.py:357-386 | reading a section body gives its payload, or everything after '#' on a partial read |
| WvBinary.CountLaidOut | src/RsWaveform/wv/Load.py:359-364 | the count search over a section body finds the count the saver wrote |
| WvBinary.ReadLaidOut | src/RsWaveform/wv/Load.py:365-386 | the marker search and the cut over a section body give the payload, or all after '#' |
| WvBinary.ReadLaidFull | src/RsWaveform/wv/Load.py:372-384 | a full read of a section body stops at the '}' the count points to |
| WvBinary.ReadLaidPartial | src/RsWaveform/wv/Load.py:372-377 | a partial read of a section body keeps everything after '#' |
| WvBinary.ReadFound | src/RsWaveform/wv/Load.py:372-384 | a full read after '#' cuts count - 1 bytes closed by '}' |
| WvBinary.ReadPartial | src/RsWaveform/wv/Load.py:372-377 | a partial read after '#' takes every byte up to the end of the file |
| WvBinary.TagFound | src/RsWaveform/wv/Load.py:354-357 | the tag search stops at the section's own '{' when nothing earlier matches |
| WvBinary.CountFound | src/RsWaveform/wv/Load.py:359-361 | the count search stops right after "TAG-" |
| WvBinary.SectionFound | src/RsWaveform/wv/Load.py:365-366 | the "count:#" search stops at the count itself, since no colon comes earlier |
| WvBinary.NoSectionBefore | src/RsWaveform/wv/Load.py:365-366 | no "count:#" match starts before the count |
| WvBinary.WaveformMatch | src/RsWaveform/wv/Load.py:338 | the match after '{' is WAVEFORM with at most one word byte before it |
| WvBinary.IsWaveformEncrypted | src/RsWaveform/wv/Load.py:388-398 | no byte before WAVEFORM means plain, 'W' means encrypted, any other byte is a ValueError |
| WvBinary.ExtractWaveform | src/RsWaveform/wv/Load.py:333-347 | _extract_waveform raises "no waveform tag" exactly when no '{' is followed by an optional word byte and WAVEFORM |
| WvBinary.NoWaveform | src/RsWaveform/wv/Load.py:338-340 | the waveform search fails exactly when no waveform tag follows a '{' |
| WvBinary.WaveformNamesSection | src/RsWaveform/wv/Load.py:341-346 | the tag the waveform match names is there, so the section search that follows always finds a tag |
| WvBinary.WaveformRoundTrip | src/RsWaveform/wv/Load.py:333-347 | a WAVEFORM or WWAVEFORM section after bytes holding no waveform tag reads back with its encryption flag and payload |
| WvBinary.TagIsWaveform | src/RsWaveform/wv/Load.py:338 | a section tag after '{' is a waveform match there |
| WvBinary.UnknownPrefixRefused | src/RsWaveform/wv/Load.py:394-397 | a word byte other than 'W' before WAVEFORM is refused with a ValueError |
| WvMeta.ExtractMetaItems | src/RsWaveform/wv/Load.py:233-281 | the loop of _extract_meta, run as written, gives the result of the fold of its specification function |
| WvMeta.ExtractMetaFold | src/RsWaveform/wv/Load.py:280 | the marker dict the loop builds is added last under "marker" |
| WvMeta.ApplyDistinct | src/RsWaveform/wv/Load.py:245-279 | one pass of the loop keeps the keys distinct |
| WvMeta.FoldGet | src/RsWaveform/wv/Load.py:237-279 | under an ordinary key the fold leaves the converted value of that tag, or what was there |
| WvMeta.RuleOfLevelOffs | src/RsWaveform/wv/Load.py:242 | the LEVEL OFFS branch is taken by the key "level_offs" alone |
| WvMeta.LevelsOnlyFromLevelOffs | src/RsWaveform/wv/Load.py:242-245 | only the "level_offs" tag sets rms and peak |
| WvMeta.ApplyLevels | src/RsWaveform/wv/Load.py:242-245 | a pass sets rms and peak from a LEVEL OFFS tag and leaves them otherwise |
| WvMeta.FoldLevels | src/RsWaveform/wv/Load.py:237-279 | when no tag is named rms or peak, those keys hold the LEVEL OFFS pair |
| WvMeta.FoldMarkers | src/RsWaveform/wv/Load.py:252-258 | the marker dict holds the marker lists in the order of the tags |
| WvMeta.ExtractMetaContents | src/RsWaveform/wv/Load.py:233-281 | _extract_meta gives distinct keys; each ordinary key holds its converted tag; "marker" always holds the dict of the non-empty marker lists |
| WvMeta.ExtractStores | src/RsWaveform/wv/Load.py:277-279 | a tag whose conversion yields a value is stored under its own key |
| WvMeta.LevelOffsBecomeRmsPeak | src/RsWaveform/wv/Load.py:242-245 | LEVEL OFFS "a,b" becomes rms = float(a) and peak = float(b), and "level_offs" is not kept |
| WvMeta.LevelOffsNotStored | src/RsWaveform/wv/Load.py:244 | a converted LEVEL OFFS tag is never stored under its own key |
| WvMeta.TypeKeepsFirstField | src/RsWaveform/wv/Load.py:240-241 | TYPE keeps its first comma field, stripped |
| WvMeta.SegmentEntry | src/RsWaveform/wv/Load.py:268-271 | MWV_SEGMENT_CLOCK and MWV_SEGMENT_LENGTH keep the entry of the segment asked for, as a float |
| WvMeta.SegmentLevels | src/RsWaveform/wv/Load.py:263-267 | MWV_SEGMENT_LEVEL_OFFS keeps entries 2i and 2i + 1 as a pair of floats |
| WvMeta.CommentKeyShape | src/RsWaveform/wv/Load.py:273-274 | a segment comment key is "mwv_segment", the segment's digits, then "_comment" |
| WvMeta.CommentKeyIsNoOtherKey | src/RsWaveform/wv/Load.py:240-271 | a segment comment key takes none of the other branches |
| WvMeta.CommentKeyInjective | src/RsWaveform/wv/Load.py:273-274 | different segments have different comment keys |
| WvMeta.CommentKeyRuleOf | src/RsWaveform/wv/Load.py:272-276 | another segment's comment key is dropped; the one of this segment is kept as read |
| WvMeta.OtherCommentsDropped | src/RsWaveform/wv/Load.py:272-276 | the comments of the other segments are not in the result |
| WvMeta.OwnCommentKept | src/RsWaveform/wv/Load.py:272-279 | the comment of the segment asked for is kept as read |
| WvMeta.RenameGet | src/RsWaveform/wv/Load.py:285-293 | after a move the source key is gone and the target holds its value; other keys are untouched |
| WvMeta.SplitLevelsGet | src/RsWaveform/wv/Load.py:287-289 | the segment level pair becomes rms and peak; no other key changes |
| WvMeta.HandleMwvGet | src/RsWaveform/wv/Load.py:283-294 | _handle_mwv_meta_data moves the segment's clock, levels, length and comment to clock, rms and peak, samples and comment |
| WvSamples.WindowCases | src/RsWaveform/wv/Load.py:219-226 | no or too long a length reads the whole buffer; a window past the end is moved back to end at the end |
| WvSamples.WindowOf | src/RsWaveform/wv/Load.py:219-226 | the offset and length adjustments of _extract_pairs give Window, whose three cases WindowCases states |
| WvSamples.ExtractPairs | src/RsWaveform/wv/Load.py:213-231 | the loop of _extract_pairs gives the specification function's pairs |
| WvSamples.Walk | src/RsWaveform/wv/Load.py:227-230 | two bytes from each index in the stepped range, in order |
| WvSamples.WholeBufferPairs | src/RsWaveform/wv/Load.py:150-171 | with no length given, the I pairs and Q pairs of whole samples are the I and Q halves of each sample, in order |
| WvSamples.ChunkPairs | src/RsWaveform/wv/Load.py:175-203 | a window that fits gives the halves of exactly the samples offset to offset + length |
| WvSamples.Int16Of | src/RsWaveform/wv/Load.py:157-160 | a little-endian byte pair read as a signed 16-bit value |
| WvSamples.Int16RoundTrip | src/RsWaveform/wv/Save.py:113-117 | the bytes written for an int16 read back as it |
| WvSamples.Int16BytesRoundTrip | src/RsWaveform/wv/Load.py:157-160 | every byte pair is the encoding of the int16 it reads as |
| WvSamples.FromBuffer | src/RsWaveform/wv/Load.py:157-160 | np.frombuffer(int16) refuses a buffer of odd length, else reads every byte pair |
| WvSamples.Int16s | src/RsWaveform/wv/Load.py:157-160 | one value per byte pair |
| WvSamples.FromBufferToBytes | src/RsWaveform/wv/Load.py:157-160 | reading back what the saver wrote gives the same int16 values |
| Values.Elementwise | src/RsWaveform/wv/Load.py:205-211 | _fix_to_double (and the IQW word decoding) applied to every value, in order |
| WvSamples.ExtractIq | src/RsWaveform/wv/Load.py:148-203 | an empty waveform is a ValueError |
| WvSamples.HalvesOfInterleave | src/RsWaveform/wv/Save.py:109-117 | the I halves and Q halves of interleaved samples are the bytes of those values |
| WvSamples.ExtractIqOfInterleave | src/RsWaveform/wv/Load.py:148-171 | interleaved samples are read back as one complex value per sample, I and Q scaled |
| WvSamples.WindowBytes | src/RsWaveform/wv/Load.py:219-227 | the bytes of a window of interleaved samples are the interleaving of that window |
| WvSamples.WindowPairs | src/RsWaveform/wv/Load.py:184-201 | the I or Q pairs of a window read back as that window's values |
| WvSamples.ChunkOfInterleave | src/RsWaveform/wv/Load.py:173-203 | a chunked read returns exactly the samples offset to offset + length, scaled |
| WvLoad.Lookup | src/RsWaveform/wv/Load.py:36 | tags[key] gives the stored value, and KeyError exactly when the key is absent |
| WvLoad.MetaCallArgs | src/RsWaveform/wv/Load.py:61 | Meta(**meta) binds "no_defaults" from the dict when present and passes every other key on as a keyword |
| WvLoad.ParseLengths | src/RsWaveform/wv/Load.py:49 | one integer per comma field, or the int() error |
| WvLoad.SegmentData | src/RsWaveform/wv/Load.py:55-58 | segment i is iq[sum(lengths[:i]) : that + lengths[i]], and IndexError past the list of lengths |
| WvLoad.StartStep | src/RsWaveform/wv/Load.py:56-57 | each segment starts where the one before it ends |
| WvLoad.StartMono | src/RsWaveform/wv/Load.py:56 | with lengths that are not negative the starts grow |
| WvLoad.StartNonNeg | src/RsWaveform/wv/Load.py:56 | no segment starts before 0 |
| WvLoad.SegmentExact | src/RsWaveform/wv/Load.py:55-58 | when the lengths fit the samples, segment i is exactly its lengths[i] samples from its start |
| WvLoad.SegmentsTile | src/RsWaveform/wv/Load.py:55-58 | the first n segments laid end to end are the first sum(lengths[:n]) samples, so no sample is lost or repeated |
| WvLoad.SegmentAtData | src/RsWaveform/wv/Load.py:58 | the storage built for segment i holds that segment's samples |
| WvLoad.SegmentArgsKeys | src/RsWaveform/wv/Load.py:59-61 | the keyword arguments of a segment's Meta are distinct and never "no_defaults" |
| WvLoad.BuildArgs | src/RsWaveform/wv/Load.py:59-61 | the Meta arguments of one segment, with _extract_meta run as its loop |
| WvLoad.BuildSegment | src/RsWaveform/wv/Load.py:56-61 | the loop body of load up to the Meta call gives the specification function's segment |
| WvLoad.PopIntDistinct | src/RsWaveform/wv/Load.py:37 | tags.pop(key, default) removes the key and keeps the others distinct |
| WvLoad.LoadHeaderDistinct | src/RsWaveform/wv/Load.py:35-53 | the tag dictionary load builds has distinct keys |
| WvLoad.SingleSegmentUsesSamples | src/RsWaveform/wv/Load.py:51-52 | a single-segment file has the one length SAMPLES |
| WvLoad.SegmentsCount | src/RsWaveform/wv/Load.py:45 | load makes one storage per segment count, none for a count below 1 |
| WvLoad.SegmentsCons | src/RsWaveform/wv/Load.py:55-61 | the segments from i on are segment i followed by those after it |
| WvLoad.SegmentsDrop | src/RsWaveform/wv/Load.py:55-61 | dropping j segments gives those made from i + j on |
| WvLoad.SegmentsNth | src/RsWaveform/wv/Load.py:55-61 | segment k of the list holds the slice of segment k |
| WvLoad.LoadOnlyWarns | src/RsWaveform/wv/Load.py:62-70 | a sample count different from SAMPLES does not stop load: it only logs a warning, and the warning is logged exactly then |
| WvLoad.SegmentsStep | src/RsWaveform/wv/Load.py:55-61 | the next segment raises, or joins the ones done |
| WvLoad.Fill | src/RsWaveform/wv/Load.py:58-61 | storage i receives the segment's samples and a fresh Meta built from its arguments |
| WvLoad.FillNext | src/RsWaveform/wv/Load.py:55-61 | one pass fills storage i and leaves the ones before it as they were |
| WvLoad.FillStorages | src/RsWaveform/wv/Load.py:55-61 | the loop fills storage i with segment i, or stops at the specification function's first error |
| WvLoad.Load | src/RsWaveform/wv/Load.py:30-72 | load succeeds exactly when its specification function does, with a fresh parent, the path as file name and each storage holding its segment |
| WvLoad.LoadFromHeader | src/RsWaveform/wv/Load.py:42-72 | the part after the header: the parent, its storages and their data as its specification function gives them |
| WvLoad.SeparatorAt | src/RsWaveform/wv/Load.py:75-76 | a separator match is ten bytes exactly when "{WWAVEFORM" is there, else nine when "{WAVEFORM" is, and starts with a brace |
| WvLoad.ReadChunksFrom | src/RsWaveform/wv/Load.py:74-90 | header and rest are the bytes read so far; the rest is empty only at the end of the file, with the whole file as header; otherwise the buffer holds exactly one separator, where the rest starts |
| WvLoad.ReadChunks | src/RsWaveform/wv/Load.py:74-90 | the 4096-byte read loop returns what ReadChunksFrom gives from the start of the file |
| WvLoad.ChunkContent | src/RsWaveform/wv/Load.py:100-102 | the bytes searched are one slice of the file starting at the separator, at most (nrSamples + 4) * 4 + 100 bytes past the buffer when that size is not negative |
| WvLoad.TwoSeparatorsNeverSplit | src/RsWaveform/wv/Load.py:84-88 | a buffer with two separators is never split: the whole file becomes the header and nothing is searched for samples |
| WvLoad.ChunkOffsetPastEnd | src/RsWaveform/wv/Load.py:175-203 | once the tags and the waveform read are known, any two offsets whose window runs past the waveform read load the same, the last nrSamples samples read |
| WvSamples.WindowMovedBack | src/RsWaveform/wv/Load.py:219-227 | a window past the end reads the pairs of the buffer's last length samples |
| WvSamples.ExtractIqMovedBack | src/RsWaveform/wv/Load.py:175-203 | a window past the end gives the samples of the buffer's last length samples |
| WvLoad.ChunkSegmentData | src/RsWaveform/wv/Load.py:118-127 | the chunk's storage holds the window, and its length is the requested count |
| WvLoad.WithControlListKeys | src/RsWaveform/wv/Load.py:320-331 | unpacking the control list adds at most the key "control_list" |
| WvLoad.ScannedKeysUnspaced | src/RsWaveform/wv/Load.py:105-109 | the tags load_in_chunks builds have distinct keys without blanks |
| WvLoad.FlaggedKeysUnspaced | src/RsWaveform/wv/Load.py:105-106 | adding "waveform" and "encryption_flag" keeps the keys distinct and unspaced |
| WvLoad.ChunkTagsKeys | src/RsWaveform/wv/Load.py:105-109 | the chunk tags have distinct keys, none with a blank |
| WvLoad.ChunkCountIsOne | src/RsWaveform/wv/Load.py:111-113 | the count load_in_chunks pops is always the default 1, so its multi-segment ValueError is never raised |
| WvLoad.ChunkHoldsRequested | src/RsWaveform/wv/Load.py:118-127 | a chunk load that succeeds holds exactly the requested number of samples |
| WvLoad.FillChunk | src/RsWaveform/wv/Load.py:119-127 | storage 0 gets the window and segment 0's meta, or the count check's ValueError |
| WvLoad.LoadInChunks | src/RsWaveform/wv/Load.py:92-129 | _read_chunks, then the plan over the bytes ChunkContent gives |
| WvLoad.LoadWindow | src/RsWaveform/wv/Load.py:104-129 | one fresh storage holding the window and the meta of segment 0, or ChunkPlan's error |
| WvLoad.MetaPlanContents | src/RsWaveform/wv/Load.py:131-146 | load_meta keeps every scanned tag but LEVEL OFFS and the marker lists, converted for segment 0, and binds no "no_defaults" |
| WvLoad.StoredForControlList | src/RsWaveform/wv/Load.py:139-141 | adding the control list changes no stored entry but its own |
| WvLoad.LoadMeta | src/RsWaveform/wv/Load.py:131-146 | _read_chunks, then the meta of the header part it returns |
| WvLoad.LoadHeaderMeta | src/RsWaveform/wv/Load.py:136-146 | a one-storage parent whose storage holds the header's meta and no samples, or MetaPlan's error |
| WvMwv.StackSegments | src/RsWaveform/wv/Save.py:70-73 | the np.append loop builds the specification function's block |
| WvMwv.Lengths | src/RsWaveform/wv/Save.py:252-256 | the sample count of every storage, in order |
| WvMwv.StackedLength | src/RsWaveform/wv/Save.py:72-73 | the block holds all samples of all storages |
| WvMwv.StackedEqual | src/RsWaveform/wv/Save.py:72-73 | with segments of one length L, block part i is storage n-1-i: np.append(d.data, block) prepends |
| WvMwv.UniformLength | src/RsWaveform/wv/Save.py:72-73 | n segments of length L make a block of n L samples |
| WvMwv.ReversedSegments | src/RsWaveform/wv/Save.py:72-73 | the loader's segment i of a saved block of equal-length segments holds storage n-1-i |
| WvMwv.Starts | src/RsWaveform/wv/Save.py:259-267 | one start per storage |
| WvMwv.SegmentStarts | src/RsWaveform/wv/Save.py:260-265 | the loop of _write_mwv_segment_start gives the specification function's starts |
| WvMwv.StartsRunningSum | src/RsWaveform/wv/Save.py:260-265 | the starts begin at 0 and each is the one before plus that segment's length |
| WvMwv.IntsTextRoundTrip | src/RsWaveform/wv/Save.py:252-257 | the MWV_SEGMENT_LENGTH list parses back to the same integers with the loader's int() |
| WvMwv.Clocks | src/RsWaveform/wv/Save.py:273-276 | one clock per storage, or the first conversion that raises |
| WvMwv.ClocksAll | src/RsWaveform/wv/Save.py:273-276 | the clocks are read one per storage, in order; any one that raises makes the whole read raise |
| WvMwv.ClocksStop | src/RsWaveform/wv/Save.py:273-276 | the error raised is that of the first storage whose clock cannot be read |
| WvMwv.MaxOr0Bounds | src/RsWaveform/wv/Save.py:271-277 | CLOCK is at least 0.0 and every segment clock, and is 0.0 or one of them |
| WvMwv.MwvClock | src/RsWaveform/wv/Save.py:270-280 | the running-maximum loop gives the largest clock or 0.0, or the first error |
| WvMwv.LevelFields | src/RsWaveform/wv/Save.py:283-289 | two fields per storage, rms then peak |
| WvMwv.LevelFieldsRead | src/RsWaveform/wv/Save.py:283-289 | segment i's levels sit at fields 2i and 2i + 1, where the loader looks for them |
| WvMwv.CommentLines | src/RsWaveform/wv/Save.py:302-305 | one MWV_SEGMENTi_COMMENT line per storage |
| WvMwv.FileNames | src/RsWaveform/wv/Save.py:308-312 | at most one name per storage |
| WvMwv.FileNamesFrom | src/RsWaveform/wv/Save.py:308-315 | the names are those of the storages with a filename key; no MWV_SEGMENT_FILES line when none has one |
| WvMwv.WriteMwv | src/RsWaveform/wv/Save.py:64-99 | _write_mwv writes the specification function's MWV file, up to the first error |
| WvMwv.Save | src/RsWaveform/wv/Save.py:26-36 | save dispatches on the storage count and writes the file of that path, up to the first error |
| WvMwv.SaveStorages | src/RsWaveform/wv/Save.py:33-36 | one storage gives the single-segment file, any other count the MWV file |
| WvMwv.CombinedDefaultsDistinct | src/RsWaveform/wv/Save.py:70-75 | the temporary storage's meta has distinct keys and no "encryption" entry |
| WvMwv.MwvMetaGet | src/RsWaveform/wv/Save.py:74-76 | the combined meta reads "type" as SMU-MWV and every other key from the first storage over the defaults |
| WvMwv.MwvTypeForced | src/RsWaveform/wv/Save.py:76-79 | the first tag of an MWV file is TYPE SMU-MWV whatever the storages' types |
| WvMwv.EncryptionKeys | src/RsWaveform/wv/Save.py:60-61 | the single-segment path reads "encryption_flag" while the MWV path reads "encryption", so only the first honours an encryption_flag item |
| WvSave.NameOf | src/RsWaveform/wv/Save.py:213-233 | every section name is ASCII and holds neither '{' nor ':' |
| WvSave.RenderConcat | src/RsWaveform/wv/Save.py:45-62 | the bytes of two runs of writes are the bytes of each, joined |
| WvSave.EncodeIsAscii | src/RsWaveform/wv/Save.py:126 | UTF-8 of ASCII text is one byte per character |
| WvSave.SectionFraming | src/RsWaveform/wv/Save.py:213-244 | each binary section is written as {NAME-(n+1):#, the payload and '}', the shape the loader reads |
| WvSave.HeadFraming | src/RsWaveform/wv/Save.py:213 | the head of a section is '{', the name, '-', the count's digits, ':#' |
| WvSave.SavedSectionReads | src/RsWaveform/wv/Save.py:213-244 | a saved binary section reads back as its payload when nothing before it opens a section of that name |
| WvSave.Emit | src/RsWaveform/wv/Save.py:45-62 | one _write_* call writes its tags, or raises with the tags before it written |
| WvSave.GetOr | src/RsWaveform/wv/Save.py:122 | meta.get(key, default) |
| WvSave.Clamp | src/RsWaveform/wv/Save.py:111-112 | the nearest int16: values in range unchanged, others to the nearer bound |
| WvSave.Prepared | src/RsWaveform/wv/Save.py:103-118 | 2N words: slot 2k holds Re(x_k), slot 2k + 1 holds Im(x_k) |
| WvSave.PrepareData | src/RsWaveform/wv/Save.py:103-118 | _prepare_data fills a fresh array with the specification function's words |
| WvSave.FillReals | src/RsWaveform/wv/Save.py:110-113 | the real parts, scaled, rounded and clamped, go to the even slots |
| WvSave.FillImags | src/RsWaveform/wv/Save.py:114-117 | the imaginary parts go to the odd slots, and the array is then the specification function's words |
| WvSave.PreparedBytes | src/RsWaveform/wv/Save.py:103-118 | the bytes of the prepared words are the interleaved I and Q samples the loader reads |
| WvSave.SavedSamplesLoad | src/RsWaveform/wv/Save.py:103-118 | saving then loading gives one complex value per sample, the quantised parts scaled |
| WvSave.QuantisedWithinHalf | src/RsWaveform/wv/Save.py:110-117 | a part whose scaled value is in the int16 range is stored within half a unit of it |
| WvSave.WriteWaveform | src/RsWaveform/wv/Save.py:228-244 | _write_waveform appends the waveform section of the words |
| WvSave.WaveformFraming | src/RsWaveform/wv/Save.py:232-234 | the head it formats frames the words as a WAVEFORM or WWAVEFORM section |
| WvSave.WriteBlocks | src/RsWaveform/wv/Save.py:235-243 | the block loop writes every word once and in order |
| WvSave.BlockStep | src/RsWaveform/wv/Save.py:238-243 | block b starts where the blocks before it end and stays inside the array |
| WvSave.LevelOffsStep | src/RsWaveform/wv/Save.py:144-158 | with no stored peak, empty data raises numpy's ValueError before anything is written; all-zero data with nothing stored writes "inf,inf"; empty data with a stored peak writes "nan" for the rms; a stored rms and peak are written with six decimals, rms first |
| WvSave.Elements | src/RsWaveform/wv/Save.py:182-190 | `for el in v` visits a list's or tuple's items and a str's one-character strings; only lists, tuples, strs, dicts and arrays with a dimension are iterable, anything else raises TypeError |
| WvSave.ListedMarkerKeys | src/RsWaveform/wv/Save.py:182-184 | key.startswith succeeds exactly when every element is a str, keeps only marker_list keys, and keeps none of strings shorter than "marker_list" |
| WvSave.MarkerSteps | src/RsWaveform/wv/Save.py:181-195 | a str marker writes nothing; any other marker that is not a dict writes nothing or raises, in at most one step |
| WvSave.Collect | src/RsWaveform/wv/Save.py:188-193 | the first error among the results, or all their values |
| WvSave.EntryTexts | src/RsWaveform/wv/Save.py:188-193 | one text per marker entry |
| WvSave.SingleHead | src/RsWaveform/wv/Save.py:46-55 | _write writes ten head tags before the markers |
| WvSave.WriteSingle | src/RsWaveform/wv/Save.py:38-62 | _write prepares the words, then writes the tags in order; an exception leaves the tags before it written |
| WvSave.WriteTagsThenWaveform | src/RsWaveform/wv/Save.py:45-62 | the tags, then the waveform whose encryption flag comes from the meta |
| WvSave.WriteSteps | src/RsWaveform/wv/Save.py:45-59 | the steps written in turn, up to the first exception |
| WvSave.WriteWaveformStep | src/RsWaveform/wv/Save.py:60-62 | the waveform written with the flag meta[key]; a flag whose truth cannot be read stops the save |
| WvSaveFacts.RowTextSplits | src/RsWaveform/wv/Save.py:190 | splitting an entry's text on ':' gives back its numbers' texts |
| WvSaveFacts.MarkerRoundTrip | src/RsWaveform/wv/Save.py:180-195 | a marker list of integer entries written by _write_marker reads back through the loader's MARKER LIST rule as the same list |
| WvSaveFacts.EmptyMarkerListNotReloaded | src/RsWaveform/wv/Save.py:188-195 | an empty marker list is written as an empty value, which the loader refuses |
| WvSaveFacts.SingleStepsHead | src/RsWaveform/wv/Save.py:46-62 | the steps of _write begin with the ten head tags |
| WvSaveFacts.SingleHeadClock | src/RsWaveform/wv/Save.py:51 | CLOCK is the sixth step |
| WvSaveFacts.RunStopsAt | src/RsWaveform/wv/Save.py:45-62 | a step that raises stops the run there: nothing after it is written |
| WvSaveFacts.ClockMandatory | src/RsWaveform/wv/Save.py:160-166 | without a truthy clock _write raises ValueError after at most five tags and never writes the waveform |
| WvSaveFacts.SingleWaveformReads | src/RsWaveform/wv/Save.py:38-62 | when _write runs to the end, the loader's waveform search finds its waveform with the flag from the meta |
| WvSaveFacts.TagsThenWaveformReads | src/RsWaveform/wv/Save.py:59-62 | tags that all ran, then the waveform with its flag from meta[key], read back |
| WvSaveFacts.LastStepWrites | src/RsWaveform/wv/Save.py:60-62 | the last step writes its piece after the bytes of the ones before |
| IqtarLoad.SplitDataViaTags | src/RsWaveform/iqtar/load.py:72-93 | the loop over the allowed tags gives the specification function's dict |
| IqtarLoad.SplitTagsStep | src/RsWaveform/iqtar/load.py:78-91 | one pass adds the entry of one more tag to the dict built so far |
| IqtarLoad.ExtractTag | src/RsWaveform/iqtar/load.py:79-91 | the element at the tag's path gives [text, unit] under the tag's mapped key; nothing is added when it is missing |
| IqtarLoad.ExtractMeta | src/RsWaveform/iqtar/load.py:95-117 | the loop of _extract_meta gives the specification function's meta, or the first conversion that raises |
| IqtarLoad.MetaOfFails | src/RsWaveform/iqtar/load.py:98-116 | once an entry fails the whole dict fails with that error |
| IqtarLoad.Names | src/RsWaveform/iqtar/load.py:122 | tar.getnames(): the member names in archive order |
| IqtarLoad.XmlName | src/RsWaveform/iqtar/load.py:123-124 | the first name holding ".xml" in any case; IndexError when none does |
| IqtarLoad.MemberContent | src/RsWaveform/iqtar/load.py:135-140 | tar.extract of a name that is no member raises KeyError |
| IqtarLoad.Times | src/RsWaveform/iqtar/load.py:166-171 | scaling multiplies both parts of every sample by the factor |
| IqtarLoad.Channels | src/RsWaveform/iqtar/load.py:187-193 | one run per channel, none when the channel count is not positive |
| IqtarLoad.ChannelBounds | src/RsWaveform/iqtar/load.py:190-193 | channel c's run lies inside the samples, after channel c - 1's |
| IqtarLoad.TagKeys | src/RsWaveform/iqtar/load.py:56-81 | the keys the loop derives are clock, datafilename, samples, scalingfactor, numberofchannels, datatype, format, name, comment, date, centerfrequency |
| IqtarLoad.DataFilenameKey | src/RsWaveform/iqtar/load.py:59-81 | the DataFilename tag's key is "datafilename" |
| IqtarLoad.ChannelsKey | src/RsWaveform/iqtar/load.py:62-81 | the NumberOfChannels tag's key is "numberofchannels" |
| IqtarLoad.SplitTagsKeys | src/RsWaveform/iqtar/load.py:72-93 | the split's keys are distinct, each the key of a tag looked up |
| IqtarLoad.MetaOfKeys | src/RsWaveform/iqtar/load.py:95-117 | _extract_meta keeps the keys distinct, takes each from the entries and never keeps "samples" |
| IqtarLoad.ArchiveMetaKeys | src/RsWaveform/iqtar/load.py:173-177 | the loader's meta has distinct keys, all among the tag keys, never "samples" |
| IqtarLoad.MetaKeysAmong | src/RsWaveform/iqtar/load.py:72-117 | a meta built from the split has keys among those of the tags |
| IqtarLoad.RemoveKeeps | src/RsWaveform/iqtar/load.py:179 | meta.pop keeps a keyword set valid and removes the key |
| IqtarLoad.KeywordsOk | src/RsWaveform/iqtar/load.py:194 | no loader key is "no_defaults", so Meta(**meta) passes every key as data |
| IqtarLoad.ReadMeta | src/RsWaveform/iqtar/load.py:174-177 | the XML member, the split and the conversion, in turn |
| IqtarLoad.Read | src/RsWaveform/iqtar/load.py:173-196 | _read fails exactly when its specification function does; otherwise a fresh parent with one fresh storage per channel holding its run of scaled samples and its own Meta |
| IqtarLoad.FillChannels | src/RsWaveform/iqtar/load.py:188-195 | the loop appends one fresh storage per channel and leaves the file name alone |
| IqtarLoad.NewChannel | src/RsWaveform/iqtar/load.py:189-194 | a fresh storage of the channel's samples and Meta(**meta) |
| IqtarLoad.Load | src/RsWaveform/iqtar/load.py:29-34 | _read, then the path as file name when the file is a str |
| IqtarLoad.ReadInChunks | src/RsWaveform/iqtar/load.py:198-228 | one fresh storage of the chunk's samples and meta, or the specification function's error |
| IqtarLoad.ChunkValues | src/RsWaveform/iqtar/load.py:204-219 | the chunk's samples and keywords, ValueError for more than one channel, keywords valid for Meta |
| IqtarLoad.LoadInChunks | src/RsWaveform/iqtar/load.py:36-43 | _read_in_chunks, then the file name when given as a str |
| IqtarLoad.LoadMeta | src/RsWaveform/iqtar/Load.py:45-53 | one storage with no samples whose Meta is built from the whole dict, DataFilename and NumberOfChannels included; no file name |
| IqtarSave.NotZero | src/RsWaveform/iqtar/Save.py:57 | `v != 0` decides by value for a number, and is an ambiguous truth value for an array of several elements |
| IqtarSave.Save | src/RsWaveform/iqtar/Save.py:19-26 | save writes the archive its specification function gives for the parent's contents |
| IqtarSave.Write | src/RsWaveform/iqtar/Save.py:133-158 | the payload file, then the XML file, then both added to the archive in that order |
| IqtarSave.WriteXml | src/RsWaveform/iqtar/Save.py:106-124 | _write_xml writes each element in turn, up to the first exception |
| IqtarSave.WriteSteps | src/RsWaveform/iqtar/Save.py:112-124 | the writes taken in turn, each encoded as UTF-8, up to the first exception |
| IqtarSave.XmlTextConcat | src/RsWaveform/iqtar/Save.py:112-124 | the text of two runs of writes is the text of each, joined |
| IqtarSaveFacts.MatchShift | src/RsWaveform/iqtar/Save.py:142-145 | a match of the pattern past the first character is a match in the rest |
| IqtarSaveFacts.SubNoMatch | src/RsWaveform/iqtar/Save.py:142-145 | with no match, re.sub leaves the name as it is |
| IqtarSaveFacts.SubPrefix | src/RsWaveform/iqtar/Save.py:142-145 | a prefix in which no match starts is kept |
| IqtarSaveFacts.IqTarName | src/RsWaveform/iqtar/Save.py:142-145 | "stem.iq.tar" becomes "stem.complex.1ch.float32" and "stem.xml" when no match starts within the stem |
| IqtarSaveFacts.SubsDiffer | src/RsWaveform/iqtar/Save.py:142-145 | the two substitutions of a name differ exactly when the pattern occurs in it under re.IGNORECASE, "ı" and "İ" matching "i" |
| IqtarSaveFacts.NamesCollide | src/RsWaveform/iqtar/Save.py:139-149 | a str path gives both temporary files one name exactly when its last part holds no match of "iq.tar" under re.IGNORECASE (where "i" also matches "ı" and "İ"); a stream never does |
| IqtarSaveFacts.DottedCapitalName | src/RsWaveform/iqtar/Save.py:142-145 | "İQ.tar" is a case-insensitive match, so its members are named "complex.1ch.float32" and "xml" |
| IqtarSaveFacts.XmlSuffix | src/RsWaveform/iqtar/load.py:123 | a name ending in ".xml" is taken for the XML member |
| IqtarSaveFacts.NotXmlName | src/RsWaveform/iqtar/load.py:123 | a name in which no '.' is followed by an 'x' of either case is not taken for the XML member |
| IqtarSaveFacts.StreamNames | src/RsWaveform/iqtar/Save.py:146-149 | a save to a stream names its members data.complex.1ch.float32 and data.xml, and the loader takes only the second for the XML |
| IqtarSaveFacts.RunFirstErr | src/RsWaveform/iqtar/Save.py:112-124 | the first write that raises is the exception of the run |
| IqtarSaveFacts.RunAllOk | src/RsWaveform/iqtar/Save.py:112-124 | with no failing write the run raises nothing |
| IqtarSaveFacts.StorageStepsError | src/RsWaveform/iqtar/Save.py:115-123 | the exception of the storage's writes is the storage's first error |
| IqtarSaveFacts.StepsThatRun | src/RsWaveform/iqtar/Save.py:115-123 | every write but the clock's and the center frequency's succeeds |
| IqtarSaveFacts.ClockStepError | src/RsWaveform/iqtar/Save.py:47-53 | the clock's write fails exactly when the clock is not truthy |
| IqtarSaveFacts.CenterFrequencyStepError | src/RsWaveform/iqtar/Save.py:55-68 | the center frequency's write fails exactly when `!= 0` has no truth value |
| IqtarSaveFacts.XmlErrors | src/RsWaveform/iqtar/Save.py:106-124 | _write_xml raises IndexError with no storages, else the first storage's error |
| IqtarSaveFacts.XmlErrorKinds | src/RsWaveform/iqtar/Save.py:106-124 | the only exceptions are IndexError, the missing clock's ValueError and an ambiguous truth value |
| IqtarSaveFacts.StorageErrorKinds | src/RsWaveform/iqtar/Save.py:47-68 | an ambiguous truth value comes only from a clock or center frequency held as an array |
| IqtarSaveFacts.ParsedMisses | src/RsWaveform/iqtar/load.py:82 | text that writes no element at a path does not change what the parser finds there |
| IqtarSaveFacts.ParsedRun | src/RsWaveform/iqtar/load.py:82-84 | an element written once at its path is what root.find gives there |
| IqtarSaveFacts.ParsedNames | src/RsWaveform/iqtar/Save.py:115-123 | the document holds the data file name and the channel count the saver wrote |
| IqtarSaveFacts.ParsedDocument | src/RsWaveform/iqtar/Save.py:106-124 | the parser finds the binary member's name and the channel count in the saved XML |
| IqtarSaveFacts.SplitTagsGet | src/RsWaveform/iqtar/load.py:78-91 | a tag whose key no other tag has is found under its key |
| IqtarSaveFacts.SplitTagsAbsent | src/RsWaveform/iqtar/load.py:78-91 | a key no tag has is absent from the split |
| IqtarSaveFacts.MetaOfGet | src/RsWaveform/iqtar/load.py:95-117 | _extract_meta keeps every entry but the sample count, under its key, converted |
| IqtarSaveFacts.TagKeyUnique | src/RsWaveform/iqtar/load.py:56-70 | no other tag has the key of DataFilename or NumberOfChannels |
| IqtarSaveFacts.SearchPathOfName | src/RsWaveform/iqtar/load.py:79-80 | a one-part tag without '_' is searched at its own name |
| IqtarSaveFacts.SplitNames | src/RsWaveform/iqtar/load.py:72-93 | the split of a document holding the saver's DataFilename and NumberOfChannels keeps both, with no unit |
| IqtarSaveFacts.SplitNameAt | src/RsWaveform/iqtar/load.py:83-91 | a found element of a tag without unit is split under its key with no unit |
| IqtarSaveFacts.LoadedNames | src/RsWaveform/iqtar/load.py:105-112 | the data file name stays a str and the channel count becomes an int |
| IqtarSaveFacts.SubNonEmpty | src/RsWaveform/iqtar/Save.py:142-145 | the substituted name of a non-empty name is not empty |
| IqtarSaveFacts.SavedArchive | src/RsWaveform/iqtar/Save.py:133-158 | a successful save writes a non-empty binary name, then an XML member of its own name |
| IqtarSaveFacts.XmlOfSaved | src/RsWaveform/iqtar/load.py:120-129 | the loader reads the saver's XML member when its name, and not the binary's, holds ".xml" |
| IqtarSaveFacts.PayloadMember | src/RsWaveform/iqtar/load.py:132-140 | extracting the binary name reads the payload member |
| IqtarSaveFacts.SavedMeta | src/RsWaveform/iqtar/load.py:173-177 | the loaded meta names the saver's binary member and the number of storages |
| IqtarSaveFacts.SaveThenLoad | src/RsWaveform/iqtar/Save.py:133-158 | save then load: the meta names the saver's binary member and the storage count, and _read takes that member |
| IqtarSaveFacts.SavedDateConverts | src/RsWaveform/iqtar/Save.py:28-32 | the DateTime text the saver writes is converted by the loader back to the parent's time stamp |
| IqtarSaveFacts.SavedPayload | src/RsWaveform/iqtar/Save.py:127-131 | the payload member is the IQW file of all storages, which the IQW decoder reads back |
| NpzLoad.Zeros | src/RsWaveform/npz/load.py:47-48 | np.zeros(n): n zeros |
| NpzLoad.Combine | src/RsWaveform/npz/load.py:60-62 | i.astype(dtype) + 1j * q.astype(dtype): one sample per pair, both parts cast |
| NpzLoad.FirstError | src/RsWaveform/npz/load.py:33-64 | no error exactly when every pass succeeds |
| NpzLoad.Outcomes | src/RsWaveform/npz/load.py:33-64 | one outcome per record, in index order |
| NpzLoad.Load | src/RsWaveform/npz/load.py:26-65 | load fails exactly when its specification function does; otherwise a fresh parent of distinct fresh storages whose contents are the specification function's slots |
| NpzLoad.FillSlots | src/RsWaveform/npz/load.py:33-64 | the loop puts each record's storage in its slot, stopping at the first that raises |
| NpzLoad.PutRecord | src/RsWaveform/npz/load.py:34-64 | a usable record replaces its slot by a fresh storage; a skipped one leaves the slot alone |
| NpzLoad.NewRecordStorage | src/RsWaveform/npz/load.py:59-63 | a fresh storage of the samples whose Meta(no_defaults=True, **meta) holds exactly the record's dict |
| NpzLoad.LoadInChunks | src/RsWaveform/npz/load.py:67-83 | load, then every storage cut to its chunk, or ValueError |
| NpzLoad.CutChunks | src/RsWaveform/npz/load.py:75-82 | each storage in turn cut to data[offset:offset + samples], or ValueError when it is shorter than offset + samples |
| NpzLoad.LoadMeta | src/RsWaveform/npz/load.py:85-90 | load, then every storage's samples emptied |
| NpzLoad.EmptyAll | src/RsWaveform/npz/load.py:88-89 | every storage's samples become empty and its meta is kept |
| NpzLoad.ContentsAt | src/RsWaveform/npz/load.py:32 | the parent's i-th value is that of its i-th storage |
| NpzLoad.FailsAt | src/RsWaveform/npz/load.py:33-64 | a pass that fails after the earlier ones succeeded gives the reported error |
| NpzLoad.FirstErrorPrefix | src/RsWaveform/npz/load.py:33-64 | the first error of a failed prefix is the first error of the whole loop |
| NpzLoad.FirstErrorIsEarliest | src/RsWaveform/npz/load.py:33-64 | the reported error is that of a failing pass, and every pass before it succeeded |
| NpzLoad.NoStoragesRejected | src/RsWaveform/npz/load.py:29-31 | a missing or empty "storages" entry, and only that, raises the not-compliant ValueError |
| NpzLoad.NotCompliant | src/RsWaveform/npz/load.py:29-31 | `not data_objs` is true exactly for a missing or empty entry, and raises the ambiguous-truth ValueError exactly for an object array of two or more records |
| NpzLoad.SavedArrayRefused | src/RsWaveform/npz/load.py:28-31 | an object array of two or more records, as np.load returns for a multi-storage file the saver wrote, is refused before any record is read; one record, or a list, goes through the loop |
| NpzLoad.LoadFails | src/RsWaveform/npz/load.py:59-63 | load fails exactly when a usable record's meta has a "no_defaults" key, and then raises TypeError |
| NpzLoad.LoadSlots | src/RsWaveform/npz/load.py:32-64 | one slot per record, each holding what its own record makes of it |
| NpzLoad.SkippedSlot | src/RsWaveform/npz/load.py:37-58 | a record without "i", or with "i" and "q" of different lengths, leaves the default 1024-sample storage in its slot |
| NpzLoad.MissingQuadrature | src/RsWaveform/npz/load.py:47-48 | a record without "q" holds i's samples with zero quadrature and exactly its own meta |
| NpzLoad.FilledSlot | src/RsWaveform/npz/load.py:59-64 | a record with "i" and "q" of one length holds their cast samples and exactly its own meta |
| NpzLoad.ChunkContents | src/RsWaveform/npz/load.py:75-82 | the chunk load fails exactly when some storage is shorter than offset + samples; otherwise each storage holds its own slice |
| NpzLoad.NegativeOffsetChunk | src/RsWaveform/npz/load.py:82 | a negative offset whose chunk ends at or before index 0 yields no samples |
| NpzLoad.MetaOnly | src/RsWaveform/npz/load.py:85-90 | load_meta fails exactly when load does, and keeps every storage's meta and count while dropping the samples |
| Waveforms.DefaultScale | src/RsWaveform/__init__.py:89-95 | the scale used when none is given is positive: 2**15 for RsWaveform, 1.0 for Iqw and IqTar |
| Waveforms.Waveform.constructor | src/RsWaveform/__init__.py:53-55 | the class and the parent it starts with |
| Waveforms.Waveform.Load | src/RsWaveform/__init__.py:70-87 | the parent is replaced by what the loader returns; a raise changes nothing |
| Waveforms.Waveform.Save | src/RsWaveform/__init__.py:89-95 | the saver gets this parent and the given scale, or the class's default |
| Waveforms.Waveform.ToBytes | src/RsWaveform/__init__.py:97-102 | tobytes saves into memory with the class's default scale |
| Waveforms.Waveform.SetFilename | src/RsWaveform/__init__.py:117-120 | the filename setter changes the parent's file name and nothing else |
| Waveforms.Waveform.GetData | src/RsWaveform/__init__.py:132-135 | data[key] is the samples of the selected storage, or the index error |
| Waveforms.Waveform.GetMeta | src/RsWaveform/__init__.py:122-125 | meta[key] is the Meta object of the selected storage, or the index error |
| Waveforms.Waveform.SetData | src/RsWaveform/__init__.py:137-140 | data[key] = d replaces the selected storage's samples; metas and, for distinct storages, the other samples are untouched |
| Waveforms.Waveform.SetMeta | src/RsWaveform/__init__.py:127-130 | meta[key] = m makes m the selected storage's Meta; samples and, for distinct storages, the other metas are untouched |
| Waveforms.Create | src/RsWaveform/__init__.py:39-68 | ValueError unless the load and save classes are a loader and a saver; then the dispatch's load, its error, or no load |
| Waveforms.DispatchFails | src/RsWaveform/__init__.py:56-66 | the constructor raises exactly when a file is given, meta-only is not asked for, and just one of the two chunk arguments is given |
| Waveforms.DispatchCalls | src/RsWaveform/__init__.py:56-68 | the loader is called exactly when a file is given, and meta-only wins over chunk arguments |
| Waveforms.IqwNeverMetaOnly | src/RsWaveform/__init__.py:151-160 | an Iqw never loads through load_meta |
| Waveforms.EmptyPathLoadsNothing | src/RsWaveform/__init__.py:56 | an empty path string counts as no file: nothing is loaded |
| Waveforms.ItemIndexRange | src/RsWaveform/utility/integer_indexedproperty.py:10-20 | an index is accepted exactly when it is an integer in [-n, n), and then names a storage, counting from the end when negative |
| Waveforms.NegativeIndexAlias | src/RsWaveform/__init__.py:122-140 | index i and index i - n name the same storage |
| Dicts.SetKeys | src/RsWaveform/meta/meta_base.py:24-26 | dict assignment keeps the keys distinct and in place, and appends a new key last |
| Dicts.GetSet | src/RsWaveform/meta/meta_base.py:24-26 | after d[k] = v, k reads as v and every other key as before |
| Dicts.RemoveKeys | src/RsWaveform/meta/meta_base.py:28-30 | deleting keeps the other keys distinct and in order |
| Dicts.GetRemove | src/RsWaveform/meta/meta_base.py:28-30 | after del d[k], k is absent and every other key reads as before |
| Dicts.ToMapEqual | src/RsWaveform/meta/meta_base.py:48-54 | two dicts are equal exactly when every key reads alike, whatever their order |
| Dicts.GetUpdateAll | src/RsWaveform/meta/meta_base.py:105-107 | update(e) keeps keys distinct; a key of e reads as in e, any other as before |
| Dicts.UpdateAllKeysPrefix | src/RsWaveform/meta/meta_base.py:105-107 | update(e) keeps the existing keys first and appends the new ones in e's order |
| Output.Sink.Write | src/RsWaveform/wv/Save.py:126 | file.write(b) appends b to what the file holds |
| Output.BlockBounds | src/RsWaveform/iqw/Save.py:62-70 | block b of ceil(size / chunk) blocks starts inside the data and ends where block b + 1 starts |
| Output.BlocksCover | src/RsWaveform/wv/Save.py:235-243 | the blocks together cover all the data |
| Output.RunConcat | src/RsWaveform/wv/Save.py:45-62 | writes that all ran are followed by the next ones; writes stopped by an exception stay stopped |
| Output.RunStep | src/RsWaveform/wv/Save.py:45-62 | write k follows the k writes that all ran |
| Sequences.Clip | src/RsWaveform/npz/load.py:82 | a slice bound lands in [0, n], and a bound already inside is kept |
| Sequences.Slice | src/RsWaveform/npz/load.py:82 | s[a:b] never fails, is never longer than s, and is the plain slice for bounds inside s |
| Sequences.SliceToEnd | src/RsWaveform/iqw/Load.py:37-39 | a stop past the end reads to the end |
| Sequences.SliceEmpty | src/RsWaveform/npz/load.py:82 | a start past the end, or a stop at or before a non-negative start, gives nothing |
| Sequences.First | src/RsWaveform/wv/Load.py:338 | a search gives the leftmost position where the pattern matches, or none |
| Sequences.FirstIs | src/RsWaveform/wv/Load.py:354 | the search finds k when the pattern matches there and nowhere before |
| Dates.ParseWvFormat | src/RsWaveform/wv/Load.py:248-249 | strptime reads back what the saver's strftime("%Y-%m-%d;%H:%M:%S") writes, to the second |
| Dates.ParseIsoFormat | src/RsWaveform/iqtar/load.py:113-115 | strptime with the pattern the loader picks reads back isoformat() output exactly |
| Dates.IsoFormatDot | src/RsWaveform/iqtar/load.py:114 | isoformat() output holds a "." exactly when it has microseconds, so the loader picks the ".%f" pattern exactly then |
| Dates.ParseStampFormat | src/RsWaveform/storage.py:23-34 | strptime reads back a serialised storage's date-time exactly |
| Dates.OverlayNamed | src/RsWaveform/wv/Load.py:249 | strptime sets exactly the fields its layout names and defaults the others |
| Dates.MatchFormat | src/RsWaveform/wv/Load.py:249 | reading back what strftime wrote takes each field as written |
| Text.NatText | src/RsWaveform/wv/Save.py:170 | str(n) is a non-empty run of decimal digits |
| Text.ParseIntOfIntText | src/RsWaveform/wv/Load.py:49 | int() reads back every integer str() writes |
| Text.RoundHalfEven | src/RsWaveform/wv/Save.py:110 | np.round gives the nearest integer, ties to the even neighbour |
| Text.ParseFloatOfFloatText | src/RsWaveform/wv/Load.py:247 | float() reads back the text str() writes for an integral float |
| Text.FixedSixWithinHalfUnit | src/RsWaveform/wv/Save.py:157 | the ".6f" text reads back within half a unit of the sixth decimal |
| Text.Split | src/RsWaveform/wv/Load.py:243 | str.split(sep) never gives an empty list |
| Text.SplitJoin | src/RsWaveform/wv/Load.py:49 | splitting a join on a separator none of the parts holds gives the parts back |
| Text.Lower | src/RsWaveform/iqtar/load.py:81 | str.lower() on ASCII: each of A-Z becomes its lower-case letter, every other character is kept |
| Text.Upper | src/RsWaveform/wv/Save.py:194 | str.upper() on ASCII: each of a-z becomes its upper-case letter, every other character is kept |
| Text.ReplaceChar | src/RsWaveform/wv/Load.py:404 | replacing c by text without c leaves no c |
| Text.EncodeAscii | src/RsWaveform/wv/Save.py:126 | ASCII text encodes to one byte per character, the character's code |
| Values.Truthy | src/RsWaveform/wv/Save.py:163 | bool(v): an array of several elements has no truth value and raises ValueError |
| Values.ToFloat | src/RsWaveform/wv/Load.py:247 | float(v) of a number is its value; of text, the exact value of the decimal it spells, or ValueError |
| Values.ToInt | src/RsWaveform/wv/Load.py:251 | int(v): text is parsed, a float is truncated toward zero |
| Values.StrOf | src/RsWaveform/wv/Save.py:165 | str(v) as an f-string writes it: a str itself, an int's decimal text, a float's text |
| Values.FormatNumber | src/RsWaveform/wv/Save.py:157 | the numbers ".6f" formats: bool, int, float and the item of a 0-d numpy array |
| Values.FormatFixed | src/RsWaveform/wv/Save.py:157 | format(v, ".6f") succeeds exactly for numbers (six-decimal text) and datetimes (strftime(".6f") is ".6f"); a str raises ValueError and anything else TypeError |
| Values.PyEqReflexive | src/RsWaveform/meta/meta_base.py:48-54 | every well-formed value equals itself |

## Behaviour kept as written

These points look unintended, but the model reproduces them and proves
what follows from them:

- The MWV sample block is built with `np.append(storage.data, data)`, which
  puts each storage in front of those gathered so far. The block therefore
  starts with the last storage while the segment table starts with the first
  one (`WvMwv.Stacked`, `WvMwv.StackedEqual`).
- WV `load_in_chunks` pops the key "mwv segment count", spelled with spaces.
  No scanned key holds a space, so the count is always the default 1 and the
  multi-segment ValueError cannot be reached (`WvLoad.ChunkCountIsOne`).
- WV `load_in_chunks` reads only `(nr_samples + 4) * 4 + 100` bytes past the
  chunk that holds the waveform tag, whatever the offset
  (`WvLoad.ChunkContent`). `_extract_pairs` moves a window that runs past the
  end of those bytes back to end at their end, without an error, so a large
  offset loads the last samples read instead of the samples at the offset
  (`WvLoad.ChunkOffsetPastEnd`, `WvSamples.WindowMovedBack`).
- `_read_chunks` splits only a buffer with exactly one separator. When two
  separators come in the same buffer, it reads on to the end of the file,
  returns the whole file as the header, and the chunked load finds no
  waveform (`WvLoad.TwoSeparatorsNeverSplit`).
- The iq.tar saver reads `meta["center_frequency"]`, while the loader stores
  the element under "centerfrequency" (`IqtarLoad.TagKeys`).
- `Meta.copy()` leaves out a "no_defaults" item (`Metadata.Meta.Copy`).
- The iq.tar `Clock` element is written without a line break after it.
- An iq.tar file name without "iq.tar" in it gives both temporary members
  the same name (`IqtarSaveFacts`).
- An empty path string counts as no file, so nothing is loaded
  (`Waveforms.EmptyPathLoadsNothing`).
- A file the npz saver wrote with two or more storages does not load: np.load
  gives the entry back as an object array, and `if not data_objs` raises
  numpy's ambiguous-truth ValueError before any record is read
  (`NpzLoad.NotCompliant`, `NpzLoad.SavedArrayRefused`). The slot-by-slot
  results of `NpzLoad.Load`, `NpzLoad.LoadSlots` and `NpzLoad.LoadFails`
  describe a list entry, or an array of one record.
- A negative npz offset can give an empty chunk instead of an error
  (`NpzLoad.NegativeOffsetChunk`).
- The IQW loader accepts files of 4 and 12 bytes as well as whole samples,
  because numpy broadcasts a length-one side (`IqwFacts.LoadAccepts`).
- The single-segment WV path reads the encryption flag from
  "encryption_flag" and the MWV path from "encryption"
  (`WvMwv.EncryptionKeys`).

## Left out

- File handles, paths, temporary files, the tar container and the home
  directory: a load receives the file's bytes, and a save writes to a `Sink`
  or to a list of archive members.
- The regular-expression scans of the WV header are inputs: the `{NAME:value}`
  records the engine finds.
- The XML parser of the iq.tar loader is the parameter `parse`. XML escaping
  is not modelled, so `IqtarSaveFacts.SaveThenLoad` takes as its hypothesis
  that the parser gives back the texts the saver wrote.
- `np.load` and the npz container: the loader gets the "storages" entry as
  nothing, a list of records or a numpy object array of records
  (`NpzLoad.Entry`). The truth value of a one-record array is taken to be
  true, as it is for the dicts the saver writes; the model's records cannot
  tell an empty dict, which the source refuses, from one whose "i" is None.
  An empty object array is refused with the not-compliant ValueError; numpy
  2.2 and later raise their own ValueError there instead.
- Storage `serialize` and msgpack/pickle are not modelled. A serialised
  storage is given to the constructor as the data and meta it restores. The
  date-time hooks `encode_datetime` and `decode_datetime` are modelled.
- float32 and float16 arithmetic are parameters: `dec` and `enc` for IQW
  words, `fix` for `_fix_to_double`, `round` for numpy's rounding, and
  `cast` for the npz dtype.
- WvSave.CalculatePeak and WvSave.CalculateRms: `calculate_peak` and
  `calculate_rms` (utility/dsp.py) are modelled for empty data (ValueError
  for the peak, nan for the rms) and for all-zero data (-inf). For any other
  data, their float16 arithmetic is the parameters `peakOf` and `rmsOf`.
- Text.ParseFloat and Values.ToFloat: Python's float() also accepts "inf",
  "nan", "infinity" and underscores between digits, and it rounds to the
  nearest float64. The model refuses those texts with ValueError and keeps
  the exact decimal value. The same holds wherever float() is applied: the
  LEVEL OFFS values, `Iqw.Scaled` and `IqtarLoad.Times`.
- Text.ParseInt and Values.ToInt: Python's int() also accepts underscores
  between digits ("1_000"). The model refuses them with ValueError.
- Text.IsSpace, Text.ParseInt, Text.ParseFloat and Dates.Parse: whitespace
  and digits are ASCII only. Python's strip(), int() and float() also strip
  Unicode whitespace ("\xa0", "\u3000", ...), and int(), float() and
  strptime's digits also accept non-ASCII decimal digits; the model refuses
  those texts.
- ArrayToBytes.Pack: an empty dimension records no inner shape, so an array
  with no rows, such as np.zeros((0, 4)), has the model shape (0,). Pack
  refuses it as not two-dimensional, where the source packs it to b"".
- Text.Lower and Text.Upper: only the ASCII letters are mapped. Python's
  case mapping of other letters is not modelled; it can change the length,
  as in "ß".upper() == "SS".
- Metadata.Meta.constructor and Metadata.Meta.Marker: meta values are
  immutable and copied, never shared. In the source, meta_wv.py:19 makes a
  shallow copy of META_WV_DEFAULTS, so every default Meta holds the one
  module-level `"marker": {}` dict, and the `marker` getter hands that dict
  out; a change made through it would show in every later Meta(). The model
  cannot express that sharing or an in-place change through a getter; the
  core itself never changes that dict in place.
- NpzLoad.LoadMeta and NpzLoad.EmptyAll: `np.empty((0, 0))` is a
  two-dimensional array with no elements. Samples are one-dimensional here,
  so it is the empty sequence; both have no samples.
- IqtarSave.SaveSpec: for a file name with no match of "iq.tar", both
  temporary files share one name, the XML overwrites the payload, and the
  archive is written with two members of that name holding the XML before
  the second os.remove raises FileNotFoundError. The model returns only the
  error, not the archive left behind.
- The random length of the EMPTYTAG section and the wall clock are
  parameters: `emptyCount` and `now`.
- Dates.Parse: the space-padded day that CPython's `%d` accepts (" 5") is
  refused.
- Values.Repr: the repr of a numpy array is written with blanks between the
  elements, as str() writes them, not with repr()'s commas; and the repr of
  a str escapes nothing.
- Values.StrOf: `str(float)` matches Python only for integral values below
  1e16. Other floats are written as their decimal expansion cut to at most
  17 fraction digits, not as Python's shortest repr or exponent form.
- Logging: the WV loader's sample-count warning is a boolean result, and
  nothing else is logged.
- Waveforms: the loader and saver classes are any subclasses of the two
  interfaces, so what the chosen loader returns or raises is an input of the
  facade. `frombytes` is `load` on a byte stream, and `tobytes` is `save`
  into memory.
- The npz saver, `__main__.py` and utility/fake_jit.py are outside the
  modelled core.
