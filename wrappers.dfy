/** Option and Result wrappers, and the exceptions the library raises. */
module Wrappers {

  datatype Option<T> = None | Some(value: T)
  {
    function GetOr(default: T): T
    {
      match this
      case None => default
      case Some(v) => v
    }
  }

  /** Why a ValueError was raised; one reason per raise site family of the library. */
  datatype Reason =
    | NotALoader              // RsWaveform constructor: load class is not a LoadInterface
    | NotASaver               // RsWaveform constructor: save class is not a SaveInterface
    | OffsetWithoutCount      // exactly one of samples/offset given
    | IndexNotInteger         // meta[i] / data[i] with a non-integer index
    | StorageCountNotPositive // ParentStorage(n) with n <= 0
    | NoWaveformTag           // WV: no "{[x]WAVEFORM" in the content
    | UnknownWaveformPrefix   // WV: "{xWAVEFORM" with x other than "W"
    | NoWaveformData          // WV: waveform payload empty
    | NoByteCount             // WV: "{TAG-<digits>:" missing
    | NoSection               // WV: "<count>:#" missing
    | CountInconclusive       // WV: byte count runs past the end of the content
    | NoClosingBrace          // WV: byte after the payload is not '}'
    | SampleCountMismatch     // WV chunked load: fewer samples than asked for
    | MultiSegmentChunks      // WV chunked load of a multi-segment file
    | NotTwoDimensional       // control list is not a 2-D array
    | NoMarkerDimension       // control list has no dimension of length 4
    | ClockMissing            // WV / iq.tar save: clock not set
    | UnsupportedUnit         // iq.tar load: scaling factor unit other than V
    | MultiChannelChunks      // iq.tar chunked load of a multi-channel archive
    | NoStorages              // npz load: no "storages" entry
    | ChunkOutOfRange         // npz chunked load: offset + samples beyond the data
    | IntSyntax               // int() of malformed text
    | FloatSyntax             // float() of malformed text
    | DateSyntax              // datetime.strptime mismatch or impossible date
    | WrongFieldCount         // tuple unpacking of a split with the wrong length
    | ShapeMismatch           // numpy broadcasting of arrays with different lengths
    | BufferSize              // numpy.frombuffer of a length not a multiple of the item size
    | NotANumber              // a format spec of a number applied to another value
    | AmbiguousTruth          // bool() of a numpy array with more than one element
    | EmptyReduction          // numpy max of an empty array

  datatype Error =
    | ValueError(reason: Reason)
    | KeyError(key: string)
    | IndexError
    | TypeError
    | AttributeError
    | ZeroDivisionError
    | IqwHasNoMeta            // the plain Exception raised by the iqw meta loader
    | ArchiveError            // tarfile / XML parser failure
    | FileNotFoundError       // os.remove of a file that is no longer there

  datatype Result<T> = Ok(value: T) | Err(error: Error)
  {
    predicate IsFailure() { Err? }

    function PropagateFailure<U>(): Result<U>
      requires Err?
    {
      Err(error)
    }

    function Extract(): T
      requires Ok?
    {
      value
    }
  }

  function OptionToResult<T>(o: Option<T>, e: Error): (r: Result<T>)
    ensures r.Ok? <==> o.Some?
    ensures r.Ok? ==> r.value == o.value
    ensures r.Err? ==> r.error == e
  {
    match o
    case None => Err(e)
    case Some(v) => Ok(v)
  }
}
