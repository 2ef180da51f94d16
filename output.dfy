/** The file handle the savers write to. */
module Output {
  import opened Wrappers
  import opened Text

  /** The file handle a save writes to: the bytes it has received so far. */
  class Sink {
    var bytes: seq<Byte>

    constructor ()
      ensures bytes == []
    {
      bytes := [];
    }

    /** file.write(b). */
    method Write(b: seq<Byte>)
      modifies this
      ensures bytes == old(bytes) + b
    {
      bytes := bytes + b;
    }
  }

  // ----- blocks -----

  /** The chunk_size both savers write their samples in. */
  const ChunkSize: nat := 82000000

  /** How many items the first b blocks hold. */
  function Written(b: nat, size: nat): nat
  {
    if b * ChunkSize < size then b * ChunkSize else size
  }

  /** Block b of ceil(size / ChunkSize) blocks starts inside the data and ends where block b + 1 starts. */
  lemma BlockBounds(size: nat, b: nat)
    requires b < (size + ChunkSize - 1) / ChunkSize
    ensures b * ChunkSize < size && Written(b, size) == b * ChunkSize
    ensures Written(b + 1, size) == if (b + 1) * ChunkSize > size - 1 then size else (b + 1) * ChunkSize
  {
  }

  /** The blocks together cover all the data. */
  lemma BlocksCover(size: nat)
    ensures Written((size + ChunkSize - 1) / ChunkSize, size) == size
  {
  }

  // ----- writes taken in turn -----

  /** Steps taken in order: what is written until the first exception, and that exception. */
  function Run<T>(steps: seq<Result<seq<T>>>): (seq<T>, Option<Error>)
  {
    if steps == [] then ([], None)
    else match steps[0]
      case Err(e) => ([], Some(e))
      case Ok(ps) =>
        var rest := Run(steps[1..]);
        (ps + rest.0, rest.1)
  }

  /** The result of a save: None when every step ran. */
  function Outcome<T>(run: (seq<T>, Option<Error>)): Result<()>
  {
    match run.1
    case None => Ok(())
    case Some(e) => Err(e)
  }

  /** Steps that all ran are followed by the next ones; steps stopped by an exception stay stopped. */
  lemma {:induction false} RunConcat<T>(a: seq<Result<seq<T>>>, b: seq<Result<seq<T>>>)
    ensures Run(a).1 == None ==> Run(a + b) == (Run(a).0 + Run(b).0, Run(b).1)
    ensures Run(a).1 != None ==> Run(a + b) == Run(a)
  {
    if a == [] {
      assert a + b == b;
      assert [] + Run(b).0 == Run(b).0;
    } else {
      assert (a + b)[0] == a[0] && (a + b)[1..] == a[1..] + b;
      RunConcat(a[1..], b);
      if a[0].Ok? {
        assert a[0].value + (Run(a[1..]).0 + Run(b).0) == (a[0].value + Run(a[1..]).0) + Run(b).0;
      }
    }
  }

  /** Taking step k after k steps that all ran. */
  lemma RunStep<T>(steps: seq<Result<seq<T>>>, k: nat)
    requires k < |steps| && Run(steps[..k]).1 == None
    ensures steps[k].Ok? ==> Run(steps[..k + 1]) == (Run(steps[..k]).0 + steps[k].value, None)
    ensures steps[k].Err? ==> Run(steps) == (Run(steps[..k]).0, Some(steps[k].error))
  {
    assert steps[..k + 1] == steps[..k] + [steps[k]];
    RunConcat(steps[..k], [steps[k]]);
    assert steps == steps[..k] + steps[k..];
    RunConcat(steps[..k], steps[k..]);
    assert steps[k..][0] == steps[k];
    assert Run(steps[..k]).0 + [] == Run(steps[..k]).0;
    if steps[k].Ok? {
      assert Run([steps[k]]) == (steps[k].value + [], None);
      assert steps[k].value + [] == steps[k].value;
    }
  }

}
