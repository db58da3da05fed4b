/** Shared vocabulary: optional values, results, bytes. */
module Basics {

  datatype Option<+T> = None | Some(value: T)

  /** A result that is threaded with `:-`; `Err` stands for the source's exceptions and error returns. */
  datatype Result<+T> = Ok(value: T) | Err {
    predicate IsFailure() { Err? }

    function PropagateFailure<U>(): Result<U>
      requires Err?
    {
      Err
    }

    function Extract(): T
      requires Ok?
    {
      value
    }
  }

  type byte = x: int | 0 <= x < 256

  type Bytes = seq<byte>

  const TWO_TO_32: int := 0x1_0000_0000
  const TWO_TO_63: int := 0x8000_0000_0000_0000
  const TWO_TO_64: int := 0x1_0000_0000_0000_0000

  /** The first `n` bytes and the rest; the source's `sublist` throws when there are fewer. */
  function Split(s: Bytes, n: nat): Result<(Bytes, Bytes)>
  {
    if |s| < n then Err else Ok((s[..n], s[n..]))
  }

  lemma SplitAppend(a: Bytes, b: Bytes)
    ensures Split(a + b, |a|) == Ok((a, b))
  {
    assert (a + b)[..|a|] == a && (a + b)[|a|..] == b;
  }
}
