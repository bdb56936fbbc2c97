/** Byte strings and the two failure-carrying datatypes every other module uses. */
module Common {

  type Byte = x: int | 0 <= x < 256

  type Bytes = seq<Byte>

  datatype Option<+T> = None | Some(value: T)

  datatype Result<+T, +E> = Ok(value: T) | Err(error: E)

  lemma {:induction false} Assoc<T>(a: seq<T>, b: seq<T>, c: seq<T>)
    ensures (a + b) + c == a + (b + c)
  {
  }

  /** Go's `uint64` and `int` lengths: every length in the modelled code stays below this. */
  const TWO64: nat := 0x1_0000_0000_0000_0000
}
