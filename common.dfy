/** Fixed-width integers of the Java and JavaScript sources, and the
    failure-compatible wrappers the other modules return. */
module Common {

  /** A Java `int`, and the value of a JavaScript ToInt32 conversion. */
  type int32 = x: int | -0x8000_0000 <= x < 0x8000_0000

  /** One byte of PCM data, as a character code below 256. */
  type byte = x: int | 0 <= x < 256

  /** Java `int` arithmetic (and JavaScript ToInt32): the value congruent to
      `x` modulo 2^32 in the signed 32-bit range. */
  function Wrap32(x: int): (r: int32)
    ensures (r - x) % 0x1_0000_0000 == 0
    ensures -0x8000_0000 <= x < 0x8000_0000 ==> r == x
  {
    (x + 0x8000_0000) % 0x1_0000_0000 - 0x8000_0000
  }

  datatype Option<T> = None | Some(value: T)

  datatype Result<T, E> = Ok(value: T) | Err(error: E) {
    predicate IsFailure() {
      Err?
    }

    function PropagateFailure<U>(): Result<U, E>
      requires Err?
    {
      Err(error)
    }

    function Extract(): T
      requires Ok?
    {
      value
    }
  }
}
