/** Option and Result wrappers shared by every module of the model. */
module Base {

  /** A value that may be absent: Go's nil `*T`, nil slice or missing map entry. */
  datatype Option<+T> = None | Some(value: T) {
    function GetOr(default: T): T {
      match this
      case Some(v) => v
      case None => default
    }
  }

  /** Either a value or the error a Go function returned beside it. */
  datatype Result<+T, +E> = Ok(value: T) | Err(error: E) {
    predicate IsFailure() {
      Err?
    }

    function PropagateFailure<U>(): Result<U, E>
      requires Err?
    {
      Err(error)
    }

    function Extract(): T
      requires Ok?
    {
      value
    }
  }

  /** How a call ends: returning a value, panicking, or blocked forever (on a send onto a full channel). */
  datatype Ending<+T> = Returns(value: T) | Panics | Hangs

  /** Go's int64. */
  type Int64 = x: int | -0x8000_0000_0000_0000 <= x < 0x8000_0000_0000_0000

  /** Go's int32. */
  type Int32 = x: int | -0x8000_0000 <= x < 0x8000_0000

  /** `math.MaxInt32`. */
  const MaxInt32: Int32 := 0x7fff_ffff

  /** Two's-complement wrap-around of an unbounded integer into int64. */
  function WrapInt64(x: int): (r: Int64)
    ensures (r - x) % 0x1_0000_0000_0000_0000 == 0
    ensures -0x8000_0000_0000_0000 <= x < 0x8000_0000_0000_0000 ==> r == x
  {
    var m := (x + 0x8000_0000_0000_0000) % 0x1_0000_0000_0000_0000;
    m - 0x8000_0000_0000_0000
  }
}
