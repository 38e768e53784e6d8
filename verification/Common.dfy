/** Types shared by the modules of the session manager and of the TOML reader. */
module Common {

  datatype Option<+T> = None | Some(value: T)

  datatype Result<+T, +E> = Ok(value: T) | Err(error: E) {
    predicate IsFailure() {
      Err?
    }

    function PropagateFailure<U>(): Result<U, E>
      requires Err?
    {
      Err(error)
    }

    function Extract(): T
      requires Ok?
    {
      value
    }
  }

  datatype Outcome<+E> = Pass | Fail(error: E) {
    predicate IsFailure() {
      Fail?
    }

    function PropagateFailure(): Outcome<E>
      requires Fail?
    {
      this
    }
  }

  const GUINT_RANGE := 0x1_0000_0000

  /** An unsigned 32-bit integer of the C code. */
  type guint = x: int | 0 <= x < GUINT_RANGE

  /** Unsigned 32-bit subtraction: wraps below zero. */
  function Minus(a: guint, b: guint): guint {
    (a - b) % GUINT_RANGE
  }

  /** The conversion of a non-negative 64-bit value to an unsigned 32-bit one. */
  function ToGuint(n: nat): guint {
    n % GUINT_RANGE
  }

  type byte = x: int | 0 <= x < 0x100

  lemma MinusWraps(a: guint, b: guint)
    ensures b <= a ==> Minus(a, b) == a - b
    ensures a < b ==> Minus(a, b) == GUINT_RANGE + a - b
  {
    if a < b {
      assert (a - b + GUINT_RANGE) % GUINT_RANGE == (a - b) % GUINT_RANGE;
    }
  }
}
