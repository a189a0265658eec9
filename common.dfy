/** Values shared by every module of the dashboard model. */
module Common {

  datatype Option<+T> = None | Some(value: T) {
    /** Python's `d.get(k, default)` once the lookup is done. */
    function GetOr(default: T): T {
      if Some? then value else default
    }
  }

  /** The Python exception classes the core can raise. */
  datatype Exception = ValueError | KeyError | IndexError | AttributeError | OSError

  /** A computation that either returns a value or raises a Python exception. */
  datatype Result<+T> = Ok(value: T) | Raised(exc: Exception)

  /**
   * A value read from a stored record: Python `None`, an `int`, a `float`
   * (modelled exactly as a real) or a `str`.
   */
  datatype Value = Null | Int(i: int) | Float(x: real) | Text(s: string)

  /** A positive multiple of a non-negative number is at least that number. */
  lemma {:induction false} MulAtLeast(x: int, d: int)
    requires x >= 1 && d >= 0
    ensures x * d >= d
    decreases x
  {
    if x > 1 {
      MulAtLeast(x - 1, d);
      assert x * d == (x - 1) * d + d;
    }
  }
}
