/** Small shared vocabulary: an optional value and an integer minimum. */
module Common {

  /** A value that may be absent (JavaScript `undefined`, an empty file list, a failed parse). */
  datatype Option<+T> = None | Some(value: T)

  function Min(a: int, b: int): (m: int)
    ensures m <= a && m <= b
    ensures m == a || m == b
  {
    if a <= b then a else b
  }
}
