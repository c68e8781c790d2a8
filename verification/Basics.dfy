/** What several modules use: optional values, the larger and smaller of two reals, sizes of sets. */
module Basics {
  datatype Option<T> = None | Some(value: T)

  function Max(x: real, y: real): real {
    if x >= y then x else y
  }

  function Min(x: real, y: real): real {
    if x <= y then x else y
  }

  lemma Larger<T>(a: set<T>, b: set<T>)
    requires a <= b
    ensures |a| <= |b|
  {
    assert b == a + (b - a);
  }
}
