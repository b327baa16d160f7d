/** Small types and facts shared by the models. */
module Wrappers {

  datatype Option<+T> = None | Some(value: T)

  datatype Result<+T, +E> = Ok(value: T) | Err(error: E)

  /** One version of one registered function. */
  datatype FnKey = FnKey(id: string, version: int)

  /** A subset is no larger, and smaller unless it is the whole. */
  lemma SubsetSize<T>(a: set<T>, b: set<T>)
    requires a <= b
    ensures |a| <= |b| && (a != b ==> |a| < |b|)
  {
    assert b == a + (b - a);
    if a != b {
      assert b - a != {};
    }
  }

  function Max(a: int, b: int): int {
    if a > b then a else b
  }
}
