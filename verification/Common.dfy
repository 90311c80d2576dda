/** What several components use: an optional value, and set sizes. */
module Common {

  datatype Option<T> = None | Some(value: T)

  lemma SubsetSize(x: set<int>, y: set<int>)
    requires x <= y
    ensures |x| <= |y|
  {
    assert y == x + (y - x);
  }
}
