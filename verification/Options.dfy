/** The small value types every other module shares. */
module Options {

  datatype Option<+T> = None | Some(value: T)

  /** No element occurs twice; the source compares `len(xs)` with `len(set(xs))`. */
  ghost predicate Distinct<T>(xs: seq<T>) {
    forall i, j :: 0 <= i < j < |xs| ==> xs[i] != xs[j]
  }
}
