/** The conventional optional-value datatype; `None` stands for Python's `None`. */
module Wrappers {

  datatype Option<+T> = None | Some(value: T)

  /** The list of at most one element held by an optional value. */
  function ToSeq<T>(o: Option<T>): (s: seq<T>)
    ensures |s| <= 1
    ensures o.None? <==> s == []
    ensures o.Some? ==> s == [o.value]
  {
    match o
    case None => []
    case Some(v) => [v]
  }
}
