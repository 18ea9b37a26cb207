/** Small helpers that belong to no part of the program. */
module Wrappers {

  /** Used where the source reports "no value" through a bool result. */
  datatype Option<+T> = None | Some(value: T)

  /** Some element: how an iteration whose order is unspecified, or irrelevant, goes on. */
  method Pick<T(==)>(s: set<T>) returns (x: T)
    requires s != {}
    ensures x in s
  {
    x :| x in s;
  }
}
