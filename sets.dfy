/** Helpers for iterating over Dafny sets in an unspecified order, as Go ranges over a map. */
module Sets {
  /** A witness for a non-empty set. */
  lemma SomeElement<T>(s: set<T>) returns (x: T)
    requires s != {}
    ensures x in s
  {
    x :| x in s;
  }
}
