/** Values that may be absent: a nullable column, or a query that finds no row. */
module Options {
  datatype Option<+T> = None | Some(value: T)

  lemma AnyOf<T>(ids: set<T>) returns (x: T)
    requires ids != {}
    ensures x in ids
  {
    x :| x in ids;
  }
}
