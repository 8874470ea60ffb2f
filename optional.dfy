/** A value that may be missing: a foreign key left NULL, a lookup that found
    no row, a form field that was not posted. */
module Optional {

  datatype Option<+T> = None | Some(value: T) {

    /** Python's `a or b` on a model instance: `a` unless it is missing */
    function Or(other: Option<T>): Option<T> {
      if Some? then this else other
    }
  }
}
