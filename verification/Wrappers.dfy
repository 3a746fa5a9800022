/** An optional value. */
module Wrappers {

  datatype Option<+T> = None | Some(value: T) {
    /** The value, or another one in its place. */
    function Or(other: T): T {
      if Some? then value else other
    }

    /** This, or another option when there is nothing here. */
    function Else(other: Option<T>): Option<T> {
      if Some? then this else other
    }
  }
}
