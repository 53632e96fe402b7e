/** The source's `std::optional`. */
module Options {

  datatype Option<+T> = None | Some(value: T) {
    /** `value_or` of the source. */
    function Or(default: T): T {
      if Some? then value else default
    }
  }
}
