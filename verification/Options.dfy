/** The optional value every partial operation of the model returns: `None` stands for an error
    return in the worker and for a panic, which reverts the whole call, in the contracts. */
module Options {

  datatype Option<+T> = None | Some(value: T) {
    function GetOr(default: T): T {
      if Some? then value else default
    }
  }

  /** How a method answers for a partial operation `r`: `ok` exactly when it is defined, and the state it
      gives, or the old one. */
  ghost predicate Did<T>(ok: bool, before: T, r: Option<T>, after: T) {
    ok == r.Some? && after == r.GetOr(before)
  }
}
