/** Absent-or-present values, used for optional cookies, optional JWT claims
    and for the results of calls that may throw. */
module Wrappers {

  datatype Option<+T> = None | Some(value: T)

}
