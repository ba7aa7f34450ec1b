/**
 * Optional values: a JavaScript value that may be absent (`undefined`, or
 * `null` where the source uses it).
 */
module Wrappers {

  datatype Option<+T> = None | Some(value: T)
}
