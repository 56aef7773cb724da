/** The usual optional-value datatype; None stands for a Go nil (a nil map, a nil *regexp.Regexp). */
module Wrappers {

  datatype Option<+T> = None | Some(value: T)
}
