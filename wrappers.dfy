/** The optional value used wherever the scripts return "nothing" (a missing
    file, a line that does not match the manifest grammar). */
module Wrappers {
  datatype Option<+T> = None | Some(value: T)
}
