/** An optional value: the Python `None`-or-value results of the script. */
module Wrappers {

  datatype Option<+T> = None | Some(value: T)
}
