/** The conventional optional value, used for environment variables that may be
    unset and for the result of decoding a notification message. */
module Wrappers {
  datatype Option<+T> = None | Some(value: T)
}
