/** The "value or nothing" result the game logic returns where the source returns `null`. */
module Wrappers {

  datatype Option<+T> = None | Some(value: T)
}
