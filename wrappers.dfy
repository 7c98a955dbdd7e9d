/** An optional value, used for the fields the source marks optional (`?:`)
    and for the nullable selection of the action panel. */
module Wrappers {

  datatype Option<+T> = None | Some(value: T)
}
