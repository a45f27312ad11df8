/** The optional value used where the game keeps `null`: an empty square,
    the missing location of the first history entry, "no winner". */
module Wrappers {

  datatype Option<+T> = None | Some(value: T)
}
