/** The optional value used wherever the program may fail to produce a value
    (a number that does not parse, a line that carries no coordinates). */
module Wrappers {

  datatype Option<+T> = None | Some(value: T)
}
