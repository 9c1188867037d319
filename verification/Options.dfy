/** A value that may be absent: JavaScript's null and undefined, where the program tells neither apart. */
module Options {

  datatype Option<+T> = None | Some(value: T)
}
