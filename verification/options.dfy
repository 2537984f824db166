/** The optional value used for results of library calls that may fail. */
module Options {

  datatype Option<+T> = None | Some(value: T)

}
