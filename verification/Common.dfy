/** The option type shared by the modules. */
module Common {

  datatype Option<+T> = None | Some(value: T)
}
