/** The optional value used where the source returns a found record or nothing. */
module Options {

  datatype Option<T> = None | Some(value: T)
}
