/** What several modules need. */
module Common {

  datatype Option<T> = None | Some(value: T)
}
