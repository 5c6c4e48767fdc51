/** The optional value, for a C pointer that may be NULL or a step that may
    yield nothing. */
module Optional {
  datatype Option<T> = None | Some(value: T)
}
