/** The two-case result used where the C++ code returns a null pointer, or where its
    behaviour is undefined. */
module Options {
  datatype Option<+T> = None | Some(value: T)
}
