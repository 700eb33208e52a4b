/** The optional value of std::optional and of a nullable coroutine handle. */
module Options {
  datatype Option<+T> = None | Some(value: T)
}
