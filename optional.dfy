/** An optional value, for the places where the Python code returns nothing or raises. */
module Optional {
  datatype Option<T> = None | Some(value: T)
}
