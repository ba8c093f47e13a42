/** An optional value, for the places where the script has "nothing" as an answer. */
module Optional {
  datatype Option<T> = None | Some(value: T)
}
