/** The optional values of JavaScript: a key that may be absent, a state slot that may be null. */
module Optional {

  datatype Option<+T> = None | Some(value: T)
}
