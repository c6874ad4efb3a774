/** The optional value used wherever the Go code returns a value together with
    an `error` or an `ok` flag that the caller only tests for success. */
module Optional {

  datatype Option<+T> = None | Some(value: T)
}
