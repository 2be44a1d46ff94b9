/** The optional value used wherever the server's Python code yields either a
    value or nothing (a failed `int()` parse, an unknown socket, no free id). */
module Options {

  datatype Option<+T> = None | Some(value: T)
}
