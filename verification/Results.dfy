// The two result types the modules share: an optional value, and a value or
// the error the program raises.
module Results {
  datatype Option<+T> = None | Some(value: T)

  datatype Result<+T, +E> = Ok(value: T) | Err(error: E)
}
