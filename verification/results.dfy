/** Values for operations that may have no answer (`null`, `NaN`) or may fail (a rejected promise). */
module Results {

  datatype Option<+T> = None | Some(value: T)

  datatype Result<+T, +E> = Ok(value: T) | Err(error: E)
}
