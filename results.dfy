/** Option and Result, used wherever the Python code raises an exception or
    returns "nothing" instead of a value. */
module Results {

  datatype Option<+T> = None | Some(value: T)

  datatype Result<+T, +E> = Ok(value: T) | Err(error: E)
}
