/** Option and result types, and the bound of safe integers, shared by every component. */
module Results {

  datatype Option<+T> = None | Some(value: T)

  /** The greatest integer up to which a number is exact. */
  const MAX_SAFE_INTEGER := 9007199254740991

  /** The framework's error families; a command that ends in one of them has committed nothing. */
  datatype Error = BadRequest | NotFound | Conflict | Invalid

  datatype Result<+T> = Ok(value: T) | Err(error: Error)
}
