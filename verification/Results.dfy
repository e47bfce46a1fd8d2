module Results {
  datatype Option<+T> = None | Some(value: T)

  datatype Result<+T, +E> = Ok(value: T) | Err(error: E) {
    function Then<U>(f: T -> Result<U, E>): Result<U, E> {
      match this
      case Ok(value) => f(value)
      case Err(error) => Err(error)
    }
  }
}
