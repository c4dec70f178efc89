/** Optional and failing values, shared by the other modules. */
module Wrappers {

  datatype Option<+T> = None | Some(value: T) {
    function UnwrapOr(default: T): T {
      match this
      case Some(v) => v
      case None => default
    }
  }

  /** Error classes of the source; message texts are not modelled. */
  datatype Error = Validation | NotFound | Internal

  datatype Result<+T, +E> = Ok(value: T) | Err(error: E)
}
