/** Result types shared by the modules of this project. */
module Prelude {

  datatype Option<+T> = None | Some(value: T)

  /** A value or a reason-free refusal: the source's error texts are not modelled. */
  datatype Result<+T> = Ok(value: T) | Err
}
