/** The optional value used for the filter's baseline (C#'s Nullable<Vector2>). */
module Wrappers {

  datatype Option<+T> = None | Some(value: T)
}
