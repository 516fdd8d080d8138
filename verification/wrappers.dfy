/** Option, the model of a string or assembly reference that may be null (listener payloads themselves are never null here). */
module Wrappers {

  datatype Option<+T> = None | Some(value: T)
}
