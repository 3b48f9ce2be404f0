/** Optional values, used for the absent/present inputs and outputs of the model. */
module Wrappers {

  datatype Option<+T> = None | Some(value: T)
}
