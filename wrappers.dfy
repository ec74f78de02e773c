/** Optional values: an absent DOM element, an absent attribute. */
module Wrappers {

  datatype Option<+T> = None | Some(value: T)

}
