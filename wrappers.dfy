/** Optional values, for a missing calendar upload and a missing topic-bank key. */
module Wrappers {

  datatype Option<+T> = None | Some(value: T)
}
