/** Optional values, used for the coordinator's optional target address and
    for an exchange with the coordinator that may fail. */
module Wrappers {

  datatype Option<+T> = None | Some(value: T)
}
