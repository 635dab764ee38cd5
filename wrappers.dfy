/** Optional values: a daily ephemeris sample that the provider left masked
    (a NaN in the source) is `None`. */
module Wrappers {

  datatype Option<+T> = None | Some(value: T)

}
