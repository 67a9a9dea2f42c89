/** The "may be absent" wrapper used for dataframe columns that have not been
    computed yet and for attributes that still hold None. */
module Wrappers {
  datatype Option<+T> = None | Some(value: T)
}
