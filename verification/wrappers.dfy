/** A missing value: pandas' NaN and Python's None are both `None` here. */
module Wrappers {

  datatype Option<+T> = None | Some(value: T)
}
