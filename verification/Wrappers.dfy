/** The stock optional value, used wherever the source returns `std::optional` or an absent database row. */
module Wrappers {
  datatype Option<+T> = None | Some(value: T)
}
