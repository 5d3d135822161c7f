/** A table cell that may be missing: pandas' NaN / None. The constructor is
    called `Null` so that it is never confused with the four-letter string
    "None" that the cleaning code uses as an intermediate marker. */
module Nullable {

  datatype Option<+T> = Null | Some(value: T)
}
