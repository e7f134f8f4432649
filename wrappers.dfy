/** The optional value returned by the parsers of the model (JSON decoding, date parsing). */
module Wrappers {

  datatype Option<+T> = None | Some(value: T)
}
