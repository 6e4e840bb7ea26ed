/** The optional-value type used for SPARQL cells that may be unbound and for
    lookups that may fail. */
module Wrappers {

  datatype Option<+T> = None | Some(value: T)
}
