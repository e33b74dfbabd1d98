/** The optional-value datatype used for the winner slot and for the optional
    fields of an imported document. */
module Wrappers {

  datatype Option<+T> = None | Some(value: T)
}
