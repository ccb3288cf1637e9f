/** The optional value used for JavaScript's "maybe absent" values
    (`null` from storage, `undefined` for an unset timeout handle). */
module Wrappers {

  datatype Option<+T> = None | Some(value: T)
}
