/** Option type used for lookups that the source lets throw (a missing
    component, an index outside a list). */
module Wrappers {

  datatype Option<+T> = None | Some(value: T)

}
