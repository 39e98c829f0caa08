/** The optional value used for empty grid cells, an absent selection and an
    image that has not been loaded yet (`null` in the application). */
module Wrappers {

  datatype Option<+T> = None | Some(value: T)
}
