/** The optional value used for the nullable `published_at` column. */
module Wrappers {

  datatype Option<+T> = None | Some(value: T)
}
