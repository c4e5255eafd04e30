/** The optional value used for the source's nullable strings and for `Optional<BaseCommand>`. */
module Wrappers {

  datatype Option<+T> = None | Some(value: T)

}
