/** The "value or nothing" result that the collection's consumers return where the
    C# code returns `null`. */
module Wrappers {

  datatype Option<+T> = None | Some(value: T)
}
