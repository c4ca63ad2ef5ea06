/** An optional value: a C# reference that may be null, a call that may not
    be made, or a result that may be absent. */
module Wrappers {

  datatype Option<+T> = None | Some(value: T)
}
