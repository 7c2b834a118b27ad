/** A value that may be missing: Python's None, a JSON null, or an absent
    TypeScript property. */
module Wrappers {

  datatype Option<+T> = None | Some(value: T)
}
