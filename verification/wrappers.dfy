/** The Some/None datatype standing in for the source's nullable pointers
    (`std::unique_ptr` results that may be `nullptr`). */
module Wrappers {

  datatype Option<+T> = None | Some(value: T)
}
