/** Optional values, used wherever the engine returns "nothing" (a nil LuaRef,
    a null pointer, a field that was never set). */
module Wrappers {

  datatype Option<+T> = None | Some(value: T)
}
