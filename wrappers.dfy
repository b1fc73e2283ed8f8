/** Optional values: an animation that may or may not be running, a spring
    option the caller may leave to the library's default. */
module Wrappers {

  datatype Option<+T> = None | Some(value: T)
}
