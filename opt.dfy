/** Optional values: a field of the session record that has not been answered yet,
    or a line that yields no entry. */
module Opt {

  datatype Option<T> = None | Some(value: T)
}
