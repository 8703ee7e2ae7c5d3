/** Optional values: a JavaScript `null`/`undefined`, a Java `null`, or an
    operation that threw and was caught. */
module Wrappers {

  datatype Option<+T> = None | Some(value: T)
}
