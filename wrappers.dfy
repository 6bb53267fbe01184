/** Optional values: `None` stands for JavaScript's `undefined` (a missing cell,
    a failed lookup) or for `NaN` (a number that did not parse). */
module Wrappers {

  datatype Option<+T> = None | Some(value: T)
}
