/** Optional values: `None` stands for a lookup past the end that the source
    checks: `std::vector::at` throws `std::out_of_range`, and `QList::at`
    fails an assertion or is undefined behaviour. */
module Wrappers {

  datatype Option<+T> = None | Some(value: T)

}
