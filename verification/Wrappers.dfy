/** Results shared by the whole project: an optional value, and the outcome of a
    call that may end in one of the C++ exceptions the source throws. */
module Wrappers {

  datatype Option<+T> = None | Some(value: T)

  datatype Exception = InvalidArgument | Overflow | Logic

  datatype Outcome<+T> = Returned(value: T) | Threw(error: Exception) {
    predicate IsFailure() {
      Threw?
    }

    function PropagateFailure<U>(): Outcome<U>
      requires Threw?
    {
      Threw(error)
    }

    function Extract(): T
      requires Returned?
    {
      value
    }
  }

  const UINT64_MAX: int := 0xFFFF_FFFF_FFFF_FFFF

  type UInt64 = x: int | 0 <= x <= UINT64_MAX
}
