/** Types that several parts of the model share. */
module Common {

  /** A value, or none; usable with `:-`. */
  datatype Option<T> = None | Some(value: T) {
    predicate IsFailure() {
      None?
    }

    function PropagateFailure<U>(): Option<U>
      requires IsFailure()
    {
      None
    }

    function Extract(): T
      requires !IsFailure()
    {
      value
    }
  }

  type Byte = b: int | 0 <= b < 256
}
