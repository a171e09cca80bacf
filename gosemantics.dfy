/** Go's value types and failure behaviour, as the node layer relies on them. */
module GoSemantics {

  /** Go's `byte`, `uint16` and `uint64`. */
  type byte = x: int | 0 <= x < 0x100
  type u16 = x: int | 0 <= x < 0x1_0000
  type u64 = x: int | 0 <= x < 0x1_0000_0000_0000_0000

  /**
   * The value a Go `uint16` expression takes when its exact value is `x`:
   * arithmetic wraps around, adding or removing whole turns of 2^16.
   */
  function Wrap16(x: int): u16
    decreases if x < 0 then -x else 0, if x < 0x1_0000 then 0 else x
  {
    if 0 <= x < 0x1_0000 then x
    else if x < 0 then Wrap16(x + 0x1_0000)
    else Wrap16(x - 0x1_0000)
  }

  /** Wrap16 is reduction modulo 2^16. */
  lemma {:induction false} Wrap16IsMod(x: int)
    ensures Wrap16(x) == x % 0x1_0000
    decreases if x < 0 then -x else 0, if x < 0x1_0000 then 0 else x
  {
    if x < 0 {
      Wrap16IsMod(x + 0x1_0000);
    } else if x >= 0x1_0000 {
      Wrap16IsMod(x - 0x1_0000);
    }
  }

  /** Why a Go call panics: an explicit "Index out of bounds" check, or the runtime's slice bounds check. */
  datatype Fault = IndexOutOfBounds | SliceOutOfRange

  /** The outcome of a Go call that either returns a value or panics. */
  datatype Result<T> = Ok(value: T) | Panic(fault: Fault) {
    predicate IsFailure() {
      Panic?
    }

    function PropagateFailure<U>(): Result<U>
      requires Panic?
    {
      Panic(fault)
    }

    function Extract(): T
      requires Ok?
    {
      value
    }
  }
}
