/** Small shared vocabulary: optional values, parser results and machine-integer bounds. */
module Prelude {

  datatype Option<+T> = None | Some(value: T) {
    function UnwrapOr(other: T): T { if Some? then value else other }
  }

  /** What a cursor-based reader returns: a failure, or a value and the number of bytes used. */
  datatype Read<+T> = Fail | Got(value: T, used: nat)

  type byte = x: int | 0 <= x < 256

  const TWO_31 := 0x8000_0000
  const TWO_32 := 0x1_0000_0000
  const TWO_63 := 0x8000_0000_0000_0000
  const TWO_64 := 0x1_0000_0000_0000_0000

  /**
   A question that must be put before anyone looks behind a seal: a predicate whose body stands
   under `forall q | Asked(q)` stays shut where nobody asks.
   */
  ghost predicate Asked(question: nat) { true }
}
