/** Shared vocabulary: 0/1 alert bits, the error kinds the library can raise,
    and a Result type for operations that raise instead of returning. */
module Base {

  /** A binary alert value, as drawn by `np.random.choice([0, 1], ...)`. */
  type Bit = b: int | 0 <= b <= 1

  /** Python's bitwise `&` restricted to 0/1 operands. */
  function And(a: Bit, b: Bit): Bit {
    if a == 1 && b == 1 then 1 else 0
  }

  /** Python's bitwise `|` restricted to 0/1 operands. */
  function Or(a: Bit, b: Bit): Bit {
    if a == 1 || b == 1 then 1 else 0
  }

  /** The exceptions the library lets escape to its caller. */
  datatype Error =
    | InvalidArgument   // numpy refuses a probability outside [0, 1] or an empty reshape
    | MissingParameter  // KeyError: a node or edge attribute was never attached
    | EmptyCandidates   // IndexError: `random.choice` on an empty candidate list
    | DivisionByZero    // ZeroDivisionError in the scoring helpers
    | EmptyGraph        // NetworkXError: the adjacency matrix of a graph with no nodes

  datatype Result<+T> = Success(value: T) | Failure(error: Error)

  datatype Outcome = Pass | Fail(error: Error)
}
