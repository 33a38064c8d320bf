/** Shared vocabulary: optional values, call results and the error kinds the services report. */
module Prelude {

  datatype Option<+T> = None | Some(value: T)

  /** The outcome of a service call. */
  datatype Result<+T> = Ok(value: T) | Err(error: Error)

  /** The error variants the services return; messages are not modelled. */
  datatype Error =
    | NotFound
    | BadData
    | InvalidInput
    | InvalidAccountKind
    | AlreadyArchived
    | AlreadyClosed
    | NotClosed
    | Database

  /** A day number; the calendar itself is a parameter wherever it matters. */
  type Date = int

  /** Identifiers are opaque; numbers stand for them and for their sort order. */
  type AccountId = nat
  type TagId = nat

  /** A commodity code; the number stands for the code's place in string order. */
  type Code = nat

  /** An exact decimal. */
  type Decimal = real

  function Min(a: int, b: int): int {
    if a <= b then a else b
  }

  function Max(a: int, b: int): int {
    if a >= b then a else b
  }

  function MinDecimal(a: Decimal, b: Decimal): Decimal {
    if a <= b then a else b
  }

  function MaxDecimal(a: Decimal, b: Decimal): Decimal {
    if a >= b then a else b
  }
}
