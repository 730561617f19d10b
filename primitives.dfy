/** Value types shared by the entities and the wire records of the game store. */
module Primitives {

  /** A value that may be absent: a nullable reference in the service. */
  datatype Option<+T> = None | Some(value: T)

  /** The service's `int`: a 32-bit signed integer. No operation of the core does
      arithmetic on it, so only its range is modelled. */
  newtype Int32 = x: int | -0x8000_0000 <= x < 0x8000_0000

  /** A calendar date (`DateOnly`), kept as its three components. No operation of
      the core inspects a date, so calendar validity is not modelled. */
  datatype Date = Date(year: int, month: int, day: int)

  /** Prices are `decimal`, an exact base-10 number; they are modelled as `real`
      so that `59.99` is exactly 59.99 and never rounded. */
  type Price = real
}
