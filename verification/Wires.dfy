/** Pulled-up wires shared by two ends. */
module Wires {

  /** What one side does to a wire; a gpio set to input leaves it Free. */
  datatype Wire = Free | Low | High

  /** A wire reads high unless an end pulls it low. */
  function Level(a: Wire, b: Wire): bool { a != Low && b != Low }

  /** Both ends drive the wire. */
  predicate Clash(a: Wire, b: Wire) { a != Free && b != Free }
}
