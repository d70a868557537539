/** What the modules assume of the machine. */
module Machine {
  /** An unsigned char. */
  type byte = x: int | 0 <= x < 256

  /** sizeof(union align), the unit of alignment. */
  const UNIT: nat := 16

  /** n rounded up to an alignment boundary. */
  function RoundUp(n: nat): (r: nat)
    ensures r % UNIT == 0 && n <= r < n + UNIT
  {
    ((n + UNIT - 1) / UNIT) * UNIT
  }

  function Min(a: nat, b: nat): nat { if a < b then a else b }

  function Max(a: nat, b: nat): nat { if a < b then b else a }
}
