/**
 * The fixed-width integer types of the Go program: ports are `uint32`,
 * process ids `int32` and byte counters `uint64`. Go's unsigned
 * arithmetic wraps modulo 2^64; the two operations below write that out.
 */
module MachineInts {

  const TWO_32: int := 0x1_0000_0000
  const TWO_64: int := 0x1_0000_0000_0000_0000

  newtype uint32 = x: int | 0 <= x < 0x1_0000_0000
  newtype int32 = x: int | -0x8000_0000 <= x < 0x8000_0000
  newtype uint64 = x: int | 0 <= x < 0x1_0000_0000_0000_0000

  /** Go's `a - b` on two `uint64` values. */
  function Sub64(a: uint64, b: uint64): (r: uint64)
    ensures b <= a ==> r as int == a as int - b as int
    ensures a < b ==> r as int == a as int - b as int + TWO_64
  {
    ((a as int - b as int) % TWO_64) as uint64
  }

  /** Go's `a + b` on two `uint64` values. */
  function Add64(a: uint64, b: uint64): (r: uint64)
    ensures a as int + b as int < TWO_64 ==> r as int == a as int + b as int
    ensures TWO_64 <= a as int + b as int ==> r as int == a as int + b as int - TWO_64
  {
    ((a as int + b as int) % TWO_64) as uint64
  }

  /** Adding back a wrapped difference restores the minuend. */
  lemma AddSub64(a: uint64, b: uint64)
    ensures Add64(b, Sub64(a, b)) == a
  {
    var d := Sub64(a, b);
    if b <= a {
      assert b as int + d as int == a as int;
    } else {
      assert b as int + d as int == a as int + TWO_64;
    }
  }
}
