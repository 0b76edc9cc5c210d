/** Kotlin's 32-bit `Int`, as far as the game session uses it: the score is
    advanced with `Int.plus` and the round counter with `Int.inc`, both of
    which wrap around in two's complement instead of failing on overflow. */
module KotlinInt {

  const MIN_VALUE: int := -0x8000_0000
  const MAX_VALUE: int := 0x7fff_ffff

  /** The number of distinct `Int` values; wrap-around is modulo this. */
  const MODULUS: int := 0x1_0000_0000

  newtype Int32 = x: int | -0x8000_0000 <= x <= 0x7fff_ffff

  /** `a.plus(b)`: the mathematical sum when it fits, otherwise the sum
      shifted by one full turn of 2^32 back into range. */
  function Plus(a: Int32, b: Int32): (r: Int32)
    ensures MIN_VALUE <= a as int + b as int <= MAX_VALUE ==> r as int == a as int + b as int
    ensures a as int + b as int > MAX_VALUE ==> r as int == a as int + b as int - MODULUS
    ensures a as int + b as int < MIN_VALUE ==> r as int == a as int + b as int + MODULUS
  {
    ((a as int + b as int - MIN_VALUE) % MODULUS + MIN_VALUE) as Int32
  }

  /** `a.inc()`: the successor, except that `MAX_VALUE` wraps to
      `MIN_VALUE`. */
  function Inc(a: Int32): (r: Int32)
    ensures a as int < MAX_VALUE ==> r as int == a as int + 1
    ensures a as int == MAX_VALUE ==> r as int == MIN_VALUE
  {
    Plus(a, 1)
  }
}
