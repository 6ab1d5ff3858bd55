/**
 Machine integers and the arithmetic facts shared by every other module.

 Fields and parameters carry the widths of the program's types.  Wrapping,
 truncating, saturating and checked operations are written out explicitly;
 an operation that the program lets fail (an `Err`, a failed assertion or an
 arithmetic panic) yields `Abort`, which undoes the whole instruction.
 */
module Numbers {
  const TWO64: int := 0x1_0000_0000_0000_0000
  const TWO63: int := 0x8000_0000_0000_0000
  const TWO127: int := 0x8000_0000_0000_0000_0000_0000_0000_0000
  const TWO128: int := 0x1_0000_0000_0000_0000_0000_0000_0000_0000
  const U64_MAX: int := 0xFFFF_FFFF_FFFF_FFFF
  const I64_MAX: int := 0x7FFF_FFFF_FFFF_FFFF
  const U128_MAX: int := 0xFFFF_FFFF_FFFF_FFFF_FFFF_FFFF_FFFF_FFFF
  const I128_MAX: int := 0x7FFF_FFFF_FFFF_FFFF_FFFF_FFFF_FFFF_FFFF

  type u16 = x: int | 0 <= x < 0x1_0000
  type u32 = x: int | 0 <= x < 0x1_0000_0000
  type u64 = x: int | 0 <= x < 0x1_0000_0000_0000_0000
  type i64 = x: int | -0x8000_0000_0000_0000 <= x < 0x8000_0000_0000_0000
  type u128 = x: int | 0 <= x < 0x1_0000_0000_0000_0000_0000_0000_0000_0000
  type i128 = x: int | -0x8000_0000_0000_0000_0000_0000_0000_0000 <= x < 0x8000_0000_0000_0000_0000_0000_0000_0000

  /** The result of a step that the program may refuse. */
  datatype Outcome<+T> = Done(value: T) | Abort {
    predicate IsFailure() {
      Abort?
    }

    function PropagateFailure<U>(): Outcome<U>
      requires Abort?
    {
      Abort
    }

    function Extract(): T
      requires Done?
    {
      value
    }
  }

  function Min(x: int, y: int): int {
    if x <= y then x else y
  }

  function Max(x: int, y: int): int {
    if x >= y then x else y
  }

  function Abs(x: int): nat {
    if x < 0 then -x else x
  }

  /** Saturating subtraction on unsigned values. */
  function SatSub(x: nat, y: nat): nat {
    if y <= x then x - y else 0
  }

  function SatAddU64(x: u64, y: u64): u64 {
    Min(x + y, U64_MAX)
  }

  function SatAddU128(x: u128, y: u128): u128 {
    Min(x + y, U128_MAX)
  }

  function SatI128(x: int): i128 {
    if x > I128_MAX then I128_MAX else if x < -TWO127 then -TWO127 else x
  }

  function CheckU64(x: int): Outcome<u64> {
    if 0 <= x <= U64_MAX then Done(x) else Abort
  }

  function CheckU128(x: int): Outcome<u128> {
    if 0 <= x <= U128_MAX then Done(x) else Abort
  }

  function CheckI64(x: int): Outcome<i64> {
    if -TWO63 <= x <= I64_MAX then Done(x) else Abort
  }

  function CheckI128(x: int): Outcome<i128> {
    if -TWO127 <= x <= I128_MAX then Done(x) else Abort
  }

  function Require(condition: bool): Outcome<()> {
    if condition then Done(()) else Abort
  }

  /** The truncating conversion `x as i128`. */
  function WrapI128(x: u128): i128 {
    if x <= I128_MAX then x else x - TWO128
  }

  function CeilDiv(n: nat, d: nat): nat
    requires d > 0
  {
    if n % d == 0 then n / d else n / d + 1
  }

  // ---------------------------------------------------------------------------
  // Multiplication and division
  // ---------------------------------------------------------------------------

  lemma MulMono(x: int, y: int, z: int)
    requires x <= y && 0 <= z
    ensures x * z <= y * z && z * x <= z * y
  {
  }

  lemma MulPos(x: int, y: int)
    requires 0 <= x && 0 <= y
    ensures 0 <= x * y
  {
  }

  lemma Distribute(x: int, y: int, z: int)
    ensures (x + y) * z == x * z + y * z
  {
  }

  lemma Associate(x: int, y: int, z: int)
    ensures (x * y) * z == x * (y * z)
  {
  }

  lemma CancelLess(x: int, y: int, z: int)
    requires 0 <= z && x * z < y * z
    ensures x < y
  {
    if y <= x {
      MulMono(y, x, z);
    }
  }

  lemma DivMod(n: int, d: int)
    requires d > 0
    ensures n == (n / d) * d + n % d && 0 <= n % d < d
  {
  }

  /** The floor quotient is the only multiple of `d` within `d` below `n`. */
  lemma DivUnique(n: int, d: int, q: int)
    requires d > 0
    requires q * d <= n < q * d + d
    ensures n / d == q && n % d == n - q * d
  {
    DivMod(n, d);
    var e := n / d - q;
    assert e * d == (n / d) * d - q * d;
    assert -d < e * d < d;
    if e >= 1 { MulMono(1, e, d); }
    if e <= -1 { MulMono(e, -1, d); }
  }

  lemma DivAtMost(n: int, d: int, q: int)
    requires d > 0 && n <= q * d
    ensures n / d <= q
  {
    DivMod(n, d);
    if n / d > q {
      MulMono(q + 1, n / d, d);
    }
  }

  lemma DivAtLeast(n: int, d: int, q: int)
    requires d > 0 && q * d <= n
    ensures q <= n / d
  {
    DivMod(n, d);
    if n / d < q {
      MulMono(n / d + 1, q, d);
    }
  }

  lemma QuotientAtMost(n: nat, d: nat)
    requires d > 0
    ensures 0 <= n / d <= n
  {
    MulMono(1, d, n);
    DivAtMost(n, d, n);
    DivAtLeast(n, d, 0);
  }

  lemma CeilDivBounds(n: nat, d: nat)
    requires d > 0
    ensures CeilDiv(n, d) * d >= n
    ensures (CeilDiv(n, d) - 1) * d < n
  {
    DivMod(n, d);
  }
}
