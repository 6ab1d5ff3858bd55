/**
 256-bit unsigned and two's complement arithmetic, and the multiply-divide
 helpers the risk engine calls.  A helper that panics in the program returns
 `Abort` here; the contracts say exactly when.
 */
module FixedPoint {
  import opened Numbers
  import opened Words
  import opened WideMath

  // ---------------------------------------------------------------------------
  // Unsigned 256-bit operations
  // ---------------------------------------------------------------------------

  const LIMIT256: int := 0x1_0000_0000_0000_0000_0000_0000_0000_0000_0000_0000_0000_0000_0000_0000_0000_0000

  function Add256(x: U256, y: U256): (r: Option<U256>)
    ensures r.Some? <==> x.Val() + y.Val() < LIMIT256
    ensures r.Some? ==> r.value.Val() == x.Val() + y.Val()
  {
    var (lo, carry) := AddCarry(x.lo, y.lo, false);
    var (hi, overflow) := AddCarry(x.hi, y.hi, carry);
    if overflow then None else Some(U256(lo, hi))
  }

  function Sub256(x: U256, y: U256): (r: Option<U256>)
    ensures r.Some? <==> y.Val() <= x.Val()
    ensures r.Some? ==> r.value.Val() == x.Val() - y.Val()
  {
    var (lo, borrow) := SubBorrow(x.lo, y.lo, false);
    var (hi, underflow) := SubBorrow(x.hi, y.hi, borrow);
    if underflow then None else Some(U256(lo, hi))
  }

  function Less256(x: U256, y: U256): (r: bool)
    ensures r <==> x.Val() < y.Val()
  {
    if x.hi != y.hi then x.hi < y.hi else x.lo < y.lo
  }

  lemma WordProductPositive(x: int, y: int)
    requires 0 < x && 0 < y
    ensures 0 < x * y
  {
    MulMono(1, x, y);
  }

  /** `None` exactly when the product needs more than 256 bits. */
  function CheckedMul256(x: U256, y: U256): (r: Option<U256>)
    ensures r.Some? <==> x.Val() * y.Val() < LIMIT256
    ensures r.Some? ==> r.value.Val() == x.Val() * y.Val()
  {
    MulWords(x, y);
    if x.hi != 0 && y.hi != 0 then
      WordProductPositive(x.hi, y.hi);
      MulPos(x.lo, y.lo);
      MulPos(x.lo, y.hi);
      MulPos(x.hi, y.lo);
      None
    else
      var (prodLo, prodHi) := WideningMul(x.lo, y.lo);
      var (cross1, over1) := if y.hi != 0 then WideningMul(x.lo, y.hi) else (0, 0);
      var (cross2, over2) := if x.hi != 0 then WideningMul(x.hi, y.lo) else (0, 0);
      if over1 != 0 || over2 != 0 then None
      else if prodHi + cross1 + cross2 >= TWO128 then None
      else Some(U256(prodLo, prodHi + cross1 + cross2))
  }

  lemma ShlTotal(x: u128, bits: nat)
    requires bits < 128
    ensures x * Pow2(bits) == ShlWord(x, bits) + Spill(x, bits) * TWO128
  {
    if bits > 0 {
      ShlWordSplits(x, bits);
    }
  }

  lemma ShlCarries(lo: nat, hi: nat, p: nat, sl: nat, cl: nat, sh: nat, ch: nat)
    requires lo * p == sl + cl * TWO128 && hi * p == sh + ch * TWO128
    requires sl + (sh + cl) * TWO128 < LIMIT256
    ensures ((lo + hi * TWO128) * p) % LIMIT256 == sl + (sh + cl) * TWO128
  {
    Distribute(lo, hi * TWO128, p);
    Associate(hi, TWO128, p);
    DivUnique((lo + hi * TWO128) * p, LIMIT256, ch);
  }

  lemma ShlHighWord(lo: nat, hi: nat, p: nat, sl: nat, cl: nat)
    requires lo * p == sl + cl * TWO128 && sl < TWO128
    ensures ((lo + hi * TWO128) * (p * TWO128)) % LIMIT256 == sl * TWO128
  {
    Associate(lo + hi * TWO128, p, TWO128);
    Distribute(lo, hi * TWO128, p);
    Associate(hi, TWO128, p);
    DivUnique((lo + hi * TWO128) * (p * TWO128), LIMIT256, cl + hi * p);
  }

  lemma ShlOut(v: nat, bits: nat)
    requires bits >= 256
    ensures (v * Pow2(bits)) % LIMIT256 == 0
  {
    Pow2Word();
    Pow2Add(128, 128);
    Pow2Add(bits - 256, 256);
    Associate(v, Pow2(bits - 256), LIMIT256);
    MulPos(v, Pow2(bits - 256));
    DivUnique(v * Pow2(bits), LIMIT256, v * Pow2(bits - 256));
  }

  function Shl256(x: U256, bits: nat): (r: U256)
    ensures r.Val() == (x.Val() * Pow2(bits)) % LIMIT256
  {
    hide Pow2;
    hide ShlWord;
    hide ShrWord;
    if bits >= 256 then
      ShlOut(x.Val(), bits);
      ZERO256
    else if bits == 0 then
      ShlCarries(x.lo, x.hi, 1, x.lo, 0, x.hi, 0);
      Pow2Zero();
      x
    else if bits >= 128 then
      Pow2Word();
      Pow2Add(bits - 128, 128);
      ShlTotal(x.lo, bits - 128);
      ShlHighWord(x.lo, x.hi, Pow2(bits - 128), ShlWord(x.lo, bits - 128), Spill(x.lo, bits - 128));
      U256(0, ShlWord(x.lo, bits - 128))
    else
      FunnelAdds(x.hi, x.lo, bits);
      ShlTotal(x.lo, bits);
      ShlTotal(x.hi, bits);
      ShlCarries(x.lo, x.hi, Pow2(bits), ShlWord(x.lo, bits), Spill(x.lo, bits), ShlWord(x.hi, bits),
                 Spill(x.hi, bits));
      U256(ShlWord(x.lo, bits), BitOr(ShlWord(x.hi, bits), ShrWord(x.lo, 128 - bits)))
  }

  lemma Pow2Zero()
    ensures Pow2(0) == 1
  {
  }

  lemma HalfWords(lo: u128, hi: u128, l: nat, h: nat)
    requires 2 * l + LowBits(lo, 1) == lo + LowBits(hi, 1) * TWO128
    requires hi == h * 2 + LowBits(hi, 1) && LowBits(lo, 1) < 2
    ensures l + h * TWO128 == (lo + hi * TWO128) / 2
  {
  }

  /** `x >> 1`, the only right shift that 256-bit division performs. */
  function Half256(x: U256): (r: U256)
    ensures r.Val() == x.Val() / 2
  {
    FunnelAdds(x.hi, x.lo, 127);
    FunnelRight(x.lo, x.hi, 1);
    ShrWordSplits(x.hi, 1);
    ShrWordSplits(x.lo, 1);
    Pow2One();
    HalfWords(x.lo, x.hi, ShrWord(x.lo, 1) + ShlWord(x.hi, 127), ShrWord(x.hi, 1));
    U256(OrWord(ShrWord(x.lo, 1), ShlWord(x.hi, 127)), ShrWord(x.hi, 1))
  }

  function Or256(x: U256, y: U256): U256 {
    U256(OrWord(x.lo, y.lo), OrWord(x.hi, y.hi))
  }

  lemma PowerFitsWord(n: nat)
    requires n < 128
    ensures ShlWord(1, n) == Pow2(n) && BitOr(0, 0) == 0
    ensures n > 0 ==> ShrWord(1, 128 - n) == 0 && ShlWord(0, n) == 0
  {
    Pow2Word();
    Pow2Add(n, 128 - n);
    assert Pow2(128 - n) == 2 * Pow2(127 - n);
    MulMono(2, Pow2(128 - n), Pow2(n));
    DivUnique(Pow2(n), TWO128, 0);
    DivUnique(1, Pow2(128 - n), 0);
  }

  /** Bit `n` of a 256-bit value, as the two words `1 << n` is made of. */
  lemma OneShifted(n: nat)
    requires n < 256
    ensures n < 128 ==> Shl256(ONE256, n).lo == Pow2(n) && Shl256(ONE256, n).hi == 0
    ensures n >= 128 ==> Shl256(ONE256, n).lo == 0 && Shl256(ONE256, n).hi == Pow2(n - 128)
  {
    if n == 0 {
      Pow2Zero();
    } else if n < 128 {
      PowerFitsWord(n);
    } else {
      PowerFitsWord(n - 128);
    }
  }

  function Words512(q: U256): U512 {
    [q.lo, q.hi, 0, 0]
  }

  lemma OrBitWords(q: U256, n: nat)
    requires n < 256 && LowBitsClear(Words512(q), n + 1)
    ensures SetBit(Words512(q), n) == Words512(Or256(q, Shl256(ONE256, n)))
  {
    OneShifted(n);
    hide Pow2;
    hide LowBits;
    hide LowBitsClear;
    hide Shl256;
    hide Val;
    assert BitOr(q.lo, 0) == q.lo && BitOr(q.hi, 0) == q.hi;
  }

  lemma OrBit256(q: U256, n: nat)
    requires n < 256 && LowBitsClear(Words512(q), n + 1)
    ensures Or256(q, Shl256(ONE256, n)).Val() == q.Val() + Pow2(n)
    ensures LowBitsClear(Words512(Or256(q, Shl256(ONE256, n))), n)
  {
    OrBitWords(q, n);
    Val256(q);
    Val256(Or256(q, Shl256(ONE256, n)));
    hide *;
    assert Val(SetBit(Words512(q), n)) == Val(Words512(q)) + Pow2(n);
  }

  function LeadingZeros256(x: U256): (z: nat)
    ensures z == 256 - BitLen(x.Val())
  {
    Pow2Word();
    if x.hi != 0 then
      BitLenUpper(x.hi, x.lo, 128);
      LeadingZeros(x.hi)
    else 128 + LeadingZeros(x.lo)
  }

  lemma Limit256()
    ensures Pow2(256) == LIMIT256 == Base(2)
  {
    Pow2Word();
    Pow2Add(128, 128);
    Val256(ZERO256);
  }

  lemma AlignedFits256(num: nat, den: nat, shift: nat)
    requires 0 < den <= num < Pow2(256) && shift == BitLen(num) - BitLen(den)
    ensures shift < 256 && (den * Pow2(shift)) % Pow2(256) == den * Pow2(shift)
    ensures num < den * Pow2(shift + 1)
  {
    hide Pow2;
    hide BitLen;
    AlignedDivisor(num, den);
    BitLenAtMost(num, 256);
    Pow2Mono(BitLen(num), 256);
    BitLenBounds(den);
    DivUnique(den * Pow2(shift), Pow2(256), 0);
  }

  /** Shift-subtract division of 256-bit values; the program panics on a zero divisor. */
  method DivRem256(num: U256, den: U256) returns (q: U256, r: U256)
    requires !den.IsZero()
    ensures q.Val() == num.Val() / den.Val() && r.Val() == num.Val() % den.Val()
  {
    hide Pow2;
    hide BitLen;
    hide Dividing;
    hide LowBitsClear;
    hide Shl256;
    hide Half256;
    hide Or256;
    hide Words512;
    if num.IsZero() {
      DivUnique(0, den.Val(), 0);
      return ZERO256, ZERO256;
    }
    if Less256(num, den) {
      DivUnique(num.Val(), den.Val(), 0);
      return ZERO256, num;
    }
    if num.hi == 0 && den.hi == 0 {
      DivMod(num.lo, den.lo);
      MulMono(1, den.lo, num.lo);
      DivAtMost(num.lo, den.lo, num.lo);
      return FromU128(num.lo / den.lo), FromU128(num.lo % den.lo);
    }
    BitLenMono(den.Val(), num.Val());
    var shift: nat := LeadingZeros256(den) - LeadingZeros256(num);
    Limit256();
    Val256(num);
    AlignedFits256(num.Val(), den.Val(), shift);
    var remainder, quotient, divisor := num, ZERO256, Shl256(den, shift);
    BeginDividing(num.Val(), den.Val(), divisor.Val(), shift);
    ClearStart();
    var i: int := shift;
    while i >= 0
      invariant -1 <= i <= shift
      invariant Dividing(num.Val(), den.Val(), quotient.Val(), remainder.Val(), divisor.Val(), i)
      invariant LowBitsClear(Words512(quotient), i + 1)
    {
      DivideBit(num.Val(), den.Val(), quotient.Val(), remainder.Val(), divisor.Val(), i);
      if !Less256(remainder, divisor) {
        remainder := Sub256(remainder, divisor).value;
        OrBit256(quotient, i);
        quotient := Or256(quotient, Shl256(ONE256, i));
      } else {
        StillClear(Words512(quotient), i);
      }
      divisor := Half256(divisor);
      i := i - 1;
    }
    DivideDone(num.Val(), den.Val(), quotient.Val(), remainder.Val(), divisor.Val());
    return quotient, remainder;
  }

  lemma ClearStart()
    ensures forall n :: LowBitsClear(Words512(ZERO256), n)
  {
    NoBits();
    assert Words512(ZERO256) == ZERO512;
  }

  // ---------------------------------------------------------------------------
  // Two's complement
  // ---------------------------------------------------------------------------

  const HALF256: int := 0x8000_0000_0000_0000_0000_0000_0000_0000_0000_0000_0000_0000_0000_0000_0000_0000

  datatype I256 = I256(lo: u128, hi: u128) {
    predicate IsNegative() {
      hi >= TWO127
    }

    predicate IsZero() {
      lo == 0 && hi == 0
    }

    function Val(): int {
      lo + hi * TWO128 - (if IsNegative() then LIMIT256 else 0)
    }
  }

  function AsU128(v: i128): u128 {
    if v < 0 then v + TWO128 else v
  }

  function Signed(v: i128): (r: I256)
    ensures r.Val() == v
  {
    I256(AsU128(v), if v < 0 then U128_MAX else 0)
  }

  /** `None` exactly when the value is outside the 128-bit signed range. */
  function ToI128(x: I256): (r: Option<i128>)
    ensures r.Some? <==> -TWO127 <= x.Val() <= I128_MAX
    ensures r.Some? ==> r.value == x.Val()
  {
    var signExtension := if x.lo >= TWO127 then U128_MAX else 0;
    if x.hi == signExtension then Some(WrapI128(x.lo)) else None
  }

  /** Complement and increment. */
  function Complement(x: I256): (r: U256)
    ensures x.lo != 0 || x.hi != 0 ==> r.Val() == LIMIT256 - (x.lo + x.hi * TWO128)
    ensures x.lo == 0 && x.hi == 0 ==> r == ZERO256
  {
    var (lo, carry) := OverflowingAdd(U128_MAX - x.lo, 1);
    var (hi, _) := OverflowingAdd(U128_MAX - x.hi, Bit(carry));
    U256(lo, hi)
  }

  function Negate(x: I256): (r: Option<I256>)
    ensures r.Some? <==> x.Val() != -HALF256
    ensures r.Some? ==> r.value.Val() == -x.Val()
  {
    if x.lo == 0 && x.hi == TWO127 then None
    else var c := Complement(x); Some(I256(c.lo, c.hi))
  }

  function Magnitude(x: I256): (r: U256)
    requires x.Val() != -HALF256
    ensures r.Val() == Abs(x.Val())
  {
    if x.IsNegative() then Complement(x) else U256(x.lo, x.hi)
  }

  /** `None` exactly when the sum leaves the signed 256-bit range, detected by the signs alone. */
  function AddSigned(x: I256, y: I256): (r: Option<I256>)
    ensures r.Some? <==> -HALF256 <= x.Val() + y.Val() < HALF256
    ensures r.Some? ==> r.value.Val() == x.Val() + y.Val()
  {
    var (lo, carry) := OverflowingAdd(x.lo, y.lo);
    var (hi', _) := OverflowingAdd(x.hi, y.hi);
    var (hi, _) := OverflowingAdd(hi', Bit(carry));
    var sum := I256(lo, hi);
    if x.IsNegative() == y.IsNegative() && sum.IsNegative() != x.IsNegative() then None else Some(sum)
  }

  function SubSigned(x: I256, y: I256): (r: Option<I256>)
    ensures r.Some? <==> -HALF256 <= x.Val() - y.Val() < HALF256
    ensures r.Some? ==> r.value.Val() == x.Val() - y.Val()
  {
    match Negate(y)
    case Some(n) => AddSigned(x, n)
    case None =>
      // only y == -2^255 has no negation
      var (lo, borrow) := OverflowingSub(x.lo, y.lo);
      var (hi', _) := OverflowingSub(x.hi, y.hi);
      var (hi, _) := OverflowingSub(hi', Bit(borrow));
      var difference := I256(lo, hi);
      if !x.IsNegative() && difference.IsNegative() then None else Some(difference)
  }

  // ---------------------------------------------------------------------------
  // What the multiply-divide helpers compute
  // ---------------------------------------------------------------------------

  /** `floor(a * b / d)` with a native product; panics when `d` is zero or the product overflows. */
  function MulDivFloor(a: u128, b: u128, d: u128): Outcome<u128> {
    if d == 0 then Abort
    else if a * b > U128_MAX then Abort
    else MulPos(a, b); QuotientAtMost(a * b, d); Done(a * b / d)
  }

  function MulDivCeil(a: u128, b: u128, d: u128): Outcome<u128> {
    if d == 0 then Abort
    else if a * b > U128_MAX then Abort
    else
      MulPos(a, b);
      QuotientAtMost(a * b, d);
      if a * b % d == 0 then Done(a * b / d) else DivisorAboveOne(a * b, d); Done(a * b / d + 1)
  }

  lemma DivisorAboveOne(n: nat, d: nat)
    requires d > 0 && n % d != 0
    ensures n / d + 1 <= n
  {
    var q, r := n / d, n % d;
    DivMod(n, d);
    MulMono(1, d, q);
    DivAtLeast(n, d, 0);
  }

  /** `floor(a * b / d)` through a 512-bit product; panics when `d` is zero or the quotient exceeds 128 bits. */
  function WideMulDivFloor(a: u128, b: u128, d: u128): Outcome<u128> {
    if d == 0 then Abort
    else MulPos(a, b); QuotientAtMost(a * b, d); CheckU128(a * b / d)
  }

  /** `ceil(a * b / d)`, or `None` when it exceeds the positive signed 128-bit range. */
  function CeilOrOver(a: u128, b: u128, d: u128): (r: Option<u128>)
    requires d > 0
  {
    MulPos(a, b);
    var c := CeilDiv(a * b, d);
    QuotientAtMost(a * b, d);
    if c <= I128_MAX then Some(c) else None
  }

  /**
   The K-difference settlement: the mathematical floor of `basis * (kNow - kThen) / den`.
   It aborts only on a zero denominator or when the magnitude exceeds the signed range.
   */
  function KPairFloor(basis: u128, kNow: i128, kThen: i128, den: u128): Outcome<i128> {
    if den == 0 then Abort
    else
      var q := (basis * (kNow - kThen)) / den;
      if -I128_MAX <= q <= I128_MAX then Done(q) else Abort
  }

  /** `a * b` for an unsigned and a signed factor; an error when the magnitude exceeds the signed range. */
  function MulSigned(a: u128, b: i128): Outcome<i128> {
    if a == 0 || b == 0 then Done(0)
    else if b == -TWO127 then Abort
    else if -I128_MAX <= a * b <= I128_MAX then Done(a * b)
    else Abort
  }

  function SatMul(a: u128, b: u64): u128 {
    MulPos(a, b);
    Min(a * b, U128_MAX)
  }

  /** The debt that negative fee credits stand for. */
  function FeeDebt(feeCredits: i128): u128 {
    if feeCredits < 0 then Abs(feeCredits) else 0
  }

  // ---------------------------------------------------------------------------
  // How they compute it
  // ---------------------------------------------------------------------------

  lemma WideProductFits(a: U256, b: U256)
    requires a.hi == 0 && b.hi == 0
    ensures 0 <= a.Val() * b.Val() <= LIMIT256 - 2 * TWO128 + 1
  {
    MulMono(a.lo, U128_MAX, b.lo);
    MulMono(b.lo, U128_MAX, U128_MAX);
    MulPos(a.lo, b.lo);
  }

  /** `(a * b) / d` and its remainder through the 512-bit product; refused for a zero divisor or a wider quotient. */
  method MulDivRem(a: U256, b: U256, d: U256) returns (r: Outcome<(U256, U256)>)
    ensures r.Done? <==> !d.IsZero() && (a.Val() * b.Val()) / d.Val() < LIMIT256
    ensures r.Done? ==> r.value.0.Val() == (a.Val() * b.Val()) / d.Val()
    ensures r.Done? ==> r.value.1.Val() == (a.Val() * b.Val()) % d.Val()
  {
    if d.IsZero() {
      return Abort;
    }
    Limit256();
    hide Val;
    hide Base;
    hide Pow2;
    var product := Mul256(a, b);
    var result := CheckedDivRem(product, d);
    r := if result.Some? then Done(result.value) else Abort;
  }

  /** The same rounded up, which can exceed 256 bits once more. */
  method MulDivCeilOf(a: U256, b: U256, d: U256) returns (r: Outcome<U256>)
    ensures r.Done? <==> !d.IsZero() && CeilDiv(a.Val() * b.Val(), d.Val()) < LIMIT256
    ensures r.Done? ==> r.value.Val() == CeilDiv(a.Val() * b.Val(), d.Val())
  {
    var quotient := MulDivRem(a, b, d);
    if quotient.Abort? {
      return Abort;
    }
    var (q, rem) := quotient.value;
    if rem.IsZero() {
      return Done(q);
    }
    var up := Add256(q, ONE256);
    r := if up.Some? then Done(up.value) else Abort;
  }

  /** For 128-bit factors nothing is refused. */
  method MulDivRemNarrow(a: u128, b: u128, d: u128) returns (q: U256, r: U256)
    requires d > 0
    ensures q.Val() == (a * b) / d && r.Val() == (a * b) % d
  {
    WideProductFits(FromU128(a), FromU128(b));
    QuotientAtMost(a * b, d);
    var result := MulDivRem(FromU128(a), FromU128(b), FromU128(d));
    q, r := result.value.0, result.value.1;
  }

  method ComputeWideMulDivFloor(a: u128, b: u128, d: u128) returns (r: Outcome<u128>)
    ensures r == WideMulDivFloor(a, b, d)
  {
    if d == 0 {
      return Abort;
    }
    var q, _ := MulDivRemNarrow(a, b, d);
    r := if q.ToU128().Some? then Done(q.ToU128().value) else Abort;
  }

  method ComputeCeilOrOver(a: u128, b: u128, d: u128) returns (r: Option<u128>)
    requires d > 0
    ensures r == CeilOrOver(a, b, d)
  {
    var q, rem := MulDivRemNarrow(a, b, d);
    WideProductFits(FromU128(a), FromU128(b));
    QuotientAtMost(a * b, d);
    var c := if rem.IsZero() then q else Add256(q, ONE256).value;
    r := if c.ToU128().Some? && c.lo <= I128_MAX then Some(c.lo) else None;
  }

  /** `ceil(n / d)` of 256-bit values. */
  method ComputeCeilDiv(n: U256, d: U256) returns (r: Outcome<U256>)
    ensures r.Abort? <==> d.IsZero()
    ensures r.Done? ==> r.value.Val() == CeilDiv(n.Val(), d.Val())
  {
    if d.IsZero() {
      return Abort;
    }
    var q, rem := DivRem256(n, d);
    QuotientAtMost(n.Val(), d.Val());
    if rem.IsZero() {
      return Done(q);
    }
    DivisorAboveOne(n.Val(), d.Val());
    Val256(n);
    return Done(Add256(q, ONE256).value);
  }

  /** Dividing the magnitude and rounding it up is the floor of the negative quotient. */
  lemma NegativeFloor(n: nat, d: nat)
    requires d > 0
    ensures (0 - n) / d == 0 - CeilDiv(n, d)
  {
    DivMod(n, d);
    var m: int := 0 - n;
    DivUnique(m, d, 0 - CeilDiv(n, d));
  }

  /** The floor of a signed K difference, from the quotient of its magnitude. */
  lemma KPairByMagnitude(basis: u128, kNow: i128, kThen: i128, den: u128, p: nat)
    requires den > 0 && p == basis * Abs(kNow - kThen)
    ensures KPairFloor(basis, kNow, kThen, den)
         == if kNow < kThen then (if CeilDiv(p, den) <= I128_MAX then Done(0 - CeilDiv(p, den)) else Abort)
            else (if p / den <= I128_MAX then Done(p / den) else Abort)
  {
    QuotientAtMost(p, den);
    if kNow < kThen {
      assert basis * (kNow - kThen) == 0 - p;
      NegativeFloor(p, den);
    }
  }

  lemma KProductFits(basis: u128, d: nat)
    requires d < TWO128
    ensures 0 <= basis * d < LIMIT256
  {
    MulMono(basis, U128_MAX, d);
    MulMono(d, U128_MAX, U128_MAX);
    MulPos(basis, d);
  }

  function NonNegativeI128(x: U256): (r: Outcome<i128>)
    ensures r == if x.Val() <= I128_MAX then Done(x.Val()) else Abort
  {
    if x.ToU128().Some? && x.lo <= I128_MAX then Done(x.lo) else Abort
  }

  method ComputeKPairFloor(basis: u128, kNow: i128, kThen: i128, den: u128) returns (r: Outcome<i128>)
    ensures r == KPairFloor(basis, kNow, kThen, den)
  {
    hide SubSigned;
    hide Magnitude;
    hide CheckedMul256;
    hide Add256;
    hide NonNegativeI128;
    if den == 0 {
      return Abort;
    }
    var d := SubSigned(Signed(kNow), Signed(kThen)).value;
    assert d.Val() == kNow - kThen;
    if d.IsZero() || basis == 0 {
      DivUnique(0, den, 0);
      return Done(0);
    }
    var absD := Magnitude(d);
    KProductFits(basis, absD.Val());
    hide KPairFloor;
    KPairByMagnitude(basis, kNow, kThen, den, basis * absD.Val());
    var p := CheckedMul256(FromU128(basis), absD).value;
    var q, rem := DivRem256(p, FromU128(den));
    QuotientAtMost(p.Val(), den);
    if d.IsNegative() {
      var mag := if rem.IsZero() then q else Add256(q, ONE256).value;
      var m :- NonNegativeI128(mag);
      return Done(0 - m);
    }
    return NonNegativeI128(q);
  }

  method ComputeMulSigned(a: u128, b: i128) returns (r: Outcome<i128>)
    ensures r == MulSigned(a, b)
  {
    if a == 0 || b == 0 {
      return Done(0);
    }
    if b == -TWO127 {
      return Abort;
    }
    SignedProduct(a, b);
    KProductFits(a, Abs(b));
    var product := CheckedMul256(FromU128(a), FromU128(Abs(b))).value;
    var v :- NonNegativeI128(product);
    return Done(if b < 0 then 0 - v else v);
  }

  lemma SignedProduct(a: u128, b: i128)
    ensures a * Abs(b) == if b < 0 then 0 - a * b else a * b
    ensures b < 0 ==> a * b <= 0
    ensures b >= 0 ==> a * b >= 0
  {
    MulPos(a, Abs(b));
  }
}
