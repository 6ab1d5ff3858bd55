/**
 Single 128-bit words: shifts, bitwise or, bit lengths, carries and the full
 product of two words, each verified against the integers they denote.
 */
module Words {
  import opened Numbers

  // ---------------------------------------------------------------------------
  // Powers of two, shifts and bitwise or
  // ---------------------------------------------------------------------------

  function Pow2(n: nat): (p: nat)
    ensures p > 0
  {
    if n == 0 then 1 else 2 * Pow2(n - 1)
  }

  lemma {:induction false} Pow2Add(m: nat, n: nat)
    ensures Pow2(m + n) == Pow2(m) * Pow2(n)
  {
    if m > 0 {
      Pow2Add(m - 1, n);
      assert Pow2(m + n) == 2 * (Pow2(m - 1) * Pow2(n));
      assert 2 * (Pow2(m - 1) * Pow2(n)) == (2 * Pow2(m - 1)) * Pow2(n);
    }
  }

  lemma {:induction false} Pow2Mono(m: nat, n: nat)
    requires m <= n
    ensures Pow2(m) <= Pow2(n)
  {
    Pow2Add(m, n - m);
    MulMono(1, Pow2(n - m), Pow2(m));
  }

  /** `v` is `2^n`; a relation, so that large literal powers are never computed by unfolding. */
  predicate IsPow2(n: nat, v: nat) {
    Pow2(n) == v
  }

  lemma Pow2Double(n: nat, m: nat, v: nat)
    requires IsPow2(n, v) && m == n + n
    ensures IsPow2(m, v * v)
  {
    Pow2Add(n, n);
  }

  lemma Pow2Word()
    ensures IsPow2(128, TWO128)
  {
    assert IsPow2(4, 16);
    Pow2Double(4, 8, 16);
    Pow2Double(8, 16, 0x100);
    Pow2Double(16, 32, 0x1_0000);
    Pow2Double(32, 64, 0x1_0000_0000);
    Pow2Double(64, 128, TWO64);
  }

  /** `a | b` on naturals, bit by bit. */
  function BitOr(a: nat, b: nat): nat {
    if a == 0 then b
    else if b == 0 then a
    else 2 * BitOr(a / 2, b / 2) + Max(a % 2, b % 2)
  }

  /** Or-ing a value into the zero low bits of another one adds them. */
  lemma {:induction false} BitOrAdds(h: nat, b: nat, k: nat)
    requires b < Pow2(k)
    ensures BitOr(h * Pow2(k), b) == BitOr(b, h * Pow2(k)) == h * Pow2(k) + b
  {
    if h > 0 && b > 0 {
      var m := h * Pow2(k - 1);
      assert h * Pow2(k) == 2 * m;
      MulMono(1, h, Pow2(k - 1));
      BitOrAdds(h, b / 2, k - 1);
      assert BitOr(2 * m, b) == 2 * BitOr(m, b / 2) + b % 2;
    }
  }

  lemma {:induction false} BitOrBound(a: nat, b: nat, k: nat)
    requires a < Pow2(k) && b < Pow2(k)
    ensures BitOr(a, b) < Pow2(k)
  {
    if a > 0 && b > 0 {
      BitOrBound(a / 2, b / 2, k - 1);
    }
  }

  /** `a | b` of two words. */
  function OrWord(a: u128, b: u128): (r: u128)
    ensures r == BitOr(a, b)
  {
    Pow2Word();
    BitOrBound(a, b, 128);
    BitOr(a, b)
  }

  /** `x << bits` in a word, dropping the bits that leave it. */
  function ShlWord(x: u128, bits: nat): (r: u128)
    requires bits < 128
  {
    (x * Pow2(bits)) % TWO128
  }

  function ShrWord(x: u128, bits: nat): (r: u128)
    requires bits < 128
  {
    QuotientAtMost(x, Pow2(bits));
    x / Pow2(bits)
  }

  lemma ScaleQuotient(x: nat, p: nat, q: nat, h: nat, l: nat)
    requires x == h * q + l
    ensures x * p == h * (p * q) + l * p
  {
    Distribute(h * q, l, p);
    Associate(h, q, p);
  }

  lemma MulDivCancel(x: nat, p: nat, q: nat)
    requires p > 0 && q > 0
    ensures 0 < p * q
    ensures (x * p) / (p * q) == x / q
    ensures (x * p) % (p * q) == (x % q) * p
    ensures (x % q) * p <= p * q - p
  {
    DivMod(x, q);
    ScaleQuotient(x, p, q, x / q, x % q);
    MulMono(1, p, q);
    MulMono(x % q, q - 1, p);
    Distribute(q, -1, p);
    DivUnique(x * p, p * q, x / q);
  }

  function LowBits(x: nat, bits: nat): nat {
    x % Pow2(bits)
  }

  lemma ShrWordSplits(x: u128, bits: nat)
    requires bits < 128
    ensures x == ShrWord(x, bits) * Pow2(bits) + LowBits(x, bits)
    ensures LowBits(x, bits) < Pow2(bits)
  {
    DivMod(x, Pow2(bits));
  }

  /** A word shifted left by `bits` is what stays in it plus what leaves it. */
  lemma ShlWordSplits(x: u128, bits: nat)
    requires 0 < bits < 128
    ensures x * Pow2(bits) == ShlWord(x, bits) + ShrWord(x, 128 - bits) * TWO128
    ensures ShlWord(x, bits) == LowBits(x, 128 - bits) * Pow2(bits) <= TWO128 - Pow2(bits)
  {
    Pow2Add(bits, 128 - bits);
    Pow2Word();
    MulDivCancel(x, Pow2(bits), Pow2(128 - bits));
    DivMod(x * Pow2(bits), TWO128);
  }

  lemma ShrWordBound(x: u128, bits: nat)
    requires 0 < bits < 128
    ensures ShrWord(x, bits) < Pow2(128 - bits)
  {
    Pow2Add(128 - bits, bits);
    Pow2Word();
    DivMod(x, Pow2(bits));
    if ShrWord(x, bits) >= Pow2(128 - bits) {
      MulMono(Pow2(128 - bits), ShrWord(x, bits), Pow2(bits));
    }
  }

  /** The low bits of `x`, moved up, and the high bits of `y`, moved down, or-ed into one word. */
  lemma FunnelAdds(x: u128, y: u128, bits: nat)
    requires 0 < bits < 128
    ensures BitOr(ShlWord(x, bits), ShrWord(y, 128 - bits)) == ShlWord(x, bits) + ShrWord(y, 128 - bits) < TWO128
    ensures BitOr(ShrWord(y, 128 - bits), ShlWord(x, bits)) == ShlWord(x, bits) + ShrWord(y, 128 - bits)
  {
    ShlWordSplits(x, bits);
    ShrWordBound(y, 128 - bits);
    BitOrAdds(x % Pow2(128 - bits), ShrWord(y, 128 - bits), bits);
  }

  // ---------------------------------------------------------------------------
  // Bit lengths
  // ---------------------------------------------------------------------------

  function BitLen(n: nat): nat {
    if n == 0 then 0 else 1 + BitLen(n / 2)
  }

  lemma {:induction false} BitLenBounds(n: nat)
    requires n > 0
    ensures BitLen(n) > 0 && Pow2(BitLen(n) - 1) <= n < Pow2(BitLen(n))
  {
    if n > 1 {
      BitLenBounds(n / 2);
    }
  }

  lemma BitLenAtMost(n: nat, k: nat)
    requires n < Pow2(k)
    ensures BitLen(n) <= k
  {
    if n > 0 && BitLen(n) > k {
      BitLenBounds(n);
      Pow2Mono(k, BitLen(n) - 1);
    }
  }

  lemma BitLenMono(m: nat, n: nat)
    requires m <= n
    ensures BitLen(m) <= BitLen(n)
  {
    if n > 0 {
      BitLenBounds(n);
      BitLenAtMost(m, BitLen(n));
    }
  }

  lemma BitLenUnique(n: nat, k: nat)
    requires k > 0 && Pow2(k - 1) <= n < Pow2(k)
    ensures BitLen(n) == k
  {
    BitLenAtMost(n, k);
    BitLenBounds(n);
    if BitLen(n) < k {
      Pow2Mono(BitLen(n), k - 1);
    }
  }

  /** A number whose upper part is `h > 0` above `k` low bits has `k` more bits than `h`. */
  lemma BitLenUpper(h: nat, l: nat, k: nat)
    requires h > 0 && l < Pow2(k)
    ensures BitLen(h * Pow2(k) + l) == BitLen(h) + k
  {
    BitLenBounds(h);
    Pow2Add(BitLen(h) - 1, k);
    Pow2Add(BitLen(h), k);
    MulMono(Pow2(BitLen(h) - 1), h, Pow2(k));
    MulMono(h + 1, Pow2(BitLen(h)), Pow2(k));
    Distribute(h, 1, Pow2(k));
    BitLenUnique(h * Pow2(k) + l, BitLen(h) + k);
  }

  function LeadingZeros(x: u128): (z: nat)
    ensures z <= 128
  {
    Pow2Word();
    BitLenAtMost(x, 128);
    128 - BitLen(x)
  }

  // ---------------------------------------------------------------------------
  // Words with carry
  // ---------------------------------------------------------------------------

  function OverflowingAdd(a: u128, b: u128): (r: (u128, bool))
    ensures a + b == r.0 + (if r.1 then TWO128 else 0)
  {
    if a + b < TWO128 then (a + b, false) else (a + b - TWO128, true)
  }

  function OverflowingSub(a: u128, b: u128): (r: (u128, bool))
    ensures a - b == r.0 - (if r.1 then TWO128 else 0)
  {
    if b <= a then (a - b, false) else (a - b + TWO128, true)
  }

  function Bit(b: bool): u128 {
    if b then 1 else 0
  }

  function AddCarry(a: u128, b: u128, carry: bool): (r: (u128, bool))
    ensures a + b + Bit(carry) == r.0 + Bit(r.1) * TWO128
  {
    var (s1, c1) := OverflowingAdd(a, b);
    var (s2, c2) := OverflowingAdd(s1, Bit(carry));
    (s2, c1 || c2)
  }

  function SubBorrow(a: u128, b: u128, borrow: bool): (r: (u128, bool))
    ensures a - b - Bit(borrow) == r.0 - Bit(r.1) * TWO128
  {
    var (d1, b1) := OverflowingSub(a, b);
    var (d2, b2) := OverflowingSub(d1, Bit(borrow));
    (d2, b1 || b2)
  }

  lemma HalfProduct(x: nat, y: nat)
    requires x < TWO64 && y < TWO64
    ensures 0 <= x * y <= TWO128 - 2 * TWO64 + 1
  {
    MulMono(x, TWO64 - 1, y);
    MulMono(y, TWO64 - 1, TWO64 - 1);
    MulPos(x, y);
  }

  lemma SchoolbookProduct(al: nat, ah: nat, bl: nat, bh: nat)
    ensures (al + ah * TWO64) * (bl + bh * TWO64)
         == al * bl + (al * bh + ah * bl) * TWO64 + (ah * bh) * TWO128
  {
    Distribute(al, ah * TWO64, bl + bh * TWO64);
    Distribute(bl, bh * TWO64, al);
    Distribute(bl, bh * TWO64, ah * TWO64);
  }

  lemma RecombineHalves(mid: u128, carry: nat, lo: nat, loCarry: nat, ll: nat, hh: nat)
    requires ll + (mid * TWO64) % TWO128 == lo + loCarry * TWO128
    ensures lo + (hh + mid / TWO64 + carry * TWO64 + loCarry) * TWO128
         == ll + (mid + carry * TWO128) * TWO64 + hh * TWO128
  {
    MulDivCancel(mid, TWO64, TWO64);
    DivMod(mid, TWO64);
  }

  /** The full 256-bit product of two words, through four 64-bit half products. */
  function WideningMul(a: u128, b: u128): (r: (u128, u128))
    ensures r.0 + r.1 * TWO128 == a * b
  {
    var al, ah, bl, bh := a % TWO64, a / TWO64, b % TWO64, b / TWO64;
    HalfProduct(al, bl);
    HalfProduct(al, bh);
    HalfProduct(ah, bl);
    HalfProduct(ah, bh);
    SchoolbookProduct(al, ah, bl, bh);
    MulMono(a, TWO128 - 1, b);
    var (ll, lh, hl, hh) := (al * bl, al * bh, ah * bl, ah * bh);
    var (mid, midCarry) := OverflowingAdd(lh, hl);
    var (lo, loCarry) := OverflowingAdd(ll, (mid * TWO64) % TWO128);
    RecombineHalves(mid, Bit(midCarry), lo, Bit(loCarry), ll, hh);
    (lo, hh + mid / TWO64 + Bit(midCarry) * TWO64 + Bit(loCarry))
  }
}
