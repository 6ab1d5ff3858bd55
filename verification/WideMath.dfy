/**
 The 256- and 512-bit arithmetic underneath the risk engine, word by word:
 carries between words, multi-word shifts, comparison and subtraction, and the
 shift-subtract long division, all verified against mathematical integers.
 */
module WideMath {
  import opened Numbers
  import opened Words

  // ---------------------------------------------------------------------------
  // Multi-word values
  // ---------------------------------------------------------------------------

  /** The weight of word `i`. */
  function Base(i: nat): (b: nat)
    ensures b > 0
  {
    if i == 0 then 1 else Base(i - 1) * TWO128
  }

  /** The value of the low `i` words. */
  function Low(s: seq<u128>, i: nat): nat
    requires i <= |s|
  {
    if i == 0 then 0 else MulPos(s[i - 1], Base(i - 1)); Low(s, i - 1) + s[i - 1] * Base(i - 1)
  }

  type U512 = s: seq<u128> | |s| == 4 witness [0, 0, 0, 0]

  const ZERO512: U512 := [0, 0, 0, 0]

  function Val(s: U512): nat {
    Low(s, 4)
  }

  lemma ValIsLow(s: U512)
    ensures Val(s) == Low(s, 4)
  {
  }

  lemma {:induction false} LowBound(s: seq<u128>, i: nat)
    requires i <= |s|
    ensures Low(s, i) < Base(i)
  {
    if i > 0 {
      LowBound(s, i - 1);
      MulMono(s[i - 1], TWO128 - 1, Base(i - 1));
    }
  }

  lemma {:induction false} LowFrame(s: seq<u128>, t: seq<u128>, i: nat)
    requires i <= |s| && i <= |t| && s[..i] == t[..i]
    ensures Low(s, i) == Low(t, i)
  {
    if i > 0 {
      assert s[i - 1] == s[..i][i - 1] == t[..i][i - 1] == t[i - 1];
      assert s[..i - 1] == s[..i][..i - 1] == t[..i - 1];
      LowFrame(s, t, i - 1);
    }
  }

  lemma {:induction false} LowMono(s: seq<u128>, i: nat, j: nat)
    requires i <= j <= |s|
    ensures Low(s, i) <= Low(s, j)
  {
    if i < j {
      LowMono(s, i, j - 1);
      MulPos(s[j - 1], Base(j - 1));
    }
  }

  lemma {:induction false} BaseAdd(i: nat, j: nat)
    ensures Base(i + j) == Base(i) * Base(j)
  {
    if j > 0 {
      BaseAdd(i, j - 1);
      Associate(Base(i), Base(j - 1), TWO128);
    }
  }

  lemma {:induction false} BaseIsPow2(i: nat)
    ensures Base(i) == Pow2(128 * i)
  {
    if i > 0 {
      BaseIsPow2(i - 1);
      Pow2Word();
      Pow2Add(128 * (i - 1), 128);
    }
  }

  /** If the words from `i` up are zero, the low part is the whole value; otherwise the value is at least `Base(i)`. */
  lemma {:induction false} HighWords(s: seq<u128>, i: nat, j: nat)
    requires i <= j <= |s|
    ensures (forall k :: i <= k < j ==> s[k] == 0) ==> Low(s, j) == Low(s, i)
    ensures (exists k :: i <= k < j && s[k] != 0) ==> Low(s, j) >= Base(i)
  {
    if i < j {
      HighWords(s, i, j - 1);
      MulPos(s[j - 1], Base(j - 1));
      if s[j - 1] != 0 {
        MulMono(1, s[j - 1], Base(j - 1));
        BaseAdd(i, j - 1 - i);
        MulMono(1, Base(j - 1 - i), Base(i));
      }
    }
  }

  // ---------------------------------------------------------------------------
  // 512-bit operations
  // ---------------------------------------------------------------------------

  lemma TopWordDecides(la: nat, lb: nat, x: nat, y: nat, w: nat)
    requires la < w && x < y
    ensures la + x * w < lb + y * w
  {
    MulMono(x + 1, y, w);
    Distribute(x, 1, w);
  }

  /** Three-way comparison, word by word from the top: -1, 0 or 1. */
  method Cmp512(a: U512, b: U512) returns (c: int)
    ensures c < 0 <==> Val(a) < Val(b)
    ensures c == 0 <==> Val(a) == Val(b)
    ensures c > 0 <==> Val(a) > Val(b)
  {
    hide Val;
    hide Base;
    assert Val(a) == Low(a, 4) && Val(b) == Low(b, 4) by { ValIsLow(a); ValIsLow(b); }
    var i := 4;
    while i > 0
      invariant 0 <= i <= 4
      invariant Val(a) - Low(a, i) == Val(b) - Low(b, i)
    {
      i := i - 1;
      if a[i] != b[i] {
        LowBound(a, i);
        LowBound(b, i);
        if a[i] < b[i] {
          TopWordDecides(Low(a, i), Low(b, i), a[i], b[i], Base(i));
          return -1;
        } else {
          TopWordDecides(Low(b, i), Low(a, i), b[i], a[i], Base(i));
          return 1;
        }
      }
    }
    return 0;
  }

  lemma WeighBorrow(a: int, b: int, borrowIn: int, d: int, borrowOut: int, w: int)
    requires a - b - borrowIn == d - borrowOut * TWO128
    ensures a * w - b * w - borrowIn * w == d * w - borrowOut * (w * TWO128)
  {
    Distribute(a, -b - borrowIn, w);
    Distribute(-b, -borrowIn, w);
    Distribute(d, -(borrowOut * TWO128), w);
    Associate(borrowOut, TWO128, w);
  }

  method Sub512(a: U512, b: U512) returns (r: U512)
    requires Val(b) <= Val(a)
    ensures Val(r) == Val(a) - Val(b)
  {
    var result := new u128[4](_ => 0);
    var borrow := false;
    for i := 0 to 4
      invariant Low(result[..], i) == Low(a, i) - Low(b, i) + Bit(borrow) * Base(i)
    {
      var (d, borrowOut) := SubBorrow(a[i], b[i], borrow);
      ghost var before := result[..];
      result[i] := d;
      LowFrame(before, result[..], i);
      WeighBorrow(a[i], b[i], Bit(borrow), d, Bit(borrowOut), Base(i));
      borrow := borrowOut;
    }
    LowBound(result[..], 4);
    r := result[..];
  }

  // -- shifts ------------------------------------------------------------------

  /** What a word sends up to the next one when shifted left. */
  function Spill(x: u128, bits: nat): (c: nat)
    requires bits < 128
  {
    if bits == 0 then 0 else ShrWord(x, 128 - bits)
  }

  /** Word `i` of `x` shifted left by `wordShift` words and `bits` bits. */
  function ShlAt(x: U512, wordShift: nat, bits: nat, i: nat): u128
    requires bits < 128 && wordShift <= i < 4
  {
    var w := ShlWord(x[i - wordShift], bits);
    if bits > 0 && i > wordShift then
      FunnelAdds(x[i - wordShift], x[i - wordShift - 1], bits);
      BitOr(w, ShrWord(x[i - wordShift - 1], 128 - bits))
    else w
  }

  ghost function CarryInto(x: U512, wordShift: nat, bits: nat, i: nat): nat
    requires bits < 128 && wordShift <= i <= 4
  {
    if i > wordShift then Spill(x[i - wordShift - 1], bits) else 0
  }

  lemma ShlAtSplits(x: U512, wordShift: nat, bits: nat, i: nat)
    requires bits < 128 && wordShift <= i < 4
    ensures ShlAt(x, wordShift, bits, i) + CarryInto(x, wordShift, bits, i + 1) * TWO128
         == x[i - wordShift] * Pow2(bits) + CarryInto(x, wordShift, bits, i)
  {
    var y := x[i - wordShift];
    if bits > 0 {
      ShlWordSplits(y, bits);
      if i > wordShift {
        FunnelAdds(y, x[i - wordShift - 1], bits);
      }
    }
  }

  /** One word of a left shift, in the weights of the result. */
  lemma ShlStep(l: int, c: int, w: int, p: int, low: int, b: int, bj: int, x: int, out: int, c': int)
    requires l + c * w == p * (low * b) && w == bj * b
    requires out + c' * TWO128 == x * p + c
    ensures (l + out * w) + c' * (w * TWO128) == p * ((low + x * bj) * b)
  {
    Distribute(out, c' * TWO128, w);
    Associate(c', TWO128, w);
    Distribute(x * p, c, w);
    Associate(p, x, w);
    Associate(x, bj, b);
    Distribute(low, x * bj, b);
    Distribute(low * b, x * w, p);
  }

  lemma {:induction false} SplitAt(s: seq<u128>, i: nat, j: nat)
    requires i <= j <= |s|
    ensures Low(s, j) == Low(s, i) + Low(s[i..], j - i) * Base(i)
  {
    if i < j {
      SplitAt(s, i, j - 1);
      BaseAdd(j - 1 - i, i);
      Associate(s[j - 1], Base(j - 1 - i), Base(i));
      Distribute(Low(s[i..], j - 1 - i), s[j - 1] * Base(j - 1 - i), Base(i));
    }
  }

  lemma ShiftedOut(v: nat, bits: nat)
    requires bits >= 512
    ensures (v * Pow2(bits)) % Base(4) == 0
  {
    BaseIsPow2(4);
    Pow2Add(bits - 512, 512);
    Associate(v, Pow2(bits - 512), Base(4));
    MulPos(v, Pow2(bits - 512));
    DivUnique(v * Pow2(bits), Base(4), v * Pow2(bits - 512));
  }

  lemma Pow2OfShift(bits: nat)
    ensures Pow2(bits) == Pow2(bits % 128) * Base(bits / 128)
  {
    BaseIsPow2(bits / 128);
    Pow2Add(bits % 128, 128 * (bits / 128));
  }

  /** Dropping whole multiples of the top weight is a remainder. */
  lemma ShlDrops(low: nat, h: nat, p: nat, ws: nat, out: nat, carry: nat)
    requires ws <= 4 && out < Base(4)
    requires out + carry * Base(4) == p * (low * Base(ws))
    ensures ((low + h * Base(4 - ws)) * (p * Base(ws))) % Base(4) == out
  {
    var t := p * Base(ws);
    BaseAdd(4 - ws, ws);
    Distribute(low, h * Base(4 - ws), t);
    assert low * t == p * (low * Base(ws));
    assert (h * Base(4 - ws)) * t == (h * p) * Base(4) by {
      Associate(h, Base(4 - ws), t);
      Associate(p, Base(ws), Base(4 - ws));
      Associate(h, p, Base(4));
    }
    Distribute(carry, h * p, Base(4));
    DivUnique((low + h * Base(4 - ws)) * t, Base(4), carry + h * p);
  }

  /** The low `i` words of `out` are those of `x` shifted left, up to the carry into word `i`. */
  ghost predicate ShlSoFar(out: seq<u128>, x: U512, wordShift: nat, bits: nat, i: nat)
    requires wordShift <= i <= 4 == |out| && bits < 128
  {
    Low(out, i) + CarryInto(x, wordShift, bits, i) * Base(i) == Pow2(bits) * (Low(x, i - wordShift) * Base(wordShift))
  }

  lemma ShlStarts(x: U512, wordShift: nat, bits: nat)
    requires wordShift < 4 && bits < 128
    ensures ShlSoFar(ZERO512, x, wordShift, bits, wordShift)
  {
    HighWords(ZERO512, 0, wordShift);
  }

  lemma ShlContinues(out: U512, x: U512, wordShift: nat, bits: nat, i: nat)
    requires wordShift <= i < 4 && bits < 128
    requires ShlSoFar(out, x, wordShift, bits, i)
    ensures ShlSoFar(out[i := ShlAt(x, wordShift, bits, i)], x, wordShift, bits, i + 1)
  {
    hide ShlAt;
    var next := out[i := ShlAt(x, wordShift, bits, i)];
    LowFrame(out, next, i);
    ShlAtSplits(x, wordShift, bits, i);
    BaseAdd(i - wordShift, wordShift);
    ShlStep(Low(out, i), CarryInto(x, wordShift, bits, i), Base(i), Pow2(bits),
            Low(x, i - wordShift), Base(wordShift), Base(i - wordShift), x[i - wordShift],
            ShlAt(x, wordShift, bits, i), CarryInto(x, wordShift, bits, i + 1));
  }

  lemma ShlEnds(out: U512, x: U512, wordShift: nat, bits: nat)
    requires wordShift < 4 && bits < 128
    requires ShlSoFar(out, x, wordShift, bits, 4)
    ensures Val(out) == (Val(x) * Pow2(wordShift * 128 + bits)) % Base(4)
  {
    var n := wordShift * 128 + bits;
    assert n / 128 == wordShift && n % 128 == bits;
    Pow2OfShift(n);
    hide Val;
    hide Base;
    hide Pow2;
    ValIsLow(x);
    ValIsLow(out);
    SplitAt(x, 4 - wordShift, 4);
    var h := Low(x[4 - wordShift..], wordShift);
    LowBound(out, 4);
    ShlDrops(Low(x, 4 - wordShift), h, Pow2(bits), wordShift, Val(out), CarryInto(x, wordShift, bits, 4));
  }

  method Shl512(x: U512, bits: nat) returns (r: U512)
    ensures Val(r) == (Val(x) * Pow2(bits)) % Base(4)
  {
    hide ShlAt;
    hide ShlSoFar;
    if bits >= 512 {
      ShiftedOut(Val(x), bits);
      return ZERO512;
    }
    if bits == 0 {
      LowBound(x, 4);
      return x;
    }
    hide Val;
    hide Base;
    hide Pow2;
    var wordShift, bitShift := bits / 128, bits % 128;
    var result := new u128[4](_ => 0);
    ShlStarts(x, wordShift, bitShift);
    assert result[..] == ZERO512;
    for i := wordShift to 4
      invariant ShlSoFar(result[..], x, wordShift, bitShift, i)
    {
      ShlContinues(result[..], x, wordShift, bitShift, i);
      ghost var next := result[..][i := ShlAt(x, wordShift, bitShift, i)];
      result[i] := ShlAt(x, wordShift, bitShift, i);
      assert result[..] == next;
    }
    r := result[..];
    ShlEnds(r, x, wordShift, bitShift);
    assert wordShift * 128 + bitShift == bits;
  }

  /** Word `i` of `x` shifted right by `wordShift` words and `bits` bits. */
  function ShrAt(x: U512, wordShift: nat, bits: nat, i: nat): u128
    requires bits < 128 && i + wordShift < 4
  {
    var w := ShrWord(x[i + wordShift], bits);
    if bits > 0 && i + wordShift + 1 < 4 then
      FunnelAdds(x[i + wordShift + 1], x[i + wordShift], 128 - bits);
      BitOr(w, ShlWord(x[i + wordShift + 1], 128 - bits))
    else w
  }

  /** The bits of word `i` that a right shift moves into the word below it. */
  ghost function Dropped(xs: seq<u128>, bits: nat, i: nat): nat {
    if i < |xs| then LowBits(xs[i], bits) else 0
  }

  ghost predicate ShrSoFar(out: U512, xs: seq<u128>, bits: nat, i: nat)
    requires i <= |xs| <= 4 && bits < 128
  {
    Pow2(bits) * Low(out, i) + Dropped(xs, bits, 0) == Low(xs, i) + Dropped(xs, bits, i) * Base(i)
  }

  lemma FunnelCore(p: nat, q: nat, h: nat, d: nat, z: nat, s: nat, y: nat, t: nat)
    requires s == z * q && y == h * p + d && t == p * q
    ensures p * (h + s) + d == y + z * t
  {
    Distribute(h, s, p);
    Associate(z, q, p);
  }

  /** A right shift of `y` with the low bits of `z` coming in from above. */
  lemma FunnelRight(y: u128, z: u128, bits: nat)
    requires 0 < bits < 128
    ensures Pow2(bits) * (ShrWord(y, bits) + ShlWord(z, 128 - bits)) + LowBits(y, bits)
         == y + LowBits(z, bits) * TWO128
  {
    Pow2Add(bits, 128 - bits);
    Pow2Word();
    ShlWordSplits(z, 128 - bits);
    ShrWordSplits(y, bits);
    hide *;
    FunnelCore(Pow2(bits), Pow2(128 - bits), ShrWord(y, bits), LowBits(y, bits), LowBits(z, bits),
               ShlWord(z, 128 - bits), y, TWO128);
  }

  lemma NotShifted(y: u128)
    ensures Pow2(0) == 1 && ShrWord(y, 0) == y && LowBits(y, 0) == 0
  {
  }

  lemma ShrAtSplits(x: U512, wordShift: nat, bits: nat, i: nat)
    requires bits < 128 && i + wordShift < 4
    ensures Pow2(bits) * ShrAt(x, wordShift, bits, i) + Dropped(x[wordShift..], bits, i)
         == x[i + wordShift] + Dropped(x[wordShift..], bits, i + 1) * TWO128
  {
    hide Pow2;
    hide ShrWord;
    hide ShlWord;
    hide LowBits;
    hide BitOr;
    var y := x[i + wordShift];
    if bits == 0 {
      NotShifted(y);
      if i + wordShift + 1 < 4 {
        NotShifted(x[i + wordShift + 1]);
      }
    } else if i + wordShift + 1 < 4 {
      FunnelAdds(x[i + wordShift + 1], y, 128 - bits);
      FunnelRight(y, x[i + wordShift + 1], bits);
    } else {
      ShrWordSplits(y, bits);
    }
  }

  lemma ShrStep(p: int, l: int, d0: int, low: int, d: int, w: int, out: int, x: int, d': int)
    requires p * l + d0 == low + d * w
    requires p * out + d == x + d' * TWO128
    ensures p * (l + out * w) + d0 == (low + x * w) + d' * (w * TWO128)
  {
    Distribute(p * out, d, w);
    Distribute(x, d' * TWO128, w);
    Associate(d', TWO128, w);
    Associate(p, out, w);
    Distribute(l, out * w, p);
  }

  lemma ShrContinues(out: U512, x: U512, wordShift: nat, bits: nat, i: nat)
    requires bits < 128 && i + wordShift < 4
    requires ShrSoFar(out, x[wordShift..], bits, i)
    ensures ShrSoFar(out[i := ShrAt(x, wordShift, bits, i)], x[wordShift..], bits, i + 1)
  {
    hide ShrAt;
    hide Dropped;
    var xs := x[wordShift..];
    var next := out[i := ShrAt(x, wordShift, bits, i)];
    LowFrame(out, next, i);
    ShrAtSplits(x, wordShift, bits, i);
    ShrStep(Pow2(bits), Low(out, i), Dropped(xs, bits, 0), Low(xs, i), Dropped(xs, bits, i), Base(i),
            ShrAt(x, wordShift, bits, i), xs[i], Dropped(xs, bits, i + 1));
  }

  lemma ShrDivides(p: nat, b: nat, v: nat, r: nat, lo: nat)
    requires 0 < p && 0 < b && r < p && lo < b
    ensures 0 < p * b && (lo + (p * v + r) * b) / (p * b) == v
  {
    MulMono(1, p, b);
    MulMono(r, p - 1, b);
    Distribute(p, -1, b);
    Distribute(p * v, r, b);
    Associate(v, p, b);
    MulPos(r, b);
    DivUnique(lo + (p * v + r) * b, p * b, v);
  }

  lemma ShrEnds(out: U512, x: U512, wordShift: nat, bits: nat)
    requires wordShift < 4 && bits < 128
    requires ShrSoFar(out, x[wordShift..], bits, 4 - wordShift)
    requires forall k :: 4 - wordShift <= k < 4 ==> out[k] == 0
    ensures Val(out) == Val(x) / Pow2(wordShift * 128 + bits)
  {
    var n := wordShift * 128 + bits;
    assert n / 128 == wordShift && n % 128 == bits;
    Pow2OfShift(n);
    hide Val;
    hide Base;
    hide Pow2;
    ValIsLow(x);
    ValIsLow(out);
    HighWords(out, 4 - wordShift, 4);
    SplitAt(x, wordShift, 4);
    LowBound(x, wordShift);
    ShrDivides(Pow2(bits), Base(wordShift), Val(out), Dropped(x[wordShift..], bits, 0), Low(x, wordShift));
  }

  lemma ShiftedDown(v: nat, bits: nat)
    requires v < Base(4) && bits >= 512
    ensures v / Pow2(bits) == 0
  {
    BaseIsPow2(4);
    Pow2Mono(512, bits);
    DivUnique(v, Pow2(bits), 0);
  }

  method Shr512(x: U512, bits: nat) returns (r: U512)
    ensures Val(r) == Val(x) / Pow2(bits)
  {
    hide ShrAt;
    hide ShrSoFar;
    LowBound(x, 4);
    if bits >= 512 {
      ShiftedDown(Val(x), bits);
      return ZERO512;
    }
    if bits == 0 {
      return x;
    }
    var wordShift, bitShift := bits / 128, bits % 128;
    var result := new u128[4](_ => 0);
    assert ShrSoFar(result[..], x[wordShift..], bitShift, 0) by { ShrStarts(result[..], x[wordShift..], bitShift); }
    hide Val;
    hide Base;
    hide Pow2;
    for i := 0 to 4 - wordShift
      invariant ShrSoFar(result[..], x[wordShift..], bitShift, i)
      invariant forall k :: i <= k < 4 ==> result[k] == 0
    {
      ShrContinues(result[..], x, wordShift, bitShift, i);
      ghost var next := result[..][i := ShrAt(x, wordShift, bitShift, i)];
      result[i] := ShrAt(x, wordShift, bitShift, i);
      assert result[..] == next;
    }
    r := result[..];
    ShrEnds(r, x, wordShift, bitShift);
    assert wordShift * 128 + bitShift == bits;
  }

  lemma ShrStarts(out: U512, xs: seq<u128>, bits: nat)
    requires |xs| <= 4 && bits < 128
    ensures ShrSoFar(out, xs, bits, 0)
  {
  }

  // -- bits --------------------------------------------------------------------

  /** All bits of `q` below bit `n` are zero. */
  ghost predicate LowBitsClear(q: U512, n: nat) {
    && (forall k :: 0 <= k < 4 && k < n / 128 ==> q[k] == 0)
    && (n < 512 ==> LowBits(q[n / 128], n % 128) == 0)
  }

  lemma {:induction false} LowUpdate(s: seq<u128>, k: nat, v: u128, j: nat)
    requires k < j <= |s|
    ensures Low(s[k := v], j) == Low(s, j) + (v - s[k]) * Base(k)
  {
    if j == k + 1 {
      LowFrame(s, s[k := v], k);
      var d: int := v - s[k];
      Distribute(d, s[k], Base(k));
    } else {
      LowUpdate(s, k, v, j - 1);
    }
  }

  lemma MultipleBelow(h: nat, n: nat, m: nat)
    requires m > 0 && h * m < n * m
    ensures h * m <= n * m - m
  {
    if h >= n {
      MulMono(n, h, m);
    }
    MulMono(h, n - 1, m);
    Distribute(n, -1, m);
  }

  lemma BitRoom(h: nat, p: nat, n: nat)
    requires p > 0 && h * (2 * p) < n * (2 * p)
    ensures h * (2 * p) + p < n * (2 * p)
    ensures (h * (2 * p) + p) % p == 0
  {
    MultipleBelow(h, n, 2 * p);
    Associate(h, 2, p);
    Distribute(h * 2, 1, p);
    DivUnique(h * (2 * p) + p, p, h * 2 + 1);
  }

  /** A word whose bits up to `b` are clear is a multiple of `2^(b+1)`. */
  lemma ClearWord(w: u128, b: nat) returns (h: nat)
    requires b < 128 && (b < 127 ==> LowBits(w, b + 1) == 0) && (b == 127 ==> w == 0)
    ensures w == h * (2 * Pow2(b)) < Pow2(127 - b) * (2 * Pow2(b)) == TWO128
  {
    h := if b < 127 then ShrWord(w, b + 1) else 0;
    Pow2Word();
    Pow2Add(127 - b, b + 1);
    assert Pow2(b + 1) == 2 * Pow2(b);
    if b < 127 {
      ShrWordSplits(w, b + 1);
    }
  }

  /** In a word whose bits up to `b` are clear, or-ing bit `b` adds it. */
  lemma SetBitInWord(w: u128, b: nat)
    requires b < 128 && (b < 127 ==> LowBits(w, b + 1) == 0) && (b == 127 ==> w == 0)
    ensures BitOr(w, Pow2(b)) == w + Pow2(b) < TWO128
    ensures LowBits(w + Pow2(b), b) == 0
  {
    var h := ClearWord(w, b);
    BitRoom(h, Pow2(b), Pow2(127 - b));
    assert Pow2(b + 1) == 2 * Pow2(b);
    BitOrAdds(h, Pow2(b), b + 1);
  }

  lemma SetBitKeepsClear(q: U512, n: nat, v: u128)
    requires n < 512 && LowBitsClear(q, n + 1) && LowBits(v, n % 128) == 0
    ensures LowBitsClear(q[n / 128 := v], n)
  {
  }

  /** `q | (1 << n)`; the program ignores bits beyond 511. */
  function SetBit(q: U512, n: nat): (r: U512)
    requires LowBitsClear(q, n + 1)
    ensures n < 512 ==> Val(r) == Val(q) + Pow2(n) && LowBitsClear(r, n)
  {
    if n >= 512 then q
    else
      var (w, b) := (n / 128, n % 128);
      SetBitInWord(q[w], b);
      SetBitKeepsClear(q, n, q[w] + Pow2(b));
      LowUpdate(q, w, q[w] + Pow2(b), 4);
      Pow2OfShift(n);
      q[w := BitOr(q[w], Pow2(b))]
  }

  method LeadingZeros512(x: U512) returns (z: nat)
    ensures z == 512 - BitLen(Val(x))
  {
    hide Val;
    ValIsLow(x);
    var i := 4;
    while i > 0
      invariant 0 <= i <= 4
      invariant Low(x, i) == Val(x)
    {
      i := i - 1;
      if x[i] != 0 {
        LowBound(x, i);
        BaseIsPow2(i);
        BitLenUpper(x[i], Low(x, i), 128 * i);
        return (3 - i) * 128 + LeadingZeros(x[i]);
      }
    }
    return 512;
  }

  // ---------------------------------------------------------------------------
  // 256-bit values
  // ---------------------------------------------------------------------------

  datatype Option<+T> = None | Some(value: T)

  /** An unsigned 256-bit value as its low and high words. */
  datatype U256 = U256(lo: u128, hi: u128) {
    function Val(): nat {
      lo + hi * TWO128
    }

    predicate IsZero() {
      lo == 0 && hi == 0
    }

    function ToU128(): Option<u128> {
      if hi == 0 then Some(lo) else None
    }
  }

  function FromU128(v: u128): (r: U256)
    ensures r.Val() == v
  {
    U256(v, 0)
  }

  const ZERO256 := U256(0, 0)
  const ONE256 := U256(1, 0)

  lemma FourWords(r: U512)
    ensures Val(r) == r[0] + r[1] * TWO128 + r[2] * Base(2) + r[3] * Base(3)
    ensures Low(r, 2) == r[0] + r[1] * TWO128
    ensures Base(2) == TWO128 * TWO128
  {
    assert Base(1) == TWO128;
    assert Low(r, 1) == r[0];
    assert Low(r, 2) == Low(r, 1) + r[1] * Base(1);
    assert Low(r, 3) == Low(r, 2) + r[2] * Base(2);
  }

  lemma Val256(x: U256)
    ensures x.Val() < Base(2) == TWO128 * TWO128
    ensures Val([x.lo, x.hi, 0, 0]) == x.Val()
  {
    FourWords([x.lo, x.hi, 0, 0]);
  }

  function To256(x: U512): (r: Option<U256>)
    ensures r.Some? <==> Val(x) < Base(2)
    ensures r.Some? ==> r.value.Val() == Val(x)
  {
    HighWords(x, 2, 4);
    LowBound(x, 2);
    FourWords(x);
    if x[2] != 0 || x[3] != 0 then None else Some(U256(x[0], x[1]))
  }

  lemma MulWords(a: U256, b: U256)
    ensures a.Val() * b.Val()
         == a.lo * b.lo + (a.lo * b.hi + a.hi * b.lo) * TWO128 + (a.hi * b.hi) * (TWO128 * TWO128)
  {
    Distribute(a.lo, a.hi * TWO128, b.Val());
    Distribute(b.lo, b.hi * TWO128, a.lo);
    Distribute(b.lo, b.hi * TWO128, a.hi * TWO128);
  }

  lemma TopWordFits(a: U256, b: U256, low: nat, r3: nat)
    requires a.Val() * b.Val() == low + r3 * Base(3)
    ensures r3 < TWO128
  {
    Val256(a);
    Val256(b);
    MulMono(a.Val(), Base(2), b.Val());
    MulMono(b.Val(), Base(2) - 1, Base(2));
    BaseAdd(2, 2);
    BaseAdd(3, 1);
    assert Base(4) == TWO128 * Base(3);
    CancelLess(r3, TWO128, Base(3));
  }

  lemma AddColumns(p00: nat, p01: nat, p10: nat, p11: nat, r0: nat, c0: nat, x1: nat, x2: nat, y1: nat, y2: nat,
                   z2: nat, z3: nat, r1: nat, carry1: nat, r2: nat, carry2: nat)
    requires p00 == r0 + c0 * TWO128 && p01 == x1 + x2 * TWO128 && p10 == y1 + y2 * TWO128 && p11 == z2 + z3 * TWO128
    requires c0 + x1 + y1 == r1 + carry1 * TWO128
    requires x2 + y2 + z2 + carry1 == r2 + carry2 * TWO128
    ensures p00 + (p01 + p10) * TWO128 + p11 * (TWO128 * TWO128)
         == r0 + r1 * TWO128 + r2 * (TWO128 * TWO128) + (z3 + carry2) * (TWO128 * TWO128 * TWO128)
  {
  }

  lemma MulColumns(a: U256, b: U256, r0: u128, r1: u128, r2: u128, r3: nat)
    requires a.lo * b.lo + (a.lo * b.hi + a.hi * b.lo) * TWO128 + (a.hi * b.hi) * (TWO128 * TWO128)
          == r0 + r1 * TWO128 + r2 * (TWO128 * TWO128) + r3 * (TWO128 * TWO128 * TWO128)
    ensures r3 < TWO128 && Val([r0, r1, r2, r3]) == a.Val() * b.Val()
  {
    MulWords(a, b);
    ThreeBases();
    hide Val;
    hide Low;
    hide Base;
    TopWordFits(a, b, r0 + r1 * TWO128 + r2 * Base(2), r3);
    FourWords([r0, r1, r2, r3]);
  }

  /** The full 512-bit product of two 256-bit values. */
  function Mul256(a: U256, b: U256): (r: U512)
    ensures Val(r) == a.Val() * b.Val()
  {
    hide Val;
    hide Low;
    hide Base;
    var (r0, c0) := WideningMul(a.lo, b.lo);
    var (x1, x2) := WideningMul(a.lo, b.hi);
    var (y1, y2) := WideningMul(a.hi, b.lo);
    var (z2, z3) := WideningMul(a.hi, b.hi);
    var (r1a, carry1a) := OverflowingAdd(c0, x1);
    var (r1, carry1b) := OverflowingAdd(r1a, y1);
    var carry1: u128 := Bit(carry1a) + Bit(carry1b);
    var (r2a, carry2a) := OverflowingAdd(x2, y2);
    var (r2b, carry2b) := OverflowingAdd(r2a, z2);
    var (r2, carry2c) := OverflowingAdd(r2b, carry1);
    var carry2: u128 := Bit(carry2a) + Bit(carry2b) + Bit(carry2c);
    AddColumns(a.lo * b.lo, a.lo * b.hi, a.hi * b.lo, a.hi * b.hi,
               r0, c0, x1, x2, y1, y2, z2, z3, r1, carry1, r2, carry2);
    MulColumns(a, b, r0, r1, r2, z3 + carry2);
    [r0, r1, r2, z3 + carry2]
  }

  lemma ThreeBases()
    ensures Base(2) == TWO128 * TWO128 && Base(3) == TWO128 * TWO128 * TWO128
  {
    assert Base(1) == TWO128;
    assert Base(2) == Base(1) * TWO128;
    assert Base(3) == Base(2) * TWO128;
  }

  // ---------------------------------------------------------------------------
  // Long division
  // ---------------------------------------------------------------------------

  /** The divisor is first aligned with the leading bit of the dividend. */
  lemma AlignedDivisor(num: nat, den: nat)
    requires 0 < den <= num
    ensures BitLen(den) <= BitLen(num)
    ensures den * Pow2(BitLen(num) - BitLen(den)) < Pow2(BitLen(num))
    ensures num < den * Pow2(BitLen(num) - BitLen(den) + 1)
  {
    BitLenMono(den, num);
    BitLenBounds(num);
    BitLenBounds(den);
    var shift := BitLen(num) - BitLen(den);
    Pow2Add(BitLen(den), shift);
    Pow2Add(BitLen(den) - 1, shift + 1);
    MulMono(den + 1, Pow2(BitLen(den)), Pow2(shift));
    Distribute(den, 1, Pow2(shift));
    MulMono(Pow2(BitLen(den) - 1), den, Pow2(shift + 1));
  }

  /** Everything the division loop keeps before it examines bit `i`. */
  ghost predicate Dividing(num: nat, den: nat, quotient: nat, remainder: nat, divisor: nat, i: int) {
    && -1 <= i
    && quotient * den + remainder == num
    && remainder < den * Pow2(i + 1)
    && (i >= 0 ==> divisor == den * Pow2(i))
  }

  lemma DivideBit(num: nat, den: nat, quotient: nat, remainder: nat, divisor: nat, i: nat)
    requires Dividing(num, den, quotient, remainder, divisor, i)
    ensures if remainder >= divisor then Dividing(num, den, quotient + Pow2(i), remainder - divisor, divisor / 2, i - 1)
            else Dividing(num, den, quotient, remainder, divisor / 2, i - 1)
  {
    Distribute(quotient, Pow2(i), den);
    TwiceShifted(den, i);
    if i > 0 {
      TwiceShifted(den, i - 1);
    }
    hide Pow2;
  }

  lemma TwiceShifted(den: nat, i: nat)
    ensures den * Pow2(i + 1) == 2 * (den * Pow2(i))
  {
    Associate(den, 2, Pow2(i));
  }

  lemma DivideStarts(num: nat, den: nat, shift: nat)
    requires 0 < den <= num < Pow2(512) && shift == BitLen(num) - BitLen(den)
    ensures shift < 512 && (den * Pow2(shift)) % Pow2(512) == den * Pow2(shift)
    ensures num < den * Pow2(shift + 1)
  {
    hide Pow2;
    hide BitLen;
    AlignedDivisor(num, den);
    BitLenAtMost(num, 512);
    Pow2Mono(BitLen(num), 512);
    BitLenBounds(den);
    DivUnique(den * Pow2(shift), Pow2(512), 0);
  }

  lemma BeginDividing(num: nat, den: nat, divisor: nat, shift: nat)
    requires num < den * Pow2(shift + 1) && divisor == den * Pow2(shift)
    ensures Dividing(num, den, 0, num, divisor, shift)
  {
  }

  lemma DivideDone(num: nat, den: nat, quotient: nat, remainder: nat, divisor: nat)
    requires den > 0 && Dividing(num, den, quotient, remainder, divisor, -1)
    ensures quotient == num / den && remainder == num % den < den
  {
    assert den * Pow2(0) == den;
    DivUnique(num, den, quotient);
  }

  lemma NoBits()
    ensures Val(ZERO512) == 0 && forall n :: LowBitsClear(ZERO512, n)
  {
    HighWords(ZERO512, 0, 4);
    forall n: nat | n < 512
      ensures LowBits(0, n % 128) == 0
    {
      DivUnique(0, Pow2(n % 128), 0);
    }
  }

  /** Shift-subtract division of a 512-bit value; `None` exactly when the quotient needs more than 256 bits. */
  method CheckedDivRem(num: U512, den: U256) returns (r: Option<(U256, U256)>)
    requires !den.IsZero()
    ensures r.Some? <==> Val(num) / den.Val() < Base(2)
    ensures r.Some? ==> r.value.0.Val() == Val(num) / den.Val() && r.value.1.Val() == Val(num) % den.Val()
  {
    hide Val;
    hide Base;
    hide Pow2;
    hide BitLen;
    hide Dividing;
    hide LowBitsClear;
    hide SetBit;
    hide To256;
    var den512: U512 := [den.lo, den.hi, 0, 0];
    Val256(den);
    ValIsLow(num);
    var order := Cmp512(num, den512);
    if order < 0 {
      DivUnique(Val(num), den.Val(), 0);
      return Some((ZERO256, To256(num).value));
    }
    var numZeros := LeadingZeros512(num);
    var denZeros := LeadingZeros512(den512);
    BitLenMono(den.Val(), Val(num));
    var shift: nat := denZeros - numZeros;
    NoBits();
    var remainder, quotient := num, ZERO512;
    var divisor := Shl512(den512, shift);
    LowBound(num, 4);
    BaseIsPow2(4);
    DivideStarts(Val(num), den.Val(), shift);
    BeginDividing(Val(num), den.Val(), Val(divisor), shift);
    var i: int := shift;
    while i >= 0
      invariant -1 <= i <= shift
      invariant Dividing(Val(num), den.Val(), Val(quotient), Val(remainder), Val(divisor), i)
      invariant LowBitsClear(quotient, i + 1)
    {
      DivideBit(Val(num), den.Val(), Val(quotient), Val(remainder), Val(divisor), i);
      var c := Cmp512(remainder, divisor);
      if c >= 0 {
        remainder := Sub512(remainder, divisor);
        quotient := SetBit(quotient, i);
      } else {
        StillClear(quotient, i);
      }
      divisor := Shr512(divisor, 1);
      Pow2One();
      i := i - 1;
    }
    DivideDone(Val(num), den.Val(), Val(quotient), Val(remainder), Val(divisor));
    if To256(quotient).None? {
      return None;
    }
    return Some((To256(quotient).value, To256(remainder).value));
  }

  lemma Pow2One()
    ensures Pow2(1) == 2
  {
  }

  lemma StillClear(q: U512, n: nat)
    requires n < 512 && LowBitsClear(q, n + 1)
    ensures LowBitsClear(q, n)
  {
    var b := n % 128;
    if b < 127 {
      LowBitsFewer(q[n / 128], b);
    } else {
      DivUnique(0, Pow2(b), 0);
    }
  }

  lemma LowBitsFewer(w: u128, b: nat)
    requires b < 127 && LowBits(w, b + 1) == 0
    ensures LowBits(w, b) == 0
  {
    ShrWordSplits(w, b + 1);
    var h := ShrWord(w, b + 1);
    Associate(h, 2, Pow2(b));
    DivUnique(w, Pow2(b), h * 2);
  }
}
