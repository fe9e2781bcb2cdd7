/** In-place 256-bit arithmetic on big-endian byte arrays: increment, addition, doubling,
    subtraction and restoring division, each tied to arithmetic on natural numbers. */
module Arithmetic256 {
  import opened BigEndian

  // ---- one column of a carry chain -------------------------------------------------------

  lemma SuffixStep(s: seq<byte>, i: nat)
    requires i < |s|
    ensures Val(s[i..]) == Shl(s[i], |s| - 1 - i) + Val(s[i + 1..])
  {
    assert s[i..] == [s[i]] + s[i + 1..];
    ValCons(s[i], s[i + 1..]);
    ShlIsProduct(s[i], |s| - 1 - i);
  }

  /** A column computes `x + carry == digit + 256 * carryOut`; weighting by the place value turns
      the columns done so far into one equation.  A borrow is a negative carry. */
  lemma Column(s: seq<byte>, t: seq<byte>, i: nat, x: int, carry: int, carryOut: int, want: int)
    requires i < |s| == |t| && t[i + 1..] == s[i + 1..]
    requires x + carry == t[i] + 256 * carryOut
    requires Val(s[i + 1..]) + Shl(carry, |s| - 1 - i) == want
    ensures Val(t[i..]) + Shl(carryOut, |s| - i) == Shl(x, |s| - 1 - i) + want
  {
    var n, digit: int := |s| - 1 - i, t[i];
    SuffixStep(t, i);
    ShlAdd(x, carry, n);
    ShlAdd(digit, 256 * carryOut, n);
    ShlByte(carryOut, n);
  }

  lemma SuffixSum(a: seq<byte>, b: seq<byte>, i: nat, x: int, y: int)
    requires i < |a| == |b| && x == a[i] && y == b[i]
    ensures Shl(x + y, |a| - 1 - i) + (Val(a[i + 1..]) + Val(b[i + 1..])) == Val(a[i..]) + Val(b[i..])
    ensures Shl(x - y, |a| - 1 - i) + (Val(a[i + 1..]) - Val(b[i + 1..])) == Val(a[i..]) - Val(b[i..])
  {
    SuffixStep(a, i);
    SuffixStep(b, i);
    ShlAdd(x, y, |a| - 1 - i);
  }

  lemma FullWidth(s: Bytes32)
    ensures Val(s) < TWO_256 == Pow256(32) && s[0..] == s
  {
    ValBound(s);
    Pow256Values();
  }

  /** All 32 columns done. */
  lemma ChainDone(s: Bytes32, carry: int, want: int)
    requires Val(s[0..]) + Shl(carry, 32) == want
    ensures Val(s) + carry * TWO_256 == want && Val(s) < TWO_256
  {
    FullWidth(s);
    ShlIsProduct(carry, 32);
  }

  lemma DivUnique(x: int, d: int, q: int, r: int)
    requires 0 < d && x == q * d + r && 0 <= r < d
    ensures x / d == q && x % d == r
  {
    var q', r' := x / d, x % d;
    assert (q - q') * d == r' - r;
    if q - q' >= 1 {
      MulMono(1, q - q', d);
    } else if q - q' <= -1 {
      MulMono(q - q', -1, d);
    }
  }

  // ---- carry chains ----------------------------------------------------------------------

  method Increment(a: array<byte>) returns (carry: nat)
    requires a.Length == 32
    modifies a
    ensures carry <= 1
    ensures Val(a[..]) + carry * TWO_256 == old(Val(a[..])) + 1
  {
    ghost var was := a[..];
    carry := 1;
    var i := 32;
    while i > 0
      invariant 0 <= i <= 32 && carry <= 1
      invariant a[..i] == was[..i]
      invariant Val(a[..][i..]) + Shl(carry, 32 - i) == Val(was[i..]) + 1
    {
      i := i - 1;
      ghost var s, carryIn := a[..], carry;
      var x: int := a[i];
      assert x == was[i];
      a[i], carry := (x + carry) % 256, (x + carry) / 256;
      Column(s, a[..], i, x, carryIn, carry, Val(was[i + 1..]) + 1);
      SuffixStep(was, i);
    }
    ChainDone(a[..], carry, Val(was[0..]) + 1);
    assert was[0..] == was;
  }

  /** 256-bit addition, wrapping. */
  method AddWork(a: Bytes32, b: Bytes32) returns (r: Bytes32)
    ensures Val(r) == AddWrap(Val(a), Val(b))
  {
    var result := new byte[32](_ => 0);
    var carry := 0;
    var i := 32;
    while i > 0
      invariant 0 <= i <= 32 && 0 <= carry <= 1
      invariant Val(result[..][i..]) + Shl(carry, 32 - i) == Val(a[i..]) + Val(b[i..])
    {
      i := i - 1;
      ghost var s, carryIn := result[..], carry;
      var x: int, y: int := a[i], b[i];
      result[i], carry := (x + y + carry) % 256, (x + y + carry) / 256;
      SumColumn(a, b, s, result[..], i, carryIn, carry);
    }
    r := result[..];
    SumDone(r, carry, a, b);
  }

  lemma SumDone(r: Bytes32, carry: nat, a: Bytes32, b: Bytes32)
    requires Val(r[0..]) + Shl(carry, 32) == Val(a[0..]) + Val(b[0..])
    ensures Val(r) == AddWrap(Val(a), Val(b))
  {
    ChainDone(r, carry, Val(a[0..]) + Val(b[0..]));
    assert a[0..] == a && b[0..] == b;
    DivUnique(Val(a) + Val(b), TWO_256, carry, Val(r));
  }

  /** `remainder = remainder * 2 + bit`; the carry out of the top byte is dropped. */
  lemma DoubleColumn(was: seq<byte>, s: seq<byte>, t: seq<byte>, i: nat, carry: int, carryOut: int, bit: nat)
    requires i < |was| == |s| == |t| && t[i + 1..] == s[i + 1..]
             && 2 * was[i] as int + carry == t[i] as int + 256 * carryOut
    requires Val(s[i + 1..]) + Shl(carry, |s| - 1 - i) == 2 * Val(was[i + 1..]) + bit
    ensures Val(t[i..]) + Shl(carryOut, |s| - i) == 2 * Val(was[i..]) + bit
  {
    Column(s, t, i, 2 * was[i] as int, carry, carryOut, 2 * Val(was[i + 1..]) + bit);
    SuffixSum(was, was, i, was[i] as int, was[i] as int);
  }

  lemma SumColumn(a: seq<byte>, b: seq<byte>, s: seq<byte>, t: seq<byte>, i: nat, carry: int, carryOut: int)
    requires i < |a| == |b| == |s| == |t| && t[i + 1..] == s[i + 1..]
    requires a[i] as int + b[i] as int + carry == t[i] as int + 256 * carryOut
    requires Val(s[i + 1..]) + Shl(carry, |s| - 1 - i) == Val(a[i + 1..]) + Val(b[i + 1..])
    ensures Val(t[i..]) + Shl(carryOut, |s| - i) == Val(a[i..]) + Val(b[i..])
  {
    Column(s, t, i, a[i] as int + b[i] as int, carry, carryOut, Val(a[i + 1..]) + Val(b[i + 1..]));
    SuffixSum(a, b, i, a[i] as int, b[i] as int);
  }

  method ShiftIn(a: array<byte>, bit: nat) returns (ghost lost: nat)
    requires a.Length == 32 && bit <= 1
    modifies a
    ensures Val(a[..]) + lost * TWO_256 == 2 * old(Val(a[..])) + bit
  {
    ghost var was := a[..];
    var carry := bit;
    var i := 32;
    while i > 0
      invariant 0 <= i <= 32 && 0 <= carry <= 1
      invariant a[..i] == was[..i]
      invariant Val(a[..][i..]) + Shl(carry, 32 - i) == 2 * Val(was[i..]) + bit
    {
      i := i - 1;
      ghost var s, carryIn := a[..], carry;
      var x: int := a[i];
      assert x == was[i];
      a[i], carry := (x * 2 + carry) % 256, (x * 2 + carry) / 256;
      DoubleColumn(was, s, a[..], i, carryIn, carry, bit);
    }
    ChainDone(a[..], carry, 2 * Val(was[0..]) + bit);
    assert was[0..] == was;
    lost := carry;
  }

  /** `a -= b` with a borrow chain. */
  method SubtractFrom(a: array<byte>, b: Bytes32)
    requires a.Length == 32 && Val(b) <= Val(a[..])
    modifies a
    ensures Val(a[..]) == old(Val(a[..])) - Val(b)
  {
    ghost var was := a[..];
    var borrow := 0;
    var i := 32;
    while i > 0
      invariant 0 <= i <= 32 && 0 <= borrow <= 1
      invariant a[..i] == was[..i]
      invariant Val(a[..][i..]) + Shl(-borrow, 32 - i) == Val(was[i..]) - Val(b[i..])
    {
      i := i - 1;
      ghost var s, borrowIn := a[..], borrow;
      var x: int, y: int := a[i], b[i];
      assert x == was[i];
      var diff := x - y - borrow;
      if diff < 0 {
        a[i] := diff + 256;
        borrow := 1;
      } else {
        a[i] := diff;
        borrow := 0;
      }
      BorrowColumn(s, a[..], was, b, i, borrowIn, borrow);
    }
    DifferenceDone(a[..], borrow, was, b);
  }

  lemma BorrowColumn(s: Bytes32, t: Bytes32, a: Bytes32, b: Bytes32, i: nat, borrow: int, borrowOut: int)
    requires i < 32 && t[i + 1..] == s[i + 1..]
    requires var x: int, y: int, d: int := a[i], b[i], t[i]; x - y - borrow == d - 256 * borrowOut
    requires Val(s[i + 1..]) + Shl(-borrow, 31 - i) == Val(a[i + 1..]) - Val(b[i + 1..])
    ensures Val(t[i..]) + Shl(-borrowOut, 32 - i) == Val(a[i..]) - Val(b[i..])
  {
    var x: int, y: int := a[i], b[i];
    Column(s, t, i, x - y, -borrow, -borrowOut, Val(a[i + 1..]) - Val(b[i + 1..]));
    SuffixSum(a, b, i, x, y);
  }

  lemma DifferenceDone(r: Bytes32, borrow: int, a: Bytes32, b: Bytes32)
    requires Val(r[0..]) + Shl(-borrow, 32) == Val(a[0..]) - Val(b[0..]) && Val(b) <= Val(a) && 0 <= borrow <= 1
    ensures Val(r) == Val(a) - Val(b)
  {
    ChainDone(r, -borrow, Val(a[0..]) - Val(b[0..]));
    assert a[0..] == a && b[0..] == b;
    FullWidth(a);
  }

  // ---- bits ------------------------------------------------------------------------------

  function Pow2(n: nat): (p: nat)
    ensures p > 0
  {
    if n == 0 then 1 else 2 * Pow2(n - 1)
  }

  /** `x >> k`. */
  function Shr(x: nat, k: nat): nat {
    if k == 0 then x else Shr(x / 2, k - 1)
  }

  /** `x | (1 << k)`. */
  function OrBit(x: nat, k: nat): nat {
    if k == 0 then 2 * (x / 2) + 1 else 2 * OrBit(x / 2, k - 1) + x % 2
  }

  /** Bit `b` of a 32-byte string, bit 0 being the most significant: `(x[b/8] >> (7 - b%8)) & 1`. */
  function Bit(x: Bytes32, b: nat): (d: nat)
    requires b < 256
    ensures d <= 1
  {
    Shr(x[b / 8], 7 - b % 8) % 2
  }

  /** The number spelled by the first `n` bits. */
  function TopBits(x: Bytes32, n: nat): (v: nat)
    requires n <= 256
    ensures v < Pow2(n)
  {
    if n == 0 then 0 else 2 * TopBits(x, n - 1) + Bit(x, n - 1)
  }

  lemma {:induction false} ShrStep(x: nat, k: nat)
    ensures Shr(x, k) == 2 * Shr(x, k + 1) + Shr(x, k) % 2
  {
    if k > 0 {
      ShrStep(x / 2, k - 1);
    }
  }

  lemma {:induction false} ShrZero(x: nat, n: nat)
    requires x < Pow2(n)
    ensures Shr(x, n) == 0
  {
    if n > 0 {
      ShrZero(x / 2, n - 1);
    }
  }

  lemma {:induction false} OrBitBound(x: nat, k: nat, n: nat)
    requires x < Pow2(n) && k < n
    ensures OrBit(x, k) < Pow2(n)
  {
    assert Pow2(n) == 2 * Pow2(n - 1) && x / 2 < Pow2(n - 1);
    if k > 0 {
      OrBitBound(x / 2, k - 1, n - 1);
      assert x % 2 <= 1;
    }
  }

  lemma OrBitHalf(x: nat, k: nat)
    ensures OrBit(x, k) / 2 == if k == 0 then x / 2 else OrBit(x / 2, k - 1)
    ensures OrBit(x, k) % 2 == if k == 0 then 1 else x % 2
  {
    var half: nat := if k == 0 then x / 2 else OrBit(x / 2, k - 1);
    assert OrBit(x, k) == 2 * half + if k == 0 then 1 else x % 2;
  }

  lemma {:induction false} OrBitSets(x: nat, k: nat, i: nat)
    ensures Shr(OrBit(x, k), i) % 2 == if i == k then 1 else Shr(x, i) % 2
  {
    OrBitHalf(x, k);
    if i > 0 && k > 0 {
      OrBitSets(x / 2, k - 1, i - 1);
    }
  }

  lemma Pow2OfByte()
    ensures Pow2(8) == 256
  {
    assert Pow2(4) == 16;
  }

  lemma {:induction false} Pow2OfBytes(n: nat)
    ensures Pow2(8 * n) == Pow256(n)
  {
    if n > 0 {
      Pow2OfBytes(n - 1);
      Pow2Add(8, 8 * n - 8);
      Pow2OfByte();
    }
  }

  lemma {:induction false} Pow2Add(m: nat, n: nat)
    ensures Pow2(m + n) == Pow2(m) * Pow2(n)
  {
    if m > 0 {
      Pow2Add(m - 1, n);
      MulAssoc(2, Pow2(m - 1), Pow2(n));
    }
  }

  lemma {:induction false} Pow2Mono(m: nat, n: nat)
    requires m <= n
    ensures Pow2(m) <= Pow2(n)
  {
    if m < n {
      Pow2Mono(m, n - 1);
    }
  }

  lemma {:induction false} TopBitsInByte(x: Bytes32, j: nat, n: nat)
    requires j < 32 && n <= 8
    ensures TopBits(x, 8 * j + n) == Pow2(n) * TopBits(x, 8 * j) + Shr(x[j], 8 - n)
  {
    if n == 0 {
      Pow2OfByte();
      ShrZero(x[j], 8);
    } else {
      var m := n - 1;
      TopBitsInByte(x, j, m);
      ShrStep(x[j], 8 - n);
      assert (8 * j + m) / 8 == j && (8 * j + m) % 8 == m;
      MulAssoc(2, Pow2(m), TopBits(x, 8 * j));
    }
  }

  lemma {:induction false} TopBitsIsVal(x: Bytes32, j: nat)
    requires j <= 32
    ensures TopBits(x, 8 * j) == Val(x[..j])
  {
    if j > 0 {
      TopBitsIsVal(x, j - 1);
      assert TopBits(x, 8 * j) == 256 * TopBits(x, 8 * (j - 1)) + x[j - 1] by {
        TopBitsInByte(x, j - 1, 8);
        Pow2OfByte();
      }
      var s := x[..j];
      assert s[..j - 1] == x[..j - 1] && s[j - 1] == x[j - 1];
    }
  }

  lemma SetBitFrame(x: Bytes32, b: nat, c: byte, m: nat)
    requires b < 256 && m < 256 && c == OrBit(x[b / 8], 7 - b % 8)
    ensures Bit(x[b / 8 := c], m) == if m == b then 1 else Bit(x, m)
  {
    if m / 8 == b / 8 {
      OrBitSets(x[b / 8], 7 - b % 8, 7 - m % 8);
    }
  }

  lemma {:induction false} TopBitsFrame(x: Bytes32, y: Bytes32, n: nat)
    requires n <= 256 && forall m :: 0 <= m < n ==> Bit(x, m) == Bit(y, m)
    ensures TopBits(x, n) == TopBits(y, n)
  {
    if n > 0 {
      TopBitsFrame(x, y, n - 1);
    }
  }

  // ---- restoring division ----------------------------------------------------------------

  /** After `b` bits: quotient and remainder of the number those bits spell. */
  ghost predicate DividedTo(quotient: Bytes32, remainder: Bytes32, dividend: Bytes32, d: nat, b: nat)
    requires b <= 256
  {
    && Val(remainder) < d
    && TopBits(quotient, b) * d + Val(remainder) == TopBits(dividend, b)
    && forall m :: b <= m < 256 ==> Bit(quotient, m) == 0
  }

  method DivideBit(quotient: array<byte>, remainder: array<byte>, dividend: Bytes32, divisor: Bytes32, b: nat)
    requires quotient.Length == 32 == remainder.Length && quotient != remainder && b < 256
    requires DividedTo(quotient[..], remainder[..], dividend, Val(divisor), b)
    modifies quotient, remainder
    ensures DividedTo(quotient[..], remainder[..], dividend, Val(divisor), b + 1)
  {
    ghost var d, qv, r0 := Val(divisor), TopBits(quotient[..], b), Val(remainder[..]);
    var bit := Shr(dividend[b / 8], 7 - b % 8) % 2;
    NoLostCarry(dividend, b, qv, d, r0);
    ghost var lost := ShiftIn(remainder, bit);
    assert lost == 0;
    LexIsNumeric(remainder[..], divisor);
    ghost var qbit := 0;
    if !LexLess(remainder[..], divisor) {
      SubtractFrom(remainder, divisor);
      SetBit(quotient, b);
      qbit := 1;
    }
    assert TopBits(quotient[..], b + 1) == 2 * qv + qbit;
    DoubleStep(qv, qbit, d);
  }

  /** Binary long division.  The remainder after `b` bits is below both the divisor and 2^b, so
      doubling it never loses a carry, even for divisors above 2^255. */
  method Div256(dividend: Bytes32, divisor: Bytes32) returns (q: Bytes32)
    ensures Val(divisor) == 0 ==> Val(q) == 0
    ensures Val(divisor) != 0 ==> Val(q) == Val(dividend) / Val(divisor)
  {
    ValZeros(32);
    if divisor == Zeros(32) {
      return Zeros(32);
    }
    assert Val(divisor) != 0 by {
      if Val(divisor) == 0 {
        ValInjective(divisor, Zeros(32));
      }
    }
    var quotient := new byte[32](_ => 0);
    var remainder := new byte[32](_ => 0);
    assert quotient[..] == Zeros(32) && remainder[..] == Zeros(32);
    DivisionStart(dividend, Val(divisor));
    for b := 0 to 256
      invariant DividedTo(quotient[..], remainder[..], dividend, Val(divisor), b)
    {
      DivideBit(quotient, remainder, dividend, divisor, b);
    }
    q := quotient[..];
    DivisionDone(q, remainder[..], dividend, Val(divisor));
  }

  lemma DivisionStart(dividend: Bytes32, d: nat)
    requires d != 0
    ensures DividedTo(Zeros(32), Zeros(32), dividend, d, 0)
  {
    ValZeros(32);
    ZeroBits();
  }

  lemma DivisionDone(q: Bytes32, r: Bytes32, dividend: Bytes32, d: nat)
    requires DividedTo(q, r, dividend, d, 256)
    ensures d != 0 && Val(q) == Val(dividend) / d
  {
    TopBitsIsVal(q, 32);
    TopBitsIsVal(dividend, 32);
    assert q[..32] == q && dividend[..32] == dividend;
    DivUnique(Val(dividend), d, Val(q), Val(r));
  }

  lemma DoubleStep(q: nat, bit: nat, d: nat)
    ensures (2 * q + bit) * d == 2 * (q * d) + bit * d
  {}

  lemma ZeroBits()
    ensures forall m :: 0 <= m < 256 ==> Bit(Zeros(32), m) == 0
  {
    forall m | 0 <= m < 256 ensures Bit(Zeros(32), m) == 0 {
      ZeroShr(7 - m % 8);
    }
  }

  lemma {:induction false} ZeroShr(k: nat)
    ensures Shr(0, k) == 0
  {
    if k > 0 {
      ZeroShr(k - 1);
    }
  }

  /** `quotient[b / 8] |= 1 << (7 - b % 8)`. */
  method SetBit(a: array<byte>, b: nat)
    requires a.Length == 32 && b < 256
    modifies a
    ensures forall m :: 0 <= m < 256 ==> Bit(a[..], m) == if m == b then 1 else old(Bit(a[..], m))
    ensures TopBits(a[..], b) == old(TopBits(a[..], b))
  {
    ghost var was := a[..];
    Pow2OfByte();
    OrBitBound(a[b / 8], 7 - b % 8, 8);
    a[b / 8] := OrBit(a[b / 8], 7 - b % 8);
    assert a[..] == was[b / 8 := a[b / 8]];
    forall m | 0 <= m < 256
      ensures Bit(a[..], m) == if m == b then 1 else Bit(was, m)
    {
      SetBitFrame(was, b, a[b / 8], m);
    }
    TopBitsFrame(was, a[..], b);
  }

  lemma {:induction false} NoLostCarry(dividend: Bytes32, b: nat, q: nat, d: nat, r: nat)
    requires b < 256 && q * d + r == TopBits(dividend, b)
    ensures 2 * r + Bit(dividend, b) < TWO_256
  {
    assert r <= TopBits(dividend, b) by {
      assert q * d >= 0;
    }
    assert Pow2(b + 1) == 2 * Pow2(b) <= TWO_256 by {
      Pow2Width(b + 1);
    }
  }

  lemma {:induction false} Pow2Width(n: nat)
    requires n <= 256
    ensures Pow2(n) <= TWO_256
  {
    var w := 32;
    Pow2Mono(n, 8 * w);
    Pow2OfBytes(w);
    Pow256Values();
  }
}
