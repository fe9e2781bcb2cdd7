/** `retarget_target`: byte-wise multiply into 40 bytes, then long division by the timespan. */
module Retarget {
  import opened BigEndian
  import opened Arithmetic256
  import opened Difficulty

  /** What a retarget should be: min(max, floor(old * actual / timespan)), with the two guards. */
  function RetargetOf(old_: nat, actual: nat, timespan: nat, max: nat): nat {
    if timespan == 0 then max
    else if actual == 0 then 0
    else
      var q := Quotient(old_ * actual, timespan);
      if q > max then max else q
  }

  function Quotient(x: nat, d: nat): (q: nat)
    requires d > 0
  {
    x / d
  }

  // ---- multiplication --------------------------------------------------------------------

  /** `len` big-endian bytes of a number. */
  function ToBytes(n: nat, len: nat): (s: seq<byte>)
    ensures |s| == len
  {
    if len == 0 then [] else ToBytes(n / 256, len - 1) + [n % 256]
  }

  lemma {:induction false} ToBytesVal(n: nat, len: nat)
    requires n < Pow256(len)
    ensures Val(ToBytes(n, len)) == n
  {
    if len > 0 {
      ToBytesVal(n / 256, len - 1);
      assert ToBytes(n, len)[..len - 1] == ToBytes(n / 256, len - 1);
    }
  }

  method MultiplyByU64(a: Bytes32, m: u64) returns (p: seq<byte>)
    ensures |p| == 40 && Val(p) == Val(a) * m
  {
    var product := new byte[40](_ => 0);
    var carry: nat := 0;
    var i := 32;
    while i > 0
      invariant 0 <= i <= 32 && carry <= m
      invariant Val(product[..][i + 8..]) + Shl(carry, 32 - i) == Val(a[i..]) * m
    {
      i := i - 1;
      ghost var s, carryIn := product[..], carry;
      var x: int := a[i];
      var v := x * m + carry;
      CarryBound(x, m, carry);
      product[i + 8], carry := v % 256, v / 256;
      Column(s, product[..], i + 8, x * m, carryIn, carry, Val(a[i + 1..]) * m);
      SuffixTimes(a, i, x, m);
    }
    assert a[0..] == a;
    Pow256Values();
    ShlIsProduct(carry, 32);
    FlushCarry(product, carry);
    p := product[..];
  }

  lemma CarryBound(x: int, m: nat, carry: nat)
    requires 0 <= x <= 255 && carry <= m
    ensures 0 <= (x * m + carry) / 256 <= m
  {
    MulMono(x, 255, m);
  }

  /** Propagate the remaining carry into the eight bytes of headroom. */
  method FlushCarry(product: array<byte>, carryIn: nat)
    requires product.Length == 40 && carryIn < Pow256(8)
    modifies product
    ensures Val(product[..]) == old(Val(product[..][8..])) + carryIn * TWO_256
  {
    ghost var total := Val(product[..][8..]) + Shl(carryIn, 32);
    var carry := carryIn;
    var i := 8;
    while i > 0
      invariant 0 <= i <= 8 && 0 <= carry < Pow256(i)
      invariant Val(product[..][i..]) + Shl(carry, 40 - i) == total
    {
      i := i - 1;
      ghost var s, c := product[..], carry;
      product[i], carry := carry % 256, carry / 256;
      Column(s, product[..], i, 0, c, carry, total);
      ShlIsProduct(0, 39 - i);
    }
    Pow256Values();
    ShlIsProduct(carryIn, 32);
    ShlIsProduct(carry, 40);
    assert product[..][0..] == product[..];
  }

  lemma SuffixTimes(a: seq<byte>, i: nat, x: int, m: nat)
    requires i < |a| && x == a[i]
    ensures Shl(x * m, |a| - 1 - i) + Val(a[i + 1..]) * m == Val(a[i..]) * m
  {
    SuffixStep(a, i);
    ShlTimes(x, m, |a| - 1 - i);
    var p: int, r: int := Shl(x, |a| - 1 - i), Val(a[i + 1..]);
    MulDiff(p, -r, m);
  }

  lemma {:induction false} ShlTimes(x: int, m: nat, n: nat)
    ensures Shl(x * m, n) == Shl(x, n) * m
  {
    if n > 0 {
      ShlTimes(x, m, n - 1);
      MulAssoc(256, Shl(x, n - 1), m);
    }
  }

  // ---- long division ---------------------------------------------------------------------

  datatype Division = Division(digits: seq<byte>, rem: nat)

  /** Schoolbook division, one byte at a time, with the 64-bit truncation of `remainder << 8`. */
  function LongDivide(p: seq<byte>, timespan: u64): (d: Division)
    requires timespan > 0
    ensures |d.digits| == |p| && d.rem < timespan
  {
    if p == [] then Division([], 0) else
      var d := LongDivide(p[..|p| - 1], timespan);
      var x := ShiftU64(d.rem, p[|p| - 1]);
      Division(d.digits + [Digit(d.rem, p[|p| - 1], timespan)], Remainder(x, timespan))
  }

  /** `(remainder << 8) | byte` in 64 bits. */
  function ShiftU64(rem: nat, b: byte): (r: nat)
    ensures r < TWO_64
    ensures rem < 0x100_0000_0000_0000 ==> r == rem * 256 + b
  {
    rem * 256 % TWO_64 + b
  }

  function Remainder(x: nat, d: nat): (r: nat)
    requires d > 0
    ensures r < d
  {
    x % d
  }

  function Digit(rem: nat, b: byte, timespan: u64): (q: byte)
    requires rem < timespan
    ensures q == Quotient(ShiftU64(rem, b), timespan)
  {
    DigitFits(rem, b, timespan);
    Quotient(ShiftU64(rem, b), timespan)
  }

  lemma DigitFits(rem: nat, b: byte, timespan: u64)
    requires rem < timespan
    ensures Quotient(ShiftU64(rem, b), timespan) < 256
  {
    if timespan <= 0x100_0000_0000_0000 {
      assert ShiftU64(rem, b) == rem * 256 + b < 256 * timespan;
    }
    DivBelow(ShiftU64(rem, b), timespan, 256);
  }

  /** With a timespan up to 2^56 the truncation never bites. */
  lemma {:induction false} LongDivideExact(p: seq<byte>, timespan: u64)
    requires 0 < timespan <= 0x100_0000_0000_0000
    ensures Val(p) == Val(LongDivide(p, timespan).digits) * timespan + LongDivide(p, timespan).rem
  {
    if p != [] {
      var n := |p| - 1;
      LongDivideExact(p[..n], timespan);
      var d, e := LongDivide(p[..n], timespan), LongDivide(p, timespan);
      assert e.digits[..n] == d.digits;
      DivideColumn(Val(d.digits), d.rem, p[n], timespan, e.digits[n], e.rem);
    }
  }

  lemma DivideColumn(q: nat, rem: nat, b: nat, t: nat, digit: nat, rem': nat)
    requires t > 0 && digit == Quotient(rem * 256 + b, t) && rem' == Remainder(rem * 256 + b, t)
    ensures 256 * (q * t + rem) + b == (256 * q + digit) * t + rem'
  {
    assert rem * 256 + b == digit * t + rem';
    assert (256 * q + digit) * t == (256 * q) * t + digit * t;
    assert (256 * q) * t == 256 * (q * t);
  }

  /** Eight headroom digits decide overflow; the other 32 are the result. */
  lemma OverflowIsHeadroom(digits: seq<byte>)
    requires |digits| == 40
    ensures Val(digits) == Val(digits[..8]) * TWO_256 + Val(digits[8..])
    ensures Val(digits[..8]) != 0 <==> Val(digits) >= TWO_256
  {
    assert digits == digits[..8] + digits[8..];
    ValConcat(digits[..8], digits[8..]);
    FullWidth(digits[8..]);
    if Val(digits[..8]) != 0 {
      MulMono(1, Val(digits[..8]), TWO_256);
    }
  }

  /** The value the code returns for a product, for every nonzero timespan. */
  function CappedQuotient(product: seq<byte>, timespan: u64, max: Bytes32): Bytes32
    requires |product| == 40 && timespan > 0
  {
    var digits := LongDivide(product, timespan).digits;
    if Val(digits[..8]) != 0 || LexLess(max, digits[8..]) then max else digits[8..]
  }

  /** After `i` digits: the first eight decide the overflow, the others fill the quotient. */
  ghost predicate DividedTo(digits: seq<byte>, quotient: seq<byte>, overflow: bool)
    requires |digits| <= 40 && |quotient| == 32
  {
    if |digits| <= 8 then overflow <==> Val(digits) != 0
    else (overflow <==> Val(digits[..8]) != 0) && quotient[..|digits| - 8] == digits[8..]
  }

  lemma NextDigit(digits: seq<byte>, q: byte, quotient: seq<byte>, overflow: bool)
    requires |digits| < 40 && |quotient| == 32 && DividedTo(digits, quotient, overflow)
    ensures var i := |digits|;
            DividedTo(digits + [q], if i >= 8 then quotient[i - 8 := q] else quotient, overflow || (i < 8 && q != 0))
  {
    var i, more := |digits|, digits + [q];
    if i < 8 {
      assert more[..i] == digits;
    } else {
      assert more[..8] == digits[..8] && digits[..8] + digits[8..] == digits;
      assert i == 8 ==> digits[..8] == digits;
      assert more[8..] == digits[8..] + [q];
    }
  }

  method DivideByU64(product: seq<byte>, timespan: u64) returns (result: Bytes32, overflow: bool)
    requires |product| == 40 && timespan > 0
    ensures result == LongDivide(product, timespan).digits[8..]
    ensures overflow <==> Val(LongDivide(product, timespan).digits[..8]) != 0
  {
    var quotient := new byte[32](_ => 0);
    var remainder := 0;
    overflow := false;
    for i := 0 to 40
      invariant remainder == LongDivide(product[..i], timespan).rem
      invariant DividedTo(LongDivide(product[..i], timespan).digits, quotient[..], overflow)
    {
      assert product[..i + 1][..i] == product[..i];
      ghost var before, d := quotient[..], LongDivide(product[..i], timespan);
      DigitFits(remainder, product[i], timespan);
      remainder := ShiftU64(remainder, product[i]);
      var q := Quotient(remainder, timespan);
      remainder := Remainder(remainder, timespan);
      NextDigit(d.digits, q, before, overflow);
      if i >= 8 {
        quotient[i - 8] := q;
        assert quotient[..] == before[i - 8 := q];
      } else if q != 0 {
        overflow := true;
      }
    }
    assert product[..40] == product;
    result := quotient[..];
  }

  method RetargetTarget(oldTarget: Bytes32, actual: u64, timespan: u64, maxTarget: Bytes32) returns (r: Bytes32)
    ensures timespan == 0 ==> r == maxTarget
    ensures timespan > 0 && actual == 0 ==> r == Zeros(32)
    ensures timespan > 0 && actual > 0 ==>
              r == CappedQuotient(ToBytes(Val(oldTarget) * actual, 40), timespan, maxTarget)
    ensures timespan <= 0x100_0000_0000_0000 ==>
              Val(r) == RetargetOf(Val(oldTarget), actual, timespan, Val(maxTarget))
  {
    ValZeros(32);
    if timespan == 0 {
      return maxTarget;
    }
    if actual == 0 {
      return Zeros(32);
    }
    var product := MultiplyByU64(oldTarget, actual);
    ProductBytes(product, Val(oldTarget) * actual);
    var result, overflow := DivideByU64(product, timespan);
    if overflow || LexLess(maxTarget, result) {
      r := maxTarget;
    } else {
      r := result;
    }
    if timespan <= 0x100_0000_0000_0000 {
      CappedQuotientExact(product, timespan, maxTarget);
    }
  }

  lemma ProductBytes(p: seq<byte>, n: nat)
    requires |p| == 40 && Val(p) == n
    ensures p == ToBytes(n, 40)
  {
    ValBound(p);
    ToBytesVal(n, 40);
    ValInjective(p, ToBytes(n, 40));
  }

  lemma CappedQuotientExact(product: seq<byte>, timespan: u64, max: Bytes32)
    requires |product| == 40 && 0 < timespan <= 0x100_0000_0000_0000
    ensures Val(CappedQuotient(product, timespan, max)) ==
            if Quotient(Val(product), timespan) > Val(max) then Val(max) else Quotient(Val(product), timespan)
    ensures Val(LongDivide(product, timespan).digits[..8]) != 0 <==> Quotient(Val(product), timespan) >= TWO_256
  {
    var d := LongDivide(product, timespan);
    LongDivideExact(product, timespan);
    DivUnique(Val(product), timespan, Val(d.digits), d.rem);
    OverflowIsHeadroom(d.digits);
    LexIsNumeric(max, d.digits[8..]);
    FullWidth(max);
  }

  // ---- when the code is exact ------------------------------------------------------------

  /** 2^64 as a 40-byte product: a one followed by eight zero bytes. */
  function TwoTo64(zeros: nat): seq<byte> {
    (Zeros(31) + [1]) + Zeros(zeros)
  }

  lemma {:induction false} ZerosDivide(n: nat, timespan: u64)
    requires timespan > 0
    ensures LongDivide(Zeros(n), timespan) == Division(Zeros(n), 0)
  {
    if n > 0 {
      assert Zeros(n)[..n - 1] == Zeros(n - 1);
      ZerosDivide(n - 1, timespan);
      Undivided(0, 0, timespan);
      assert Zeros(n - 1) + [0] == Zeros(n);
    }
  }

  /** A value below the divisor passes through as remainder with digit zero. */
  lemma Undivided(rem: nat, b: byte, timespan: u64)
    requires rem < timespan && ShiftU64(rem, b) < timespan
    ensures Digit(rem, b, timespan) == 0
    ensures Remainder(ShiftU64(rem, b), timespan) == ShiftU64(rem, b)
  {
    DivUnique(ShiftU64(rem, b), timespan, 0, ShiftU64(rem, b));
  }

  /** Beyond 2^56 the remainder grows to 2^56 undivided and the next shift drops it. */
  lemma {:induction false} ShiftedOut(k: nat, timespan: u64)
    requires timespan > 0x100_0000_0000_0000 && k <= 8
    ensures LongDivide(TwoTo64(k), timespan) == Division(Zeros(32 + k), if k < 8 then Pow256(k) else 0)
  {
    if k == 0 {
      FirstDigits(timespan);
    } else {
      ShiftedOut(k - 1, timespan);
      assert TwoTo64(k)[..31 + k] == TwoTo64(k - 1) && TwoTo64(k)[31 + k] == 0;
      assert Zeros(31 + k) + [0] == Zeros(32 + k);
      NextRemainder(k, timespan);
    }
  }

  lemma FirstDigits(timespan: u64)
    requires timespan > 0x100_0000_0000_0000
    ensures LongDivide(TwoTo64(0), timespan) == Division(Zeros(32), Pow256(0))
  {
    assert TwoTo64(0)[..31] == Zeros(31);
    ZerosDivide(31, timespan);
    assert Pow256(0) == 1;
    Undivided(0, 1, timespan);
    assert Zeros(31) + [0] == Zeros(32);
  }

  /** One more zero byte: no digit comes out, and the eighth shift loses the remainder. */
  lemma NextRemainder(k: nat, timespan: u64)
    requires timespan > 0x100_0000_0000_0000 && 1 <= k <= 8
    ensures Pow256(k - 1) < timespan && Digit(Pow256(k - 1), 0, timespan) == 0
    ensures Remainder(ShiftU64(Pow256(k - 1), 0), timespan) == if k < 8 then Pow256(k) else 0
  {
    Pow256Values();
    assert Pow256(7) == 0x100_0000_0000_0000 by { assert Pow256(8) == 256 * Pow256(7); }
    PowMono(k - 1, 7);
    if k < 8 {
      PowMono(k, 7);
      assert ShiftU64(Pow256(k - 1), 0) == Pow256(k);
    } else {
      assert ShiftU64(Pow256(7), 0) == 0;
    }
    Undivided(Pow256(k - 1), 0, timespan);
  }

  lemma {:induction false} TwoTo64Val(k: nat)
    ensures Val(TwoTo64(k)) == Pow256(k)
  {
    ValConcat(Zeros(31) + [1], Zeros(k));
    ValZeros(k);
    ValZeros(31);
    assert (Zeros(31) + [1])[..31] == Zeros(31);
  }

  /** A timespan is safe for every target and every actual timespan exactly when it is at most 2^56. */
  lemma RetargetExactIff(timespan: u64)
    requires timespan > 0
    ensures timespan <= 0x100_0000_0000_0000 <==>
            forall product: seq<byte>, max: Bytes32 | |product| == 40 ::
              Val(CappedQuotient(product, timespan, max)) ==
              (if Quotient(Val(product), timespan) > Val(max) then Val(max) else Quotient(Val(product), timespan))
  {
    if timespan <= 0x100_0000_0000_0000 {
      forall product: seq<byte>, max: Bytes32 | |product| == 40
        ensures Val(CappedQuotient(product, timespan, max)) ==
                (if Quotient(Val(product), timespan) > Val(max) then Val(max) else Quotient(Val(product), timespan))
      {
        CappedQuotientExact(product, timespan, max);
      }
    } else {
      var product, max := TwoTo64(8), ToBytes(TWO_64, 32);
      LargeTimespanFails(timespan);
      assert |product| == 40;
    }
  }

  lemma LargeTimespanFails(timespan: u64)
    requires timespan > 0x100_0000_0000_0000
    ensures Val(CappedQuotient(TwoTo64(8), timespan, ToBytes(TWO_64, 32))) == 0
    ensures 0 < Quotient(Val(TwoTo64(8)), timespan) <= Val(ToBytes(TWO_64, 32))
  {
    ShiftedOut(8, timespan);
    TwoTo64Val(8);
    Pow256Values();
    ToBytesVal(TWO_64, 32);
    assert Zeros(40)[..8] == Zeros(8) && Zeros(40)[8..] == Zeros(32);
    ValZeros(8);
    ValZeros(32);
    LexIsNumeric(ToBytes(TWO_64, 32), Zeros(32));
    DivAtLeast(TWO_64, timespan, 1);
    DivAntitone(TWO_64, 1, timespan);
  }
}
