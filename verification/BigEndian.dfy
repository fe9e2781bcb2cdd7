/** Big-endian byte strings as natural numbers: the reading under which every 32-byte target,
    work and chainwork value of the node is a number below 2^256. */
module BigEndian {

  type byte = x: int | 0 <= x < 256

  const TWO_32: nat := 0x1_0000_0000
  const TWO_64: nat := 0x1_0000_0000_0000_0000
  const TWO_256: nat := 0x1_0000000000000000_0000000000000000_0000000000000000_0000000000000000

  type u32 = x: int | 0 <= x < TWO_32
  type u64 = x: int | 0 <= x < TWO_64

  /** A `[u8; 32]` value. */
  type Bytes32 = s: seq<byte> | |s| == 32 witness seq(32, _ => 0)

  function Pow256(n: nat): (p: nat)
    ensures p > 0
  {
    if n == 0 then 1 else 256 * Pow256(n - 1)
  }

  /** `c` shifted left by `n` bytes; negative for borrows. */
  function Shl(c: int, n: nat): int {
    if n == 0 then c else 256 * Shl(c, n - 1)
  }

  function Val(s: seq<byte>): nat {
    if s == [] then 0 else 256 * Val(s[..|s| - 1]) + s[|s| - 1]
  }

  /** Reduction to 256 bits. */
  function Wrap(a: nat): nat {
    a % TWO_256
  }

  /** 256-bit wrapping addition. */
  function AddWrap(a: nat, b: nat): nat {
    Wrap(a + b)
  }

  function Zeros(n: nat): (s: seq<byte>)
    ensures |s| == n
  {
    seq(n, _ => 0)
  }

  /** Rust's ordering of byte arrays: first difference decides. */
  predicate LexLess(a: seq<byte>, b: seq<byte>)
    requires |a| == |b|
  {
    a != [] && (a[0] < b[0] || (a[0] == b[0] && LexLess(a[1..], b[1..])))
  }

  lemma {:induction false} PowAdd(m: nat, n: nat)
    ensures Pow256(m + n) == Pow256(m) * Pow256(n)
  {
    if m > 0 {
      PowAdd(m - 1, n);
      MulAssoc(256, Pow256(m - 1), Pow256(n));
    }
  }

  lemma MulAssoc(a: int, b: int, c: int)
    ensures a * (b * c) == (a * b) * c
  {}

  lemma MulMono(a: int, b: int, c: int)
    requires a <= b && 0 <= c
    ensures a * c <= b * c
  {}

  lemma Pow256Values()
    ensures Pow256(1) == 0x100 && Pow256(2) == 0x1_0000 && Pow256(3) == 0x100_0000
    ensures Pow256(4) == TWO_32 && Pow256(8) == TWO_64 && Pow256(32) == TWO_256
  {
    assert Pow256(0) == 1;
    assert Pow256(2) == 256 * Pow256(1);
    assert Pow256(3) == 256 * Pow256(2);
    assert Pow256(4) == 256 * Pow256(3);
    PowAdd(4, 4);
    PowAdd(8, 8);
    PowAdd(16, 16);
  }

  lemma {:induction false} ValBound(s: seq<byte>)
    ensures Val(s) < Pow256(|s|)
  {
    if s != [] {
      ValBound(s[..|s| - 1]);
    }
  }

  lemma {:induction false} ValConcat(a: seq<byte>, b: seq<byte>)
    ensures Val(a + b) == Val(a) * Pow256(|b|) + Val(b)
  {
    if b == [] {
      assert a + b == a;
    } else {
      var b' := b[..|b| - 1];
      assert (a + b)[..|a + b| - 1] == a + b';
      ValConcat(a, b');
      MulAssoc(Val(a), Pow256(|b'|), 256);
      assert Val(a) * Pow256(|b|) == 256 * (Val(a) * Pow256(|b'|)) by {
        calc {
          Val(a) * (256 * Pow256(|b'|));
          Val(a) * (Pow256(|b'|) * 256);
          (Val(a) * Pow256(|b'|)) * 256;
        }
      }
    }
  }

  lemma {:induction false} ValCons(b: byte, s: seq<byte>)
    ensures Val([b] + s) == b * Pow256(|s|) + Val(s)
  {
    assert Val([b]) == b by { assert [b][..0] == []; }
    ValConcat([b], s);
  }

  lemma {:induction false} ShlIsProduct(c: int, n: nat)
    ensures Shl(c, n) == c * Pow256(n)
  {
    if n > 0 {
      ShlIsProduct(c, n - 1);
      assert 256 * (c * Pow256(n - 1)) == c * (256 * Pow256(n - 1));
    }
  }

  lemma {:induction false} ShlAdd(c: int, d: int, n: nat)
    ensures Shl(c + d, n) == Shl(c, n) + Shl(d, n)
    ensures Shl(c - d, n) == Shl(c, n) - Shl(d, n)
  {
    if n > 0 {
      ShlAdd(c, d, n - 1);
    }
  }

  lemma {:induction false} ShlByte(c: int, n: nat)
    ensures Shl(256 * c, n) == Shl(c, n + 1)
  {
    if n > 0 {
      ShlByte(c, n - 1);
    }
  }

  lemma {:induction false} ValZeros(n: nat)
    ensures Val(Zeros(n)) == 0
  {
    if n > 0 {
      assert Zeros(n)[..n - 1] == Zeros(n - 1);
      ValZeros(n - 1);
    }
  }

  /** Numbers below a power of 256 have one representation of each length. */
  lemma {:induction false} ValInjective(a: seq<byte>, b: seq<byte>)
    requires |a| == |b| && Val(a) == Val(b)
    ensures a == b
  {
    if a != [] {
      ValInjective(a[..|a| - 1], b[..|b| - 1]);
      assert a == a[..|a| - 1] + [a[|a| - 1]];
      assert b == b[..|b| - 1] + [b[|b| - 1]];
    }
  }

  lemma LeadingDigit(a: nat, b: nat, x: nat, y: nat, p: nat)
    requires x < p && y < p
    ensures a < b ==> a * p + x < b * p + y
    ensures b < a ==> b * p + y < a * p + x
  {
    if a < b {
      MulMono(a + 1, b, p);
      assert (a + 1) * p == a * p + p;
    } else if b < a {
      MulMono(b + 1, a, p);
      assert (b + 1) * p == b * p + p;
    }
  }

  /** The byte-wise ordering is the numeric one. */
  lemma {:induction false} LexIsNumeric(a: seq<byte>, b: seq<byte>)
    requires |a| == |b|
    ensures LexLess(a, b) <==> Val(a) < Val(b)
  {
    if a != [] {
      var n := |a| - 1;
      assert a == [a[0]] + a[1..] && b == [b[0]] + b[1..];
      ValCons(a[0], a[1..]);
      ValCons(b[0], b[1..]);
      ValBound(a[1..]);
      ValBound(b[1..]);
      LexIsNumeric(a[1..], b[1..]);
      LeadingDigit(a[0], b[0], Val(a[1..]), Val(b[1..]), Pow256(n));
    }
  }

  lemma MulDiff(a: int, b: int, c: int)
    ensures (a - b) * c == a * c - b * c
  {}
}
