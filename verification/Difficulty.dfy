/** The compact-target codec, block work and the retarget step. */
module Difficulty {
  import opened BigEndian
  import opened Arithmetic256

  // ---- meaning of compact bits -----------------------------------------------------------

  /** The number a compact word stands for: sign bit masked off, sizes above 32 meaning zero. */
  function TargetOf(bits: u32): (t: nat)
  {
    var size: nat, word: nat := bits / 0x100_0000, bits % 0x80_0000;
    if size == 0 then 0
    else if size == 1 then word / 0x1_0000
    else if size == 2 then word / 0x100
    else if size <= 32 then word * Pow256(size - 3)
    else 0
  }

  /** floor(2^256 / (target + 1)), or no work at all for the zero target. */
  function WorkOf(bits: u32): (w: nat)
  {
    if TargetOf(bits) == 0 then 0 else TWO_256 / (TargetOf(bits) + 1)
  }

  /** Number of significant bytes. */
  function ByteLen(t: nat): (n: nat)
    ensures n == 0 <==> t == 0
  {
    if t == 0 then 0 else 1 + ByteLen(t / 256)
  }

  /** The compact word chosen for a target. */
  function CompactOf(t: nat): (bits: u32)
    requires t < TWO_256
  {
    var size := ByteLen(t);
    if size == 0 then 0 else
      var mantissa := Mantissa(t);
      MantissaBound(t);
      if mantissa >= 0x80_0000 then mantissa / 256 + (size + 1) * 0x100_0000
      else mantissa + size * 0x100_0000
  }

  /** The leading three bytes as the encoder extracts them: for short targets the low 24 bits are
      shifted right, which drops the significant byte itself. */
  function Mantissa(t: nat): nat {
    var size := ByteLen(t);
    if size <= 1 then t / 0x1_0000
    else if size == 2 then t / 0x100
    else t / Pow256(size - 3)
  }

  lemma {:induction false} ByteLenBounds(t: nat)
    requires t > 0
    ensures Pow256(ByteLen(t) - 1) <= t < Pow256(ByteLen(t))
  {
    if t >= 256 {
      ByteLenBounds(t / 256);
    } else {
      assert ByteLen(t / 256) == 0;
    }
  }

  lemma {:induction false} ByteLenUnique(t: nat, n: nat)
    requires n > 0 && Pow256(n - 1) <= t < Pow256(n)
    ensures ByteLen(t) == n
  {
    if n == 1 {
      assert t / 256 == 0;
    } else {
      ByteLenUnique(t / 256, n - 1);
    }
  }

  lemma {:induction false} ByteLenMax(t: nat)
    requires t < TWO_256
    ensures ByteLen(t) <= 32
  {
    if ByteLen(t) > 32 {
      ByteLenBounds(t);
      PowMono(32, ByteLen(t) - 1);
      Pow256Values();
    }
  }

  lemma {:induction false} PowMono(m: nat, n: nat)
    requires m <= n
    ensures Pow256(m) <= Pow256(n)
  {
    if m < n {
      PowMono(m, n - 1);
    }
  }

  lemma DivBelow(t: nat, d: nat, c: nat)
    requires d > 0 && t < c * d
    ensures t / d < c
  {
    if t / d >= c {
      MulMono(c, t / d, d);
    }
  }

  lemma DivAtLeast(t: nat, d: nat, c: nat)
    requires d > 0 && c * d <= t
    ensures c <= t / d
  {
    if t / d < c {
      MulMono(t / d + 1, c, d);
    }
  }

  lemma MantissaBound(t: nat)
    requires 0 < t < TWO_256
    ensures Mantissa(t) < 0x100_0000 && ByteLen(t) <= 32
    ensures ByteLen(t) >= 3 ==> Mantissa(t) >= 0x1_0000
    ensures ByteLen(t) < 3 ==> Mantissa(t) < 0x100
  {
    var n := ByteLen(t);
    ByteLenMax(t);
    ByteLenBounds(t);
    if n >= 3 {
      var p := Pow256(n - 3);
      assert Pow256(n - 1) == 0x1_0000 * p && Pow256(n) == 0x100_0000 * p by {
        assert Pow256(n - 2) == 256 * p;
        assert Pow256(n - 1) == 256 * Pow256(n - 2);
      }
      DivBelow(t, p, 0x100_0000);
      DivAtLeast(t, p, 0x1_0000);
    } else {
      Pow256Values();
    }
  }

  // ---- codec laws ------------------------------------------------------------------------

  /** Decoding what the encoder wrote never exceeds the target; it is within one part in 2^15 of it
      exactly for targets in [2^16, 2^255), and all other nonzero targets decode to zero. */
  lemma EncodeRoundsDown(t: nat)
    requires t < TWO_256
    ensures TargetOf(CompactOf(t)) <= t
    ensures 0x1_0000 <= t < TWO_256 / 2 ==> (t - TargetOf(CompactOf(t))) * 0x8000 < t
    ensures !(0x1_0000 <= t < TWO_256 / 2) ==> TargetOf(CompactOf(t)) == 0
  {
    if t > 0 {
      var n, m := ByteLen(t), Mantissa(t);
      MantissaBound(t);
      ByteLenBounds(t);
      Pow256Values();
      if n <= 2 {
        assert Pow256(0) == 1;
        SmallTargetsVanish(t);
      } else if n == 3 {
        ThreeByteTarget(t);
      } else {
        LongTarget(t);
      }
    }
  }

  lemma SmallTargetsVanish(t: nat)
    requires 0 < t < TWO_256 && ByteLen(t) <= 2
    ensures TargetOf(CompactOf(t)) == 0 && t < 0x1_0000
  {
    MantissaBound(t);
    ByteLenBounds(t);
    Pow256Values();
    var n := ByteLen(t);
    assert CompactOf(t) == Mantissa(t) + n * 0x100_0000;
    assert CompactOf(t) / 0x100_0000 == n && CompactOf(t) % 0x80_0000 == Mantissa(t);
    if n == 1 {
      assert t < 0x100;
      assert Mantissa(t) == t / 0x1_0000 == 0;
    } else {
      assert Mantissa(t) / 0x100 == 0;
    }
  }

  lemma ThreeByteTarget(t: nat)
    requires 0 < t < TWO_256 && ByteLen(t) == 3
    ensures 0x1_0000 <= t < TWO_256 / 2
    ensures TargetOf(CompactOf(t)) <= t && (t - TargetOf(CompactOf(t))) * 0x8000 < t
  {
    assert 0x1_0000 <= t < 0x100_0000 by {
      ByteLenBounds(t);
      Pow256Values();
    }
    assert Mantissa(t) == t by { assert Pow256(0) == 1; }
    if t >= 0x80_0000 {
      CompactParts(t / 256, 4);
      assert TargetOf(CompactOf(t)) == t / 256 * 256 by { assert Pow256(1) == 256; }
    } else {
      CompactParts(t, 3);
      assert TargetOf(CompactOf(t)) == t by { assert Pow256(0) == 1; }
    }
  }

  lemma LongTarget(t: nat)
    requires 0 < t < TWO_256 && ByteLen(t) > 3
    ensures TargetOf(CompactOf(t)) <= t && 0x1_0000 <= t
    ensures t < TWO_256 / 2 ==> (t - TargetOf(CompactOf(t))) * 0x8000 < t
    ensures t >= TWO_256 / 2 ==> TargetOf(CompactOf(t)) == 0
  {
    var n, m := ByteLen(t), Mantissa(t);
    MantissaBound(t);
    assert 0x1_0000 <= t by {
      ByteLenBounds(t);
      Pow256Values();
      PowMono(3, n - 1);
    }
    TopHalf(t);
    LongDecoded(t);
    if m < 0x80_0000 {
      Truncated(t, m, Pow256(n - 3));
    } else if n < 32 {
      ShiftedTarget(t, n);
    }
  }

  lemma LongDecoded(t: nat)
    requires 0 < t < TWO_256 && ByteLen(t) > 3
    ensures var n, m := ByteLen(t), Mantissa(t);
            TargetOf(CompactOf(t)) == if m < 0x80_0000 then m * Pow256(n - 3)
                                      else if n < 32 then m / 256 * Pow256(n - 2) else 0
  {
    MantissaBound(t);
    if Mantissa(t) < 0x80_0000 {
      CompactParts(Mantissa(t), ByteLen(t));
    } else {
      CompactParts(Mantissa(t) / 256, ByteLen(t) + 1);
    }
  }

  lemma ShiftedTarget(t: nat, n: nat)
    requires n > 3 && t / Pow256(n - 3) >= 0x80_0000
    ensures var d := t / Pow256(n - 3) / 256 * Pow256(n - 2);
            d <= t && (t - d) * 0x8000 < t
  {
    assert Pow256(n - 2) == 256 * Pow256(n - 3);
    DivDiv(t, Pow256(n - 3));
    Truncated(t, t / Pow256(n - 3) / 256, Pow256(n - 2));
  }

  lemma CompactParts(word: nat, size: nat)
    requires word < 0x80_0000 && size <= 33
    ensures (word + size * 0x100_0000) / 0x100_0000 == size
    ensures (word + size * 0x100_0000) % 0x80_0000 == word
    ensures (word + size * 0x100_0000) % 0x100_0000 == word
  {}

  lemma DivDiv(t: nat, p: nat)
    requires p > 0
    ensures t / p / 256 == t / (256 * p)
  {
    var q := t / p / 256;
    var a, b := t / p, t % p;
    var c := a % 256;
    assert t == q * (256 * p) + (c * p + b) by {
      assert a * p == (256 * q) * p + c * p by { MulDiff(256 * q, -c, p); }
      assert (256 * q) * p == q * (256 * p);
    }
    assert 0 <= c * p + b < 256 * p by { MulMono(c, 255, p); }
    DivUnique(t, 256 * p, q, c * p + b);
  }

  lemma Truncated(t: nat, m: nat, p: nat)
    requires p > 0 && m == t / p && m >= 0x8000
    ensures m * p <= t && (t - m * p) * 0x8000 < t
  {
    var r := t % p;
    assert t == m * p + r;
    MulMono(0x8000, m, p);
  }

  /** The top bit of a 32-byte target is the top bit of its leading three bytes. */
  lemma TopHalf(t: nat)
    requires 0 < t < TWO_256 && ByteLen(t) > 3
    ensures t >= TWO_256 / 2 <==> ByteLen(t) == 32 && Mantissa(t) >= 0x80_0000
  {
    var n := ByteLen(t);
    ByteLenMax(t);
    ByteLenBounds(t);
    Pow256Values();
    if n < 32 {
      PowMono(n, 31);
      assert Pow256(32) == 256 * Pow256(31);
    } else {
      var p := Pow256(n - 3);
      PowAdd(3, n - 3);
      assert 0x80_0000 * p == TWO_256 / 2;
      if t >= TWO_256 / 2 {
        DivAtLeast(t, p, 0x80_0000);
      } else {
        DivBelow(t, p, 0x80_0000);
      }
    }
  }

  /** The words that survive decoding and re-encoding. */
  predicate Canonical(bits: u32) {
    var size, low := bits / 0x100_0000, bits % 0x100_0000;
    || bits == 0
    || (size == 3 && 0x1_0000 <= low < 0x80_0000)
    || (4 <= size <= 32 && 0x8000 <= low < 0x80_0000)
  }

  lemma TargetBound(bits: u32)
    ensures TargetOf(bits) < TWO_256 / 2
  {
    var size, word := bits / 0x100_0000, bits % 0x80_0000;
    Pow256Values();
    assert Pow256(0) == 1;
    if 3 < size <= 32 {
      PowAdd(3, 29);
      PowMono(size - 3, 29);
      var p, q := Pow256(size - 3), Pow256(29);
      assert word * p <= 0x7F_FFFF * p by { MulMono(word, 0x7F_FFFF, p); }
      assert 0x7F_FFFF * p <= 0x7F_FFFF * q;
      assert 0x100_0000 * q == TWO_256;
    }
  }

  /** A compact word round-trips exactly when it is canonical. */
  lemma DecodeThenEncode(bits: u32)
    ensures TargetOf(bits) < TWO_256
    ensures CompactOf(TargetOf(bits)) == bits <==> Canonical(bits)
  {
    TargetBound(bits);
    var size, low := bits / 0x100_0000, bits % 0x100_0000;
    var t := TargetOf(bits);
    if Canonical(bits) && bits != 0 {
      CanonicalRoundTrips(bits);
    } else if CompactOf(t) == bits {
      EncoderIsCanonical(t);
    }
  }

  lemma CanonicalRoundTrips(bits: u32)
    requires Canonical(bits) && bits != 0
    requires TargetOf(bits) < TWO_256
    ensures CompactOf(TargetOf(bits)) == bits
  {
    var size: nat, word: nat := bits / 0x100_0000, bits % 0x80_0000;
    assert bits == word + size * 0x100_0000;
    if word >= 0x1_0000 {
      FullMantissa(word, size, TargetOf(bits));
    } else {
      ShiftedMantissa(word, size, TargetOf(bits));
    }
  }

  /** A three-byte mantissa in front of `k` bytes. */
  lemma Leading(m: nat, k: nat, t: nat)
    requires 0x1_0000 <= m < 0x100_0000 && t == m * Pow256(k)
    ensures ByteLen(t) == k + 3 && Mantissa(t) == m
  {
    var p := Pow256(k);
    assert Pow256(k + 2) == 0x1_0000 * p && Pow256(k + 3) == 0x100_0000 * p by {
      assert Pow256(k + 1) == 256 * p;
      assert Pow256(k + 2) == 256 * Pow256(k + 1);
    }
    assert 0x1_0000 * p <= t < 0x100_0000 * p by {
      MulMono(0x1_0000, m, p);
      MulMono(m, 0xFF_FFFF, p);
    }
    ByteLenUnique(t, k + 3);
    DivUnique(t, p, m, 0);
  }

  lemma FullMantissa(word: nat, size: nat, t: nat)
    requires 0x1_0000 <= word < 0x80_0000 && 3 <= size <= 32 && t == word * Pow256(size - 3) < TWO_256
    ensures CompactOf(t) == word + size * 0x100_0000
  {
    Leading(word, size - 3, t);
  }

  lemma ShiftedMantissa(word: nat, size: nat, t: nat)
    requires 0x8000 <= word < 0x1_0000 && 4 <= size <= 32 && t == word * Pow256(size - 3) < TWO_256
    ensures CompactOf(t) == word + size * 0x100_0000
  {
    assert t == (256 * word) * Pow256(size - 4) by {
      MulAssoc(word, 256, Pow256(size - 4));
    }
    Leading(256 * word, size - 4, t);
  }

  lemma EncoderIsCanonical(t: nat)
    requires t < TWO_256 / 2 && TargetOf(CompactOf(t)) == t
    ensures Canonical(CompactOf(t))
  {
    if t > 0 {
      EncodeRoundsDown(t);
      MantissaBound(t);
      var n, m := ByteLen(t), Mantissa(t);
      assert n >= 3 by {
        if n <= 2 {
          SmallTargetsVanish(t);
        }
      }
      assert m >= 0x80_0000 ==> n < 32 by {
        if n > 3 {
          TopHalf(t);
        }
      }
      if m >= 0x80_0000 {
        CompactParts(m / 256, n + 1);
      } else {
        CompactParts(m, n);
      }
    }
  }

  // ---- work ------------------------------------------------------------------------------

  lemma DivAntitone(x: nat, c: nat, d: nat)
    requires 0 < c <= d
    ensures x / d <= x / c
  {
    var q := x / d;
    MulMono(c, d, q);
    assert q * c <= q * d <= x;
    DivAtLeast(x, c, q);
  }

  /** A smaller nonzero target is at least as much work, and every nonzero target is some work. */
  lemma WorkAntitone(a: u32, b: u32)
    requires 0 < TargetOf(a) <= TargetOf(b)
    ensures WorkOf(a) >= WorkOf(b) > 0
  {
    TargetBound(b);
    DivAntitone(TWO_256, TargetOf(a) + 1, TargetOf(b) + 1);
    DivAtLeast(TWO_256, TargetOf(b) + 1, 1);
  }

  lemma WorkBound(bits: u32)
    ensures WorkOf(bits) < TWO_256
    ensures WorkOf(bits) > 0 <==> TargetOf(bits) > 0
  {
    if TargetOf(bits) > 0 {
      WorkAntitone(bits, bits);
      DivAntitone(TWO_256, 2, TargetOf(bits) + 1);
    }
  }

  // ---- the byte-level functions ----------------------------------------------------------

  lemma ThreeBytes(word: nat)
    requires word < 0x100_0000
    ensures Val([word / 0x1_0000, word / 256 % 256, word % 256]) == word
  {
    var s: seq<byte> := [word / 0x1_0000, word / 256 % 256, word % 256];
    assert s[..2][..1] == [s[0]] && s[..2][1] == s[1];
    assert Val(s[..2]) == 256 * Val([s[0]]) + s[1];
    assert [s[0]][..0] == [];
  }

  lemma PlacedAt(lead: nat, mid: seq<byte>, tail: nat)
    ensures Val(Zeros(lead) + (mid + Zeros(tail))) == Val(mid) * Pow256(tail)
  {
    ValConcat(Zeros(lead), mid + Zeros(tail));
    ValConcat(mid, Zeros(tail));
    ValZeros(lead);
    ValZeros(tail);
  }

  method BitsToTarget(bits: u32) returns (t: Bytes32)
    ensures Val(t) == TargetOf(bits)
  {
    if bits == 0 {
      ValZeros(32);
      return Zeros(32);
    }
    var size: nat, word: nat := bits / 0x100_0000, bits % 0x80_0000;
    assert Pow256(0) == 1;
    var target := new byte[32](_ => 0);
    assert target[..] == Zeros(32);
    if size == 0 {
      ValZeros(32);
      return target[..];
    }
    if size <= 3 {
      WriteShort(target, word, size);
    } else if size <= 32 {
      WriteLong(target, word, size);
    } else {
      ValZeros(32);
      assert target[..] == Zeros(32);
    }
    t := target[..];
  }

  method WriteShort(target: array<byte>, word: nat, size: nat)
    requires target.Length == 32 && target[..] == Zeros(32) && word < 0x80_0000 && 1 <= size <= 3
    modifies target
    ensures Val(target[..]) == if size == 1 then word / 0x1_0000 else if size == 2 then word / 0x100 else word
  {
    var offset := 3 - size;
    target[29 + offset] := word / 0x1_0000;
    if size >= 2 {
      target[30 + offset] := word / 256 % 256;
    }
    if size == 3 {
      target[31] := word % 256;
    }
    ShortTargetBytes(target[..], word, size);
  }

  method WriteLong(target: array<byte>, word: nat, size: nat)
    requires target.Length == 32 && target[..] == Zeros(32) && word < 0x80_0000 && 4 <= size <= 32
    modifies target
    ensures Val(target[..]) == word * Pow256(size - 3)
  {
    var start := 32 - size;
    target[start] := word / 0x1_0000;
    target[start + 1] := word / 256 % 256;
    target[start + 2] := word % 256;
    ghost var mid: seq<byte> := [word / 0x1_0000, word / 256 % 256, word % 256];
    ThreeBytes(word);
    assert target[..] == Zeros(start) + (mid + Zeros(size - 3));
    PlacedAt(start, mid, size - 3);
  }

  lemma ShortTargetBytes(t: Bytes32, word: nat, size: nat)
    requires word < 0x80_0000 && 1 <= size <= 3
    requires t[..29] == Zeros(29)
    requires size == 1 ==> t[29] == 0 == t[30] && t[31] == word / 0x1_0000
    requires size == 2 ==> t[29] == 0 && t[30] == word / 0x1_0000 && t[31] == word / 256 % 256
    requires size == 3 ==> t[29] == word / 0x1_0000 && t[30] == word / 256 % 256 && t[31] == word % 256
    ensures Val(t) == if size == 1 then word / 0x1_0000 else if size == 2 then word / 0x100 else word
  {
    LowThree(t);
    ShortWord(word);
    var a: int, b: int, c: int := t[29], t[30], t[31];
    assert Val(t) == a * 0x1_0000 + b * 0x100 + c;
  }

  /** A 24-bit word from its bytes, whole and shifted right. */
  lemma ShortWord(word: nat)
    ensures (word / 0x1_0000) * 0x100 + word / 256 % 256 == word / 0x100
    ensures (word / 0x1_0000) * 0x1_0000 + (word / 256 % 256) * 0x100 + word % 256 == word
  {
    assert word / 256 == (word / 0x1_0000) * 256 + word / 256 % 256;
  }

  lemma LowThree(t: Bytes32)
    requires t[..29] == Zeros(29)
    ensures Val(t) == Word24(t[29], t[30], t[31])
  {
    var v := Word24(t[29], t[30], t[31]);
    ThreeBytes(v);
    assert t[29..] == [v / 0x1_0000, v / 256 % 256, v % 256];
    assert t == Zeros(29) + (t[29..] + Zeros(0));
    PlacedAt(29, t[29..], 0);
    assert Pow256(0) == 1;
  }

  function Word24(a: byte, b: byte, c: byte): (w: nat)
    ensures w / 0x1_0000 == a && w / 256 % 256 == b && w % 256 == c && w < 0x100_0000
  {
    var high: int := 256 * a as int + b as int;
    assert high / 256 == a && high % 256 == b;
    assert (256 * high + c as int) / 256 == high;
    256 * high + c as int
  }

  method TargetToBits(target: Bytes32) returns (bits: u32)
    ensures Val(target) < TWO_256 && bits == CompactOf(Val(target))
  {
    FullWidth(target);
    var i := 0;
    while i < 32 && target[i] == 0
      invariant 0 <= i <= 32
      invariant target[..i] == Zeros(i)
    {
      assert target[..i + 1] == target[..i] + [target[i]];
      i := i + 1;
    }
    if i == 32 {
      ValZeros(32);
      assert target[..32] == target;
      return 0;
    }
    var size: nat := 32 - i;
    LeadingZeros(target, i);
    var start := 32 - size;
    var compact: nat;
    if size <= 3 {
      var word := Word24(target[29], target[30], target[31]);
      ShortMantissa(target, i, word);
      compact := word / (if size == 3 then 1 else if size == 2 then 0x100 else 0x1_0000);
    } else {
      compact := Word24(target[start], target[start + 1], target[start + 2]);
      LongMantissa(target, i, compact);
    }
    MantissaBound(Val(target));
    if compact >= 0x80_0000 {
      compact := compact / 256;
      size := size + 1;
    }
    bits := compact + size * 0x100_0000;
  }

  lemma LeadingZeros(t: Bytes32, i: nat)
    requires i < 32 && t[..i] == Zeros(i) && t[i] != 0
    ensures ByteLen(Val(t)) == 32 - i && Val(t) == Val(t[i..])
  {
    var n := 32 - i;
    assert t == t[..i] + t[i..];
    ValConcat(t[..i], t[i..]);
    ValZeros(i);
    ValBound(t[i..]);
    assert t[i..] == [t[i]] + t[i + 1..];
    ValCons(t[i], t[i + 1..]);
    MulMono(1, t[i], Pow256(n - 1));
    ByteLenUnique(Val(t), n);
  }

  lemma ShortMantissa(t: Bytes32, i: nat, word: nat)
    requires 29 <= i < 32 && t[..i] == Zeros(i) && t[i] != 0
    requires word == Word24(t[29], t[30], t[31])
    ensures Val(t) == word
    ensures Mantissa(Val(t)) == word / (if i == 29 then 1 else if i == 30 then 0x100 else 0x1_0000)
  {
    LeadingZeros(t, i);
    assert t[..29] == Zeros(29) by { assert t[..29] == t[..i][..29]; }
    LowThree(t);
    assert Pow256(0) == 1;
  }

  lemma LongMantissa(t: Bytes32, i: nat, word: nat)
    requires i < 29 && t[..i] == Zeros(i) && t[i] != 0
    requires word == Word24(t[i], t[i + 1], t[i + 2])
    ensures Mantissa(Val(t)) == word
  {
    LeadingZeros(t, i);
    var rest := Val(t[i + 3..]);
    TopWord(t, i);
    ValBound(t[i + 3..]);
    assert Val(t) / Pow256(29 - i) == word by {
      DivUnique(Val(t), Pow256(29 - i), word, rest);
    }
  }

  lemma TopWord(t: Bytes32, i: nat)
    requires i < 29
    ensures Val(t[i..]) == Word24(t[i], t[i + 1], t[i + 2]) * Pow256(29 - i) + Val(t[i + 3..])
  {
    var head, tail := t[i..i + 3], t[i + 3..];
    ThreeAt(t, i);
    assert t[i..] == head + tail;
    ValConcat(head, tail);
  }

  lemma ThreeAt(t: Bytes32, i: nat)
    requires i < 29
    ensures Val(t[i..i + 3]) == Word24(t[i], t[i + 1], t[i + 2])
  {
    var s := t[i..i + 3];
    assert s[..2] == [t[i], t[i + 1]] && s[..2][..1] == [t[i]] && [t[i]][..0] == [];
    assert Val([t[i]]) == t[i];
    assert Val(s[..2]) == 256 * Val([t[i]]) + t[i + 1];
  }

  lemma {:induction false} ComplementVal(s: seq<byte>, c: seq<byte>)
    requires |c| == |s| && forall i :: 0 <= i < |s| ==> c[i] == 255 - s[i]
    ensures Val(c) == Pow256(|s|) - 1 - Val(s)
  {
    if s != [] {
      ComplementVal(s[..|s| - 1], c[..|s| - 1]);
    }
  }

  method WorkFromCompact(bits: u32) returns (w: Bytes32)
    ensures Val(w) == WorkOf(bits)
  {
    var target := BitsToTarget(bits);
    w := WorkFromTarget(target);
  }

  function Complement(s: Bytes32): (c: Bytes32)
    ensures forall i :: 0 <= i < 32 ==> c[i] == 255 - s[i]
  {
    seq(32, i requires 0 <= i < 32 => 255 - s[i])
  }

  method CopyOf(s: Bytes32) returns (a: array<byte>)
    ensures fresh(a) && a.Length == 32 && a[..] == s
  {
    a := new byte[32](i requires 0 <= i < 32 => s[i]);
  }

  /** `(~target) / (target + 1) + 1` is floor(2^256 / (target + 1)) for every nonzero target,
      2^256 - 1 included. */
  method WorkFromTarget(target: Bytes32) returns (w: Bytes32)
    ensures Val(w) == if Val(target) == 0 then 0 else TWO_256 / (Val(target) + 1)
  {
    ValZeros(32);
    FullWidth(target);
    if target == Zeros(32) {
      return Zeros(32);
    }
    assert Val(target) != 0 by {
      if Val(target) == 0 {
        ValInjective(target, Zeros(32));
      }
    }
    ComplementVal(target, Complement(target));
    var plusOne := CopyOf(target);
    var carry := Increment(plusOne);
    FullWidth(plusOne[..]);
    if carry != 0 {
      return One();
    }
    var quotient := Div256(Complement(target), plusOne[..]);
    QuotientPlusOne(Val(target));
    w := Incremented(quotient);
  }

  method Incremented(s: Bytes32) returns (w: Bytes32)
    requires Val(s) + 1 < TWO_256
    ensures Val(w) == Val(s) + 1
  {
    var a := CopyOf(s);
    var carry := Increment(a);
    w := a[..];
    FullWidth(w);
  }

  function One(): (r: Bytes32)
    ensures Val(r) == 1
  {
    ValZeros(31);
    assert (Zeros(31) + [1])[..31] == Zeros(31);
    Zeros(31) + [1]
  }

  lemma QuotientPlusOne(t: nat)
    requires 0 < t < TWO_256
    ensures (TWO_256 - 1 - t) / (t + 1) + 1 == TWO_256 / (t + 1) <= TWO_256 / 2
  {
    DivAntitone(TWO_256, 2, t + 1);
    var d := t + 1;
    var q, r := (TWO_256 - d) / d, (TWO_256 - d) % d;
    assert TWO_256 - d == q * d + r;
    assert (q + 1) * d == q * d + d;
    DivUnique(TWO_256, d, q + 1, r);
  }
}
