/** The difficulty rule: which compact bits a block must carry, and what that bounds. */
module Schedule {
  import opened BigEndian
  import opened Primitives
  import opened Arithmetic256
  import opened Difficulty
  import opened Retarget
  import opened Emission
  import opened ChainTree

  /** A marker: the products of a network's parameters are wanted. */
  predicate AtProducts(p: NetworkParams) { true }

  /** What the three networks' parameters meet: no 64-bit product overflows and the timespan is one
      the long division handles exactly.  The marker keeps the products out of unrelated proofs. */
  ghost predicate ParamsOk(p: NetworkParams) {
    && p.difficultyInterval > 0 && p.adjustmentFactor > 0 && p.targetBlockTime > 0
    && forall q: NetworkParams {:trigger AtProducts(q)} :: AtProducts(q) && q == p ==>
         && q.difficultyInterval * q.targetBlockTime <= 0x100_0000_0000_0000
         && q.difficultyInterval * q.targetBlockTime * q.adjustmentFactor < TWO_64
  }

  lemma NetworksOk()
    ensures ParamsOk(MAINNET) && ParamsOk(TESTNET) && ParamsOk(REGTEST)
  {}

  lemma TimespanFits(p: NetworkParams)
    requires ParamsOk(p)
    ensures 0 < Timespan(p) <= 0x100_0000_0000_0000 && Timespan(p) * p.adjustmentFactor < TWO_64
    ensures forall actual: nat :: Clamped(p, actual) < TWO_64
  {
    assert AtProducts(p);
    MulMono(1, p.targetBlockTime, p.difficultyInterval);
  }

  function Timespan(p: NetworkParams): nat {
    p.difficultyInterval * p.targetBlockTime
  }

  function ModInterval(h: nat, p: NetworkParams): nat
    requires p.difficultyInterval > 0
  {
    h % p.difficultyInterval
  }

  /** `actual_timespan` clamped to [timespan / factor, timespan * factor], at least one second. */
  function Clamped(p: NetworkParams, actual: nat): (c: nat)
    requires p.adjustmentFactor > 0
  {
    var low := Quotient(Timespan(p), p.adjustmentFactor);
    var low1 := if low > 1 then low else 1;
    var high := Timespan(p) * p.adjustmentFactor;
    var up := if actual > low1 then actual else low1;
    if up < high then up else high
  }

  /** On min-difficulty networks: the last bits that are not the floor, within the current period. */
  ghost function WalkBack(p: NetworkParams, hs: Headers, g: Hash, h: Hash): u32
    requires Tree(hs, g) && h in hs && p.difficultyInterval > 0
    decreases hs[h].height
  {
    if hs[h].height > 0 && ModInterval(hs[h].height, p) != 0 && hs[h].bits == p.genesisBits
    then WalkBack(p, hs, g, Parent(hs, g, h))
    else hs[h].bits
  }

  ghost function AncestorAt(hs: Headers, g: Hash, h: Hash, height: nat): (a: Hash)
    requires Tree(hs, g) && h in hs && height <= hs[h].height
    ensures a in hs && hs[a].height == height
    decreases hs[h].height
  {
    if hs[h].height == height then h else AncestorAt(hs, g, Parent(hs, g, h), height)
  }

  function TimestampGap(end: nat, start: nat): nat {
    if end >= start then end - start else 0
  }

  /** The retargeted 256-bit value before compact encoding. */
  ghost function RetargetValue(p: NetworkParams, hs: Headers, g: Hash, parent: Hash): (v: nat)
    requires Tree(hs, g) && parent in hs && ParamsOk(p) && ModInterval(hs[parent].height + 1, p) == 0
  {
    PeriodStart(hs[parent].height + 1, p);
    var start := AncestorAt(hs, g, parent, hs[parent].height + 1 - p.difficultyInterval);
    var actual := TimestampGap(hs[parent].timestamp, hs[start].timestamp);
    RetargetOf(TargetOf(hs[parent].bits), Clamped(p, actual), Timespan(p), TargetOf(p.genesisBits))
  }

  lemma PeriodStart(height: nat, p: NetworkParams)
    requires height > 0 && p.difficultyInterval > 0 && ModInterval(height, p) == 0
    ensures height >= p.difficultyInterval
  {
    if height < p.difficultyInterval {
      DivUnique(height, p.difficultyInterval, 0, height);
    }
  }

  lemma RetargetCapped(old_: nat, actual: nat, timespan: nat, max: nat)
    ensures RetargetOf(old_, actual, timespan, max) <= max
  {}

  /** The bits required of a child of `parent` with the given timestamp. */
  ghost function NextBits(p: NetworkParams, hs: Headers, g: Hash, parent: Hash, timestamp: u64): u32
    requires Tree(hs, g) && parent in hs && ParamsOk(p)
  {
    var height := hs[parent].height + 1;
    if height <= 1 then hs[parent].bits
    else if ModInterval(height, p) != 0 then
      if p.allowMinDifficulty then
        if timestamp > SatU64(hs[parent].timestamp + SatU64(p.targetBlockTime * 2)) then p.genesisBits
        else WalkBack(p, hs, g, parent)
      else hs[parent].bits
    else
      TargetBound(p.genesisBits);
      CompactOf(RetargetValue(p, hs, g, parent))
  }

  ghost predicate Demanded(p: NetworkParams, hs: Headers, g: Hash, h: Hash)
    requires Tree(hs, g) && ParamsOk(p) && h in hs && h != g
  {
    hs[h].bits == NextBits(p, hs, g, Parent(hs, g, h), hs[h].timestamp)
  }

  /** Every stored block carries the bits the rule demands. */
  ghost predicate FollowsSchedule(p: NetworkParams, hs: Headers, g: Hash)
    requires Tree(hs, g) && ParamsOk(p)
  {
    && hs[g].bits == p.genesisBits
    && forall h {:trigger Demanded(p, hs, g, h)} :: h in hs && h != g ==> Demanded(p, hs, g, h)
  }

  // ---- stability under growth ------------------------------------------------------------

  lemma {:induction false} WalkBackStable(p: NetworkParams, hs: Headers, more: Headers, g: Hash, h: Hash)
    requires Tree(hs, g) && Tree(more, g) && Extends(hs, more) && h in hs && p.difficultyInterval > 0
    ensures WalkBack(p, hs, g, h) == WalkBack(p, more, g, h)
    decreases hs[h].height
  {
    if hs[h].height > 0 {
      assert Parent(hs, g, h) == Parent(more, g, h);
      WalkBackStable(p, hs, more, g, Parent(hs, g, h));
    }
  }

  lemma {:induction false} AncestorStable(hs: Headers, more: Headers, g: Hash, h: Hash, height: nat)
    requires Tree(hs, g) && Tree(more, g) && Extends(hs, more) && h in hs && height <= hs[h].height
    ensures AncestorAt(hs, g, h, height) == AncestorAt(more, g, h, height)
    decreases hs[h].height
  {
    if hs[h].height != height {
      assert Parent(hs, g, h) == Parent(more, g, h);
      AncestorStable(hs, more, g, Parent(hs, g, h), height);
    }
  }

  lemma RetargetValueStable(p: NetworkParams, hs: Headers, more: Headers, g: Hash, parent: Hash)
    requires Tree(hs, g) && Tree(more, g) && Extends(hs, more) && parent in hs && ParamsOk(p)
    requires ModInterval(hs[parent].height + 1, p) == 0
    ensures RetargetValue(p, hs, g, parent) == RetargetValue(p, more, g, parent)
  {
    PeriodStart(hs[parent].height + 1, p);
    AncestorStable(hs, more, g, parent, hs[parent].height + 1 - p.difficultyInterval);
  }

  lemma NextBitsStable(p: NetworkParams, hs: Headers, more: Headers, g: Hash, parent: Hash, timestamp: u64)
    requires Tree(hs, g) && Tree(more, g) && Extends(hs, more) && parent in hs && ParamsOk(p)
    ensures NextBits(p, hs, g, parent, timestamp) == NextBits(p, more, g, parent, timestamp)
  {
    assert more[parent] == hs[parent];
    if ModInterval(hs[parent].height + 1, p) == 0 {
      RetargetValueStable(p, hs, more, g, parent);
    } else {
      WalkBackStable(p, hs, more, g, parent);
    }
  }

  /** A new block that carries the demanded bits keeps the whole tree on schedule. */
  lemma ScheduleGrows(p: NetworkParams, hs: Headers, g: Hash, h: Hash, header: Header)
    requires Tree(hs, g) && ParamsOk(p) && FollowsSchedule(p, hs, g) && h !in hs && h != ZERO_HASH
    requires header.prevHash in hs && header.height == hs[header.prevHash].height + 1
    requires header.bits == NextBits(p, hs, g, header.prevHash, header.timestamp)
    ensures Tree(hs[h := header], g) && FollowsSchedule(p, hs[h := header], g)
  {
    var more := hs[h := header];
    Grow(_ => 0, hs, g, h, header);
    forall k | k in more && k != g ensures Demanded(p, more, g, k) {
      if k != h {
        assert Demanded(p, hs, g, k) && Parent(hs, g, k) == Parent(more, g, k);
      }
      NextBitsStable(p, hs, more, g, Parent(more, g, k), more[k].timestamp);
    }
  }

  // ---- consequences ----------------------------------------------------------------------

  lemma RetargetBounds(p: NetworkParams, hs: Headers, g: Hash, parent: Hash)
    requires Tree(hs, g) && parent in hs && ParamsOk(p) && ModInterval(hs[parent].height + 1, p) == 0
    ensures RetargetValue(p, hs, g, parent) <= TargetOf(p.genesisBits) < TWO_256 / 2
    ensures RetargetValue(p, hs, g, parent) <= p.adjustmentFactor * TargetOf(hs[parent].bits)
  {
    TargetBound(p.genesisBits);
    PeriodStart(hs[parent].height + 1, p);
    var start := AncestorAt(hs, g, parent, hs[parent].height + 1 - p.difficultyInterval);
    var actual := TimestampGap(hs[parent].timestamp, hs[start].timestamp);
    var t := TargetOf(hs[parent].bits);
    RetargetCapped(t, Clamped(p, actual), Timespan(p), TargetOf(p.genesisBits));
    TimespanFits(p);
    ClampedQuotient(t, Clamped(p, actual), Timespan(p), p.adjustmentFactor);
  }

  lemma ClampedQuotient(t: nat, c: nat, d: nat, f: nat)
    requires d > 0 && c <= d * f
    ensures Quotient(t * c, d) <= f * t
  {
    assert t * c <= (f * t) * d by {
      MulMono(c, d * f, t);
      assert (d * f) * t == (f * t) * d;
    }
    if Quotient(t * c, d) > f * t {
      MulStep(f * t, d);
      MulMono(f * t + 1, Quotient(t * c, d), d);
    }
  }

  lemma {:induction false} WalkBackAncestor(p: NetworkParams, hs: Headers, g: Hash, h: Hash)
    requires Tree(hs, g) && h in hs && p.difficultyInterval > 0
    ensures exists a :: a in hs && hs[a].height <= hs[h].height && WalkBack(p, hs, g, h) == hs[a].bits
    decreases hs[h].height
  {
    if hs[h].height > 0 && ModInterval(hs[h].height, p) != 0 && hs[h].bits == p.genesisBits {
      WalkBackAncestor(p, hs, g, Parent(hs, g, h));
    }
  }

  /** Proof-of-work floor: no block of a scheduled tree has an easier target than genesis. */
  lemma {:induction false} TargetsBounded(p: NetworkParams, hs: Headers, g: Hash, h: Hash)
    requires Tree(hs, g) && ParamsOk(p) && FollowsSchedule(p, hs, g) && h in hs
    ensures TargetOf(hs[h].bits) <= TargetOf(p.genesisBits)
    decreases hs[h].height
  {
    if h != g {
      var parent := Parent(hs, g, h);
      assert Demanded(p, hs, g, h);
      TargetsBounded(p, hs, g, parent);
      if hs[h].height > 1 && ModInterval(hs[h].height, p) == 0 {
        RetargetBounds(p, hs, g, parent);
        EncodeRoundsDown(RetargetValue(p, hs, g, parent));
      } else if hs[h].bits == WalkBack(p, hs, g, parent) {
        WalkBackAncestor(p, hs, g, parent);
        var a :| a in hs && hs[a].height <= hs[parent].height && WalkBack(p, hs, g, parent) == hs[a].bits;
        TargetsBounded(p, hs, g, a);
      }
    }
  }

  /** At every retarget boundary the new target is at most `factor` times the parent's, never above
      the retargeted value, and within one part in 2^15 of it exactly when that value is at least
      2^16; a smaller value collapses to the zero target. */
  lemma RetargetStep(p: NetworkParams, hs: Headers, g: Hash, h: Hash)
    requires Tree(hs, g) && ParamsOk(p) && FollowsSchedule(p, hs, g)
    requires h in hs && hs[h].height > 1 && ModInterval(hs[h].height, p) == 0
    ensures var parent := Parent(hs, g, h);
            var v, t := RetargetValue(p, hs, g, parent), TargetOf(hs[h].bits);
            && t <= v <= p.adjustmentFactor * TargetOf(hs[parent].bits)
            && (v >= 0x1_0000 ==> (v - t) * 0x8000 < v)
            && (v < 0x1_0000 ==> t == 0)
  {
    var parent := Parent(hs, g, h);
    assert Demanded(p, hs, g, h);
    RetargetBounds(p, hs, g, parent);
    EncodeRoundsDown(RetargetValue(p, hs, g, parent));
  }
}
