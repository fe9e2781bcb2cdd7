/** How block times move the difficulty, in the timestamps and bits of the blocks on a path. */
module Adjustment {
  import opened BigEndian
  import opened Primitives
  import opened Arithmetic256
  import opened Difficulty
  import opened Retarget
  import opened Emission
  import opened ChainTree
  import opened Schedule

  function Min(a: int, b: int): int {
    if a < b then a else b
  }

  /** The new target value of a period that took `gap` seconds where `span` were meant: unchanged at exactly
      `span`, in proportion between `span / factor` and `span * factor`, and as at those ends beyond them;
      never easier than `cap`. */
  ghost predicate AdjustedTo(value: nat, target: nat, cap: nat, gap: int, span: nat, factor: nat)
    requires span > 0 && factor > 0
  {
    && (gap == span ==> value == Min(cap, target))
    && (gap <= span / factor ==> value == Min(cap, target * (if span / factor > 1 then span / factor else 1) / span))
    && (gap >= span * factor ==> value == Min(cap, factor * target))
    && (1 <= gap && span / factor <= gap <= span * factor ==> value == Min(cap, target * gap / span))
  }

  // ---- arithmetic ---------------------------------------------------------------------------

  lemma ExactQuotient(t: nat, k: nat, span: nat)
    requires span > 0
    ensures Quotient(t * (span * k), span) == k * t
  {
    assert t * (span * k) == (k * t) * span;
    DivUnique(t * (span * k), span, k * t, 0);
  }

  lemma ClampEnds(p: NetworkParams, actual: nat)
    requires ParamsOk(p)
    ensures var span, f := Timespan(p), p.adjustmentFactor;
            var low: nat := if span / f > 1 then span / f else 1;
            && 1 <= low <= span <= span * f
            && Clamped(p, actual) == if actual <= low then low else if actual >= span * f then span * f else actual
  {
    var span, f := Timespan(p), p.adjustmentFactor;
    TimespanFits(p);
    MulMono(1, f, span);
    DivAntitone(span, 1, f);
  }

  lemma AdjustedValue(p: NetworkParams, t: nat, cap: nat, gap: int)
    requires ParamsOk(p)
    ensures Timespan(p) > 0
    ensures var actual: nat := if gap > 0 then gap else 0;
            var value := RetargetOf(t, Clamped(p, actual), Timespan(p), cap);
            AdjustedTo(value, t, cap, gap, Timespan(p), p.adjustmentFactor)
  {
    var span, f := Timespan(p), p.adjustmentFactor;
    TimespanFits(p);
    ClampEnds(p, if gap > 0 then gap else 0);
    ExactQuotient(t, 1, span);
    ExactQuotient(t, f, span);
    assert span * 1 == span && 1 * t == t;
  }

  /** More time, higher value. */
  lemma QuotientMono(t: nat, a: nat, b: nat, span: nat)
    requires span > 0 && a <= b
    ensures Quotient(t * a, span) <= Quotient(t * b, span)
  {
    MulMono(a, b, t);
    var q, r := t * a / span, t * a % span;
    assert q * span <= t * b;
    DivAtLeast(t * b, span, q);
  }

  lemma ValueMono(p: NetworkParams, t: nat, cap: nat, a: nat, b: nat)
    requires ParamsOk(p) && a <= b
    ensures RetargetOf(t, Clamped(p, a), Timespan(p), cap) <= RetargetOf(t, Clamped(p, b), Timespan(p), cap)
  {
    TimespanFits(p);
    ClampEnds(p, a);
    ClampEnds(p, b);
    QuotientMono(t, Clamped(p, a), Clamped(p, b), Timespan(p));
  }

  // ---- blocks -------------------------------------------------------------------------------

  lemma {:induction false} PathAncestor(hs: Headers, g: Hash, h: Hash, height: nat)
    requires Tree(hs, g) && h in hs && height <= hs[h].height
    ensures |PathTo(hs, g, h)| == hs[h].height + 1 && PathTo(hs, g, h)[height] == AncestorAt(hs, g, h, height)
    ensures PathTo(hs, g, h)[height] in hs
    decreases hs[h].height
  {
    if hs[h].height != height {
      PathAncestor(hs, g, Parent(hs, g, h), height);
    }
  }

  /** Seconds between the first and the last block of the period that ends with `parent`. */
  ghost function PeriodGap(p: NetworkParams, hs: Headers, g: Hash, parent: Hash): int
    requires Tree(hs, g) && parent in hs && p.difficultyInterval <= hs[parent].height + 1 && p.difficultyInterval > 0
  {
    PathAncestor(hs, g, parent, hs[parent].height + 1 - p.difficultyInterval);
    var first := PathTo(hs, g, parent)[hs[parent].height + 1 - p.difficultyInterval];
    hs[parent].timestamp - hs[first].timestamp
  }

  lemma GapIsActual(p: NetworkParams, hs: Headers, g: Hash, parent: Hash)
    requires Tree(hs, g) && parent in hs && ParamsOk(p) && (hs[parent].height + 1) % p.difficultyInterval == 0
    ensures p.difficultyInterval <= hs[parent].height + 1
    ensures var gap := PeriodGap(p, hs, g, parent);
            var actual: nat := if gap > 0 then gap else 0;
            RetargetValue(p, hs, g, parent) ==
            RetargetOf(TargetOf(hs[parent].bits), Clamped(p, actual), Timespan(p), TargetOf(p.genesisBits))
  {
    PeriodStart(hs[parent].height + 1, p);
    PathAncestor(hs, g, parent, hs[parent].height + 1 - p.difficultyInterval);
  }

  /** At a boundary: the value demanded of a child of `parent`, from the two timestamps of the period. */
  lemma BoundaryValue(p: NetworkParams, hs: Headers, g: Hash, parent: Hash)
    requires Tree(hs, g) && parent in hs && ParamsOk(p) && (hs[parent].height + 1) % p.difficultyInterval == 0
    ensures p.difficultyInterval <= hs[parent].height + 1 && p.difficultyInterval * p.targetBlockTime > 0
    ensures AdjustedTo(RetargetValue(p, hs, g, parent), TargetOf(hs[parent].bits), TargetOf(p.genesisBits),
                       PeriodGap(p, hs, g, parent), p.difficultyInterval * p.targetBlockTime, p.adjustmentFactor)
  {
    GapIsActual(p, hs, g, parent);
    AdjustedValue(p, TargetOf(hs[parent].bits), TargetOf(p.genesisBits), PeriodGap(p, hs, g, parent));
  }

  /** On a tree on schedule every boundary block carries the compact form of the adjusted value. */
  lemma AdjustmentRule(p: NetworkParams, hs: Headers, g: Hash, h: Hash)
    requires Tree(hs, g) && ParamsOk(p) && FollowsSchedule(p, hs, g)
    requires h in hs && hs[h].height > 1 && hs[h].height % p.difficultyInterval == 0
    ensures var parent := Parent(hs, g, h);
            && p.difficultyInterval <= hs[parent].height + 1 && p.difficultyInterval * p.targetBlockTime > 0
            && exists v: nat ::
                 && v < TWO_256 && hs[h].bits == CompactOf(v)
                 && AdjustedTo(v, TargetOf(hs[parent].bits), TargetOf(p.genesisBits), PeriodGap(p, hs, g, parent),
                               p.difficultyInterval * p.targetBlockTime, p.adjustmentFactor)
  {
    var parent := Parent(hs, g, h);
    assert Demanded(p, hs, g, h);
    BoundaryValue(p, hs, g, parent);
    RetargetBounds(p, hs, g, parent);
  }

  /** A longer period never gives a lower value: for equal bits, whatever the trees. */
  lemma LongerIsEasier(p: NetworkParams, hs: Headers, g: Hash, parent: Hash, hs': Headers, g': Hash, parent': Hash)
    requires ParamsOk(p) && Tree(hs, g) && parent in hs && (hs[parent].height + 1) % p.difficultyInterval == 0
    requires Tree(hs', g') && parent' in hs' && (hs'[parent'].height + 1) % p.difficultyInterval == 0
    requires p.difficultyInterval <= hs[parent].height + 1 && p.difficultyInterval <= hs'[parent'].height + 1
    requires hs[parent].bits == hs'[parent'].bits && PeriodGap(p, hs, g, parent) <= PeriodGap(p, hs', g', parent')
    ensures RetargetValue(p, hs, g, parent) <= RetargetValue(p, hs', g', parent')
  {
    GapIsActual(p, hs, g, parent);
    GapIsActual(p, hs', g', parent');
    var a, b := PeriodGap(p, hs, g, parent), PeriodGap(p, hs', g', parent');
    ValueMono(p, TargetOf(hs[parent].bits), TargetOf(p.genesisBits), if a > 0 then a else 0, if b > 0 then b else 0);
  }

  /** A period of exactly the intended length keeps canonical bits. */
  lemma SteadyBits(p: NetworkParams, hs: Headers, g: Hash, h: Hash)
    requires Tree(hs, g) && ParamsOk(p) && FollowsSchedule(p, hs, g)
    requires h in hs && hs[h].height > 1 && hs[h].height % p.difficultyInterval == 0
    requires var parent := Parent(hs, g, h);
             && Canonical(hs[parent].bits) && p.difficultyInterval <= hs[parent].height + 1
             && PeriodGap(p, hs, g, parent) == p.difficultyInterval * p.targetBlockTime
    ensures hs[h].bits == hs[Parent(hs, g, h)].bits
  {
    var parent := Parent(hs, g, h);
    assert Demanded(p, hs, g, h);
    BoundaryValue(p, hs, g, parent);
    TargetsBounded(p, hs, g, parent);
    DecodeThenEncode(hs[parent].bits);
  }

  // ---- off the boundaries -------------------------------------------------------------------

  /** Where a walk back through floor bits ends: at a boundary, at genesis, or at other bits. */
  ghost predicate WalkEnds(p: NetworkParams, hs: Headers, path: seq<Hash>, m: int)
    requires p.difficultyInterval > 0 && forall i :: 0 <= i < |path| ==> path[i] in hs
  {
    && 0 <= m < |path| && (m % p.difficultyInterval == 0 || hs[path[m]].bits != p.genesisBits)
    && forall i :: m < i < |path| ==> hs[path[i]].bits == p.genesisBits && i % p.difficultyInterval != 0
  }

  lemma WalkLonger(p: NetworkParams, hs: Headers, path: seq<Hash>, h: Hash, m: int)
    requires p.difficultyInterval > 0 && (forall i :: 0 <= i < |path| ==> path[i] in hs) && h in hs
    requires WalkEnds(p, hs, path, m) && hs[h].bits == p.genesisBits && |path| % p.difficultyInterval != 0
    ensures forall i :: 0 <= i < |path + [h]| ==> (path + [h])[i] in hs
    ensures WalkEnds(p, hs, path + [h], m) && (path + [h])[m] == path[m]
  {}

  lemma PathStored(hs: Headers, g: Hash, h: Hash)
    requires Tree(hs, g) && h in hs
    ensures forall i :: 0 <= i < |PathTo(hs, g, h)| ==> PathTo(hs, g, h)[i] in hs
  {
    forall i | 0 <= i < |PathTo(hs, g, h)| ensures PathTo(hs, g, h)[i] in hs {
      PathAncestor(hs, g, h, i);
    }
  }

  /** Some index of the path is where the walk back from `h` ends. */
  ghost predicate WalkFound(p: NetworkParams, hs: Headers, path: seq<Hash>, bits: u32)
    requires p.difficultyInterval > 0 && forall i :: 0 <= i < |path| ==> path[i] in hs
  {
    exists m :: WalkEnds(p, hs, path, m) && bits == hs[path[m]].bits
  }

  lemma {:induction false} WalkBackEnds(p: NetworkParams, hs: Headers, g: Hash, h: Hash)
    requires Tree(hs, g) && h in hs && p.difficultyInterval > 0
    ensures forall i :: 0 <= i < |PathTo(hs, g, h)| ==> PathTo(hs, g, h)[i] in hs
    ensures WalkFound(p, hs, PathTo(hs, g, h), WalkBack(p, hs, g, h))
    decreases hs[h].height
  {
    var n := hs[h].height;
    PathStored(hs, g, h);
    if n > 0 && n % p.difficultyInterval != 0 && hs[h].bits == p.genesisBits {
      var below := PathTo(hs, g, Parent(hs, g, h));
      WalkBackEnds(p, hs, g, Parent(hs, g, h));
      var m :| WalkEnds(p, hs, below, m) && WalkBack(p, hs, g, Parent(hs, g, h)) == hs[below[m]].bits;
      WalkLonger(p, hs, below, h, m);
    } else {
      WalkStops(p, hs, PathTo(hs, g, h));
    }
  }

  lemma WalkStops(p: NetworkParams, hs: Headers, path: seq<Hash>)
    requires p.difficultyInterval > 0 && path != [] && forall i :: 0 <= i < |path| ==> path[i] in hs
    requires var n := |path| - 1; n == 0 || n % p.difficultyInterval == 0 || hs[path[n]].bits != p.genesisBits
    ensures WalkEnds(p, hs, path, |path| - 1)
  {
    assert 0 % p.difficultyInterval == 0;
  }

  /** Between boundaries a block repeats its parent's bits; where minimum difficulty is allowed, a block more
      than two block times after its parent carries the floor, and any other the bits the walk back ends at. */
  lemma BetweenBoundaries(p: NetworkParams, hs: Headers, g: Hash, h: Hash)
    requires Tree(hs, g) && ParamsOk(p) && FollowsSchedule(p, hs, g)
    requires h in hs && hs[h].height > 1 && hs[h].height % p.difficultyInterval != 0
    ensures var parent := Parent(hs, g, h);
            var path := PathTo(hs, g, parent);
            && (forall i :: 0 <= i < |path| ==> path[i] in hs)
            && (!p.allowMinDifficulty ==> hs[h].bits == hs[parent].bits)
            && (p.allowMinDifficulty && hs[h].timestamp > hs[parent].timestamp + 2 * p.targetBlockTime ==>
                 hs[h].bits == p.genesisBits)
            && (p.allowMinDifficulty && hs[h].timestamp <= hs[parent].timestamp + 2 * p.targetBlockTime ==>
                 WalkFound(p, hs, path, hs[h].bits))
  {
    assert Demanded(p, hs, g, h);
    WalkBackEnds(p, hs, g, Parent(hs, g, h));
  }

  /** The networks in numbers: two-week periods of ten-minute blocks on the main and test networks, changes of at
      most a factor four, and the easiest targets. */
  lemma NetworkNumbers()
    ensures && MAINNET.difficultyInterval == TESTNET.difficultyInterval == 2016
            && MAINNET.targetBlockTime == TESTNET.targetBlockTime == 600
            && MAINNET.difficultyInterval * MAINNET.targetBlockTime == 1_209_600
            && MAINNET.adjustmentFactor == TESTNET.adjustmentFactor == REGTEST.adjustmentFactor == 4
    ensures REGTEST.difficultyInterval == 1 && REGTEST.targetBlockTime == 1
    ensures !MAINNET.allowMinDifficulty && TESTNET.allowMinDifficulty && REGTEST.allowMinDifficulty
  {}

  lemma TargetIs(bits: u32, size: nat, word: nat)
    requires bits == size * 0x100_0000 + word && 3 <= size <= 32 && word < 0x80_0000
    ensures TargetOf(bits) == word * Pow256(size - 3)
  {
    DivUnique(bits, 0x100_0000, size, word);
    DivUnique(bits, 0x80_0000, 2 * size, word);
  }

  lemma EasiestTargets(n: nat)
    ensures n == 26 ==> TargetOf(MAINNET.genesisBits) == 0xFFFF * Pow256(n)
    ensures n == 27 ==> TargetOf(TESTNET.genesisBits) == 0x0F_FFFF * Pow256(n)
    ensures n == 29 ==> TargetOf(REGTEST.genesisBits) == 0x7F_FFFF * Pow256(n)
  {
    if n == 26 {
      TargetIs(MAINNET.genesisBits, n + 3, 0xFFFF);
    } else if n == 27 {
      TargetIs(TESTNET.genesisBits, n + 3, 0x0F_FFFF);
    } else if n == 29 {
      TargetIs(REGTEST.genesisBits, n + 3, 0x7F_FFFF);
    }
  }
}
