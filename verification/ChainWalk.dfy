/** The ancestor walks of the node: fork search and the difficulty rule, over stored blocks. */
module ChainWalk {
  import opened BigEndian
  import opened Primitives
  import opened Difficulty
  import opened Retarget
  import opened Emission
  import opened ChainTree
  import opened Schedule
  import opened ActiveChain

  /** The disconnect and connect lists: the two paths beyond their most recent common ancestor. */
  ghost predicate IsFork(hs: Headers, g: Hash, oldTip: Hash, newTip: Hash, disconnect: seq<Hash>, connect: seq<Hash>)
    requires Tree(hs, g) && oldTip in hs && newTip in hs
  {
    var p, q := PathTo(hs, g, oldTip), PathTo(hs, g, newTip);
    var k := CommonLen(p, q);
    k >= 1 && disconnect == Reversed(p[k..]) && connect == q[k..]
  }

  /** The height of the most recent common ancestor. */
  ghost function ForkHeight(hs: Headers, g: Hash, oldTip: Hash, newTip: Hash): (k: nat)
    requires Tree(hs, g) && oldTip in hs && newTip in hs
    ensures k <= hs[oldTip].height
  {
    CommonNonempty(hs, g, oldTip, newTip);
    CommonLen(PathTo(hs, g, oldTip), PathTo(hs, g, newTip)) - 1
  }

  /** The new path beyond the fork. */
  ghost function ForkConnect(hs: Headers, g: Hash, oldTip: Hash, newTip: Hash): (s: seq<Hash>)
    requires Tree(hs, g) && oldTip in hs && newTip in hs
    ensures |s| == hs[newTip].height - ForkHeight(hs, g, oldTip, newTip)
  {
    PathTo(hs, g, newTip)[CommonLen(PathTo(hs, g, oldTip), PathTo(hs, g, newTip))..]
  }

  lemma ForkConnectStored(hs: Headers, g: Hash, oldTip: Hash, newTip: Hash)
    requires Tree(hs, g) && oldTip in hs && newTip in hs
    ensures forall i :: 0 <= i < |ForkConnect(hs, g, oldTip, newTip)| ==> ForkConnect(hs, g, oldTip, newTip)[i] in hs
  {
    var k := CommonLen(PathTo(hs, g, oldTip), PathTo(hs, g, newTip));
    forall i | 0 <= i < |ForkConnect(hs, g, oldTip, newTip)| ensures ForkConnect(hs, g, oldTip, newTip)[i] in hs {
      PathNode(hs, g, newTip, k + i);
    }
  }

  /** The two lists share no block. */
  lemma ForkDisjoint(hs: Headers, g: Hash, oldTip: Hash, newTip: Hash, disconnect: seq<Hash>, connect: seq<Hash>)
    requires Tree(hs, g) && oldTip in hs && newTip in hs && IsFork(hs, g, oldTip, newTip, disconnect, connect)
    ensures forall x :: x in disconnect ==> x !in connect
  {
    var p, q := PathTo(hs, g, oldTip), PathTo(hs, g, newTip);
    var k := CommonLen(p, q);
    forall i, j | 0 <= i < |disconnect| && 0 <= j < |connect| ensures disconnect[i] != connect[j] {
      if disconnect[i] == connect[j] {
        BranchesDisjoint(hs, g, oldTip, newTip, |p| - 1 - i, k + j);
      }
    }
  }

  lemma SplitAt(p: seq<Hash>, q: seq<Hash>, k: nat, d: seq<Hash>, c: seq<Hash>)
    requires k <= |p| && k <= |q| && p[..k] == q[..k] && d == Reversed(p[k..]) && c == q[k..]
    ensures |d| == |p| - k && p[..k] + c == q
    ensures forall j :: 0 <= j < |d| ==> d[j] == p[|p| - 1 - j]
  {}

  /** Both chains continue from one ancestor, whose height is the old height less the number of
      blocks to disconnect; the old chain is taken back tip first and the new one follows upwards. */
  lemma ForkMeans(hs: Headers, g: Hash, oldTip: Hash, newTip: Hash, disconnect: seq<Hash>, connect: seq<Hash>)
    requires Tree(hs, g) && oldTip in hs && newTip in hs && IsFork(hs, g, oldTip, newTip, disconnect, connect)
    ensures |disconnect| == hs[oldTip].height - ForkHeight(hs, g, oldTip, newTip)
    ensures forall j :: 0 <= j < |disconnect| ==> disconnect[j] == PathTo(hs, g, oldTip)[hs[oldTip].height - j]
    ensures var p, q, n := PathTo(hs, g, oldTip), PathTo(hs, g, newTip), hs[oldTip].height + 1 - |disconnect|;
            n <= |q| && p[..n] == q[..n] && p[..n] + connect == q
  {
    var p, q := PathTo(hs, g, oldTip), PathTo(hs, g, newTip);
    CommonLenFacts(p, q);
    SplitAt(p, q, CommonLen(p, q), disconnect, connect);
  }

  lemma ForkSize(hs: Headers, g: Hash, oldTip: Hash, newTip: Hash, disconnect: seq<Hash>, connect: seq<Hash>)
    requires Tree(hs, g) && oldTip in hs && newTip in hs && IsFork(hs, g, oldTip, newTip, disconnect, connect)
    ensures |disconnect| == hs[oldTip].height - ForkHeight(hs, g, oldTip, newTip)
            && connect == ForkConnect(hs, g, oldTip, newTip)
  {}

  method CollectAncestors(storage: map<Hash, Block>, ghost g: Hash, tip: Hash) returns (ancestors: set<Hash>)
    requires Tree(HeadersOf(storage), g) && tip in storage
    ensures forall x :: x in ancestors <==> x in PathTo(HeadersOf(storage), g, tip)
  {
    ghost var hs := HeadersOf(storage);
    ghost var p := PathTo(hs, g, tip);
    ghost var i: nat := storage[tip].header.height;
    var cursor := tip;
    ancestors := {tip};
    while storage[cursor].header.prevHash != ZERO_HASH
      invariant cursor in storage && i < |p| && cursor == p[i] && storage[cursor].header.height == i
      invariant forall x :: x in ancestors <==> x in p[i..]
      decreases storage[cursor].header.height
    {
      StepDown(storage, g, tip, i);
      cursor := storage[cursor].header.prevHash;
      ancestors := ancestors + {cursor};
      i := i - 1;
      assert p[i..] == [p[i]] + p[i + 1..];
    }
    StopsAtRoot(storage, g, tip, i);
    assert p[0..] == p;
  }

  /** Below a path node that names a parent lies the path node before it. */
  lemma StepDown(storage: map<Hash, Block>, g: Hash, tip: Hash, i: nat)
    requires Tree(HeadersOf(storage), g) && tip in storage && i < |PathTo(HeadersOf(storage), g, tip)|
    requires var x := PathTo(HeadersOf(storage), g, tip)[i];
             x in storage && storage[x].header.height == i && storage[x].header.prevHash != ZERO_HASH
    ensures i > 0
    ensures var p := PathTo(HeadersOf(storage), g, tip);
            p[i - 1] in storage && storage[p[i - 1]].header.height == i - 1 && storage[p[i]].header.prevHash == p[i - 1]
  {
    var hs := HeadersOf(storage);
    PathNode(hs, g, tip, i);
    PathParent(hs, g, tip, i - 1);
    PathNode(hs, g, tip, i - 1);
  }

  lemma StopsAtRoot(storage: map<Hash, Block>, g: Hash, tip: Hash, i: nat)
    requires Tree(HeadersOf(storage), g) && tip in storage && i < |PathTo(HeadersOf(storage), g, tip)|
    requires var x := PathTo(HeadersOf(storage), g, tip)[i]; x in storage && storage[x].header.prevHash == ZERO_HASH
    ensures i == 0
  {
    var j: int := i - 1;
    if j >= 0 {
      PathNode(HeadersOf(storage), g, tip, j);
      PathParent(HeadersOf(storage), g, tip, j);
    }
  }

  lemma ReversedStep(s: seq<Hash>, i: nat)
    requires i < |s|
    ensures Reversed(s[i..]) == Reversed(s[i + 1..]) + [s[i]]
  {}

  /** Walk back from `tip` until the walk meets path index `k - 1`; returns the nodes met, tip first. */
  method WalkTo(storage: map<Hash, Block>, ghost g: Hash, tip: Hash, stop: set<Hash>, ghost k: nat)
    returns (met: seq<Hash>, cursor: Hash)
    requires Tree(HeadersOf(storage), g) && tip in storage && 1 <= k <= |PathTo(HeadersOf(storage), g, tip)|
    requires forall i :: 0 <= i < |PathTo(HeadersOf(storage), g, tip)| ==>
               (PathTo(HeadersOf(storage), g, tip)[i] in stop <==> i < k)
    ensures met == Reversed(PathTo(HeadersOf(storage), g, tip)[k..])
            && cursor == PathTo(HeadersOf(storage), g, tip)[k - 1]
  {
    ghost var hs := HeadersOf(storage);
    ghost var p := PathTo(hs, g, tip);
    ghost var i: nat := storage[tip].header.height;
    met := [];
    cursor := tip;
    while cursor !in stop
      invariant cursor in storage && k - 1 <= i < |p| && cursor == p[i] && storage[cursor].header.height == i
      invariant met == Reversed(p[i + 1..])
      decreases storage[cursor].header.height
    {
      PathParent(hs, g, tip, i - 1);
      PathNode(hs, g, tip, i - 1);
      met := met + [cursor];
      ReversedStep(p, i);
      cursor := storage[cursor].header.prevHash;
      i := i - 1;
    }
  }

  /** A block of the new path is on the old one exactly below the fork. */
  lemma SharedBelowFork(hs: Headers, g: Hash, oldTip: Hash, newTip: Hash, j: nat)
    requires Tree(hs, g) && oldTip in hs && newTip in hs && j < |PathTo(hs, g, newTip)|
    ensures PathTo(hs, g, newTip)[j] in PathTo(hs, g, oldTip) <==>
              j < CommonLen(PathTo(hs, g, oldTip), PathTo(hs, g, newTip))
  {
    var p, q := PathTo(hs, g, oldTip), PathTo(hs, g, newTip);
    var k := CommonLen(p, q);
    CommonLenFacts(p, q);
    assert j < k ==> p[..k][j] == q[..k][j];
    if i :| 0 <= i < |p| && p[i] == q[j] {
      BranchesDisjoint(hs, g, oldTip, newTip, i, j);
    }
  }

  method FindForkBlocks(storage: map<Hash, Block>, ghost g: Hash, oldTip: Hash, newTip: Hash)
    returns (disconnect: seq<Hash>, connect: seq<Hash>)
    requires Tree(HeadersOf(storage), g) && oldTip in storage && newTip in storage
    ensures IsFork(HeadersOf(storage), g, oldTip, newTip, disconnect, connect)
  {
    ghost var hs := HeadersOf(storage);
    ghost var p, q := PathTo(hs, g, oldTip), PathTo(hs, g, newTip);
    ghost var k := CommonLen(p, q);
    CommonNonempty(hs, g, oldTip, newTip);
    var ancestors := CollectAncestors(storage, g, oldTip);
    forall j | 0 <= j < |q| ensures q[j] in ancestors <==> j < k {
      SharedBelowFork(hs, g, oldTip, newTip, j);
    }
    var newChain, forkPoint := WalkTo(storage, g, newTip, ancestors, k);
    connect := Reversed(newChain);
    assert connect == q[k..];
    CommonLenFacts(p, q);
    assert p[..k][k - 1] == q[..k][k - 1];
    disconnect := WalkOldTo(storage, g, oldTip, forkPoint, k);
  }

  method WalkOldTo(storage: map<Hash, Block>, ghost g: Hash, tip: Hash, forkPoint: Hash, ghost k: nat)
    returns (met: seq<Hash>)
    requires Tree(HeadersOf(storage), g) && tip in storage && 1 <= k <= |PathTo(HeadersOf(storage), g, tip)|
    requires forkPoint == PathTo(HeadersOf(storage), g, tip)[k - 1]
    ensures met == Reversed(PathTo(HeadersOf(storage), g, tip)[k..])
  {
    ghost var hs := HeadersOf(storage);
    ghost var p := PathTo(hs, g, tip);
    ghost var i: nat := storage[tip].header.height;
    met := [];
    var cursor := tip;
    while cursor != forkPoint
      invariant cursor in storage && k - 1 <= i < |p| && cursor == p[i] && storage[cursor].header.height == i
      invariant met == Reversed(p[i + 1..])
      decreases storage[cursor].header.height
    {
      PathParent(hs, g, tip, i - 1);
      PathNode(hs, g, tip, i - 1);
      met := met + [cursor];
      ReversedStep(p, i);
      cursor := storage[cursor].header.prevHash;
      i := i - 1;
    }
    PathDistinct(hs, g, tip, i, k - 1);
  }

  // ---- the difficulty rule ---------------------------------------------------------------

  /** The min-difficulty walk-back; it stops at a period boundary, at genesis, or at other bits. */
  method WalkBackBits(p: NetworkParams, storage: map<Hash, Block>, ghost g: Hash, parent: Hash) returns (bits: u32)
    requires Tree(HeadersOf(storage), g) && parent in storage && p.difficultyInterval > 0
    ensures bits == WalkBack(p, HeadersOf(storage), g, parent)
  {
    ghost var hs := HeadersOf(storage);
    var cursor := parent;
    while storage[cursor].header.height > 0 && ModInterval(storage[cursor].header.height, p) != 0
          && storage[cursor].header.bits == p.genesisBits
      invariant cursor in storage && WalkBack(p, hs, g, cursor) == WalkBack(p, hs, g, parent)
      decreases storage[cursor].header.height
    {
      ghost var above := Parent(hs, g, cursor);
      cursor := storage[cursor].header.prevHash;
    }
    bits := storage[cursor].header.bits;
  }

  method PeriodStartTime(storage: map<Hash, Block>, ghost g: Hash, parent: Hash, height: nat) returns (timestamp: u64)
    requires Tree(HeadersOf(storage), g) && parent in storage && height <= storage[parent].header.height
    ensures timestamp == HeadersOf(storage)[AncestorAt(HeadersOf(storage), g, parent, height)].timestamp
  {
    ghost var hs := HeadersOf(storage);
    var cursor := parent;
    while storage[cursor].header.height > height
      invariant cursor in storage && height <= storage[cursor].header.height
      invariant AncestorAt(hs, g, cursor, height) == AncestorAt(hs, g, parent, height)
      decreases storage[cursor].header.height
    {
      ghost var above := Parent(hs, g, cursor);
      cursor := storage[cursor].header.prevHash;
    }
    timestamp := storage[cursor].header.timestamp;
  }

  method CalculateNextBits(p: NetworkParams, storage: map<Hash, Block>, ghost g: Hash, parent: Hash, timestamp: u64)
    returns (bits: u32)
    requires Tree(HeadersOf(storage), g) && parent in storage && ParamsOk(p)
    ensures bits == NextBits(p, HeadersOf(storage), g, parent, timestamp)
  {
    var header := storage[parent].header;
    var height := header.height + 1;
    if height <= 1 {
      return header.bits;
    }
    if ModInterval(height, p) != 0 {
      if p.allowMinDifficulty {
        if timestamp > SatU64(header.timestamp + SatU64(p.targetBlockTime * 2)) {
          return p.genesisBits;
        }
        bits := WalkBackBits(p, storage, g, parent);
        return;
      }
      return header.bits;
    }
    PeriodStart(height, p);
    var start := PeriodStartTime(storage, g, parent, height - p.difficultyInterval);
    bits := RetargetBits(p, header.bits, TimestampGap(header.timestamp, start));
  }

  /** Clamp, multiply, divide, re-encode. */
  method RetargetBits(p: NetworkParams, parentBits: u32, actual: nat) returns (bits: u32)
    requires ParamsOk(p)
    ensures TargetOf(p.genesisBits) < TWO_256
    ensures var v := RetargetOf(TargetOf(parentBits), Clamped(p, actual), Timespan(p), TargetOf(p.genesisBits));
            v < TWO_256 && bits == CompactOf(v)
  {
    TargetBound(p.genesisBits);
    TimespanFits(p);
    RetargetCapped(TargetOf(parentBits), Clamped(p, actual), Timespan(p), TargetOf(p.genesisBits));
    var oldTarget := BitsToTarget(parentBits);
    var maxTarget := BitsToTarget(p.genesisBits);
    var newTarget := RetargetTarget(oldTarget, Clamped(p, actual), Timespan(p), maxTarget);
    bits := TargetToBits(newTarget);
  }
}
