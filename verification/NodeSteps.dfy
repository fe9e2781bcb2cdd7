/** The three ways a block changes the chain state: extending the tip, storing a side block, switching to
    a heavier branch. */
module NodeSteps {
  import opened BigEndian
  import opened Primitives
  import opened Ledger
  import opened ChainTree
  import opened ChainLedger
  import opened ActiveChain
  import opened NodeInvariant
  import opened NodeView
  import opened NodeReorg
  import opened ChainWalk
  import opened BodySwap
  import Indexes

  ghost predicate TipOk(v: View) {
    v.tip in v.storage && v.tip in v.work && v.height == v.storage[v.tip].header.height && v.chainwork == v.work[v.tip]
  }

  ghost predicate LedgerView(net: Network, ops: Ops, v: View) {
    LedgerOk(net, ops, v.storage, v.tip, v.active, v.utxos, v.heights, v.undo)
  }

  /** Everything but the most-work property. */
  ghost predicate ChainBase(net: Network, ops: Ops, v: View) {
    && Tied(net, ops) && TreeOk(net, ops, v.storage, v.work) && TipOk(v)
    && (!v.torn ==> LedgerView(net, ops, v) && UndoKept(ops, v.active, v.undo, v.peak))
    && (!v.torn && !v.swapped ==> BodiesOk(ops, v.storage, v.active))
  }

  ghost predicate ChainOk(net: Network, ops: Ops, v: View) {
    ChainBase(net, ops, v) && (!v.torn && !v.refused ==> BestOk(net, ops, v.storage, v.tip))
  }

  predicate OpenSound(k: int, v: View) { true }

  /** `ChainOk`, sealed. */
  ghost predicate Sound(net: Network, ops: Ops, v: View) {
    forall k: int {:trigger OpenSound(k, v)} :: OpenSound(k, v) ==> ChainOk(net, ops, v)
  }

  /** `ChainBase` sealed, with the promise that `best` will be a most-work tip. */
  ghost predicate SoundFor(net: Network, ops: Ops, v: View, best: Hash) {
    forall k: int {:trigger OpenSound(k, v)} :: OpenSound(k, v) ==>
      ChainBase(net, ops, v) && (!v.torn && !v.refused ==> BestOk(net, ops, v.storage, best))
  }

  lemma TreeFacts(net: Network, ops: Ops, v: View)
    requires ChainBase(net, ops, v)
    ensures Tree(HeadersOf(v.storage), Root0(net)) && v.work.Keys == v.storage.Keys
  {
    assert OpenTree(0);
  }

  lemma HashFacts(net: Network, ops: Ops, b: Block)
    requires Tied(net, ops)
    ensures ops.hash(b) == HashOf(net, b)
  {
    assert OpenTied(0);
  }

  lemma NamesHeader(net: Network, ops: Ops)
    requires Tied(net, ops)
    ensures HashNamesHeader(ops)
  {
    assert OpenTied(0);
  }

  /** A block submitted again has the work it had. */
  lemma SameWorkAgain(net: Network, ops: Ops, v: View, b: Block, w: Bytes32)
    requires ChainBase(net, ops, v) && ConnectsOk(net, v.storage, b) && HashOf(net, b) in v.storage
    requires Val(w) == AddWrap(Val(ParentWork(v.work, b.header.prevHash)), ops.work(b.header.bits))
    ensures HashOf(net, b) in v.work && w == v.work[HashOf(net, b)]
  {
    TreeFacts(net, ops, v);
    var h := HashOf(net, b);
    Stored(net, ops, v.storage, v.work, b, w);
    StoredHeaders(net, ops, v.storage, v.work, b);
    assert Val(w) == Val(v.work[h]) by {
      assert OpenTree(0);
      assert v.work[h := w][h] == w;
      assert RightWork(ops.work, HeadersOf(v.storage), Root0(net), h, v.work[h]);
    }
    ValInjective(w, v.work[h]);
  }

  lemma Standing(net: Network, ops: Ops, v: View)
    requires Sound(net, ops, v)
    ensures Tied(net, ops) && SoundFor(net, ops, v, v.tip) && Moved(net, ops, v, [], v)
  {
    assert OpenSound(0, v) && OpenLater(0);
    TreeFacts(net, ops, v);
    LaterStep(net, ops, SnapOf(v), SnapOf(v));
  }

  /** A block that is turned away or put aside changes nothing. */
  lemma Unmoved(net: Network, ops: Ops, v: View, o: Outcome)
    requires Sound(net, ops, v) && (o.Rejected? || o.Orphaned?)
    ensures Moved(net, ops, v, [Event(o, false)], v)
  {
    assert OpenSound(0, v) && OpenLater(0);
    TreeFacts(net, ops, v);
    LaterStep(net, ops, SnapOf(v), SnapOf(v));
    TracedStep(net, v, Event(o, false), v);
  }

  /** A failure that leaves only the UTXO side in doubt. */
  lemma Torn(net: Network, ops: Ops, v: View, best: Hash, v': View)
    requires SoundFor(net, ops, v, best)
    requires v' == v.(torn := true, utxos := v'.utxos, heights := v'.heights, undo := v'.undo)
    ensures Sound(net, ops, v') && Moved(net, ops, v, [Event(LedgerTorn, false)], v')
  {
    assert OpenSound(0, v) && OpenLater(0);
    TreeFacts(net, ops, v);
    LaterStep(net, ops, SnapOf(v), SnapOf(v'));
    TracedStep(net, v, Event(LedgerTorn, false), v');
  }

  /** A heavier branch left where it is. */
  lemma Refused(net: Network, ops: Ops, v: View, best: Hash)
    requires SoundFor(net, ops, v, best)
    ensures var v' := v.(refused := true); Sound(net, ops, v') && Moved(net, ops, v, [Event(ReorgRefused, false)], v')
  {
    var v' := v.(refused := true);
    assert OpenSound(0, v) && OpenLater(0);
    TreeFacts(net, ops, v);
    LaterStep(net, ops, SnapOf(v), SnapOf(v'));
    assert Fresh(net, v) ==> Fresh(net, v') by {
      assert OpenFresh(0);
    }
    TracedStep(net, v, Event(ReorgRefused, false), v');
  }

  // ---- extending the tip -----------------------------------------------------------------

  ghost function ExtendedView(ops: Ops, hashing: Hashing, v: View, b: Block, w: Bytes32, pruned: Undos): View {
    var h := ops.hash(b);
    v.(storage := v.storage[h := b], work := v.work[h := w], tip := h, height := b.header.height, chainwork := w,
       active := v.active + [b], utxos := ops.apply(v.utxos, b).utxos, heights := v.heights[b.header.height := h],
       undo := pruned, index := Indexes.AddBlock(hashing.txid, v.index, h, b.txs, b.header.height),
       peak := Max(v.peak, b.header.height))
  }

  lemma ExtendTree(net: Network, ops: Ops, v: View, b: Block, w: Bytes32)
    requires ChainOk(net, ops, v) && ConnectsOk(net, v.storage, b) && b.header.prevHash == v.tip
    requires Val(w) == AddWrap(Val(ParentWork(v.work, v.tip)), ops.work(b.header.bits))
    ensures var h := ops.hash(b); var storage := v.storage[h := b]; var hs := HeadersOf(storage);
            && h == HashOf(net, b) && h != Root0(net) && HashNamesHeader(ops)
            && Tree(HeadersOf(v.storage), Root0(net)) && Tree(hs, Root0(net)) && Extends(HeadersOf(v.storage), hs)
            && TreeOk(net, ops, storage, v.work[h := w])
            && LaterOk(net, ops, SnapOf(v), Snapshot(hs, h))
  {
    TreeFacts(net, ops, v);
    HashFacts(net, ops, b);
    NamesHeader(net, ops);
    Stored(net, ops, v.storage, v.work, b, w);
    StoredHeaders(net, ops, v.storage, v.work, b);
    LaterStep(net, ops, SnapOf(v), Snapshot(HeadersOf(v.storage[ops.hash(b) := b]), ops.hash(b)));
  }

  lemma Extend(net: Network, ops: Ops, v: View, b: Block, w: Bytes32, pruned: Undos)
    requires ChainOk(net, ops, v) && ConnectsOk(net, v.storage, b) && b.header.prevHash == v.tip
    requires Val(w) == AddWrap(Val(ParentWork(v.work, v.tip)), ops.work(b.header.bits))
    requires !v.torn ==> ops.accept(ChainHeaders(v.active), v.utxos, b)
    requires ops.apply(v.utxos, b).ok
    requires PrunedAt(v.undo[ops.hash(b) := ops.apply(v.utxos, b).undo], pruned,
             v.heights[b.header.height := ops.hash(b)], b.header.height)
    ensures var v' := ExtendedView(ops, net.rules.hashing, v, b, w, pruned);
            Sound(net, ops, v') && Moved(net, ops, v, [Event(Extended, false)], v')
  {
    ExtendTree(net, ops, v, b, w);
    var v', h := ExtendedView(ops, net.rules.hashing, v, b, w, pruned), ops.hash(b);
    if !v.torn {
      ExtendLedgerView(net, ops, v, v'.storage, b, pruned);
      ExtendUndo(net, ops, v, b, pruned);
      ExtendFresh(net, ops, v, b, w, pruned);
      if !v.swapped {
        ExtendBodies(ops, v.storage, v.active, b);
      }
      if !v.refused {
        ExtendBest(net, ops, v.storage, v'.storage, v.tip, h);
      }
    }
    TracedStep(net, v, Event(Extended, false), v');
    assert OpenLater(0);
  }

  /** Indexing the new block on fresh indexes is what a rebuild would do. */
  lemma ExtendFresh(net: Network, ops: Ops, v: View, b: Block, w: Bytes32, pruned: Undos)
    requires HashNamesHeader(ops) && LedgerView(net, ops, v) && TipOk(v) && b.header.height == |v.active|
    requires forall i :: 0 <= i < |v.active| ==> v.active[i].header.height == i
    ensures Fresh(net, v) ==> Fresh(net, ExtendedView(ops, net.rules.hashing, v, b, w, pruned))
  {
    ChainMapped(net, ops, v.storage, v.tip, v.active, v.utxos, v.heights, v.undo);
    ActivePath(net, ops, v.storage, v.tip, v.active, v.utxos, v.heights, v.undo);
    var v', n := ExtendedView(ops, net.rules.hashing, v, b, w, pruned), |v.active|;
    forall i | 0 <= i < n ensures v.heights[i] != ops.hash(b) {
      assert v.heights[i] == ops.hash(v.active[i]);
    }
    Indexes.RebuiltSame(net.rules.hashing, v.heights, v.storage, v'.heights, v'.storage, n);
    assert OpenFresh(0);
  }

  lemma ExtendUndo(net: Network, ops: Ops, v: View, b: Block, pruned: Undos)
    requires HashNamesHeader(ops) && LedgerView(net, ops, v) && UndoKept(ops, v.active, v.undo, v.peak)
    requires b.header.height == |v.active| && forall i :: 0 <= i < |v.active| ==> v.active[i].header.height == i
    requires PrunedAt(v.undo[ops.hash(b) := ops.apply(v.utxos, b).undo], pruned,
             v.heights[b.header.height := ops.hash(b)], b.header.height)
    ensures UndoKept(ops, v.active + [b], pruned, Max(v.peak, b.header.height))
  {
    ChainMapped(net, ops, v.storage, v.tip, v.active, v.utxos, v.heights, v.undo);
    assert OpenUndo(0);
    var more, heights := v.active + [b], v.heights[b.header.height := ops.hash(b)];
    forall i | 0 <= i < |more| ensures more[i].header.height == i && i in heights && heights[i] == ops.hash(more[i]) {}
    forall i | 1 <= i < |more| ensures ops.hash(more[i]) in v.undo[ops.hash(b) := ops.apply(v.utxos, b).undo] <==>
        i + MAX_REORG_DEPTH > v.peak {
      if i < |v.active| {
        assert ops.hash(v.active[i]) != ops.hash(b);
      }
    }
    KeptAfterPrune(ops, more, v.undo[ops.hash(b) := ops.apply(v.utxos, b).undo], pruned, heights, v.peak);
  }

  lemma ExtendLedgerView(net: Network, ops: Ops, v: View, storage: Blocks, b: Block, pruned: Undos)
    requires LedgerView(net, ops, v) && HashNamesHeader(ops) && storage == v.storage[ops.hash(b) := b]
    requires Tree(HeadersOf(v.storage), Root0(net)) && Tree(HeadersOf(storage), Root0(net))
             && Extends(HeadersOf(v.storage), HeadersOf(storage))
    requires b.header.prevHash == v.tip && ops.hash(b) != Root0(net) && ops.accept(ChainHeaders(v.active), v.utxos, b)
             && ops.apply(v.utxos, b).ok
    requires SubMap(pruned, v.undo[ops.hash(b) := ops.apply(v.utxos, b).undo])
    ensures LedgerOk(net, ops, storage, ops.hash(b), v.active + [b], ops.apply(v.utxos, b).utxos,
            v.heights[b.header.height := ops.hash(b)], pruned)
    ensures b.header.height == |v.active| && forall i :: 0 <= i < |v.active| ==> v.active[i].header.height == i
  {
    ActiveHeights(net, ops, v.storage, v.tip, v.active, v.utxos, v.heights, v.undo);
    GrowLedger(net, ops, v.storage, storage, v.tip, v.active, v.utxos, v.heights, v.undo);
    ExtendLedger(net, ops, storage, v.tip, v.active, v.utxos, v.heights, v.undo, pruned, b);
  }

  // ---- storing a side block --------------------------------------------------------------

  /** Storing `b` replaces the body of a block on the height map. */
  ghost predicate Overwrites(ops: Ops, v: View, b: Block) {
    && !(ops.hash(b) in v.storage && v.storage[ops.hash(b)] == b)
    && exists i :: i in v.heights && v.heights[i] == ops.hash(b)
  }

  ghost function SideView(ops: Ops, v: View, b: Block, w: Bytes32): View {
    v.(storage := v.storage[ops.hash(b) := b], work := v.work[ops.hash(b) := w],
       swapped := v.swapped || Overwrites(ops, v, b))
  }

  lemma StoreTree(net: Network, ops: Ops, v: View, b: Block, w: Bytes32)
    requires ChainBase(net, ops, v) && ConnectsOk(net, v.storage, b)
    requires Val(w) == AddWrap(Val(ParentWork(v.work, b.header.prevHash)), ops.work(b.header.bits))
    ensures var h := ops.hash(b); var storage := v.storage[h := b]; var hs := HeadersOf(storage);
            && Tree(HeadersOf(v.storage), Root0(net)) && Tree(hs, Root0(net)) && Extends(HeadersOf(v.storage), hs)
            && TreeOk(net, ops, storage, v.work[h := w]) && (h == v.tip ==> w == v.work[h])
  {
    TreeFacts(net, ops, v);
    HashFacts(net, ops, b);
    Stored(net, ops, v.storage, v.work, b, w);
    StoredHeaders(net, ops, v.storage, v.work, b);
    if ops.hash(b) == v.tip {
      SameWorkAgain(net, ops, v, b, w);
    }
  }

  lemma Store(net: Network, ops: Ops, v: View, b: Block, w: Bytes32)
    requires ChainBase(net, ops, v) && ConnectsOk(net, v.storage, b)
    requires Val(w) == AddWrap(Val(ParentWork(v.work, b.header.prevHash)), ops.work(b.header.bits))
    ensures var v' := SideView(ops, v, b, w);
            ChainBase(net, ops, v') && Moved(net, ops, v, [Event(StoredSide, Overwrites(ops, v, b))], v')
  {
    StoreTree(net, ops, v, b, w);
    var v' := SideView(ops, v, b, w);
    assert v'.storage[v.tip].header == v.storage[v.tip].header by {
      assert HeadersOf(v'.storage)[v.tip] == HeadersOf(v.storage)[v.tip];
    }
    LaterStep(net, ops, SnapOf(v), SnapOf(v'));
    if !v.torn {
      GrowLedger(net, ops, v.storage, v'.storage, v.tip, v.active, v.utxos, v.heights, v.undo);
      if !v'.swapped {
        SideBodies(net, ops, v, b);
      }
    }
    SideFresh(net, ops, v, b, w);
    TracedStep(net, v, Event(StoredSide, Overwrites(ops, v, b)), v');
    assert OpenLater(0);
  }

  lemma SideBodies(net: Network, ops: Ops, v: View, b: Block)
    requires LedgerView(net, ops, v) && BodiesOk(ops, v.storage, v.active) && !Overwrites(ops, v, b)
    ensures BodiesOk(ops, v.storage[ops.hash(b) := b], v.active)
  {
    ChainMapped(net, ops, v.storage, v.tip, v.active, v.utxos, v.heights, v.undo);
    assert OpenIndex(0);
    forall i | 0 <= i < |v.active| && ops.hash(v.active[i]) == ops.hash(b) ensures v.active[i] == b {
      assert i in v.heights && v.heights[i] == ops.hash(b);
    }
  }

  ghost function SwapOf(net: Network, ops: Ops, v: View, b: Block): Swap {
    Swap(net.rules.hashing, v.heights, v.storage, ops.hash(b), b)
  }

  predicate OpenKeeps(k: int) { true }

  /** Sealed: either no height up to the tip carries the hash of `b`, or, at the last one that does, the
      stored body and `b` list the same txids under every script, and every txid in only one of the two
      occurs again in a body above. */
  ghost predicate KeepsIndexes(net: Network, ops: Ops, v: View, b: Block) {
    forall k: int {:trigger OpenKeeps(k)} :: OpenKeeps(k) ==>
      SwapOf(net, ops, v, b).Keeps(v.height + 1)
  }

  /** A store that replaces no body of the height map leaves fresh indexes fresh; in general they stay
      fresh if and only if the replaced body and the new one are alike. */
  lemma SideFresh(net: Network, ops: Ops, v: View, b: Block, w: Bytes32)
    ensures var v' := SideView(ops, v, b, w);
            && (!Overwrites(ops, v, b) && Fresh(net, v) ==> Fresh(net, v'))
            && (Fresh(net, v) ==> (Fresh(net, v') <==> KeepsIndexes(net, ops, v, b)))
  {
    var v' := SideView(ops, v, b, w);
    assert OpenFresh(0) && OpenKeeps(0);
    SameRebuildIff(SwapOf(net, ops, v, b), v.height + 1);
    if !Overwrites(ops, v, b) {
      Indexes.RebuiltSame(net.rules.hashing, v.heights, v.storage, v.heights, v'.storage, v.height + 1);
    }
  }

  /** On an untorn ledger the only height that carries the hash of `b` is the one in its header. */
  lemma OwnHeight(net: Network, ops: Ops, v: View, b: Block, i: nat)
    requires Sound(net, ops, v) && !v.torn && SwapOf(net, ops, v, b).Hits(i)
    ensures i == b.header.height
  {
    assert OpenSound(0, v);
    NamesHeader(net, ops);
    ActiveHeights(net, ops, v.storage, v.tip, v.active, v.utxos, v.heights, v.undo);
    assert i < |v.active| && ops.hash(v.active[i]) == ops.hash(b) by {
      assert OpenLedger(0);
      assert i < |HashesOf(ops, v.active)|;
      assert HashesOf(ops, v.active)[i] == ops.hash(v.active[i]);
    }
  }

  /** Storing the original body again makes overwritten indexes fresh again. */
  lemma BodyRestored(net: Network, ops: Ops, v: View, b: Block, w: Bytes32, w': Bytes32)
    requires ops.hash(b) in v.storage && ops.hash(v.storage[ops.hash(b)]) == ops.hash(b) && Fresh(net, v)
    ensures Fresh(net, SideView(ops, SideView(ops, v, b, w), v.storage[ops.hash(b)], w'))
  {
    var again := SideView(ops, SideView(ops, v, b, w), v.storage[ops.hash(b)], w');
    assert again.storage == v.storage;
    assert OpenFresh(0);
  }

  lemma RightWorkAt(net: Network, ops: Ops, storage: Blocks, work: Works, h: Hash)
    requires TreeOk(net, ops, storage, work) && h in storage
    ensures Tree(HeadersOf(storage), Root0(net)) && h in work
            && RightWork(ops.work, HeadersOf(storage), Root0(net), h, work[h])
  {
    assert OpenTree(0);
  }

  lemma WrapSmall(x: nat)
    requires x < TWO_256
    ensures Wrap(x) == x
  {}

  /** Below 2^256 the recorded work is the path's work. */
  lemma WorkIsPath(net: Network, ops: Ops, v: View, h: Hash)
    requires ChainBase(net, ops, v) && h in v.storage
    ensures Tree(HeadersOf(v.storage), Root0(net)) && h in v.work
    ensures NoOverflow(ops.work, HeadersOf(v.storage), Root0(net)) ==>
              Val(v.work[h]) == PathWork(ops.work, HeadersOf(v.storage), Root0(net), h)
  {
    RightWorkAt(net, ops, v.storage, v.work, h);
    if NoOverflow(ops.work, HeadersOf(v.storage), Root0(net)) {
      WrapSmall(PathWork(ops.work, HeadersOf(v.storage), Root0(net), h));
    }
  }

  /** After a store, whichever of tip and new block carries more work is the best stored block. */
  lemma StoredBest(net: Network, ops: Ops, v: View, b: Block, w: Bytes32)
    requires ChainOk(net, ops, v) && ConnectsOk(net, v.storage, b) && !v.torn && !v.refused
    requires Val(w) == AddWrap(Val(ParentWork(v.work, b.header.prevHash)), ops.work(b.header.bits))
    ensures var more := SideView(ops, v, b, w).storage;
            BestOk(net, ops, more, if Val(w) <= Val(v.chainwork) then v.tip else ops.hash(b))
  {
    var v', h := SideView(ops, v, b, w), ops.hash(b);
    Store(net, ops, v, b, w);
    StoreTree(net, ops, v, b, w);
    WorkIsPath(net, ops, v', h);
    WorkIsPath(net, ops, v', v.tip);
    SideBest(net, ops, v.storage, v'.storage, v.tip, h);
  }

  lemma StoreSound(net: Network, ops: Ops, v: View, b: Block, w: Bytes32)
    requires Sound(net, ops, v) && ConnectsOk(net, v.storage, b)
    requires Val(w) == AddWrap(Val(ParentWork(v.work, b.header.prevHash)), ops.work(b.header.bits))
    ensures var v' := SideView(ops, v, b, w);
            && SoundFor(net, ops, v', if Val(w) <= Val(v.chainwork) then v.tip else ops.hash(b))
            && Moved(net, ops, v, [Event(StoredSide, Overwrites(ops, v, b))], v')
  {
    assert OpenSound(0, v);
    Store(net, ops, v, b, w);
    if !v.torn && !v.refused {
      StoredBest(net, ops, v, b, w);
    }
  }

  lemma StillBest(net: Network, ops: Ops, v: View)
    requires SoundFor(net, ops, v, v.tip)
    ensures Sound(net, ops, v)
  {
    assert OpenSound(0, v);
  }

  // ---- switching branches ----------------------------------------------------------------

  ghost function BodiesOf(storage: Blocks, hashes: seq<Hash>): (s: seq<Block>)
    requires forall i :: 0 <= i < |hashes| ==> hashes[i] in storage
    ensures |s| == |hashes|
    ensures forall i :: 0 <= i < |hashes| ==> s[i] == storage[hashes[i]]
  {
    seq(|hashes|, i requires 0 <= i < |hashes| => storage[hashes[i]])
  }

  /** The chain after `j` blocks of the new branch. */
  ghost function Branch(v: View, n: nat, connect: seq<Hash>, j: nat): seq<Block>
    requires n <= |v.active| && j <= |connect| && forall i :: 0 <= i < |connect| ==> connect[i] in v.storage
  {
    v.active[..n] + BodiesOf(v.storage, connect[..j])
  }

  ghost function SwitchedView(hashing: Hashing, v: View, h: Hash, chain: seq<Block>, utxos: UtxoMap, heights: Heights,
                              undo: Undos): View
    requires h in v.storage && h in v.work
  {
    v.(tip := h, height := v.storage[h].header.height, chainwork := v.work[h], active := chain, utxos := utxos,
       heights := heights, undo := undo,
       index := Indexes.Rebuilt(hashing, heights, v.storage, v.storage[h].header.height + 1),
       peak := Max(v.peak, v.storage[h].header.height))
  }

  lemma BranchStored(ops: Ops, v: View, disconnect: seq<Hash>, connect: seq<Hash>)
    requires BodiesOk(ops, v.storage, v.active) && |disconnect| < |v.active|
    requires forall i :: 0 <= i < |connect| ==> connect[i] in v.storage && ops.hash(v.storage[connect[i]]) == connect[i]
    ensures BodiesOk(ops, v.storage, Branch(v, |v.active| - |disconnect|, connect, |connect|))
  {
    assert OpenIndex(0);
  }

  lemma BranchHashes(ops: Ops, v: View, n: nat, connect: seq<Hash>)
    requires n <= |v.active| && forall i :: 0 <= i < |connect| ==>
               connect[i] in v.storage && ops.hash(v.storage[connect[i]]) == connect[i]
    ensures HashesOf(ops, Branch(v, n, connect, |connect|)) == HashesOf(ops, v.active[..n]) + connect
  {}

  lemma BranchPath(net: Network, ops: Ops, v: View, h: Hash, disconnect: seq<Hash>, connect: seq<Hash>)
    requires ForkOk(net, ops, v.storage, v.active, h, disconnect, connect) && |disconnect| < |v.active|
    requires BranchStoredAt(ops, v.storage, connect, |v.active| - |disconnect|)
    ensures Tree(HeadersOf(v.storage), Root0(net)) && h in v.storage
    ensures HashesOf(ops, Branch(v, |v.active| - |disconnect|, connect, |connect|)) ==
            PathTo(HeadersOf(v.storage), Root0(net), h)
  {
    BranchHashes(ops, v, |v.active| - |disconnect|, connect);
    assert OpenFork(0);
  }

  ghost predicate BranchStoredAt(ops: Ops, storage: Blocks, connect: seq<Hash>, n: nat) {
    forall j :: 0 <= j < |connect| ==>
      connect[j] in storage && ops.hash(storage[connect[j]]) == connect[j] && storage[connect[j]].header.height == n + j
  }

  lemma BranchStart(v: View, n: nat, connect: seq<Hash>)
    requires n <= |v.active| && forall i :: 0 <= i < |connect| ==> connect[i] in v.storage
    ensures Branch(v, n, connect, 0) == v.active[..n]
  {}

  lemma BranchNext(v: View, n: nat, connect: seq<Hash>, j: nat)
    requires n <= |v.active| && j < |connect| && forall i :: 0 <= i < |connect| ==> connect[i] in v.storage
    ensures Branch(v, n, connect, j + 1) == Branch(v, n, connect, j) + [v.storage[connect[j]]]
  {
    assert BodiesOf(v.storage, connect[..j + 1]) == BodiesOf(v.storage, connect[..j]) + [v.storage[connect[j]]];
  }

  lemma BranchStep(net: Network, ops: Ops, v: View, n: nat, connect: seq<Hash>, j: nat, utxos: UtxoMap,
                   heights: Heights, undo: Undos)
    requires Tied(net, ops) && n <= |v.active| && j < |connect| && BranchStoredAt(ops, v.storage, connect, n)
    requires Connecting(ops, Branch(v, n, connect, j), utxos, heights, undo, |v.active|)
    requires var b := v.storage[connect[j]];
             ops.accept(ChainHeaders(Branch(v, n, connect, j)), utxos, b) && ops.apply(utxos, b).ok
    ensures var b := v.storage[connect[j]];
            Connecting(ops, Branch(v, n, connect, j + 1), ops.apply(utxos, b).utxos, heights[n + j := connect[j]],
                       undo[connect[j] := ops.apply(utxos, b).undo], |v.active|)
  {
    assert v.storage[connect[j]].header.height == n + j;
    BranchNext(v, n, connect, j);
    Connected(net, ops, Branch(v, n, connect, j), utxos, heights, undo, |v.active|, v.storage[connect[j]]);
  }

  /** What the reorganisation has reached once every block of the new branch is connected. */
  ghost predicate Reached(net: Network, ops: Ops, v: View, h: Hash, disconnect: seq<Hash>, connect: seq<Hash>,
                          chain: seq<Block>, utxos: UtxoMap, heights: Heights, undo: Undos) {
    && Prepared(net, ops, v, h, disconnect, connect) && |disconnect| < |v.active|
    && (forall i :: 0 <= i < |connect| ==> connect[i] in v.storage)
    && chain == Branch(v, |v.active| - |disconnect|, connect, |connect|)
    && Connecting(ops, chain, utxos, heights, undo, |v.active|)
    && (forall x :: x in undo <==> x in v.undo || x in connect)
    && AllIn(disconnect, v.undo)
  }

  /** The fork lists of a sound state are ready to be rolled back and connected. */
  lemma ForkReady(net: Network, ops: Ops, v: View, h: Hash, disconnect: seq<Hash>, connect: seq<Hash>)
    requires SoundFor(net, ops, v, h) && !v.torn && h in v.storage && v.tip in v.storage
             && Tree(HeadersOf(v.storage), Root0(net))
    requires IsFork(HeadersOf(v.storage), Root0(net), v.tip, h, disconnect, connect)
    ensures ForkOk(net, ops, v.storage, v.active, h, disconnect, connect)
            && Rewound(ops, v.active, |v.active|, v.utxos, v.undo)
  {
    assert OpenSound(0, v);
    ForkStands(net, ops, v.storage, v.work, v.tip, h, v.active, v.utxos, v.heights, v.undo, disconnect, connect);
    StartRewinding(net, ops, v.storage, v.tip, v.active, v.utxos, v.heights, v.undo);
  }

  lemma ForkUsable(net: Network, ops: Ops, v: View, h: Hash, disconnect: seq<Hash>, connect: seq<Hash>)
    requires ForkOk(net, ops, v.storage, v.active, h, disconnect, connect)
    ensures LastBlocks(ops, v.active, disconnect)
    ensures BranchStoredAt(ops, v.storage, connect, |v.active| - |disconnect|)
  {
    assert OpenFork(0);
  }

  predicate OpenPrepared(k: int) { true }

  /** Sealed: the lists are the fork's, the blocks to disconnect are the last active ones, last first, and
      the branch is stored at its heights. */
  ghost predicate Prepared(net: Network, ops: Ops, v: View, h: Hash, disconnect: seq<Hash>, connect: seq<Hash>) {
    forall k: int {:trigger OpenPrepared(k)} :: OpenPrepared(k) ==>
      && Tree(HeadersOf(v.storage), Root0(net)) && h in v.storage && v.tip in v.storage
      && IsFork(HeadersOf(v.storage), Root0(net), v.tip, h, disconnect, connect)
      && ForkOk(net, ops, v.storage, v.active, h, disconnect, connect) && LastBlocks(ops, v.active, disconnect)
      && BranchStoredAt(ops, v.storage, connect, |v.active| - |disconnect|)
  }

  ghost predicate LastBlocks(ops: Ops, active: seq<Block>, disconnect: seq<Hash>) {
    |disconnect| < |active| && forall j :: 0 <= j < |disconnect| ==> disconnect[j] == ops.hash(active[|active| - 1 - j])
  }

  ghost predicate AllIn(disconnect: seq<Hash>, undo: Undos) {
    forall j :: 0 <= j < |disconnect| ==> disconnect[j] in undo
  }

  lemma Prepare(net: Network, ops: Ops, v: View, h: Hash, disconnect: seq<Hash>, connect: seq<Hash>)
    requires SoundFor(net, ops, v, h) && !v.torn && h in v.storage && v.tip in v.storage
             && Tree(HeadersOf(v.storage), Root0(net))
    requires IsFork(HeadersOf(v.storage), Root0(net), v.tip, h, disconnect, connect)
    ensures Prepared(net, ops, v, h, disconnect, connect) && Rewound(ops, v.active, |v.active|, v.utxos, v.undo)
    ensures LastBlocks(ops, v.active, disconnect)
  {
    ForkReady(net, ops, v, h, disconnect, connect);
    ForkUsable(net, ops, v, h, disconnect, connect);
  }

  /** The switch goes through exactly when every record is there and the branch is valid. */
  lemma SwitchIff(net: Network, ops: Ops, v: View, h: Hash, disconnect: seq<Hash>, connect: seq<Hash>)
    requires SoundFor(net, ops, v, h) && !v.torn && Prepared(net, ops, v, h, disconnect, connect)
    ensures |disconnect| < |v.active| && BranchStoredAt(ops, v.storage, connect, |v.active| - |disconnect|)
    ensures CanSwitch(net, ops, v.storage, v.tip, v.active, v.peak, h) <==>
            AllIn(disconnect, v.undo) && ValidChain(ops, Branch(v, |v.active| - |disconnect|, connect, |connect|))
  {
    assert OpenPrepared(0);
    UndoPresentIff(net, ops, v, h, disconnect);
    ForkLists(net, ops, v, h, disconnect, connect);
    assert OpenSwitch(0);
  }

  lemma RecordMissing(net: Network, ops: Ops, v: View, h: Hash, disconnect: seq<Hash>, connect: seq<Hash>)
    requires SoundFor(net, ops, v, h) && !v.torn && Prepared(net, ops, v, h, disconnect, connect)
             && !AllIn(disconnect, v.undo)
    ensures !CanSwitch(net, ops, v.storage, v.tip, v.active, v.peak, h)
  {
    SwitchIff(net, ops, v, h, disconnect, connect);
  }

  /** What connecting block `j` of the branch will lead to. */
  lemma BranchVerdict(net: Network, ops: Ops, v: View, h: Hash, n: nat, connect: seq<Hash>, j: nat, m: UtxoMap,
                      heights: Heights, undo: Undos)
    requires SoundFor(net, ops, v, h) && !v.torn && 1 <= n <= |v.active| && j < |connect|
             && BranchStoredAt(ops, v.storage, connect, n)
    requires Connecting(ops, Branch(v, n, connect, j), m, heights, undo, |v.active|)
    ensures m == ReplayChain(ops, Branch(v, n, connect, j)).utxos && v.storage[connect[j]].header.height == n + j
    ensures var b := v.storage[connect[j]];
            if ops.accept(HeadersBelow(heights, v.storage, n + j), m, b) && ops.apply(m, b).ok
            then Connecting(ops, Branch(v, n, connect, j + 1), ops.apply(m, b).utxos, heights[n + j := connect[j]],
                            undo[connect[j] := ops.apply(m, b).undo], |v.active|)
            else !ValidChain(ops, Branch(v, n, connect, |connect|))
  {
    BranchHeaders(net, ops, v, h, n, connect, j, m, heights, undo);
    if ops.accept(HeadersBelow(heights, v.storage, n + j), m, v.storage[connect[j]])
      && ops.apply(m, v.storage[connect[j]]).ok {
      BranchGoesOn(net, ops, v, h, n, connect, j, m, heights, undo);
    } else {
      BranchStops(net, ops, v, n, connect, j);
    }
  }

  lemma BranchGoesOn(net: Network, ops: Ops, v: View, h: Hash, n: nat, connect: seq<Hash>, j: nat, m: UtxoMap,
                     heights: Heights, undo: Undos)
    requires SoundFor(net, ops, v, h) && n <= |v.active| && j < |connect| && BranchStoredAt(ops, v.storage, connect, n)
    requires Connecting(ops, Branch(v, n, connect, j), m, heights, undo, |v.active|)
    requires ops.accept(ChainHeaders(Branch(v, n, connect, j)), m, v.storage[connect[j]])
             && ops.apply(m, v.storage[connect[j]]).ok
    ensures var b := v.storage[connect[j]];
            Connecting(ops, Branch(v, n, connect, j + 1), ops.apply(m, b).utxos, heights[n + j := connect[j]],
                       undo[connect[j] := ops.apply(m, b).undo], |v.active|)
  {
    assert Tied(net, ops) by {
      assert OpenSound(0, v);
    }
    BranchStep(net, ops, v, n, connect, j, m, heights, undo);
  }

  lemma ReadyToConnect(net: Network, ops: Ops, v: View, h: Hash, n: nat, utxos: UtxoMap)
    requires SoundFor(net, ops, v, h) && !v.torn && n <= |v.active| && Rewound(ops, v.active, n, utxos, v.undo)
    ensures Connecting(ops, v.active[..n], utxos, v.heights, v.undo, |v.active|)
  {
    assert OpenSound(0, v);
    StartConnecting(net, ops, v.storage, v.tip, v.active, n, v.utxos, utxos, v.heights, v.undo);
  }

  lemma TreeOf(net: Network, ops: Ops, v: View, h: Hash)
    requires SoundFor(net, ops, v, h)
    ensures Tied(net, ops) && Tree(HeadersOf(v.storage), Root0(net)) && TipOk(v) && v.work.Keys == v.storage.Keys
  {
    assert OpenSound(0, v);
    TreeFacts(net, ops, v);
  }

  lemma SwitchUndo(net: Network, ops: Ops, v: View, h: Hash, disconnect: seq<Hash>, connect: seq<Hash>,
                   chain: seq<Block>, utxos: UtxoMap, trimmed: Heights, undo: Undos, pruned: Undos)
    requires HashNamesHeader(ops) && LedgerView(net, ops, v) && UndoKept(ops, v.active, v.undo, v.peak)
             && h in v.storage
    requires |disconnect| < |v.active| && BranchStoredAt(ops, v.storage, connect, |v.active| - |disconnect|)
    requires v.peak < |v.active| - |disconnect| + MAX_REORG_DEPTH
    requires chain == Branch(v, |v.active| - |disconnect|, connect, |connect|)
    requires LedgerOk(net, ops, v.storage, h, chain, utxos, trimmed, pruned)
    requires forall x :: x in undo <==> x in v.undo || x in connect
    requires PrunedAt(undo, pruned, trimmed, v.storage[h].header.height)
    ensures UndoKept(ops, chain, pruned, Max(v.peak, v.storage[h].header.height))
  {
    assert forall i :: 0 <= i < |v.active| ==> v.active[i].header.height == i by {
      ActiveHeights(net, ops, v.storage, v.tip, v.active, v.utxos, v.heights, v.undo);
    }
    BranchUndo(ops, v, |v.active| - |disconnect|, connect, undo);
    ChainListed(net, ops, v.storage, h, chain, utxos, trimmed, pruned);
    KeptAfterPrune(ops, chain, undo, pruned, trimmed, v.peak);
  }

  lemma ChainListed(net: Network, ops: Ops, storage: Blocks, h: Hash, chain: seq<Block>, utxos: UtxoMap,
                    heights: Heights, undo: Undos)
    requires LedgerOk(net, ops, storage, h, chain, utxos, heights, undo)
    ensures h in storage && chain != [] && |chain| == storage[h].header.height + 1
    ensures forall i :: 0 <= i < |chain| ==>
              chain[i].header.height == i && i in heights && heights[i] == ops.hash(chain[i])
  {
    ActiveHeights(net, ops, storage, h, chain, utxos, heights, undo);
    ActivePath(net, ops, storage, h, chain, utxos, heights, undo);
    ChainMapped(net, ops, storage, h, chain, utxos, heights, undo);
  }

  /** Records kept for the shared blocks and made for the new ones cover the branch. */
  lemma BranchUndo(ops: Ops, v: View, n: nat, connect: seq<Hash>, undo: Undos)
    requires HashNamesHeader(ops) && UndoKept(ops, v.active, v.undo, v.peak) && n <= |v.active|
             && v.peak < n + MAX_REORG_DEPTH
    requires (forall i :: 0 <= i < |v.active| ==> v.active[i].header.height == i)
             && BranchStoredAt(ops, v.storage, connect, n)
    requires forall x :: x in undo <==> x in v.undo || x in connect
    ensures var chain := Branch(v, n, connect, |connect|);
            forall i :: 1 <= i < |chain| ==> (ops.hash(chain[i]) in undo <==> i + MAX_REORG_DEPTH > v.peak)
  {
    assert OpenUndo(0);
    var chain := Branch(v, n, connect, |connect|);
    forall i | 1 <= i < |chain| ensures ops.hash(chain[i]) in undo <==> i + MAX_REORG_DEPTH > v.peak {
      if i < n {
        assert chain[i] == v.active[i];
        NotInBranch(ops, v.storage, connect, n, v.active[i]);
      } else {
        assert chain[i] == v.storage[connect[i - n]] && connect[i - n] in connect;
      }
    }
  }

  lemma NotInBranch(ops: Ops, storage: Blocks, connect: seq<Hash>, n: nat, b: Block)
    requires HashNamesHeader(ops) && BranchStoredAt(ops, storage, connect, n) && b.header.height < n
    ensures ops.hash(b) !in connect
  {
    forall j | 0 <= j < |connect| ensures connect[j] != ops.hash(b) {
      assert storage[connect[j]].header.height != b.header.height;
    }
  }

  lemma ChainMapped(net: Network, ops: Ops, storage: Blocks, h: Hash, chain: seq<Block>, utxos: UtxoMap,
                    heights: Heights, undo: Undos)
    requires LedgerOk(net, ops, storage, h, chain, utxos, heights, undo)
    ensures forall i :: 0 <= i < |chain| ==> i in heights && heights[i] == ops.hash(chain[i])
  {
    assert OpenLedger(0);
  }

  /** Rolling back to a fork finds every undo record exactly when the fork is at most the reorg limit below
      the greatest height the tip has had. */
  lemma UndoPresentIff(net: Network, ops: Ops, v: View, h: Hash, disconnect: seq<Hash>)
    requires SoundFor(net, ops, v, h) && !v.torn
    requires LastBlocks(ops, v.active, disconnect)
    ensures AllIn(disconnect, v.undo) <==> v.peak < |v.active| - |disconnect| + MAX_REORG_DEPTH
  {
    assert OpenSound(0, v) && OpenUndo(0);
    if disconnect != [] {
      assert disconnect[|disconnect| - 1] == ops.hash(v.active[|v.active| - |disconnect|]);
    }
  }

  lemma Switch(net: Network, ops: Ops, v: View, h: Hash, disconnect: seq<Hash>, connect: seq<Hash>, chain: seq<Block>,
               utxos: UtxoMap, heights: Heights, trimmed: Heights, undo: Undos, pruned: Undos)
    requires SoundFor(net, ops, v, h) && h in v.storage && h in v.work && Val(v.chainwork) < Val(v.work[h])
    requires !v.torn ==> Reached(net, ops, v, h, disconnect, connect, chain, utxos, heights, undo)
    requires PrunedAt(undo, pruned, trimmed, v.storage[h].header.height)
    requires TrimmedTo(heights, trimmed, v.storage[h].header.height, v.height)
    ensures var v' := SwitchedView(net.rules.hashing, v, h, chain, utxos, trimmed, pruned);
            Sound(net, ops, v') && Moved(net, ops, v, [Event(Reorganised, false)], v')
  {
    assert OpenSound(0, v);
    var v' := SwitchedView(net.rules.hashing, v, h, chain, utxos, trimmed, pruned);
    WorkIsPath(net, ops, v, h);
    WorkIsPath(net, ops, v, v.tip);
    LaterStep(net, ops, SnapOf(v), SnapOf(v'));
    if !v.torn {
      SwitchLedger(net, ops, v, h, disconnect, connect, chain, utxos, heights, trimmed, undo, pruned);
      if !v.swapped {
        assert OpenPrepared(0);
        BranchStored(ops, v, disconnect, connect);
      }
    }
    SwitchTraced(net, ops, v, h, disconnect, connect, chain, utxos, heights, trimmed, undo, pruned);
    assert OpenLater(0);
  }

  lemma SwitchTraced(net: Network, ops: Ops, v: View, h: Hash, disconnect: seq<Hash>, connect: seq<Hash>,
                     chain: seq<Block>, utxos: UtxoMap, heights: Heights, trimmed: Heights, undo: Undos, pruned: Undos)
    requires SoundFor(net, ops, v, h) && h in v.storage && h in v.work
    requires !v.torn ==> Reached(net, ops, v, h, disconnect, connect, chain, utxos, heights, undo)
    ensures var v' := SwitchedView(net.rules.hashing, v, h, chain, utxos, trimmed, pruned);
            TracedBy(net, v, [Event(Reorganised, false)], v')
  {
    var v' := SwitchedView(net.rules.hashing, v, h, chain, utxos, trimmed, pruned);
    if !v.torn {
      assert LastBlocks(ops, v.active, disconnect) by {
        assert OpenPrepared(0);
      }
      UndoPresentIff(net, ops, v, h, disconnect);
    }
    TracedStep(net, v, Event(Reorganised, false), v');
  }

  lemma SwitchLedger(net: Network, ops: Ops, v: View, h: Hash, disconnect: seq<Hash>, connect: seq<Hash>,
                     chain: seq<Block>, utxos: UtxoMap, heights: Heights, trimmed: Heights, undo: Undos, pruned: Undos)
    requires SoundFor(net, ops, v, h) && !v.torn && h in v.storage
    requires Reached(net, ops, v, h, disconnect, connect, chain, utxos, heights, undo)
    requires PrunedAt(undo, pruned, trimmed, v.storage[h].header.height)
    requires TrimmedTo(heights, trimmed, v.storage[h].header.height, v.height)
    ensures LedgerOk(net, ops, v.storage, h, chain, utxos, trimmed, pruned)
    ensures UndoKept(ops, chain, pruned, Max(v.peak, v.storage[h].header.height))
  {
    assert OpenPrepared(0);
    UndoPresentIff(net, ops, v, h, disconnect);
    assert OpenSound(0, v);
    BranchPath(net, ops, v, h, disconnect, connect);
    ActivePath(net, ops, v.storage, v.tip, v.active, v.utxos, v.heights, v.undo);
    Switched(net, ops, v.storage, h, chain, utxos, heights, trimmed, undo, pruned, |v.active|);
    NamesHeader(net, ops);
    SwitchUndo(net, ops, v, h, disconnect, connect, chain, utxos, trimmed, undo, pruned);
  }

  // ---- what validation sees ----------------------------------------------------------------

  /** Below the tip the height map lists the headers of the active chain. */
  lemma ActiveHeaders(net: Network, ops: Ops, v: View)
    requires Sound(net, ops, v) && !v.torn
    ensures HeadersBelow(v.heights, v.storage, v.height + 1) == ChainHeaders(v.active) && |v.active| == v.height + 1
    ensures v.utxos == ReplayChain(ops, v.active).utxos && ValidChain(ops, v.active)
  {
    assert OpenSound(0, v);
    NamesHeader(net, ops);
    ActivePath(net, ops, v.storage, v.tip, v.active, v.utxos, v.heights, v.undo);
    ActiveHeights(net, ops, v.storage, v.tip, v.active, v.utxos, v.heights, v.undo);
    ChainMapped(net, ops, v.storage, v.tip, v.active, v.utxos, v.heights, v.undo);
    forall i | 0 <= i < |v.active| ensures v.heights[i] in v.storage
      && ops.hash(v.storage[v.heights[i]]) == v.heights[i] {
      StoredOnPath(net, ops, v.storage, v.work, v.tip, i);
      assert HashesOf(ops, v.active)[i] == v.heights[i];
    }
    HeadersMatch(ops, v.storage, v.heights, v.active);
  }

  /** While a branch is connected, the height map below its next block lists the branch. */
  lemma BranchHeaders(net: Network, ops: Ops, v: View, h: Hash, n: nat, connect: seq<Hash>, j: nat, utxos: UtxoMap,
                      heights: Heights, undo: Undos)
    requires SoundFor(net, ops, v, h) && !v.torn && n <= |v.active| && j <= |connect|
             && BranchStoredAt(ops, v.storage, connect, n)
    requires Connecting(ops, Branch(v, n, connect, j), utxos, heights, undo, |v.active|)
    ensures HeadersBelow(heights, v.storage, n + j) == ChainHeaders(Branch(v, n, connect, j))
    ensures utxos == ReplayChain(ops, Branch(v, n, connect, j)).utxos && ValidChain(ops, Branch(v, n, connect, j))
  {
    var chain := Branch(v, n, connect, j);
    assert |chain| == n + j;
    assert HashNamesHeader(ops) by {
      assert OpenSound(0, v);
      NamesHeader(net, ops);
    }
    ConnectingMeans(ops, chain, utxos, heights, undo, |v.active|);
    forall i | 0 <= i < |chain| ensures heights[i] in v.storage && ops.hash(v.storage[heights[i]]) == heights[i] {
      BranchBlockStored(net, ops, v, h, n, connect, j, i);
    }
    HeadersMatch(ops, v.storage, heights, chain);
  }

  lemma BranchBlockStored(net: Network, ops: Ops, v: View, h: Hash, n: nat, connect: seq<Hash>, j: nat, i: nat)
    requires SoundFor(net, ops, v, h) && !v.torn && n <= |v.active| && j <= |connect|
             && BranchStoredAt(ops, v.storage, connect, n)
    requires i < |Branch(v, n, connect, j)|
    ensures var x := ops.hash(Branch(v, n, connect, j)[i]); x in v.storage && ops.hash(v.storage[x]) == x
  {
    if i < n {
      assert Branch(v, n, connect, j)[i] == v.active[i];
      ActiveStored(net, ops, v, h, i);
    } else {
      assert Branch(v, n, connect, j)[i] == v.storage[connect[i - n]];
    }
  }

  lemma ConnectingMeans(ops: Ops, chain: seq<Block>, utxos: UtxoMap, heights: Heights, undo: Undos, oldLen: nat)
    requires Connecting(ops, chain, utxos, heights, undo, oldLen)
    ensures utxos == ReplayChain(ops, chain).utxos && ValidChain(ops, chain)
    ensures forall i :: 0 <= i < |chain| ==> i in heights && heights[i] == ops.hash(chain[i])
  {
    assert OpenConnecting(0, chain);
    assert forall i :: 0 <= i < |chain| ==> HashesOf(ops, chain)[i] == ops.hash(chain[i]);
  }

  lemma ActiveStored(net: Network, ops: Ops, v: View, h: Hash, i: nat)
    requires SoundFor(net, ops, v, h) && !v.torn && i < |v.active|
    ensures ops.hash(v.active[i]) in v.storage && ops.hash(v.storage[ops.hash(v.active[i])]) == ops.hash(v.active[i])
  {
    assert OpenSound(0, v);
    ActivePath(net, ops, v.storage, v.tip, v.active, v.utxos, v.heights, v.undo);
    StoredOnPath(net, ops, v.storage, v.work, v.tip, i);
    assert HashesOf(ops, v.active)[i] == ops.hash(v.active[i]);
  }

  // ---- the outcome of a reorganisation ------------------------------------------------------

  /** The connected blocks up to the fork, then the stored bodies on the path to `h`. */
  ghost function Candidate(net: Network, storage: Blocks, tip: Hash, active: seq<Block>, h: Hash): seq<Block>
    requires Tree(HeadersOf(storage), Root0(net)) && tip in storage && h in storage
  {
    var hs, g := HeadersOf(storage), Root0(net);
    ForkConnectStored(hs, g, tip, h);
    active[..if ForkHeight(hs, g, tip, h) < |active| then ForkHeight(hs, g, tip, h) + 1 else |active|]
    + BodiesOf(storage, ForkConnect(hs, g, tip, h))
  }

  /** The fork to `h` is at most the reorg limit deep and not below the last checkpoint. */
  ghost predicate WithinLimits(net: Network, storage: Blocks, tip: Hash, h: Hash) {
    var hs, g := HeadersOf(storage), Root0(net);
    && Tree(hs, g) && tip in hs && h in hs
    && hs[tip].height - ForkHeight(hs, g, tip, h) <= MAX_REORG_DEPTH
       && ReorgAllowed(net.checkpoints, ForkHeight(hs, g, tip, h))
  }

  predicate OpenSwitch(k: int) { true }

  /** Sealed: switching to `h` goes through.  Every undo record is there, which means that the fork is not
      more than the reorg limit below the greatest height the tip has had, and the connected blocks up to the
      fork followed by the stored branch form a valid chain. */
  ghost predicate CanSwitch(net: Network, ops: Ops, storage: Blocks, tip: Hash, active: seq<Block>, peak: nat,
                            h: Hash) {
    forall k: int {:trigger OpenSwitch(k)} :: OpenSwitch(k) ==>
      var hs, g := HeadersOf(storage), Root0(net);
      && Tree(hs, g) && tip in hs && h in hs
      && ForkHeight(hs, g, tip, h) + MAX_REORG_DEPTH >= peak && ValidChain(ops, Candidate(net, storage, tip, active, h))
  }

  lemma ForkLists(net: Network, ops: Ops, v: View, h: Hash, disconnect: seq<Hash>, connect: seq<Hash>)
    requires SoundFor(net, ops, v, h) && !v.torn && h in v.storage && v.tip in v.storage
             && Tree(HeadersOf(v.storage), Root0(net))
    requires IsFork(HeadersOf(v.storage), Root0(net), v.tip, h, disconnect, connect)
    requires |disconnect| < |v.active| && BranchStoredAt(ops, v.storage, connect, |v.active| - |disconnect|)
    ensures Candidate(net, v.storage, v.tip, v.active, h) == Branch(v, |v.active| - |disconnect|, connect, |connect|)
    ensures ForkHeight(HeadersOf(v.storage), Root0(net), v.tip, h) + 1 == |v.active| - |disconnect|
  {
    ForkSize(HeadersOf(v.storage), Root0(net), v.tip, h, disconnect, connect);
    assert |v.active| == v.storage[v.tip].header.height + 1 by {
      assert OpenSound(0, v);
      ActivePath(net, ops, v.storage, v.tip, v.active, v.utxos, v.heights, v.undo);
    }
    assert connect[..|connect|] == connect;
  }

  lemma DepthIsLimit(net: Network, v: View, h: Hash, disconnect: seq<Hash>, connect: seq<Hash>)
    requires TipOk(v) && Tree(HeadersOf(v.storage), Root0(net)) && h in v.storage
    requires IsFork(HeadersOf(v.storage), Root0(net), v.tip, h, disconnect, connect)
    ensures |disconnect| <= v.height
    ensures WithinLimits(net, v.storage, v.tip, h) <==>
              |disconnect| <= MAX_REORG_DEPTH && ReorgAllowed(net.checkpoints, v.height - |disconnect|)
  {
    ForkSize(HeadersOf(v.storage), Root0(net), v.tip, h, disconnect, connect);
  }

  /** A branch block that is not accepted or does not apply keeps the whole branch from being valid. */
  lemma BranchStops(net: Network, ops: Ops, v: View, n: nat, connect: seq<Hash>, k: nat)
    requires 1 <= n <= |v.active| && k < |connect| && BranchStoredAt(ops, v.storage, connect, n)
    requires var m := ReplayChain(ops, Branch(v, n, connect, k)).utxos;
             !(ops.accept(ChainHeaders(Branch(v, n, connect, k)), m, v.storage[connect[k]])
               && ops.apply(m, v.storage[connect[k]]).ok)
    ensures !ValidChain(ops, Branch(v, n, connect, |connect|))
  {
    var chain := Branch(v, n, connect, |connect|);
    assert chain[..n + k] == Branch(v, n, connect, k) && chain[n + k] == v.storage[connect[k]];
    if ValidChain(ops, chain) {
      ValidAt(ops, chain, n + k);
    }
  }
}
