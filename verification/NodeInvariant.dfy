/** The invariant of the node's chain state, part by part, and how storing, extending and
    reorganising keep it.

    Each part is sealed: its definition sits under a quantifier that only a marker instantiates, so
    that a proof sees inside a part exactly where it asserts the marker. */
module NodeInvariant {
  import opened BigEndian
  import opened Primitives
  import opened Ledger
  import opened ChainTree
  import opened ChainLedger
  import opened ActiveChain

  type Blocks = map<Hash, Block>
  type Works = map<Hash, Bytes32>
  type Undos = map<Hash, seq<TxUndo>>
  type Heights = map<nat, Hash>

  predicate OpenTied(k: int) { true }
  predicate OpenTree(k: int) { true }
  predicate OpenLedger(k: int) { true }
  predicate OpenIndex(k: int) { true }
  predicate OpenBest(k: int) { true }
  predicate OpenLater(k: int) { true }
  predicate OpenConnects(k: int) { true }
  predicate OpenUndo(k: int) { true }

  const MAX_REORG_DEPTH: nat := 100

  function Max(a: nat, b: nat): nat {
    if a < b then b else a
  }

  // ---- the parts -------------------------------------------------------------------------

  /** `ops` are the operations of a well-formed network. */
  ghost predicate Tied(net: Network, ops: Ops) {
    forall k: int {:trigger OpenTied(k)} :: OpenTied(k) ==>
      NetworkOk(net) && Implements(net, ops) && Reversible(ops) && HashNamesHeader(ops)
  }

  /** Storage is a tree on schedule and `block_work` its cumulative work. */
  ghost predicate TreeOk(net: Network, ops: Ops, storage: Blocks, work: Works) {
    forall k: int {:trigger OpenTree(k)} :: OpenTree(k) ==>
      NetworkOk(net) && TreeState(net, ops.work, storage, work)
  }

  /** The UTXO set is the replay of `active`, `active` is the stored path to the tip and the height
      map is exactly that path. */
  ghost predicate LedgerOk(net: Network, ops: Ops, storage: Blocks, tip: Hash, active: seq<Block>, utxos: UtxoMap,
                           heights: Heights, undo: Undos) {
    forall k: int {:trigger OpenLedger(k)} :: OpenLedger(k) ==>
      && Tree(HeadersOf(storage), Root0(net)) && tip in storage
      && LedgerCore(ops, active, utxos, undo)
      && HashesOf(ops, active) == PathTo(HeadersOf(storage), Root0(net), tip)
      && MapsPath(heights, HashesOf(ops, active))
  }

  /** Every active block is stored with the body that was connected. */
  ghost predicate BodiesStored(ops: Ops, storage: Blocks, active: seq<Block>) {
    forall i :: 0 <= i < |active| ==> ops.hash(active[i]) in storage && storage[ops.hash(active[i])] == active[i]
  }

  /** `BodiesStored`, sealed. */
  ghost predicate BodiesOk(ops: Ops, storage: Blocks, active: seq<Block>) {
    forall k: int {:trigger OpenIndex(k)} :: OpenIndex(k) ==> BodiesStored(ops, storage, active)
  }

  /** Below 2^256, no stored block has more cumulative work than the tip. */
  ghost predicate BestOk(net: Network, ops: Ops, storage: Blocks, tip: Hash) {
    forall k: int {:trigger OpenBest(k)} :: OpenBest(k) ==>
      && Tree(HeadersOf(storage), Root0(net)) && tip in storage
      && (NoOverflow(ops.work, HeadersOf(storage), Root0(net)) ==>
           MostWork(ops.work, HeadersOf(storage), Root0(net), tip))
  }

  /** Exactly the active blocks less than the reorg limit below `peak`, the greatest height the tip has had,
      have undo records, and the tip is at most that limit below. */
  ghost predicate UndoKept(ops: Ops, active: seq<Block>, undo: Undos, peak: nat) {
    forall k: int {:trigger OpenUndo(k)} :: OpenUndo(k) ==>
      && |active| <= peak + 1 <= |active| + MAX_REORG_DEPTH
      && forall i :: 1 <= i < |active| ==> (ops.hash(active[i]) in undo <==> i + MAX_REORG_DEPTH > peak)
  }

  /** On the chain of the height map, below height `n`. */
  ghost predicate Below(heights: Heights, n: nat, h: Hash) {
    exists i: nat :: i < n && i in heights && heights[i] == h
  }

  /** `after` has lost exactly the records of blocks at or below the reorg limit. */
  ghost predicate PrunedAt(before: Undos, after: Undos, heights: Heights, height: nat) {
    && SubMap(after, before)
    && forall h :: h in before ==>
         (h in after <==> height <= MAX_REORG_DEPTH || !Below(heights, height - MAX_REORG_DEPTH + 1, h))
  }

  ghost predicate LaterOk(net: Network, ops: Ops, a: Snapshot, b: Snapshot) {
    forall k: int {:trigger OpenLater(k)} :: OpenLater(k) ==> Later(ops.work, Root0(net), a, b)
  }

  /** A block that passed the checks before storing. */
  ghost predicate ConnectsOk(net: Network, storage: Blocks, b: Block) {
    forall k: int {:trigger OpenConnects(k)} :: OpenConnects(k) ==> NetworkOk(net) && Connects(net, storage, b)
  }

  ghost predicate SubMap<T(!new), U(!new)>(a: map<T, U>, b: map<T, U>) {
    forall k :: k in a ==> k in b && a[k] == b[k]
  }

  // ---- storing ---------------------------------------------------------------------------

  lemma Stored(net: Network, ops: Ops, storage: Blocks, work: Works, b: Block, w: Bytes32)
    requires Tied(net, ops) && TreeOk(net, ops, storage, work) && ConnectsOk(net, storage, b)
    requires Val(w) == AddWrap(Val(ParentWork(work, b.header.prevHash)), ops.work(b.header.bits))
    ensures TreeOk(net, ops, storage[HashOf(net, b) := b], work[HashOf(net, b) := w])
  {
    assert OpenTree(0) && OpenConnects(0);
    StoreBlock(net, ops.work, storage, work, b, w);
  }

  /** The headers after storing, and that they extend the headers before. */
  lemma StoredHeaders(net: Network, ops: Ops, storage: Blocks, work: Works, b: Block)
    requires TreeOk(net, ops, storage, work) && ConnectsOk(net, storage, b)
    ensures var h, hs, more := HashOf(net, b), HeadersOf(storage), HeadersOf(storage[HashOf(net, b) := b]);
            && Tree(hs, Root0(net)) && Tree(more, Root0(net)) && Extends(hs, more)
            && more == hs[h := b.header] && (h in hs ==> more == hs)
            && (b.header.prevHash in hs ==> h != Root0(net) && b.header.height == hs[b.header.prevHash].height + 1)
  {
    assert OpenTree(0) && OpenConnects(0);
    StoreHeaders(net, storage, b);
    StoreShape(net, storage, b);
    var h, hs := HashOf(net, b), HeadersOf(storage);
    assert h in hs ==> hs[h := b.header] == hs;
  }

  lemma GrowLedger(net: Network, ops: Ops, storage: Blocks, more: Blocks, tip: Hash, active: seq<Block>, utxos: UtxoMap,
                   heights: Heights, undo: Undos)
    requires Tree(HeadersOf(storage), Root0(net)) && Tree(HeadersOf(more), Root0(net))
             && Extends(HeadersOf(storage), HeadersOf(more))
    requires LedgerOk(net, ops, storage, tip, active, utxos, heights, undo)
    ensures LedgerOk(net, ops, more, tip, active, utxos, heights, undo)
  {
    assert OpenLedger(0);
    GrowAt(ops.work, HeadersOf(storage), HeadersOf(more), Root0(net), tip);
  }

  // ---- extending -------------------------------------------------------------------------

  lemma MapsPathExtends(heights: Heights, path: seq<Hash>, h: Hash)
    requires MapsPath(heights, path)
    ensures MapsPath(heights[|path| := h], path + [h])
  {}

  /** The path to a child of the tip. */
  lemma ChildPath(net: Network, ops: Ops, storage: Blocks, tip: Hash, active: seq<Block>, b: Block)
    requires Tree(HeadersOf(storage), Root0(net)) && tip in storage
             && HashesOf(ops, active) == PathTo(HeadersOf(storage), Root0(net), tip)
    requires ops.hash(b) in storage && storage[ops.hash(b)].header == b.header && b.header.prevHash == tip
             && ops.hash(b) != Root0(net)
    ensures b.header.height == |active|
    ensures HashesOf(ops, active + [b]) == PathTo(HeadersOf(storage), Root0(net), ops.hash(b)) ==
            HashesOf(ops, active) + [ops.hash(b)]
  {
    assert Parent(HeadersOf(storage), Root0(net), ops.hash(b)) == tip;
    assert HashesOf(ops, active + [b]) == HashesOf(ops, active) + [ops.hash(b)];
  }

  /** The ledger after connecting a child of the tip, whatever undo data is pruned afterwards. */
  lemma ExtendLedger(net: Network, ops: Ops, storage: Blocks, tip: Hash, active: seq<Block>, utxos: UtxoMap,
                     heights: Heights, undo: Undos, pruned: Undos, b: Block)
    requires HashNamesHeader(ops) && LedgerOk(net, ops, storage, tip, active, utxos, heights, undo)
    requires ops.hash(b) in storage && storage[ops.hash(b)].header == b.header && b.header.prevHash == tip
             && ops.hash(b) != Root0(net)
    requires ops.accept(ChainHeaders(active), utxos, b) && ops.apply(utxos, b).ok
    requires SubMap(pruned, undo[ops.hash(b) := ops.apply(utxos, b).undo])
    ensures LedgerOk(net, ops, storage, ops.hash(b), active + [b], ops.apply(utxos, b).utxos,
            heights[b.header.height := ops.hash(b)], pruned)
    ensures b.header.height == |active|
  {
    ChildStep(net, ops, storage, tip, active, utxos, heights, undo, b);
    ForgettingUndo(ops, active + [b], ops.apply(utxos, b).utxos, undo[ops.hash(b) := ops.apply(utxos, b).undo], pruned);
  }

  lemma ChildStep(net: Network, ops: Ops, storage: Blocks, tip: Hash, active: seq<Block>, utxos: UtxoMap,
                  heights: Heights, undo: Undos, b: Block)
    requires HashNamesHeader(ops) && LedgerOk(net, ops, storage, tip, active, utxos, heights, undo)
    requires ops.hash(b) in storage && storage[ops.hash(b)].header == b.header && b.header.prevHash == tip
             && ops.hash(b) != Root0(net)
    requires ops.accept(ChainHeaders(active), utxos, b) && ops.apply(utxos, b).ok
    ensures b.header.height == |active| && Tree(HeadersOf(storage), Root0(net))
    ensures LedgerCore(ops, active + [b], ops.apply(utxos, b).utxos, undo[ops.hash(b) := ops.apply(utxos, b).undo])
    ensures HashesOf(ops, active + [b]) == PathTo(HeadersOf(storage), Root0(net), ops.hash(b))
    ensures MapsPath(heights[b.header.height := ops.hash(b)], HashesOf(ops, active + [b]))
  {
    assert OpenLedger(0);
    ChildPath(net, ops, storage, tip, active, b);
    ConnectStep(ops, active, utxos, undo, b);
    MapsPathExtends(heights, HashesOf(ops, active), ops.hash(b));
  }

  lemma ExtendBodies(ops: Ops, storage: Blocks, active: seq<Block>, b: Block)
    requires HashNamesHeader(ops) && BodiesOk(ops, storage, active) && b.header.height == |active|
    requires forall i :: 0 <= i < |active| ==> active[i].header.height == i
    ensures BodiesOk(ops, storage[ops.hash(b) := b], active + [b])
  {
    assert OpenIndex(0);
    forall i | 0 <= i < |active| ensures ops.hash(active[i]) != ops.hash(b) {}
  }

  lemma ActiveHeights(net: Network, ops: Ops, storage: Blocks, tip: Hash, active: seq<Block>, utxos: UtxoMap,
                      heights: Heights, undo: Undos)
    requires LedgerOk(net, ops, storage, tip, active, utxos, heights, undo)
    ensures active != [] && active[0] == ops.genesis && forall i :: 0 <= i < |active| ==> active[i].header.height == i
    ensures ValidChain(ops, active) && utxos == ReplayChain(ops, active).utxos
  {
    assert OpenLedger(0);
  }

  // ---- work ------------------------------------------------------------------------------

  lemma ExtendBest(net: Network, ops: Ops, storage: Blocks, more: Blocks, tip: Hash, h: Hash)
    requires BestOk(net, ops, storage, tip) && Tree(HeadersOf(more), Root0(net))
             && Extends(HeadersOf(storage), HeadersOf(more))
    requires h in more && h != Root0(net) && more[h].header.prevHash == tip && more.Keys == storage.Keys + {h}
    ensures BestOk(net, ops, more, h)
  {
    assert OpenBest(0);
    var hs, ms, g := HeadersOf(storage), HeadersOf(more), Root0(net);
    forall k | k in hs ensures PathWork(ops.work, ms, g, k) == PathWork(ops.work, hs, g, k) {
      GrowAt(ops.work, hs, ms, g, k);
    }
    assert Parent(ms, g, h) == tip;
  }

  /** After storing `h` beside the chain, the better of the tip and `h` is the best. */
  lemma SideBest(net: Network, ops: Ops, storage: Blocks, more: Blocks, tip: Hash, h: Hash)
    requires BestOk(net, ops, storage, tip) && Tree(HeadersOf(more), Root0(net))
             && Extends(HeadersOf(storage), HeadersOf(more))
    requires h in more && more.Keys == storage.Keys + {h} && tip in more
    ensures NoOverflow(ops.work, HeadersOf(more), Root0(net)) ==>
              var side := PathWork(ops.work, HeadersOf(more), Root0(net), h);
              var best := PathWork(ops.work, HeadersOf(more), Root0(net), tip);
              (side <= best ==> BestOk(net, ops, more, tip)) && (best <= side ==> BestOk(net, ops, more, h))
    ensures !NoOverflow(ops.work, HeadersOf(more), Root0(net)) ==>
              BestOk(net, ops, more, tip) && BestOk(net, ops, more, h)
  {
    assert OpenBest(0);
    var hs, ms, g := HeadersOf(storage), HeadersOf(more), Root0(net);
    forall k | k in hs ensures PathWork(ops.work, ms, g, k) == PathWork(ops.work, hs, g, k) {
      GrowAt(ops.work, hs, ms, g, k);
    }
  }

  lemma LaterStep(net: Network, ops: Ops, a: Snapshot, b: Snapshot)
    requires var g := Root0(net);
             && Tree(a.hs, g) && Tree(b.hs, g) && Extends(a.hs, b.hs) && a.tip in a.hs && b.tip in b.hs
             && (b.tip == a.tip || (b.tip != g && b.hs[b.tip].prevHash == a.tip)
                 || (NoOverflow(ops.work, b.hs, g) ==>
                      PathWork(ops.work, b.hs, g, a.tip) < PathWork(ops.work, b.hs, g, b.tip)))
    ensures LaterOk(net, ops, a, b)
  {
    GrowAt(ops.work, a.hs, b.hs, Root0(net), a.tip);
    if b.tip != Root0(net) && b.hs[b.tip].prevHash == a.tip {
      assert Parent(b.hs, Root0(net), b.tip) == a.tip;
    }
  }

  // ---- undo records ----------------------------------------------------------------------

  /** Pruning after a change of tip leaves exactly what the reorg limit may still need. */
  lemma KeptAfterPrune(ops: Ops, chain: seq<Block>, undo: Undos, pruned: Undos, heights: Heights, before: nat)
    requires HashNamesHeader(ops) && chain != [] && before < |chain| + MAX_REORG_DEPTH
    requires forall i :: 0 <= i < |chain| ==>
               chain[i].header.height == i && i in heights && heights[i] == ops.hash(chain[i])
    requires forall i :: 1 <= i < |chain| ==> (ops.hash(chain[i]) in undo <==> i + MAX_REORG_DEPTH > before)
    requires PrunedAt(undo, pruned, heights, |chain| - 1)
    ensures UndoKept(ops, chain, pruned, Max(before, |chain| - 1))
  {
    var height, peak := |chain| - 1, Max(before, |chain| - 1);
    forall i | 1 <= i < |chain| ensures ops.hash(chain[i]) in pruned <==> i + MAX_REORG_DEPTH > peak {
      if height > MAX_REORG_DEPTH {
        BelowOnChain(ops, chain, heights, height - MAX_REORG_DEPTH + 1, i);
      }
    }
  }

  lemma BelowOnChain(ops: Ops, chain: seq<Block>, heights: Heights, n: nat, i: nat)
    requires HashNamesHeader(ops) && i < |chain| && n <= |chain|
    requires forall j :: 0 <= j < |chain| ==>
               chain[j].header.height == j && j in heights && heights[j] == ops.hash(chain[j])
    ensures Below(heights, n, ops.hash(chain[i])) <==> i < n
  {
    if i < n {
      assert i in heights && heights[i] == ops.hash(chain[i]);
    } else if j: nat :| j < n && j in heights && heights[j] == ops.hash(chain[i]) {
      assert ops.hash(chain[j]) == ops.hash(chain[i]);
    }
  }

  // ---- headers by height -----------------------------------------------------------------

  /** The stored headers the height map lists below height `n`. */
  function HeadersBelow(heights: Heights, storage: Blocks, n: nat): seq<Header> {
    if n == 0 then [] else
      HeadersBelow(heights, storage, n - 1)
      + if n - 1 in heights && heights[n - 1] in storage then [storage[heights[n - 1]].header] else []
  }

  /** They are the headers of the chain the height map lists. */
  lemma {:induction false} HeadersMatch(ops: Ops, storage: Blocks, heights: Heights, chain: seq<Block>)
    requires HashNamesHeader(ops)
    requires forall i :: 0 <= i < |chain| ==>
               i in heights && heights[i] == ops.hash(chain[i]) && heights[i] in storage
                 && ops.hash(storage[heights[i]]) == heights[i]
    ensures HeadersBelow(heights, storage, |chain|) == ChainHeaders(chain)
  {
    if chain != [] {
      var n := |chain| - 1;
      HeadersMatch(ops, storage, heights, chain[..n]);
      assert ops.hash(storage[heights[n]]) == ops.hash(chain[n]);
      assert ChainHeaders(chain) == ChainHeaders(chain[..n]) + [chain[n].header];
    }
  }
}
