/** The node's chain state machine: orphan, extend the tip, store a side block, or reorganise to the
    chain with the most cumulative work. */
module NodeState {
  import opened BigEndian
  import opened Primitives
  import opened Arithmetic256
  import opened Difficulty
  import opened Emission
  import opened Ledger
  import opened Validator
  import opened ChainTree
  import opened Schedule
  import opened ChainLedger
  import opened ActiveChain
  import opened ChainWalk
  import opened NodeInvariant
  import opened NodeView
  import opened NodeReorg
  import opened NodeSteps
  import opened NodeHistory
  import opened OrphanPool
  import Indexes

  const MAX_ORPHAN_BLOCKS: nat := 100

  /** Validation followed by application: the undo data, or which of the two failed. */
  datatype Verdict = Applied(undo: seq<TxUndo>) | Invalid | Stuck

  predicate OpenCache(k: int, storage: Blocks) { true }

  /** The memory cache holds stored blocks, and every cached hash is queued for eviction. */
  ghost predicate CacheOk(blocks: Blocks, order: seq<Hash>, storage: Blocks) {
    forall k: int {:trigger OpenCache(k, storage)} :: OpenCache(k, storage) ==>
      && (forall h :: h in blocks ==> h in storage && blocks[h] == storage[h])
      && forall h :: h in blocks ==> h in order
  }

  lemma BelowNext(heights: Heights, n: nat, h: Hash)
    ensures Below(heights, n + 1, h) <==> Below(heights, n, h) || (n in heights && heights[n] == h)
  {
    if Below(heights, n, h) {
      var i: nat :| i < n && i in heights && heights[i] == h;
      assert i < n + 1;
    }
  }

  /** `insert_block_cache`: oldest entries leave first once the cache is over capacity. */
  method InsertBlockCache(before: Blocks, order: seq<Hash>, ghost storage: Blocks, h: Hash, b: Block, cap: nat)
    returns (blocks: Blocks, cacheOrder: seq<Hash>)
    requires CacheOk(before, order, storage)
    ensures CacheOk(blocks, cacheOrder, storage[h := b]) && |blocks| <= cap
    ensures |before[h := b]| <= cap ==> blocks == before[h := b]
  {
    assert OpenCache(0, storage);
    blocks := before[h := b];
    cacheOrder := order + [h];
    while |blocks| > cap
      invariant forall k :: k in blocks ==> k in cacheOrder
      invariant forall k :: k in blocks ==> if k == h then blocks[k] == b else k in before && blocks[k] == before[k]
      invariant |before[h := b]| <= cap ==> blocks == before[h := b]
      decreases |cacheOrder|
    {
      assert blocks.Keys != {};
      var oldest := cacheOrder[0];
      cacheOrder := cacheOrder[1..];
      blocks := blocks - {oldest};
    }
  }

  /** Undo data at or below the reorg limit is deleted with every persisted tip. */
  method PruneUndo(before: Undos, heights: Heights, height: nat) returns (undo: Undos)
    ensures PrunedAt(before, undo, heights, height)
  {
    undo := before;
    if height > MAX_REORG_DEPTH {
      for i := 0 to height - MAX_REORG_DEPTH + 1
        invariant SubMap(undo, before)
        invariant forall h :: h in before ==> (h in undo <==> !Below(heights, i, h))
      {
        forall h ensures Below(heights, i + 1, h) <==> Below(heights, i, h) || (i in heights && heights[i] == h) {
          BelowNext(heights, i, h);
        }
        if i in heights {
          undo := undo - {heights[i]};
        }
      }
    }
  }

  // ---- the state ---------------------------------------------------------------------------

  /** The node's view of the chain: tip, storage and everything derived from them. */
  datatype Chain = Chain(
    tip: Hash, height: nat, chainwork: Bytes32,
    storage: Blocks, blockWork: Works, heightMap: Heights, undo: Undos, index: Indexes.Index
  )

  datatype Cache = Cache(blocks: Blocks, order: seq<Hash>)

  datatype Orphans = Orphans(blocks: Blocks, byParent: ByParent)

  /** What a run has done, as in `View`. */
  datatype Past = Past(active: seq<Block>, torn: bool, refused: bool, swapped: bool, peak: nat)

  ghost function ViewOf(c: Chain, p: Past, utxos: UtxoMap): View {
    View(c.storage, c.blockWork, c.tip, c.height, c.chainwork, p.active, utxos, c.heightMap, c.undo, c.index, p.torn,
      p.refused, p.swapped, p.peak)
  }

  /** One more block connected. */
  ghost function WithBlock(p: Past, b: Block): Past {
    p.(active := p.active + [b], peak := Max(p.peak, b.header.height))
  }

  /** Only storage and recorded work changed, to take in `b`. */
  ghost predicate Aside(c: Chain, h: Hash, b: Block, c': Chain) {
    c' == c.(storage := c.storage[h := b], blockWork := c'.blockWork)
  }

  ghost predicate PoolsOk(net: Network, c: Chain, cache: Cache, orphans: Orphans) {
    CacheOk(cache.blocks, cache.order, c.storage) && OrphansOk(net, orphans.blocks, orphans.byParent)
  }

  /** The bookkeeping of a block just applied on top of the tip. */
  method CommitTip(txid: Tx -> Hash, c: Chain, h: Hash, b: Block, cumulative: Bytes32, record: seq<TxUndo>)
    returns (c': Chain)
    ensures PrunedAt(c.undo[h := record], c'.undo, c'.heightMap, b.header.height)
    ensures c' ==
            Chain(h, b.header.height, cumulative, c.storage[h := b], c.blockWork[h := cumulative],
                  c.heightMap[b.header.height := h], c'.undo,
                  Indexes.AddBlock(txid, c.index, h, b.txs, b.header.height))
  {
    var heights := c.heightMap[b.header.height := h];
    var undo := PruneUndo(c.undo[h := record], heights, b.header.height);
    var index := Indexes.IndexTxs(txid, c.index.(chain := c.index.chain[h := b.header.height]), b.txs, b.header.height);
    c' := Chain(h, b.header.height, cumulative, c.storage[h := b], c.blockWork[h := cumulative], heights, undo, index);
  }

  /** Extending the tip, once validation and application have succeeded. */
  method Advance(net: Network, ghost ops: Ops, c: Chain, cache: Cache, cap: nat, ghost past: Past,
                 ghost before: UtxoMap, ghost after: UtxoMap,
                 h: Hash, b: Block, cumulative: Bytes32, record: seq<TxUndo>) returns (c': Chain, cache': Cache)
    requires Sound(net, ops, ViewOf(c, past, before)) && CacheOk(cache.blocks, cache.order, c.storage)
    requires h == HashOf(net, b) && ConnectsOk(net, c.storage, b) && b.header.prevHash == c.tip
    requires Val(cumulative) == AddWrap(Val(ParentWork(c.blockWork, c.tip)), ops.work(b.header.bits))
    requires !past.torn ==> ops.accept(ChainHeaders(past.active), before, b)
    requires ops.apply(before, b) == BlockStep(after, record, true)
    ensures var v, v' := ViewOf(c, past, before), ViewOf(c', WithBlock(past, b), after);
            Sound(net, ops, v') && Moved(net, ops, v, [Event(Extended, false)], v')
    ensures CacheOk(cache'.blocks, cache'.order, c'.storage) && |cache'.blocks| <= cap && c'.tip == h
            && c'.storage == c.storage[h := b]
  {
    var blocks, order := InsertBlockCache(cache.blocks, cache.order, c.storage, h, b, cap);
    cache' := Cache(blocks, order);
    c' := CommitTip(net.rules.hashing.txid, c, h, b, cumulative, record);
    assert OpenSound(0, ViewOf(c, past, before));
    HashFacts(net, ops, b);
    Extend(net, ops, ViewOf(c, past, before), b, cumulative, c'.undo);
  }

  method TrimHeights(heights: Heights, height: nat, oldHeight: nat) returns (trimmed: Heights)
    ensures TrimmedTo(heights, trimmed, height, oldHeight)
  {
    trimmed := heights;
    if oldHeight > height {
      for i := height + 1 to oldHeight + 1
        invariant TrimmedTo(heights, trimmed, height, i - 1)
      {
        trimmed := trimmed - {i};
      }
    }
  }

  /** The end of a reorganisation: trim the height map, move the tip, prune undo data, rebuild the indexes. */
  method MoveTip(net: Network, ghost ops: Ops, ghost v: View, h: Hash, ghost disconnect: seq<Hash>,
                 ghost connect: seq<Hash>, ghost branch: seq<Block>, ghost utxos: UtxoMap, c: Chain,
                 heights: Heights, undo: Undos)
    returns (c': Chain)
    requires SoundFor(net, ops, v, h) && h in v.storage && h in v.work && Val(v.chainwork) < Val(v.work[h])
    requires c.storage == v.storage && c.blockWork == v.work && c.height == v.height
    requires !v.torn ==> Reached(net, ops, v, h, disconnect, connect, branch, utxos, heights, undo)
    ensures var peak := Max(v.peak, v.storage[h].header.height);
            var v' := ViewOf(c', Past(branch, v.torn, v.refused, v.swapped, peak), utxos);
            Sound(net, ops, v') && Moved(net, ops, v, [Event(Reorganised, false)], v')
    ensures c'.tip == h && c'.storage == c.storage && c'.blockWork == c.blockWork
            && c'.height == c.storage[h].header.height
    ensures forall p: Past, m: UtxoMap :: Fresh(net, ViewOf(c', p, m))
  {
    var height := c.storage[h].header.height;
    var trimmed := TrimHeights(heights, height, c.height);
    var pruned := PruneUndo(undo, trimmed, height);
    var index := Indexes.RebuildIndexes(net.rules.hashing, trimmed, c.storage, height);
    c' := Chain(h, height, c.blockWork[h], c.storage, c.blockWork, trimmed, pruned, index);
    Switch(net, ops, v, h, disconnect, connect, branch, utxos, heights, trimmed, undo, pruned);
  }

  /** The parent's work and the block's own. */
  method CumulativeWork(work: Works, b: Block) returns (w: Bytes32)
    ensures Val(w) == AddWrap(Val(ParentWork(work, b.header.prevHash)), WorkOf(b.header.bits))
  {
    var own := WorkFromCompact(b.header.bits);
    w := AddWork(ParentWork(work, b.header.prevHash), own);
  }

  class NodeState {
    const net: Network
    const maxBlockCache: nat
    const utxoSet: UtxoSet
    var chain: Chain
    var cache: Cache
    var orphans: Orphans

    ghost const ops: Ops
    ghost var past: Past

    ghost function ToView(): View
      reads this, utxoSet
    {
      ViewOf(chain, past, utxoSet.utxos)
    }

    ghost predicate Valid()
      reads this, utxoSet
    {
      Sound(net, ops, ToView()) && PoolsOk(net, chain, cache, orphans)
    }

    /** Cache first, then storage. */
    function GetBlock(h: Hash): (r: Option<Block>)
      reads this
      ensures CacheOk(cache.blocks, cache.order, chain.storage) ==> r == if h in chain.storage
              then Some(chain.storage[h]) else None
    {
      assert OpenCache(0, chain.storage);
      if h in cache.blocks then Some(cache.blocks[h]) else if h in chain.storage then Some(chain.storage[h]) else None
    }

    constructor (net: Network, maxBlockCache: nat)
      requires NetworkOk(net)
      ensures Valid() && fresh(utxoSet) && Fresh(net, ToView())
      ensures this.net == net && ops == OpsOf(net) && past == Past([net.genesis], false, false, false, 0)
              && orphans.blocks == map[]
      ensures ToView() == InitialView(net, chain.chainwork) && Val(chain.chainwork) == WorkOf(net.genesis.header.bits)
    {
      var u := new UtxoSet();
      var ignored := u.ApplyBlockWithUndo(net.rules.hashing.txid, net.genesis);
      var h := HashOf(net, net.genesis);
      var w := WorkFromCompact(net.genesis.header.bits);
      var blocks, order := InsertBlockCache(map[], [], map[], h, net.genesis, maxBlockCache);
      var x := Indexes.RebuildIndexes(net.rules.hashing, map[0 := h], map[h := net.genesis], 0);
      this.net, this.maxBlockCache := net, maxBlockCache;
      utxoSet := u;
      chain := Chain(h, 0, w, map[h := net.genesis], map[h := w], map[0 := h], map[], x);
      cache := Cache(blocks, order);
      orphans := Orphans(map[], map[]);
      ops := OpsOf(net);
      past := Past([net.genesis], false, false, false, 0);
      new;
      InitialOk(net, ops, w);
    }

    // ---- orphans -------------------------------------------------------------------------

    method DropOrphan(c: Hash, parent: Hash)
      requires OrphansOk(net, orphans.blocks, orphans.byParent)
      requires c in orphans.blocks && orphans.blocks[c].header.prevHash == parent
      modifies `orphans
      ensures OrphansOk(net, orphans.blocks, orphans.byParent)
      ensures orphans.blocks == old(orphans.blocks) - {c} && |orphans.blocks| == old(|orphans.blocks|) - 1
    {
      OrphanDropped(net, orphans.blocks, orphans.byParent, c);
      orphans := Orphans(orphans.blocks - {c}, Without(orphans.byParent, parent, c));
    }

    /** A block whose parent is unknown waits, bounded by evicting arbitrary others. */
    method AddOrphan(h: Hash, b: Block)
      requires OrphansOk(net, orphans.blocks, orphans.byParent) && h == HashOf(net, b)
      requires HeaderHashInjective(net.rules.hashing.headerHash)
      modifies `orphans
      ensures OrphansOk(net, orphans.blocks, orphans.byParent)
      ensures h in orphans.blocks && orphans.blocks[h] == b && |orphans.blocks| <= 100
      ensures SubMap(orphans.blocks - {h}, old(orphans.blocks))
      ensures |old(orphans.blocks)| < 100 ==> orphans.blocks == old(orphans.blocks)[h := b]
    {
      MakeRoom();
      if h in orphans.blocks {
        OrphanNamed(net, orphans.blocks, orphans.byParent, h);
      }
      OrphanAdded(net, orphans.blocks, orphans.byParent, b);
      AtMostOneMore(orphans.blocks, h, b);
      orphans := Orphans(orphans.blocks[h := b], With(orphans.byParent, b.header.prevHash, h));
    }

    method MakeRoom()
      requires OrphansOk(net, orphans.blocks, orphans.byParent)
      modifies `orphans
      ensures OrphansOk(net, orphans.blocks, orphans.byParent) && |orphans.blocks| < MAX_ORPHAN_BLOCKS
      ensures SubMap(orphans.blocks, old(orphans.blocks))
      ensures |old(orphans.blocks)| < MAX_ORPHAN_BLOCKS ==> orphans.blocks == old(orphans.blocks)
    {
      while |orphans.blocks| >= MAX_ORPHAN_BLOCKS
        invariant OrphansOk(net, orphans.blocks, orphans.byParent)
        invariant SubMap(orphans.blocks, old(orphans.blocks))
        invariant |old(orphans.blocks)| < MAX_ORPHAN_BLOCKS ==> orphans.blocks == old(orphans.blocks)
        decreases |orphans.blocks|
      {
        assert orphans.blocks.Keys != {};
        var victim: Hash :| victim in orphans.blocks;
        DropOrphan(victim, orphans.blocks[victim].header.prevHash);
      }
    }

    // ---- validation and application ------------------------------------------------------

    /** Validation sees the headers the height map lists below the block. */
    method ValidateAndApply(b: Block, heights: Heights) returns (r: Verdict)
      requires Tied(net, ops)
      modifies utxoSet
      ensures r.Invalid? <==> !ops.accept(HeadersBelow(heights, chain.storage, b.header.height), old(utxoSet.utxos), b)
      ensures r.Invalid? ==> utxoSet.utxos == old(utxoSet.utxos)
      ensures !r.Invalid? ==> (r.Applied? <==> ops.apply(old(utxoSet.utxos), b).ok)
      ensures !r.Invalid? ==> utxoSet.utxos == ops.apply(old(utxoSet.utxos), b).utxos
      ensures r.Applied? ==> r.undo == ops.apply(old(utxoSet.utxos), b).undo
    {
      var headers := HeadersBelow(heights, chain.storage, b.header.height);
      OpsAt(net, ops, headers, utxoSet.utxos, b);
      var err := ValidateBlock(net.rules, b, utxoSet.utxos, net.mtp(headers));
      if err != None {
        return Invalid;
      }
      var u := utxoSet.ApplyBlockWithUndo(net.rules.hashing.txid, b);
      r := if u == None then Stuck else Applied(u.value);
    }

    // ---- extending the tip ---------------------------------------------------------------

    method ExtendTip(h: Hash, b: Block, cumulative: Bytes32) returns (r: Outcome)
      requires Valid() && h == HashOf(net, b) && ConnectsOk(net, chain.storage, b) && b.header.prevHash == chain.tip
      requires Val(cumulative) == AddWrap(Val(ParentWork(chain.blockWork, chain.tip)), ops.work(b.header.bits))
      modifies `chain, `cache, `past, utxoSet
      ensures Valid() && Moved(net, ops, old(ToView()), [Event(r, false)], ToView())
      ensures r == OnTip(ops, old(ToView()), b) && (r.Rejected? || r.Extended? || r.LedgerTorn?)
      ensures r.Rejected? ==> ToView() == old(ToView())
      ensures r.LedgerTorn? ==> chain == old(chain) && past == old(past).(torn := true)
      ensures r.Extended? ==>
                chain.tip == h && chain.storage == old(chain.storage)[h := b] && past == WithBlock(old(past), b)
    {
      ghost var v := ToView();
      Standing(net, ops, v);
      var verdict := ValidateAndApply(b, chain.heightMap);
      if verdict.Invalid? {
        Unmoved(net, ops, v, Rejected);
        return Rejected;
      }
      if verdict.Stuck? {
        past := past.(torn := true);
        Torn(net, ops, v, v.tip, ToView());
        return LedgerTorn;
      }
      if !v.torn {
        TipHeaders(net, ops, v, b);
      }
      Commit(h, b, cumulative, verdict.undo, v.utxos);
      r := Extended;
    }

    /** The block just applied to the set `before` becomes the tip. */
    method Commit(h: Hash, b: Block, cumulative: Bytes32, record: seq<TxUndo>, ghost before: UtxoMap)
      requires Sound(net, ops, ViewOf(chain, past, before)) && PoolsOk(net, chain, cache, orphans)
      requires h == HashOf(net, b) && ConnectsOk(net, chain.storage, b) && b.header.prevHash == chain.tip
      requires Val(cumulative) == AddWrap(Val(ParentWork(chain.blockWork, chain.tip)), ops.work(b.header.bits))
      requires !past.torn ==> ops.accept(ChainHeaders(past.active), before, b)
      requires ops.apply(before, b) == BlockStep(utxoSet.utxos, record, true)
      modifies `chain, `cache, `past
      ensures Valid() && Moved(net, ops, old(ViewOf(chain, past, before)), [Event(Extended, false)], ToView())
      ensures chain.tip == h && chain.storage == old(chain.storage)[h := b] && past == WithBlock(old(past), b)
    {
      chain, cache :=
        Advance(net, ops, chain, cache, maxBlockCache, past, before, utxoSet.utxos, h, b, cumulative, record);
      past := WithBlock(past, b);
    }

    // ---- side blocks and reorganisation --------------------------------------------------

    /** A block off the tip is stored without validating its transactions. */
    method StoreSide(h: Hash, b: Block, cumulative: Bytes32)
      requires Valid() && h == HashOf(net, b) && h == ops.hash(b) && ConnectsOk(net, chain.storage, b)
      requires Val(cumulative) == AddWrap(Val(ParentWork(chain.blockWork, b.header.prevHash)), ops.work(b.header.bits))
      modifies `chain, `cache, `past
      ensures SoundFor(net, ops, ToView(), if Val(cumulative) <= Val(chain.chainwork) then chain.tip else h)
      ensures PoolsOk(net, chain, cache, orphans)
      ensures ToView() == SideView(ops, old(ToView()), b, cumulative)
      ensures Moved(net, ops, old(ToView()), [Event(StoredSide, Overwrites(ops, old(ToView()), b))], ToView())
      ensures Fresh(net, old(ToView())) ==> (Fresh(net, ToView()) <==> KeepsIndexes(net, ops, old(ToView()), b))
    {
      ghost var v := ToView();
      StoreSound(net, ops, v, b, cumulative);
      SideFresh(net, ops, v, b, cumulative);
      var blocks, order := InsertBlockCache(cache.blocks, cache.order, chain.storage, h, b, maxBlockCache);
      cache := Cache(blocks, order);
      chain := chain.(storage := chain.storage[h := b], blockWork := chain.blockWork[h := cumulative]);
      past := past.(swapped := past.swapped || Overwrites(ops, v, b));
    }

    /** Roll back block by block; `done` counts the blocks undone when the list ends or a record is missing. */
    method DisconnectBlocks(disconnect: seq<Hash>) returns (ok: bool, ghost done: nat)
      requires Tied(net, ops)
      requires !past.torn ==>
                 LastBlocks(ops, past.active, disconnect)
                   && Rewound(ops, past.active, |past.active|, utxoSet.utxos, chain.undo)
      modifies utxoSet
      ensures ok <==> AllIn(disconnect, chain.undo)
      ensures done <= |disconnect| && (ok ==> done == |disconnect|)
      ensures !past.torn ==> Rewound(ops, past.active, |past.active| - done, utxoSet.utxos, chain.undo)
    {
      done := 0;
      var undo := chain.undo;
      ghost var active, torn := past.active, past.torn;
      for j := 0 to |disconnect|
        invariant done == j
        invariant forall i :: 0 <= i < j ==> disconnect[i] in undo
        invariant !torn ==> Rewound(ops, active, |active| - j, utxoSet.utxos, undo)
      {
        var h := disconnect[j];
        if h !in undo {
          return false, done;
        }
        if !torn {
          Disconnected(net, ops, active, |active| - j, utxoSet.utxos, undo, h);
        }
        utxoSet.DisconnectBlock(undo[h]);
        done := done + 1;
      }
      ok := true;
    }

    /** Validate and apply the new branch, fork point first; `reached` counts the blocks connected when
        the list ends or one fails.  Unless a block passed validation and did not apply, the ledger is that
        of the blocks reached. */
    method ConnectBlocks(h: Hash, connect: seq<Hash>, ghost v: View, ghost n: nat)
      returns (ok: bool, heights: Heights, undo: Undos, ghost reached: nat)
      requires SoundFor(net, ops, v, h) && Tied(net, ops) && CacheOk(cache.blocks, cache.order, chain.storage)
               && v.storage == chain.storage
      requires !v.torn ==> 1 <= n <= |v.active| && BranchStoredAt(ops, v.storage, connect, n)
                           && Connecting(ops, v.active[..n], utxoSet.utxos, chain.heightMap, chain.undo, |v.active|)
      modifies utxoSet
      ensures reached <= |connect| && (ok ==> reached == |connect|)
      ensures !v.torn && !ok ==> reached < |connect| && !ValidChain(ops, Branch(v, n, connect, |connect|))
      ensures !v.torn
              && (ok || ops.apply(ReplayChain(ops, Branch(v, n, connect, reached)).utxos,
                                  v.storage[connect[reached]]).ok) ==>
                Connecting(ops, Branch(v, n, connect, reached), utxoSet.utxos, heights, undo, |v.active|)
      ensures forall x :: x in undo <==> x in chain.undo || x in connect[..reached]
    {
      heights, undo, reached := chain.heightMap, chain.undo, 0;
      if !v.torn {
        BranchStart(v, n, connect);
      }
      for j := 0 to |connect|
        invariant reached == j
        invariant forall x :: x in undo <==> x in chain.undo || x in connect[..j]
        invariant !v.torn ==> Connecting(ops, Branch(v, n, connect, j), utxoSet.utxos, heights, undo, |v.active|)
      {
        ok, heights, undo := ConnectOne(h, connect, j, heights, undo, v, n);
        if !ok {
          return false, heights, undo, reached;
        }
        assert connect[..j + 1] == connect[..j] + [connect[j]];
        reached := reached + 1;
      }
      ok := true;
    }

    /** One block of the branch. */
    method ConnectOne(h: Hash, connect: seq<Hash>, j: nat, heights: Heights, undo: Undos, ghost v: View, ghost n: nat)
      returns (ok: bool, heights': Heights, undo': Undos)
      requires SoundFor(net, ops, v, h) && Tied(net, ops) && CacheOk(cache.blocks, cache.order, chain.storage)
               && v.storage == chain.storage
      requires j < |connect|
      requires !v.torn ==> 1 <= n <= |v.active| && BranchStoredAt(ops, v.storage, connect, n)
                           && Connecting(ops, Branch(v, n, connect, j), utxoSet.utxos, heights, undo, |v.active|)
      modifies utxoSet
      ensures ok ==> forall x :: x in undo' <==> x in undo || x == connect[j]
      ensures ok && !v.torn ==>
                Connecting(ops, Branch(v, n, connect, j + 1), utxoSet.utxos, heights', undo', |v.active|)
      ensures !ok ==> heights' == heights && undo' == undo
      ensures !ok && !v.torn ==> !ValidChain(ops, Branch(v, n, connect, |connect|))
      ensures !ok && !v.torn
              && ops.apply(ReplayChain(ops, Branch(v, n, connect, j)).utxos, v.storage[connect[j]]).ok ==>
                Connecting(ops, Branch(v, n, connect, j), utxoSet.utxos, heights, undo, |v.active|)
    {
      heights', undo' := heights, undo;
      var stored := GetBlock(connect[j]);
      if stored == None {
        return false, heights, undo;
      }
      var b := stored.value;
      ghost var m := utxoSet.utxos;
      if !v.torn {
        BranchVerdict(net, ops, v, h, n, connect, j, m, heights, undo);
      }
      var verdict := ValidateAndApply(b, heights);
      if !verdict.Applied? {
        return false, heights, undo;
      }
      ok, undo', heights' := true, undo[connect[j] := verdict.undo], heights[b.header.height := connect[j]];
    }

    /** Switch to the heavier branch ending in `h`, unless the fork lies too deep or below the last
        checkpoint.  A failure on the way leaves the tip where it was and the ledger between blocks. */
    method Reorganise(h: Hash) returns (r: Outcome)
      requires SoundFor(net, ops, ToView(), h) && PoolsOk(net, chain, cache, orphans)
      requires h in chain.storage && h in chain.blockWork && Val(chain.chainwork) < Val(chain.blockWork[h])
      modifies `chain, `past, utxoSet
      ensures Valid() && Moved(net, ops, old(ToView()), [Event(r, false)], ToView())
      ensures r.Reorganised? || r.ReorgRefused? || r.LedgerTorn?
      ensures chain.storage == old(chain.storage) && chain.blockWork == old(chain.blockWork)
      ensures r.ReorgRefused? <==> !WithinLimits(net, old(chain.storage), old(chain.tip), h)
      ensures !old(past.torn) ==>
                (r.Reorganised? <==> && WithinLimits(net, old(chain.storage), old(chain.tip), h)
                                     && CanSwitch(net, ops, old(chain.storage), old(chain.tip), old(past.active),
                                                  old(past.peak), h))
      ensures r.ReorgRefused? ==> ToView() == old(ToView()).(refused := true)
      ensures r.LedgerTorn? ==> chain.tip == old(chain.tip) && past == old(past).(torn := true)
      ensures r.Reorganised? ==>
                chain.tip == h && past == old(past).(active := past.active, peak := past.peak) && Fresh(net, ToView())
    {
      ghost var v := ToView();
      TreeOf(net, ops, v, h);
      var disconnect, connect := FindForkBlocks(chain.storage, Root0(net), chain.tip, h);
      DepthIsLimit(net, v, h, disconnect, connect);
      if |disconnect| > MAX_REORG_DEPTH || !ReorgAllowed(net.checkpoints, chain.height - |disconnect|) {
        past := past.(refused := true);
        Refused(net, ops, v, h);
        return ReorgRefused;
      }
      if !v.torn {
        Prepare(net, ops, v, h, disconnect, connect);
      }
      r := Rollover(h, disconnect, connect, v);
    }

    method Rollover(h: Hash, disconnect: seq<Hash>, connect: seq<Hash>, ghost v: View) returns (r: Outcome)
      requires v == ToView() && SoundFor(net, ops, v, h) && Tied(net, ops) && PoolsOk(net, chain, cache, orphans)
      requires h in chain.storage && h in chain.blockWork && Val(chain.chainwork) < Val(chain.blockWork[h])
      requires !v.torn ==> && Prepared(net, ops, v, h, disconnect, connect) && LastBlocks(ops, v.active, disconnect)
                           && Rewound(ops, v.active, |v.active|, v.utxos, v.undo)
      modifies `chain, `past, utxoSet
      ensures Valid() && Moved(net, ops, v, [Event(r, false)], ToView())
      ensures r.Reorganised? || r.LedgerTorn?
      ensures chain.storage == v.storage && chain.blockWork == v.work
      ensures r.Reorganised? ==>
                chain.tip == h && past == old(past).(active := past.active, peak := past.peak) && Fresh(net, ToView())
      ensures r.LedgerTorn? ==> chain.tip == v.tip && past == old(past).(torn := true)
      ensures !v.torn ==> (r.Reorganised? <==> CanSwitch(net, ops, v.storage, v.tip, v.active, v.peak, h))
    {
      var undone, done := DisconnectBlocks(disconnect);
      if !undone {
        if !v.torn {
          RecordMissing(net, ops, v, h, disconnect, connect);
        }
        Tear(h, v);
        return LedgerTorn;
      }
      r := SwitchTo(h, disconnect, connect, v);
    }

    /** A failure between two blocks: everything but the ledger still stands. */
    method Tear(h: Hash, ghost v: View)
      requires SoundFor(net, ops, v, h) && PoolsOk(net, chain, cache, orphans)
      requires ToView() == v.(utxos := utxoSet.utxos, heights := chain.heightMap, undo := chain.undo)
      modifies `past
      ensures Valid() && Moved(net, ops, v, [Event(LedgerTorn, false)], ToView()) && past == old(past).(torn := true)
    {
      past := past.(torn := true);
      Torn(net, ops, v, h, ToView());
    }

    /** Connect the new branch onto the rolled-back ledger and move the tip. */
    method SwitchTo(h: Hash, ghost disconnect: seq<Hash>, connect: seq<Hash>, ghost v: View) returns (r: Outcome)
      requires v == ToView().(utxos := v.utxos) && SoundFor(net, ops, v, h) && Tied(net, ops)
               && PoolsOk(net, chain, cache, orphans)
      requires h in chain.storage && h in chain.blockWork && Val(chain.chainwork) < Val(chain.blockWork[h])
      requires !v.torn ==>
                 && Prepared(net, ops, v, h, disconnect, connect) && |disconnect| < |v.active|
                 && AllIn(disconnect, v.undo)
                 && Rewound(ops, v.active, |v.active| - |disconnect|, utxoSet.utxos, v.undo)
      modifies `chain, `past, utxoSet
      ensures Valid() && Moved(net, ops, v, [Event(r, false)], ToView())
      ensures r.Reorganised? || r.LedgerTorn?
      ensures chain.storage == v.storage && chain.blockWork == v.work
      ensures r.Reorganised? ==>
                chain.tip == h && past == old(past).(active := past.active, peak := past.peak) && Fresh(net, ToView())
      ensures r.LedgerTorn? ==> chain.tip == v.tip && past == old(past).(torn := true)
      ensures !v.torn ==> (r.Reorganised? <==> CanSwitch(net, ops, v.storage, v.tip, v.active, v.peak, h))
    {
      ghost var n := |v.active| - |disconnect|;
      if !past.torn {
        SwitchIff(net, ops, v, h, disconnect, connect);
        ReadyToConnect(net, ops, v, h, n, utxoSet.utxos);
      }
      var ok, heights, undo, reached := ConnectBlocks(h, connect, v, if v.torn then 0 else n);
      if !ok {
        chain := chain.(heightMap := heights, undo := undo);
        Tear(h, v);
        return LedgerTorn;
      }
      ghost var branch := if v.torn then v.active else Branch(v, n, connect, |connect|);
      if !v.torn {
        BranchValid(ops, branch, utxoSet.utxos, heights, undo, |v.active|);
      }
      assert connect[..|connect|] == connect;
      Arrive(h, disconnect, connect, branch, v, heights, undo);
      r := Reorganised;
    }

    /** The branch is connected: its end becomes the tip. */
    method Arrive(h: Hash, ghost disconnect: seq<Hash>, ghost connect: seq<Hash>, ghost branch: seq<Block>,
                  ghost v: View, heights: Heights, undo: Undos)
      requires v == ToView().(utxos := v.utxos) && SoundFor(net, ops, v, h) && PoolsOk(net, chain, cache, orphans)
      requires h in chain.storage && h in chain.blockWork && Val(chain.chainwork) < Val(chain.blockWork[h])
      requires !v.torn ==> Reached(net, ops, v, h, disconnect, connect, branch, utxoSet.utxos, heights, undo)
      modifies `chain, `past
      ensures Valid() && Moved(net, ops, v, [Event(Reorganised, false)], ToView()) && Fresh(net, ToView())
      ensures chain.tip == h && chain.storage == v.storage && chain.blockWork == v.work
      ensures past == old(past).(active := past.active, peak := past.peak)
    {
      chain := MoveTip(net, ops, v, h, disconnect, connect, branch, utxoSet.utxos, chain, heights, undo);
      past := past.(active := branch, peak := Max(past.peak, chain.height));
    }

    // ---- one block -----------------------------------------------------------------------

    /** Height and difficulty against the parent. */
    method Screen(b: Block) returns (ok: bool)
      requires Valid() && CheckpointOk(net.checkpoints, b.header.height, HashOf(net, b))
      requires b.header.prevHash == ZERO_HASH || b.header.prevHash in chain.storage
      ensures ok <==> ConnectsOk(net, chain.storage, b)
    {
      var prev := b.header.prevHash;
      ScreenFacts(net, ops, ToView(), b);
      if prev == ZERO_HASH {
        return b.header.height == 0 && b.header.bits == net.params.genesisBits;
      }
      var parent := GetBlock(prev);
      if b.header.height != parent.value.header.height + 1 {
        return false;
      }
      var bits := CalculateNextBits(net.params, chain.storage, Root0(net), prev, b.header.timestamp);
      ok := b.header.bits == bits;
    }

    /** Cumulative work decides between extending, storing and reorganising. */
    method Place(h: Hash, b: Block) returns (r: Outcome)
      requires Valid() && h == HashOf(net, b) && ConnectsOk(net, chain.storage, b)
      modifies `chain, `cache, `past, utxoSet
      ensures Valid() && Moved(net, ops, old(ToView()), Events(ops, old(ToView()), b, r), ToView())
      ensures !r.Orphaned? && old(chain.storage.Keys) <= chain.storage.Keys && (r.IsOk() ==> h in chain.storage)
      ensures r.Rejected? ==> ToView() == old(ToView())
      ensures r.StoredSide? || r.ReorgRefused? ==> Aside(old(chain), h, b, chain) && utxoSet.utxos == old(utxoSet.utxos)
      ensures r.StoredSide? ==> past == old(past).(swapped := past.swapped)
      ensures b.header.prevHash == old(chain.tip) ==> r == OnTip(ops, old(ToView()), b)
      ensures b.header.prevHash != old(chain.tip) ==> !r.Rejected?
      ensures b.header.prevHash != old(chain.tip) && !old(past.torn) ==> r == OnSide(net, ops, old(ToView()), b)
    {
      PlaceFacts(net, ops, ToView(), b);
      var cumulative := CumulativeWork(chain.blockWork, b);
      if b.header.prevHash == chain.tip {
        r := ExtendTip(h, b, cumulative);
      } else {
        r := PlaceSide(h, b, cumulative);
      }
    }

    method PlaceSide(h: Hash, b: Block, cumulative: Bytes32) returns (r: Outcome)
      requires Valid() && h == HashOf(net, b) && h == ops.hash(b) && ConnectsOk(net, chain.storage, b)
               && b.header.prevHash != chain.tip
      requires Val(cumulative) == AddWrap(Val(ParentWork(chain.blockWork, b.header.prevHash)), ops.work(b.header.bits))
      modifies `chain, `cache, `past, utxoSet
      ensures Valid() && Moved(net, ops, old(ToView()), Events(ops, old(ToView()), b, r), ToView())
      ensures r.StoredSide? || r.Reorganised? || r.ReorgRefused? || r.LedgerTorn?
      ensures chain.storage == old(chain.storage)[h := b]
      ensures r.StoredSide? <==> Val(cumulative) <= Val(old(chain.chainwork))
      ensures r.StoredSide? ==> ToView() == SideView(ops, old(ToView()), b, cumulative)
      ensures r.ReorgRefused? ==> ToView() == SideView(ops, old(ToView()), b, cumulative).(refused := true)
      ensures r.Reorganised? ==> chain.tip == h
      ensures !old(past.torn) ==> r == OnSide(net, ops, old(ToView()), b)
    {
      ghost var v := ToView();
      StoreSide(h, b, cumulative);
      ghost var stored := ToView();
      LexIsNumeric(chain.chainwork, cumulative);
      if !LexLess(chain.chainwork, cumulative) {
        StillBest(net, ops, stored);
        SideDecided(net, ops, v, b, cumulative, StoredSide);
        return StoredSide;
      }
      r := Reorganise(h);
      SideMoved(net, ops, v, b, stored, r, ToView());
      if !v.torn {
        SideDecided(net, ops, v, b, cumulative, r);
      }
    }

    /** One block without its waiting children: checkpoint and clock first, then the parent, then the rest. */
    method AcceptBlock(b: Block, now: u64) returns (r: Outcome)
      requires Valid()
      modifies this, utxoSet
      ensures Valid() && Stepped(net, ops, Step(old(ToView()), b, now, r, ToView()))
      ensures !old(past.torn) ==> r == OutcomeOf(net, ops, old(ToView()), b, now)
      ensures old(chain.storage.Keys) <= chain.storage.Keys
              && (r.IsOk() && !r.Orphaned? ==> HashOf(net, b) in chain.storage)
      ensures r.Orphaned? <==>
                OnTime(net, b, now) && b.header.prevHash != ZERO_HASH && b.header.prevHash !in old(chain.storage)
      ensures r.Orphaned? ==> HashOf(net, b) in orphans.blocks && |orphans.blocks| <= 100
      ensures orphans.blocks.Values <= old(orphans.blocks.Values) + {b} && (!r.Orphaned? ==> orphans == old(orphans))
      ensures r.Rejected? || r.Orphaned? ==> ToView() == old(ToView())
      ensures r.StoredSide? || r.ReorgRefused? ==>
                Aside(old(chain), HashOf(net, b), b, chain) && utxoSet.utxos == old(utxoSet.utxos)
      ensures r.StoredSide? ==> past == old(past).(swapped := past.swapped)
    {
      var h := HashOf(net, b);
      ghost var v := ToView();
      Unmoved(net, ops, v, Rejected);
      Unmoved(net, ops, v, Orphaned);
      KnownTip(net, ops, v);
      if !CheckpointOk(net.checkpoints, b.header.height, h)
        || b.header.timestamp > SatU64(now + MAX_FUTURE_BLOCK_TIME_SECS) {
        return Rejected;
      }
      var prev := b.header.prevHash;
      if prev != ZERO_HASH && GetBlock(prev) == None {
        AddOrphan(h, b);
        OneMore(old(orphans.blocks), h, b, orphans.blocks);
        return Orphaned;
      }
      var ok := Screen(b);
      if !ok {
        return Rejected;
      }
      r := Place(h, b);
    }

    /** `add_block`: a block, then the orphans that were waiting for it.  The log holds every block handled,
        connected orphans and swallowed failures included. */
    method AddBlock(b: Block, now: u64) returns (r: Outcome, ghost log: seq<Step>)
      requires Valid()
      modifies this, utxoSet
      ensures Valid() && History(net, ops, old(ToView()), log, ToView())
      ensures log != [] && log[0] == Step(old(ToView()), b, now, r, log[0].after)
      ensures Later(ops.work, Root0(net), SnapOf(old(ToView())), SnapOf(ToView()))
              && TracedBy(net, old(ToView()), AllEvents(ops, log), ToView())
      ensures !old(past.torn) ==> r == OutcomeOf(net, ops, old(ToView()), b, now)
      ensures old(chain.storage.Keys) <= chain.storage.Keys
              && (r.IsOk() && !r.Orphaned? ==> HashOf(net, b) in chain.storage)
      ensures r.Orphaned? <==>
                OnTime(net, b, now) && b.header.prevHash != ZERO_HASH && b.header.prevHash !in old(chain.storage)
      ensures r.Rejected? || r.Orphaned? ==> ToView() == old(ToView())
      ensures r.StoredSide? || r.ReorgRefused? ==>
                Aside(old(chain), HashOf(net, b), b, chain) && utxoSet.utxos == old(utxoSet.utxos)
      ensures r.StoredSide? ==> past == old(past).(swapped := past.swapped)
      ensures !r.Extended? && !r.Reorganised? ==> |log| == 1
      ensures !r.Orphaned? ==> Drained(old(orphans.blocks), log[1..], orphans.blocks)
      ensures Served(net, HashOf(net, b), log[1..], orphans.blocks, [])
      ensures DrawnFrom(log, old(orphans.blocks.Values) + {b})
              && orphans.blocks.Values <= old(orphans.blocks.Values) + {b}
      ensures r.Extended? || r.Reorganised? ==> NoneWaits(orphans.blocks, HashOf(net, b))
      decreases |orphans.blocks|, 3
    {
      ghost var v := ToView();
      r := AcceptBlock(b, now);
      ghost var first, waiting := Step(v, b, now, r, ToView()), orphans.blocks;
      ghost var rest := [];
      HistoryNone(net, ops, first.after);
      NoneDrained(waiting);
      ServedNone(net, HashOf(net, b), waiting, []);
      if r.Extended? || r.Reorganised? {
        rest := ProcessOrphans(HashOf(net, b), now);
      }
      ThenDrained(first, rest, waiting, orphans.blocks);
      Followed(net, ops, first, rest, ToView());
      log := [first] + rest;
    }

    /** Connect the waiting descendants of a stored block; failures are swallowed. */
    method ProcessOrphans(parent: Hash, now: u64) returns (ghost log: seq<Step>)
      requires Valid() && parent in chain.storage
      modifies this, utxoSet
      ensures Valid() && old(chain.storage.Keys) <= chain.storage.Keys && NoneWaits(orphans.blocks, parent)
      ensures Chased(net, ops, parent, old(ToView()), old(orphans.blocks), log, ToView(), orphans.blocks, [])
      decreases |orphans.blocks|, 2
    {
      log := [];
      var queue := [parent];
      ChasedNone(net, ops, parent, ToView(), orphans.blocks, queue);
      while queue != []
        invariant Valid() && old(chain.storage.Keys) <= chain.storage.Keys
        invariant Chased(net, ops, parent, old(ToView()), old(orphans.blocks), log, ToView(), orphans.blocks, queue)
        invariant forall i :: 0 <= i < |queue| ==> queue[i] in chain.storage
        invariant queue == [parent] || NoneWaits(orphans.blocks, parent)
        decreases |orphans.blocks|, |queue|
      {
        ghost var v, waiting := ToView(), orphans.blocks;
        var p := queue[|queue| - 1];
        var connected, more := ProcessChildren(p, now);
        if p != parent {
          StillNone(waiting, orphans.blocks, parent);
        }
        ChasedTurn(net, ops, parent, old(ToView()), old(orphans.blocks), log, v, waiting, queue, more, ToView(),
                   orphans.blocks, connected);
        log := log + more;
        queue := queue[..|queue| - 1] + connected;
      }
    }

    method ProcessChildren(p: Hash, now: u64) returns (connected: seq<Hash>, ghost log: seq<Step>)
      requires Valid() && p in chain.storage
      modifies this, utxoSet
      ensures Valid() && old(chain.storage.Keys) <= chain.storage.Keys && NoneWaits(orphans.blocks, p)
      ensures Chased(net, ops, p, old(ToView()), old(orphans.blocks), log, ToView(), orphans.blocks, connected)
      ensures forall i :: 0 <= i < |connected| ==> connected[i] in chain.storage
      ensures connected != [] ==> |orphans.blocks| < |old(orphans.blocks)|
      decreases |orphans.blocks|, 1
    {
      connected, log := [], [];
      ChasedNone(net, ops, p, ToView(), orphans.blocks, []);
      var children := Waiting(orphans.byParent, p);
      AllLeft(net, orphans.blocks, orphans.byParent, p);
      while children != {}
        invariant Valid() && old(chain.storage.Keys) <= chain.storage.Keys
        invariant Chased(net, ops, p, old(ToView()), old(orphans.blocks), log, ToView(), orphans.blocks, connected)
        invariant forall i :: 0 <= i < |connected| ==> connected[i] in chain.storage
        invariant connected != [] ==> |orphans.blocks| < |old(orphans.blocks)|
        invariant ChildrenLeft(old(orphans.blocks), orphans.blocks, children, p)
        decreases |children|
      {
        var child :| child in children;
        LeftIs(old(orphans.blocks), orphans.blocks, children, p, child);
        ghost var todo, pool := children, orphans.blocks;
        children := children - {child};
        if child in orphans.blocks {
          ghost var v, waiting := ToView(), orphans.blocks;
          var ok, more := TryChild(child, p, now);
          ghost var kept := if ok then [child] else [];
          ChasedJoin(net, ops, p, old(ToView()), old(orphans.blocks), log, v, waiting, connected, p, more, ToView(),
                     orphans.blocks, kept);
          log := log + more;
          if ok {
            connected := connected + [child];
          }
        }
        OneLeft(old(orphans.blocks), pool, todo, p, child, orphans.blocks);
      }
      NoneLeft(old(orphans.blocks), orphans.blocks, p);
    }

    method TryChild(child: Hash, p: Hash, now: u64) returns (ok: bool, ghost log: seq<Step>)
      requires Valid() && p in chain.storage && child in orphans.blocks && orphans.blocks[child].header.prevHash == p
      modifies this, utxoSet
      ensures Valid() && old(chain.storage.Keys) <= chain.storage.Keys
      ensures Chased(net, ops, p, old(ToView()), old(orphans.blocks), log, ToView(), orphans.blocks,
                     if ok then [child] else [])
      ensures (ok ==> child in chain.storage) && |orphans.blocks| < |old(orphans.blocks)| && child !in orphans.blocks
      decreases |orphans.blocks|, 0
    {
      var b := orphans.blocks[child];
      OrphanNamed(net, orphans.blocks, orphans.byParent, child);
      KnownTip(net, ops, ToView());
      DropOrphan(child, p);
      var r;
      r, log := AddBlock(b, now);
      ok := r.IsOk();
      DrainedFirst(old(orphans.blocks), child, log, orphans.blocks);
      ServedFirst(net, p, log, orphans.blocks, child, ok);
    }

    /** Any run of `add_block` calls from any valid state, with its history. */
    method Run(blocks: seq<Block>, clock: seq<u64>) returns (outcomes: seq<Outcome>, ghost log: seq<Step>)
      requires Valid() && |clock| == |blocks|
      modifies this, utxoSet
      ensures Valid() && History(net, ops, old(ToView()), log, ToView())
      ensures Later(ops.work, Root0(net), SnapOf(old(ToView())), SnapOf(ToView()))
              && TracedBy(net, old(ToView()), AllEvents(ops, log), ToView())
      ensures |outcomes| == |blocks| && Answered(log, blocks, clock, outcomes)
      ensures DrawnFrom(log, old(orphans.blocks.Values) + BlocksOf(blocks))
    {
      HistoryNone(net, ops, ToView());
      ghost var pool := orphans.blocks.Values + BlocksOf(blocks);
      outcomes, log := [], [];
      for i := 0 to |blocks|
        invariant Valid() && History(net, ops, old(ToView()), log, ToView())
        invariant |outcomes| == i && Answered(log, blocks, clock, outcomes)
        invariant DrawnFrom(log, pool) && orphans.blocks.Values <= pool
      {
        ghost var v, before, waiting := ToView(), log, orphans.blocks.Values;
        var r, more := AddBlock(blocks[i], clock[i]);
        HistoryJoin(net, ops, old(ToView()), before, v, more, ToView());
        AnsweredMore(before, more, blocks, clock, outcomes);
        DrawnMore(before, more, blocks[i], waiting, orphans.blocks.Values, pool);
        outcomes, log := outcomes + [r], before + more;
      }
      HistoryTraced(net, ops, old(ToView()), log, ToView());
    }
  }

  lemma BranchValid(ops: Ops, branch: seq<Block>, utxos: UtxoMap, heights: Heights, undo: Undos, oldLen: nat)
    requires Connecting(ops, branch, utxos, heights, undo, oldLen)
    ensures ValidChain(ops, branch)
  {
    assert OpenConnecting(0, branch);
  }

  /** On an untorn ledger validation sees the headers of the active chain. */
  lemma TipHeaders(net: Network, ops: Ops, v: View, b: Block)
    requires Sound(net, ops, v) && !v.torn && ConnectsOk(net, v.storage, b) && b.header.prevHash == v.tip
    ensures HeadersBelow(v.heights, v.storage, b.header.height) == ChainHeaders(v.active)
  {
    ActiveHeaders(net, ops, v);
    KnownTip(net, ops, v);
    assert OpenConnects(0);
    assert TipOk(v) by {
      assert OpenSound(0, v);
    }
  }

  predicate OpenLeft(k: int, now: Blocks) { true }

  /** Sealed: `children` are orphans that waited for `p`, and include all that still do. */
  ghost predicate ChildrenLeft(before: Blocks, now: Blocks, children: set<Hash>, p: Hash) {
    forall k: int {:trigger OpenLeft(k, now)} :: OpenLeft(k, now) ==>
      && SubMap(now, before) && (forall c :: c in children ==> WaitsFor(before, c, p))
      && forall c :: WaitsFor(now, c, p) ==> c in children
  }

  lemma AllLeft(net: Network, blocks: Blocks, byParent: ByParent, p: Hash)
    requires OrphansOk(net, blocks, byParent)
    ensures ChildrenLeft(blocks, blocks, Waiting(byParent, p), p)
  {
    WaitingOnly(net, blocks, byParent, p);
  }

  lemma LeftIs(before: Blocks, now: Blocks, children: set<Hash>, p: Hash, child: Hash)
    requires ChildrenLeft(before, now, children, p) && child in children
    ensures child in now ==> now[child].header.prevHash == p
  {
    assert OpenLeft(0, now);
  }

  lemma OneLeft(before: Blocks, now: Blocks, children: set<Hash>, p: Hash, child: Hash, after: Blocks)
    requires ChildrenLeft(before, now, children, p) && SubMap(after, now) && child !in after
    ensures ChildrenLeft(before, after, children - {child}, p)
  {
    assert OpenLeft(0, now);
    assert forall c :: WaitsFor(after, c, p) ==> WaitsFor(now, c, p);
  }

  lemma NoneLeft(before: Blocks, now: Blocks, p: Hash)
    requires ChildrenLeft(before, now, {}, p)
    ensures NoneWaits(now, p)
  {
    assert OpenLeft(0, now);
  }

  lemma AtMostOneMore(blocks: Blocks, h: Hash, b: Block)
    ensures |blocks[h := b]| <= |blocks| + 1 && SubMap(blocks[h := b] - {h}, blocks)
  {
    assert blocks[h := b].Keys == blocks.Keys + {h};
  }

  lemma OneMore(before: Blocks, h: Hash, b: Block, after: Blocks)
    requires h in after && after[h] == b && SubMap(after - {h}, before)
    ensures after.Values <= before.Values + {b}
  {
    forall x | x in after ensures after[x] in before.Values + {b} {
      assert x != h ==> x in after - {h} && before[x] == after[x];
    }
  }

  lemma KnownTip(net: Network, ops: Ops, v: View)
    requires Sound(net, ops, v)
    ensures v.tip in v.storage && v.tip != ZERO_HASH && HeaderHashInjective(net.rules.hashing.headerHash)
  {
    assert OpenSound(0, v) && OpenTree(0);
  }

  lemma ScreenFacts(net: Network, ops: Ops, v: View, b: Block)
    requires Sound(net, ops, v)
    ensures Tree(HeadersOf(v.storage), Root0(net)) && ParamsOk(net.params)
    ensures CheckpointOk(net.checkpoints, b.header.height, HashOf(net, b)) && b.header.prevHash == ZERO_HASH
            && b.header.height == 0 ==>
              b.header.bits == net.params.genesisBits
    ensures CheckpointOk(net.checkpoints, b.header.height, HashOf(net, b)) ==>
              (ConnectsOk(net, v.storage, b) <==>
                if b.header.prevHash == ZERO_HASH then b.header.height == 0
                else && b.header.prevHash in v.storage
                     && b.header.height == v.storage[b.header.prevHash].header.height + 1
                     && b.header.bits ==
                        NextBits(net.params, HeadersOf(v.storage), Root0(net), b.header.prevHash, b.header.timestamp))
  {
    assert OpenSound(0, v) && OpenTied(0) && OpenTree(0) && OpenConnects(0);
  }

  lemma PlaceFacts(net: Network, ops: Ops, v: View, b: Block)
    requires Sound(net, ops, v)
    ensures ops.hash(b) == HashOf(net, b) && ops.work(b.header.bits) == WorkOf(b.header.bits)
  {
    assert OpenSound(0, v) && OpenTied(0) && AtBits(b.header.bits);
  }

  lemma OpsAt(net: Network, ops: Ops, headers: seq<Header>, m: UtxoMap, b: Block)
    requires Tied(net, ops)
    ensures ops.accept(headers, m, b) <==> BlockAcceptable(net.rules, b, m, net.mtp(headers))
    ensures ops.apply(m, b) == ApplyBlock(net.rules.hashing.txid, m, b)
  {
    assert OpenTied(0) && At(m, b) && AtBlock(headers, m, b);
  }

  /** The view of a node that knows only genesis. */
  ghost function InitialView(net: Network, w: Bytes32): View {
    var h := Root0(net);
    View(map[h := net.genesis], map[h := w], h, 0, w, [net.genesis],
         ApplyBlock(net.rules.hashing.txid, map[], net.genesis).utxos, map[0 := h], map[],
         Indexes.Rebuilt(net.rules.hashing, map[0 := h], map[h := net.genesis], 1), false, false, false, 0)
  }

  lemma InitialOk(net: Network, ops: Ops, w: Bytes32)
    requires NetworkOk(net) && ops == OpsOf(net) && Val(w) == WorkOf(net.genesis.header.bits)
    ensures Sound(net, ops, InitialView(net, w)) && Fresh(net, InitialView(net, w))
  {
    InitialTied(net, ops);
    InitialTree(net, ops, w);
    InitialLedger(net, ops);
    assert BodiesStored(ops, map[Root0(net) := net.genesis], [net.genesis]);
  }

  lemma InitialTied(net: Network, ops: Ops)
    requires NetworkOk(net) && ops == OpsOf(net)
    ensures Implements(net, ops) && Tied(net, ops)
  {
    OpsImplement(net);
    OpsReversible(net, ops);
  }

  lemma InitialLedger(net: Network, ops: Ops)
    requires NetworkOk(net) && Implements(net, ops)
    ensures var h := Root0(net);
            LedgerOk(net, ops, map[h := net.genesis], h, [net.genesis],
              ApplyBlock(net.rules.hashing.txid, map[], net.genesis).utxos, map[0 := h], map[])
  {
    GenesisChain(net, ops);
    var h := Root0(net);
    assert Tree(HeadersOf(map[h := net.genesis]), h);
    assert HashesOf(ops, [net.genesis]) == [h];
  }

  lemma InitialTree(net: Network, ops: Ops, w: Bytes32)
    requires NetworkOk(net) && Implements(net, ops) && Val(w) == WorkOf(net.genesis.header.bits)
    ensures TreeState(net, ops.work, map[Root0(net) := net.genesis], map[Root0(net) := w])
  {
    InitialShape(net);
    InitialWork(net, ops, w);
  }

  lemma InitialShape(net: Network)
    requires NetworkOk(net)
    ensures var storage := map[Root0(net) := net.genesis];
            TreeShape(net, storage) && FollowsSchedule(net.params, HeadersOf(storage), Root0(net))
  {
    var h := Root0(net);
    var hs := HeadersOf(map[h := net.genesis]);
    assert hs[h] == net.genesis.header;
    assert Tree(hs, h);
  }

  lemma InitialWork(net: Network, ops: Ops, w: Bytes32)
    requires Implements(net, ops) && Val(w) == WorkOf(net.genesis.header.bits)
    requires Tree(HeadersOf(map[Root0(net) := net.genesis]), Root0(net))
    ensures WorkState(ops.work, HeadersOf(map[Root0(net) := net.genesis]), Root0(net), map[Root0(net) := w])
  {
    var h := Root0(net);
    assert HeadersOf(map[h := net.genesis])[h] == net.genesis.header;
    FullWidth(w);
    WrapSmall(Val(w));
    assert AtBits(net.genesis.header.bits);
  }
}
