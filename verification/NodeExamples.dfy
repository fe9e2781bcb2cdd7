/** Inputs at which the node falls short: a block that tears the ledger, a body that makes the indexes
    stale, and a state in which a shallow reorganisation lacks an undo record. */
module NodeExamples {
  import opened BigEndian
  import opened Primitives
  import opened Arithmetic256
  import opened Difficulty
  import opened Ledger
  import opened Merkle
  import opened Validator
  import opened Acceptance
  import opened ChainTree
  import opened ChainLedger
  import opened ActiveChain
  import opened ChainWalk
  import opened NodeInvariant
  import opened NodeView
  import opened NodeReorg
  import opened NodeSteps
  import opened NodeHistory
  import opened NodeState
  import Indexes

  // ---- a torn ledger ----------------------------------------------------------------------

  /** A child of genesis that mints the same thing twice. */
  function TearingBlock(net: Network, timestamp: u64): Block {
    var root := Root(net.rules.hashing.pair, Txids(net.rules.hashing.txid, TWICE_MINTED));
    Block(Header(0x2000_0000, Root0(net), root, timestamp, net.genesis.header.bits, 0, 1), TWICE_MINTED)
  }

  ghost function GenesisCoins(net: Network): UtxoMap {
    ApplyBlock(net.rules.hashing.txid, map[], net.genesis).utxos
  }

  /** The only coin after genesis is the one its coinbase creates. */
  lemma GenesisCoin(net: Network, o: OutPoint)
    requires NetworkOk(net) && o in GenesisCoins(net)
    ensures o.txid == net.rules.hashing.txid(net.genesis.txs[0])
  {
    var txid, tx := net.rules.hashing.txid, net.genesis.txs[0];
    assert net.genesis.txs == [tx] && [tx][..0] == [];
    assert ApplyBlock(txid, map[], net.genesis) == ApplyTxs(txid, map[], [tx], 0);
    GenesisApplies(txid, tx);
    ApplyTxFacts(txid, map[], tx, 0);
    assert Makes(txid, tx, o);
  }

  lemma TearingBlockFree(net: Network, timestamp: u64)
    requires NetworkOk(net) && timestamp > net.mtp([net.genesis.header])(0)
    requires net.rules.sigopCost(FreeMint([]), GenesisCoins(net)) == 0
             && net.rules.batchOk(TearingBlock(net, timestamp), GenesisCoins(net))
    ensures FreeBlock(net.rules, TearingBlock(net, timestamp), GenesisCoins(net), net.mtp([net.genesis.header]))
  {
    var b, mint := TearingBlock(net, timestamp), FreeMint([]);
    if OutPoint(net.rules.hashing.txid(mint), 0) in GenesisCoins(net) {
      GenesisCoin(net, OutPoint(net.rules.hashing.txid(mint), 0));
      StripKeeps(mint, net.genesis.txs[0]);
    }
    forall i | 1 <= i < |b.txs| ensures b.txs[i] == mint {}
  }

  lemma ChildOfGenesisConnects(net: Network, b: Block)
    requires NetworkOk(net) && b.header.prevHash == Root0(net) && b.header.height == 1
             && b.header.bits == net.genesis.header.bits
    requires CheckpointOk(net.checkpoints, 1, HashOf(net, b))
    ensures Root0(net) != ZERO_HASH && ConnectsOk(net, map[Root0(net) := net.genesis], b)
  {
    var storage := map[Root0(net) := net.genesis];
    assert HeadersOf(storage)[Root0(net)] == net.genesis.header;
    assert Tree(HeadersOf(storage), Root0(net));
  }

  lemma TearingOutcome(net: Network, v: View, timestamp: u64, now: u64)
    requires NetworkOk(net) && v == InitialView(net, v.chainwork) && OnTime(net, TearingBlock(net, timestamp), now)
    requires FreeBlock(net.rules, TearingBlock(net, timestamp), GenesisCoins(net), net.mtp([net.genesis.header]))
    ensures OutcomeOf(net, OpsOf(net), v, TearingBlock(net, timestamp), now) == LedgerTorn
  {
    var b := TearingBlock(net, timestamp);
    ChildOfGenesisConnects(net, b);
    assert HeadersBelow(v.heights, v.storage, 0) == [];
    assert HeadersBelow(v.heights, v.storage, 1) == [net.genesis.header];
    AcceptedButInapplicable(net.rules, b, GenesisCoins(net), net.mtp([net.genesis.header]));
  }

  /** A fresh node that receives such a child of genesis validates it, fails to apply it, and is left with a
      torn ledger. */
  method TearFreshNode(net: Network, cap: nat, timestamp: u64, now: u64) returns (node: NodeState, r: Outcome)
    requires NetworkOk(net) && timestamp > net.mtp([net.genesis.header])(0)
             && OnTime(net, TearingBlock(net, timestamp), now)
    requires net.rules.sigopCost(FreeMint([]), GenesisCoins(net)) == 0
             && net.rules.batchOk(TearingBlock(net, timestamp), GenesisCoins(net))
    ensures node.Valid() && r.LedgerTorn? && node.past.torn
  {
    node := new NodeState(net, cap);
    ghost var v := node.ToView();
    TearingBlockFree(net, timestamp);
    TearingOutcome(net, v, timestamp, now);
    ghost var log;
    r, log := node.AddBlock(TearingBlock(net, timestamp), now);
    OutcomeHappened(node.ops, log, 0);
  }

  // ---- stale indexes ----------------------------------------------------------------------

  /** The genesis header over no transactions. */
  function EmptiedGenesis(net: Network): Block {
    Block(net.genesis.header, [])
  }

  lemma GenesisIndexed(net: Network)
    requires NetworkOk(net)
    ensures var g := Root0(net);
            Indexes.Rebuilt(net.rules.hashing, map[0 := g], map[g := EmptiedGenesis(net)], 1)
            != Indexes.Rebuilt(net.rules.hashing, map[0 := g], map[g := net.genesis], 1)
  {
    var g, txid, tx := Root0(net), net.rules.hashing.txid, net.genesis.txs[0];
    var hm: Heights := map[0 := g];
    var emptied, whole := map[g := EmptiedGenesis(net)], map[g := net.genesis];
    assert net.genesis.txs == [tx] && [tx][..0] == [];
    var start := Indexes.EMPTY_INDEX.(chain := map[g := 0]);
    assert Indexes.Rebuilt(net.rules.hashing, hm, emptied, 0) == Indexes.EMPTY_INDEX ==
           Indexes.Rebuilt(net.rules.hashing, hm, whole, 0);
    assert Indexes.Rebuilt(net.rules.hashing, hm, emptied, 1) == start;
    assert Indexes.AddTxs(txid, start, [tx], 0).tx == map[txid(tx) := 0];
    assert txid(tx) !in start.tx;
  }

  lemma SameGenesisWork(net: Network, ops: Ops, w: Bytes32)
    requires NetworkOk(net) && ops == OpsOf(net) && Val(w) == WorkOf(net.genesis.header.bits)
    ensures AddWrap(Val(ParentWork(map[Root0(net) := w], ZERO_HASH)), ops.work(net.genesis.header.bits)) <= Val(w)
  {
    ValZeros(32);
    FullWidth(w);
    WrapSmall(Val(w));
  }

  lemma EmptiedGenesisStored(net: Network, ops: Ops, v: View, now: u64)
    requires NetworkOk(net) && ops == OpsOf(net) && v == InitialView(net, v.chainwork)
             && Val(v.chainwork) == WorkOf(net.genesis.header.bits)
    requires OnTime(net, EmptiedGenesis(net), now)
    ensures OutcomeOf(net, ops, v, EmptiedGenesis(net), now) == StoredSide
  {
    SameGenesisWork(net, ops, v.chainwork);
    assert HeadersOf(v.storage)[Root0(net)] == net.genesis.header;
    assert Tree(HeadersOf(v.storage), Root0(net));
    assert OpenConnects(0);
  }

  /** Its indexes are those of the whole genesis, and a rebuild would find none of its transactions. */
  lemma EmptiedGenesisStale(net: Network, v: View, storage: Blocks)
    requires NetworkOk(net) && v == InitialView(net, v.chainwork)
             && storage == v.storage[Root0(net) := EmptiedGenesis(net)]
    ensures v.index != Indexes.Rebuilt(net.rules.hashing, v.heights, storage, v.height + 1)
  {
    GenesisIndexed(net);
    assert storage == map[Root0(net) := EmptiedGenesis(net)];
  }

  /** A fresh node that receives the emptied genesis stores it beside the chain, under the hash of its own
      tip, and its indexes no longer equal a rebuild. */
  method StaleFreshNode(net: Network, cap: nat, now: u64) returns (node: NodeState, r: Outcome)
    requires NetworkOk(net) && OnTime(net, EmptiedGenesis(net), now)
    ensures node.Valid() && r.StoredSide? && !node.past.torn
    ensures node.chain.index != Indexes.Rebuilt(net.rules.hashing, node.chain.heightMap, node.chain.storage,
            node.chain.height + 1)
  {
    node := new NodeState(net, cap);
    ghost var v := node.ToView();
    EmptiedGenesisStored(net, node.ops, v, now);
    EmptiedGenesisStale(net, v, v.storage[Root0(net) := EmptiedGenesis(net)]);
    ghost var log;
    r, log := node.AddBlock(EmptiedGenesis(net), now);
  }

  // ---- a missing undo record ----------------------------------------------------------------

  /** The undo records of `v` without those of the active blocks up to height `n`. */
  ghost function Forgotten(ops: Ops, v: View, n: nat): Undos {
    map x | x in v.undo && !(exists i :: 0 <= i <= n && i < |v.active| && x == ops.hash(v.active[i])) :: v.undo[x]
  }

  /** `v` as it would be had its tip come down from just above the pruning line of the fork. */
  ghost function CameDown(ops: Ops, v: View, fork: nat): View {
    v.(undo := Forgotten(ops, v, fork + 1), peak := fork + MAX_REORG_DEPTH + 1)
  }

  lemma CameDownKept(net: Network, ops: Ops, v: View, fork: nat)
    requires HashNamesHeader(ops) && LedgerView(net, ops, v) && UndoKept(ops, v.active, v.undo, v.peak)
    requires v.peak + 1 == |v.active| && fork + 1 < |v.active| <= fork + 1 + MAX_REORG_DEPTH
    ensures UndoKept(ops, v.active, Forgotten(ops, v, fork + 1), fork + MAX_REORG_DEPTH + 1)
    ensures ops.hash(v.active[fork + 1]) !in Forgotten(ops, v, fork + 1)
  {
    ActiveHeights(net, ops, v.storage, v.tip, v.active, v.utxos, v.heights, v.undo);
    assert OpenUndo(0);
    forall i | 1 <= i < |v.active| ensures ops.hash(v.active[i]) in Forgotten(ops, v, fork + 1) <==> i > fork + 1 {
      if i > fork + 1 {
        forall j | 0 <= j <= fork + 1 ensures ops.hash(v.active[j]) != ops.hash(v.active[i]) {}
      }
    }
  }

  /** For every sound state with a fork within the depth limit there is one, alike but for the height its
      tip has come down from, that is just as sound and in which the same reorganisation lacks a record. */
  lemma MissingRecordState(net: Network, ops: Ops, v: View, h: Hash, fork: nat)
    requires SoundFor(net, ops, v, h) && !v.torn && v.peak == v.height
    requires Tree(HeadersOf(v.storage), Root0(net)) && v.tip in v.storage && h in v.storage
    requires fork == ForkHeight(HeadersOf(v.storage), Root0(net), v.tip, h) && fork < v.height <= fork + MAX_REORG_DEPTH
    ensures var v' := CameDown(ops, v, fork);
            && SoundFor(net, ops, v', h) && fork + 1 < |v.active| && ops.hash(v.active[fork + 1]) !in v'.undo
            && !CanSwitch(net, ops, v'.storage, v'.tip, v'.active, v'.peak, h)
  {
    var v' := CameDown(ops, v, fork);
    assert OpenSound(0, v);
    NamesHeader(net, ops);
    ActivePath(net, ops, v.storage, v.tip, v.active, v.utxos, v.heights, v.undo);
    CameDownKept(net, ops, v, fork);
    assert LedgerView(net, ops, v') by {
      assert OpenLedger(0);
      ForgettingUndo(ops, v.active, v.utxos, v.undo, v'.undo);
    }
    assert OpenSwitch(0);
  }
}
