/** What every reachable node state means.  `NodeState.Valid` holds of the initial state and is kept by
    every call; the faults that limit the statements here are exactly those of the run's log. */
module NodeTheorems {
  import opened BigEndian
  import opened Primitives
  import opened Difficulty
  import opened Emission
  import opened Value
  import opened ChainTree
  import opened Schedule
  import opened ChainLedger
  import opened ActiveChain
  import opened Coins
  import opened NodeInvariant
  import opened NodeView
  import opened NodeSteps

  /** The UTXO set is the replay of the genesis-to-tip path, every block of which passed full validation
      on the headers and the ledger below it; the height map is exactly that path, and storage holds the
      bodies that were connected unless one was overwritten. */
  lemma LedgerIsReplay(net: Network, ops: Ops, v: View)
    requires Sound(net, ops, v) && !v.torn
    ensures Implements(net, ops) && ValidChain(ops, v.active) && v.utxos == ReplayChain(ops, v.active).utxos
    ensures Tree(HeadersOf(v.storage), Root0(net)) && v.tip in v.storage
    ensures HashesOf(ops, v.active) == PathTo(HeadersOf(v.storage), Root0(net), v.tip)
    ensures MapsPath(v.heights, PathTo(HeadersOf(v.storage), Root0(net), v.tip)) && |v.active| == v.height + 1
    ensures !v.swapped ==> BodiesStored(ops, v.storage, v.active)
  {
    assert OpenSound(0, v);
    assert OpenTied(0) && OpenLedger(0);
    assert !v.swapped ==> BodiesStored(ops, v.storage, v.active) by {
      assert OpenIndex(0);
    }
  }

  /** No run creates more than the subsidies of the heights it reached, nor more than 21 million coins. */
  lemma SupplyNeverExceeded(net: Network, ops: Ops, v: View)
    requires Sound(net, ops, v) && !v.torn
    ensures TotalValue(v.utxos) <= SubsidySum(v.height + 1) <= 2_100_000_000_000_000
  {
    LedgerIsReplay(net, ops, v);
    assert NetworkOk(net) by {
      assert OpenSound(0, v) && OpenTied(0);
    }
    SupplyBounded(net, ops, v.active);
  }

  /** Every coin is the unspent output of a transaction of the active chain, recorded at that block's height, and
      no block of that chain spends a coinbase output fewer than 100 blocks after the one that made it. */
  lemma CoinsOfActive(net: Network, ops: Ops, v: View)
    requires Sound(net, ops, v) && !v.torn
    ensures forall o :: CoinStands(net.rules.hashing.txid, v.active, v.utxos, o)
    ensures NoYoungCoinbase(net.rules.hashing.txid, v.active)
  {
    LedgerIsReplay(net, ops, v);
    assert NetworkOk(net) by {
      assert OpenSound(0, v) && OpenTied(0);
    }
    forall o ensures CoinStands(net.rules.hashing.txid, v.active, v.utxos, o) {
      ReplayCoins(net, ops, v.active, o);
    }
    ChainMatures(net, ops, v.active);
  }

  /** Recorded work is the sum of block works along the path, and the tip has the most of it. */
  lemma TipHasMostWork(net: Network, ops: Ops, v: View)
    requires Sound(net, ops, v)
    ensures Tree(HeadersOf(v.storage), Root0(net)) && v.tip in v.storage && v.work.Keys == v.storage.Keys
    ensures NoOverflow(ops.work, HeadersOf(v.storage), Root0(net)) ==>
              && Val(v.chainwork) == PathWork(ops.work, HeadersOf(v.storage), Root0(net), v.tip)
              && (forall h :: h in v.storage ==>
                   Val(v.work[h]) == PathWork(ops.work, HeadersOf(v.storage), Root0(net), h))
              && (!v.torn && !v.refused ==> MostWork(ops.work, HeadersOf(v.storage), Root0(net), v.tip))
  {
    assert OpenSound(0, v);
    TreeFacts(net, ops, v);
    forall h | h in v.storage && NoOverflow(ops.work, HeadersOf(v.storage), Root0(net))
      ensures Val(v.work[h]) == PathWork(ops.work, HeadersOf(v.storage), Root0(net), h)
    {
      WorkIsPath(net, ops, v, h);
    }
    assert OpenBest(0);
  }

  /** Exactly the connected blocks less than 100 below the greatest height the tip has had keep an undo
      record, and it is the one their application produced. */
  lemma UndoRetained(net: Network, ops: Ops, v: View, i: nat)
    requires Sound(net, ops, v) && !v.torn && 1 <= i < |v.active|
    ensures v.height <= v.peak <= v.height + 100
    ensures ops.hash(v.active[i]) in v.undo <==> i + 100 > v.peak
    ensures ops.hash(v.active[i]) in v.undo ==>
              v.undo[ops.hash(v.active[i])] == ReplayChain(ops, v.active[..i + 1]).undo
  {
    LedgerIsReplay(net, ops, v);
    assert OpenSound(0, v);
    assert OpenUndo(0) && OpenLedger(0);
  }

  /** Every stored block, on the active chain or not, is at most as easy as genesis and respects the checkpoints. */
  lemma StoredBlocksOnSchedule(net: Network, ops: Ops, v: View, h: Hash)
    requires Sound(net, ops, v) && h in v.storage
    ensures TargetOf(v.storage[h].header.bits) <= TargetOf(net.params.genesisBits)
    ensures CheckpointOk(net.checkpoints, v.storage[h].header.height, h)
  {
    assert OpenSound(0, v);
    assert OpenTree(0);
    TargetsBounded(net.params, HeadersOf(v.storage), Root0(net), h);
  }
}
