/** Runs of a node from genesis, and what their logs guarantee. */
module NodeRun {
  import opened BigEndian
  import opened Primitives
  import opened Difficulty
  import opened Emission
  import opened Value
  import opened ChainTree
  import opened ChainLedger
  import opened ActiveChain
  import opened Coins
  import opened NodeInvariant
  import opened NodeView
  import opened NodeHistory
  import opened NodeState
  import opened NodeTheorems
  import Indexes

  /** A stored block's target is at most that of genesis, and it agrees with the checkpoint at its height. */
  ghost predicate OnSchedule(net: Network, v: View, h: Hash)
    requires h in v.storage
  {
    && TargetOf(v.storage[h].header.bits) <= TargetOf(net.params.genesisBits)
    && CheckpointOk(net.checkpoints, v.storage[h].header.height, h)
  }

  /** Every stored block is at most as easy as genesis and agrees with the checkpoints, and below 2^256 recorded
      work is the work of the path. */
  ghost predicate StoredWell(net: Network, ops: Ops, v: View) {
    && Implements(net, ops) && Tree(HeadersOf(v.storage), Root0(net)) && v.tip in v.storage
    && v.work.Keys == v.storage.Keys && (forall h :: h in v.storage ==> OnSchedule(net, v, h))
    && (NoOverflow(ops.work, HeadersOf(v.storage), Root0(net)) ==>
          && Val(v.chainwork) == PathWork(ops.work, HeadersOf(v.storage), Root0(net), v.tip)
          && forall h :: h in v.storage ==> Val(v.work[h]) == PathWork(ops.work, HeadersOf(v.storage), Root0(net), h))
  }

  /** The UTXO set is the replay of the path to the tip, each block of which passed full validation, the height
      map is that path, the supply is within the subsidies, every coin is an unspent output of the chain at its
      height, coinbases are spent mature, and undo records are kept exactly above the pruning line. */
  ghost predicate LedgerStands(net: Network, ops: Ops, v: View)
    requires Tree(HeadersOf(v.storage), Root0(net)) && v.tip in v.storage
  {
    && ValidChain(ops, v.active) && v.utxos == ReplayChain(ops, v.active).utxos
    && HashesOf(ops, v.active) == PathTo(HeadersOf(v.storage), Root0(net), v.tip)
    && MapsPath(v.heights, PathTo(HeadersOf(v.storage), Root0(net), v.tip))
    && TotalValue(v.utxos) <= SubsidySum(v.height + 1) <= 2_100_000_000_000_000
    && (forall o :: CoinStands(net.rules.hashing.txid, v.active, v.utxos, o))
    && NoYoungCoinbase(net.rules.hashing.txid, v.active)
    && forall i :: 1 <= i < |v.active| ==> (ops.hash(v.active[i]) in v.undo <==> i + 100 > v.peak)
  }

  /** What a log promises about the state it led to.

      Storage is in order whatever happened.  If no step tore the ledger, it stands; the tip has the most work
      unless a heavier branch was refused; the stored bodies are those connected unless a step overwrote one;
      and the indexes equal a rebuild unless a step overwrote a body after the last reorganisation. */
  ghost predicate Promised(net: Network, ops: Ops, log: seq<Event>, v: View) {
    && StoredWell(net, ops, v)
    && (!Happened(log, LedgerTorn) ==> LedgerStands(net, ops, v))
    && (!Happened(log, LedgerTorn) && !Happened(log, ReorgRefused) ==>
          (NoOverflow(ops.work, HeadersOf(v.storage), Root0(net)) ==>
            MostWork(ops.work, HeadersOf(v.storage), Root0(net), v.tip)))
    && (!Happened(log, LedgerTorn) && !Overwrote(log) ==> BodiesStored(ops, v.storage, v.active))
    && (!Happened(log, LedgerTorn) && !StaleAfter(false, log) ==>
          v.index == Indexes.Rebuilt(net.rules.hashing, v.heights, v.storage, v.height + 1))
  }

  /** A node built from genesis and given any blocks at any times.  Its log is a history of the run: it
      handles these blocks only, each from the state the one before it left, with the outcome the rules give
      (`NodeHistory.Stepped`); and its events decide what is promised of the state reached. */
  method FromGenesis(net: Network, cap: nat, blocks: seq<Block>, clock: seq<u64>)
    returns (node: NodeState, outcomes: seq<Outcome>, ghost log: seq<Step>)
    requires NetworkOk(net) && |clock| == |blocks|
    ensures node.Valid() && node.net == net && node.ops == OpsOf(net)
    ensures exists w: Bytes32 ::
              && History(net, node.ops, InitialView(net, w), log, node.ToView())
              && Val(w) == WorkOf(net.genesis.header.bits)
    ensures |outcomes| == |blocks| && Answered(log, blocks, clock, outcomes)
    ensures DrawnFrom(log, BlocksOf(blocks))
    ensures Promised(net, node.ops, AllEvents(node.ops, log), node.ToView())
  {
    node := new NodeState(net, cap);
    ghost var start := node.ToView();
    outcomes, log := node.Run(blocks, clock);
    assert History(net, node.ops, InitialView(net, start.chainwork), log, node.ToView());
    RunMeans(net, node.ops, start, AllEvents(node.ops, log), node.ToView());
  }

  lemma RunMeans(net: Network, ops: Ops, start: View, log: seq<Event>, v: View)
    requires NodeSteps.Sound(net, ops, v) && TracedBy(net, start, log, v)
    requires !start.torn && !start.refused && !start.swapped && Fresh(net, start)
    ensures Promised(net, ops, log, v)
  {
    SoundStorage(net, ops, v);
    assert !v.torn && !v.refused && NoOverflow(ops.work, HeadersOf(v.storage), Root0(net)) ==>
             MostWork(ops.work, HeadersOf(v.storage), Root0(net), v.tip) by {
      TipHasMostWork(net, ops, v);
    }
    if !v.torn {
      SoundLedger(net, ops, v);
      assert !v.swapped ==> BodiesStored(ops, v.storage, v.active) by {
        LedgerIsReplay(net, ops, v);
      }
      if !StaleAfter(false, log) {
        assert OpenFresh(0);
      }
    }
  }

  lemma SoundStorage(net: Network, ops: Ops, v: View)
    requires NodeSteps.Sound(net, ops, v)
    ensures StoredWell(net, ops, v)
  {
    TipHasMostWork(net, ops, v);
    forall h | h in v.storage ensures OnSchedule(net, v, h) {
      StoredBlocksOnSchedule(net, ops, v, h);
    }
    assert Implements(net, ops) by {
      assert NodeSteps.OpenSound(0, v) && OpenTied(0);
    }
  }

  lemma SoundLedger(net: Network, ops: Ops, v: View)
    requires NodeSteps.Sound(net, ops, v) && !v.torn
    ensures Tree(HeadersOf(v.storage), Root0(net)) && v.tip in v.storage && LedgerStands(net, ops, v)
  {
    LedgerIsReplay(net, ops, v);
    SupplyNeverExceeded(net, ops, v);
    CoinsOfActive(net, ops, v);
    forall i | 1 <= i < |v.active| ensures ops.hash(v.active[i]) in v.undo <==> i + 100 > v.peak {
      UndoRetained(net, ops, v, i);
    }
  }
}
