/** Switching branches: what holds between disconnecting the old blocks and connecting the new ones. */
module NodeReorg {
  import opened Primitives
  import opened Ledger
  import opened ChainTree
  import opened ChainLedger
  import opened ActiveChain
  import opened ChainWalk
  import opened NodeInvariant

  predicate OpenFork(k: int) { true }
  predicate OpenConnecting(k: int, chain: seq<Block>) { true }
  predicate OpenCore(k: int, n: nat) { true }

  /** `disconnect` are the last active blocks, last first; `connect` completes the rest to the path of
      `newTip`, every block of it stored at its height. */
  ghost predicate ForkOk(net: Network, ops: Ops, storage: Blocks, active: seq<Block>, newTip: Hash,
                         disconnect: seq<Hash>, connect: seq<Hash>) {
    forall k: int {:trigger OpenFork(k)} :: OpenFork(k) ==>
      && Tree(HeadersOf(storage), Root0(net)) && newTip in storage && |disconnect| < |active|
      && (forall j :: 0 <= j < |disconnect| ==> disconnect[j] == ops.hash(active[|active| - 1 - j]))
      && HashesOf(ops, active[..|active| - |disconnect|]) + connect == PathTo(HeadersOf(storage), Root0(net), newTip)
      && forall j :: 0 <= j < |connect| ==>
           && connect[j] in storage && ops.hash(storage[connect[j]]) == connect[j]
           && storage[connect[j]].header.height == |active| - |disconnect| + j
  }

  /** The first heights follow `path`; above it the entries of a chain of `oldLen` blocks remain. */
  ghost predicate MapsPartly(heights: Heights, path: seq<Hash>, oldLen: nat) {
    && (forall i :: i in heights <==> 0 <= i < |path| || 0 <= i < oldLen)
    && forall i :: 0 <= i < |path| ==> heights[i] == path[i]
  }

  ghost predicate Connecting(ops: Ops, chain: seq<Block>, utxos: UtxoMap, heights: Heights, undo: Undos, oldLen: nat) {
    forall k: int {:trigger OpenConnecting(k, chain)} :: OpenConnecting(k, chain) ==>
      LedgerCore(ops, chain, utxos, undo) && MapsPartly(heights, HashesOf(ops, chain), oldLen)
  }

  lemma HashesPrefix(ops: Ops, chain: seq<Block>, n: nat)
    requires n <= |chain|
    ensures HashesOf(ops, chain[..n]) == HashesOf(ops, chain)[..n]
  {}

  lemma ActivePath(net: Network, ops: Ops, storage: Blocks, tip: Hash, active: seq<Block>, utxos: UtxoMap,
                   heights: Heights, undo: Undos)
    requires LedgerOk(net, ops, storage, tip, active, utxos, heights, undo)
    ensures Tree(HeadersOf(storage), Root0(net)) && tip in storage
    ensures HashesOf(ops, active) == PathTo(HeadersOf(storage), Root0(net), tip)
            && |active| == storage[tip].header.height + 1
  {
    assert OpenLedger(0);
  }

  lemma ForkStands(net: Network, ops: Ops, storage: Blocks, work: Works, tip: Hash, newTip: Hash, active: seq<Block>,
                   utxos: UtxoMap, heights: Heights, undo: Undos, disconnect: seq<Hash>, connect: seq<Hash>)
    requires Tied(net, ops) && TreeOk(net, ops, storage, work)
             && LedgerOk(net, ops, storage, tip, active, utxos, heights, undo)
    requires newTip in storage && Tree(HeadersOf(storage), Root0(net)) && tip in storage
    requires IsFork(HeadersOf(storage), Root0(net), tip, newTip, disconnect, connect)
    ensures |disconnect| < |active|
    ensures ForkOk(net, ops, storage, active, newTip, disconnect, connect)
  {
    ActivePath(net, ops, storage, tip, active, utxos, heights, undo);
    var hs, g := HeadersOf(storage), Root0(net);
    ForkMeans(hs, g, tip, newTip, disconnect, connect);
    var n := |active| - |disconnect|;
    HashesPrefix(ops, active, n);
    forall j | 0 <= j < |disconnect| ensures disconnect[j] == ops.hash(active[|active| - 1 - j]) {
      assert disconnect[j] == HashesOf(ops, active)[|active| - 1 - j];
    }
    ForkStored(net, ops, storage, work, newTip, HashesOf(ops, active[..n]), connect);
  }

  lemma IndexOfConcat(shared: seq<Hash>, connect: seq<Hash>, j: nat)
    requires j < |connect|
    ensures |shared + connect| == |shared| + |connect| && (shared + connect)[|shared| + j] == connect[j]
  {}

  lemma ForkStored(net: Network, ops: Ops, storage: Blocks, work: Works, newTip: Hash, shared: seq<Hash>,
                   connect: seq<Hash>)
    requires Tied(net, ops) && TreeOk(net, ops, storage, work) && newTip in storage
             && Tree(HeadersOf(storage), Root0(net))
    requires shared + connect == PathTo(HeadersOf(storage), Root0(net), newTip)
    ensures forall j :: 0 <= j < |connect| ==>
              && connect[j] in storage && ops.hash(storage[connect[j]]) == connect[j]
              && storage[connect[j]].header.height == |shared| + j
  {
    forall j | 0 <= j < |connect|
      ensures connect[j] in storage && ops.hash(storage[connect[j]]) == connect[j]
              && storage[connect[j]].header.height == |shared| + j
    {
      IndexOfConcat(shared, connect, j);
      StoredOnPath(net, ops, storage, work, newTip, |shared| + j);
    }
  }

  lemma StoredOnPath(net: Network, ops: Ops, storage: Blocks, work: Works, tip: Hash, i: nat)
    requires Tied(net, ops) && TreeOk(net, ops, storage, work) && tip in storage
    requires Tree(HeadersOf(storage), Root0(net)) && i < |PathTo(HeadersOf(storage), Root0(net), tip)|
    ensures var h := PathTo(HeadersOf(storage), Root0(net), tip)[i];
            h in storage && ops.hash(storage[h]) == h && storage[h].header.height == i
  {
    assert OpenTied(0) && OpenTree(0);
    PathNode(HeadersOf(storage), Root0(net), tip, i);
  }

  /** The UTXO set and undo data of the first `n` active blocks. */
  ghost predicate Rewound(ops: Ops, active: seq<Block>, n: nat, utxos: UtxoMap, undo: Undos)
    requires n <= |active|
  {
    forall k: int {:trigger OpenCore(k, n)} :: OpenCore(k, n) ==> LedgerCore(ops, active[..n], utxos, undo)
  }

  lemma StartRewinding(net: Network, ops: Ops, storage: Blocks, tip: Hash, active: seq<Block>, utxos: UtxoMap,
                       heights: Heights, undo: Undos)
    requires LedgerOk(net, ops, storage, tip, active, utxos, heights, undo)
    ensures Rewound(ops, active, |active|, utxos, undo)
  {
    assert OpenLedger(0);
    assert active[..|active|] == active;
  }

  /** One disconnect: the next entry of the list is the last remaining block. */
  lemma Disconnected(net: Network, ops: Ops, active: seq<Block>, n: nat, utxos: UtxoMap, undo: Undos, h: Hash)
    requires Tied(net, ops) && 1 < n <= |active| && Rewound(ops, active, n, utxos, undo)
    requires h == ops.hash(active[n - 1]) && h in undo
    ensures Rewound(ops, active, n - 1, Disconnect(utxos, undo[h]), undo)
  {
    assert OpenTied(0) && OpenCore(0, n);
    DisconnectStep(ops, active[..n], utxos, undo);
    assert active[..n][..n - 1] == active[..n - 1];
  }

  lemma StartConnecting(net: Network, ops: Ops, storage: Blocks, tip: Hash, active: seq<Block>, n: nat, before: UtxoMap,
                        utxos: UtxoMap, heights: Heights, undo: Undos)
    requires LedgerOk(net, ops, storage, tip, active, before, heights, undo) && n <= |active|
             && Rewound(ops, active, n, utxos, undo)
    ensures Connecting(ops, active[..n], utxos, heights, undo, |active|)
  {
    assert OpenLedger(0) && OpenCore(0, n);
    HashesPrefix(ops, active, n);
  }

  lemma MapsNext(ops: Ops, heights: Heights, chain: seq<Block>, b: Block, oldLen: nat)
    requires MapsPartly(heights, HashesOf(ops, chain), oldLen)
    ensures MapsPartly(heights[|chain| := ops.hash(b)], HashesOf(ops, chain + [b]), oldLen)
  {}

  lemma Connected(net: Network, ops: Ops, chain: seq<Block>, utxos: UtxoMap, heights: Heights, undo: Undos, oldLen: nat,
                  b: Block)
    requires Tied(net, ops) && Connecting(ops, chain, utxos, heights, undo, oldLen)
    requires b.header.height == |chain| && ops.accept(ChainHeaders(chain), utxos, b) && ops.apply(utxos, b).ok
    ensures Connecting(ops, chain + [b], ops.apply(utxos, b).utxos, heights[b.header.height := ops.hash(b)],
                       undo[ops.hash(b) := ops.apply(utxos, b).undo], oldLen)
  {
    assert HashNamesHeader(ops) by {
      assert OpenTied(0);
    }
    assert LedgerCore(ops, chain, utxos, undo) && MapsPartly(heights, HashesOf(ops, chain), oldLen) by {
      assert OpenConnecting(0, chain);
    }
    ConnectStep(ops, chain, utxos, undo, b);
    MapsNext(ops, heights, chain, b, oldLen);
  }

  /** `trimmed` has lost exactly the heights above `height` up to `oldHeight`. */
  ghost predicate TrimmedTo(heights: Heights, trimmed: Heights, height: nat, oldHeight: nat) {
    && (forall i :: i in trimmed <==> i in heights && !(height < i <= oldHeight))
    && forall i :: i in trimmed ==> trimmed[i] == heights[i]
  }

  lemma Trimmed(heights: Heights, trimmed: Heights, path: seq<Hash>, oldLen: nat)
    requires MapsPartly(heights, path, oldLen) && path != [] && oldLen > 0
             && TrimmedTo(heights, trimmed, |path| - 1, oldLen - 1)
    ensures MapsPath(trimmed, path)
  {}

  /** The branch is complete: trimming the height map and pruning undo data gives the new ledger. */
  lemma Switched(net: Network, ops: Ops, storage: Blocks, newTip: Hash, chain: seq<Block>, utxos: UtxoMap,
                 heights: Heights, trimmed: Heights, undo: Undos, pruned: Undos, oldLen: nat)
    requires Connecting(ops, chain, utxos, heights, undo, oldLen) && SubMap(pruned, undo)
    requires Tree(HeadersOf(storage), Root0(net)) && newTip in storage
             && HashesOf(ops, chain) == PathTo(HeadersOf(storage), Root0(net), newTip)
    requires oldLen > 0 && TrimmedTo(heights, trimmed, |chain| - 1, oldLen - 1)
    ensures LedgerOk(net, ops, storage, newTip, chain, utxos, trimmed, pruned)
  {
    assert LedgerCore(ops, chain, utxos, undo) && MapsPartly(heights, HashesOf(ops, chain), oldLen) by {
      assert OpenConnecting(0, chain);
    }
    Trimmed(heights, trimmed, HashesOf(ops, chain), oldLen);
    ForgettingUndo(ops, chain, utxos, undo, pruned);
  }
}
