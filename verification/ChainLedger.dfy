/** Chains of blocks over a ledger with undo.  Validation, application and block work are parameters
    here, so that nothing about their inner workings is needed to reason about extension and rollback. */
module ChainLedger {
  import opened BigEndian
  import opened Primitives
  import opened Ledger

  datatype Ops = Ops(
    genesis: Block,
    hash: Block -> Hash,
    /** Validation of a block on top of a chain with these headers. */
    accept: (seq<Header>, UtxoMap, Block) -> bool,
    apply: (UtxoMap, Block) -> BlockStep,
    work: u32 -> nat
  )

  /** Undo data returned by an application reverses it. */
  ghost predicate Reversible(ops: Ops) {
    forall m: UtxoMap, b: Block :: ops.apply(m, b).ok ==> Disconnect(ops.apply(m, b).utxos, ops.apply(m, b).undo) == m
  }

  ghost predicate HashNamesHeader(ops: Ops) {
    forall a: Block, b: Block {:trigger ops.hash(a), ops.hash(b)} :: ops.hash(a) == ops.hash(b) ==> a.header == b.header
  }

  /** Apply a whole chain to the empty set. */
  ghost function ReplayChain(ops: Ops, chain: seq<Block>): BlockStep {
    if chain == [] then BlockStep(map[], [], true) else
      var r := ReplayChain(ops, chain[..|chain| - 1]);
      if r.ok then ops.apply(r.utxos, chain[|chain| - 1]) else r
  }

  ghost function ChainHeaders(chain: seq<Block>): (hs: seq<Header>)
    ensures |hs| == |chain|
    ensures forall i :: 0 <= i < |chain| ==> hs[i] == chain[i].header
  {
    seq(|chain|, i requires 0 <= i < |chain| => chain[i].header)
  }

  /** Genesis followed by blocks each of which passed full validation against the replay so far. */
  ghost predicate ValidChain(ops: Ops, chain: seq<Block>) {
    && chain != [] && chain[0] == ops.genesis
    && (forall i :: 0 <= i < |chain| ==> chain[i].header.height == i)
    && ReplayChain(ops, chain).ok
    && forall i :: 1 <= i < |chain| ==>
         ops.accept(ChainHeaders(chain[..i]), ReplayChain(ops, chain[..i]).utxos, chain[i])
  }

  lemma {:induction false} ReplayPrefixOk(ops: Ops, chain: seq<Block>, k: nat)
    requires k <= |chain| && ReplayChain(ops, chain).ok
    ensures ReplayChain(ops, chain[..k]).ok
  {
    if k < |chain| {
      ReplayPrefixOk(ops, chain[..|chain| - 1], k);
      assert chain[..|chain| - 1][..k] == chain[..k];
    } else {
      assert chain[..k] == chain;
    }
  }

  lemma ValidPrefix(ops: Ops, chain: seq<Block>, k: nat)
    requires ValidChain(ops, chain) && 1 <= k <= |chain|
    ensures ValidChain(ops, chain[..k])
  {
    ReplayPrefixOk(ops, chain, k);
    forall i | 1 <= i < k ensures ops.accept(ChainHeaders(chain[..k][..i]), ReplayChain(ops, chain[..k][..i]).utxos,
      chain[..k][i]) {
      assert chain[..k][..i] == chain[..i];
    }
  }

  lemma ValidExtend(ops: Ops, chain: seq<Block>, b: Block)
    requires ValidChain(ops, chain) && b.header.height == |chain|
    requires ops.accept(ChainHeaders(chain), ReplayChain(ops, chain).utxos, b)
             && ops.apply(ReplayChain(ops, chain).utxos, b).ok
    ensures ValidChain(ops, chain + [b])
    ensures ReplayChain(ops, chain + [b]) == ops.apply(ReplayChain(ops, chain).utxos, b)
  {
    var more := chain + [b];
    assert more[..|chain|] == chain;
    forall i | 1 <= i < |more| ensures ops.accept(ChainHeaders(more[..i]), ReplayChain(ops, more[..i]).utxos, more[i]) {
      if i < |chain| {
        assert more[..i] == chain[..i];
      }
    }
  }

  /** If a chain is valid, each of its blocks is accepted by the part below it and applies to it. */
  lemma ValidAt(ops: Ops, chain: seq<Block>, k: nat)
    requires ValidChain(ops, chain) && 1 <= k < |chain|
    ensures var m := ReplayChain(ops, chain[..k]).utxos;
            ops.accept(ChainHeaders(chain[..k]), m, chain[k]) && ops.apply(m, chain[k]).ok
  {
    ReplayPrefixOk(ops, chain, k);
    ReplayPrefixOk(ops, chain, k + 1);
    assert chain[..k + 1][..k] == chain[..k];
  }

  /** The UTXO set is the replay of `chain`, and every undo record kept for a block of the chain is
      the one its application produced. */
  ghost predicate LedgerCore(ops: Ops, chain: seq<Block>, utxos: UtxoMap, undo: map<Hash, seq<TxUndo>>) {
    && ValidChain(ops, chain)
    && utxos == ReplayChain(ops, chain).utxos
    && UndosMatch(ops, chain, undo)
  }

  /** Connecting an accepted block that applies. */
  lemma ConnectStep(ops: Ops, chain: seq<Block>, utxos: UtxoMap, undo: map<Hash, seq<TxUndo>>, b: Block)
    requires HashNamesHeader(ops) && LedgerCore(ops, chain, utxos, undo) && b.header.height == |chain|
    requires ops.accept(ChainHeaders(chain), utxos, b) && ops.apply(utxos, b).ok
    ensures LedgerCore(ops, chain + [b], ops.apply(utxos, b).utxos, undo[ops.hash(b) := ops.apply(utxos, b).undo])
  {
    ValidExtend(ops, chain, b);
    var more := chain + [b];
    var undo' := undo[ops.hash(b) := ops.apply(utxos, b).undo];
    forall i | 1 <= i < |more| && ops.hash(more[i]) in undo'
      ensures undo'[ops.hash(more[i])] == ReplayChain(ops, more[..i + 1]).undo
    {
      if i < |chain| {
        assert more[..i + 1] == chain[..i + 1];
        assert ops.hash(chain[i]) != ops.hash(b);
      } else {
        assert more[..i + 1] == more;
      }
    }
  }

  /** Disconnecting the last block with its undo record. */
  lemma DisconnectStep(ops: Ops, chain: seq<Block>, utxos: UtxoMap, undo: map<Hash, seq<TxUndo>>)
    requires Reversible(ops) && LedgerCore(ops, chain, utxos, undo) && |chain| > 1
    requires ops.hash(chain[|chain| - 1]) in undo
    ensures LedgerCore(ops, chain[..|chain| - 1], Disconnect(utxos, undo[ops.hash(chain[|chain| - 1])]), undo)
  {
    var n := |chain| - 1;
    ValidPrefix(ops, chain, n);
    ReplayPrefixOk(ops, chain, n);
    assert chain[..n + 1] == chain;
    UndoPrefix(ops, chain, undo, n);
  }

  ghost predicate UndosMatch(ops: Ops, chain: seq<Block>, undo: map<Hash, seq<TxUndo>>) {
    forall i :: 1 <= i < |chain| && ops.hash(chain[i]) in undo ==>
        undo[ops.hash(chain[i])] == ReplayChain(ops, chain[..i + 1]).undo
  }

  lemma UndoPrefix(ops: Ops, chain: seq<Block>, undo: map<Hash, seq<TxUndo>>, n: nat)
    requires UndosMatch(ops, chain, undo) && n <= |chain|
    ensures UndosMatch(ops, chain[..n], undo)
  {
    forall i | 1 <= i < n && ops.hash(chain[..n][i]) in undo
      ensures undo[ops.hash(chain[..n][i])] == ReplayChain(ops, chain[..n][..i + 1]).undo
    {
      assert chain[..n][..i + 1] == chain[..i + 1];
    }
  }

  lemma ForgettingUndo(ops: Ops, chain: seq<Block>, utxos: UtxoMap, undo: map<Hash, seq<TxUndo>>,
                       fewer: map<Hash, seq<TxUndo>>)
    requires LedgerCore(ops, chain, utxos, undo)
    requires forall h :: h in fewer ==> h in undo && fewer[h] == undo[h]
    ensures LedgerCore(ops, chain, utxos, fewer)
  {}

  ghost function HashesOf(ops: Ops, chain: seq<Block>): (s: seq<Hash>)
    ensures |s| == |chain|
    ensures forall i :: 0 <= i < |chain| ==> s[i] == ops.hash(chain[i])
  {
    seq(|chain|, i requires 0 <= i < |chain| => ops.hash(chain[i]))
  }

  ghost function DisconnectAll(m: UtxoMap, undos: seq<seq<TxUndo>>): UtxoMap
    decreases |undos|
  {
    if undos == [] then m else DisconnectAll(Disconnect(m, undos[0]), undos[1..])
  }

  /** The undo records of the last `k` blocks, last block first. */
  ghost function LastUndos(ops: Ops, chain: seq<Block>, k: nat): seq<seq<TxUndo>>
    requires k <= |chain|
  {
    if k == 0 then [] else [ReplayChain(ops, chain).undo] + LastUndos(ops, chain[..|chain| - 1], k - 1)
  }

  /** `k` disconnects, last block first, undo the last `k` connects of any chain that applies. */
  lemma {:induction false} DisconnectsUndoConnects(ops: Ops, chain: seq<Block>, k: nat)
    requires Reversible(ops) && ReplayChain(ops, chain).ok && k <= |chain|
    ensures DisconnectAll(ReplayChain(ops, chain).utxos, LastUndos(ops, chain, k)) ==
            ReplayChain(ops, chain[..|chain| - k]).utxos
  {
    if k == 0 {
      assert chain[..|chain|] == chain;
    } else {
      var n := |chain| - 1;
      DisconnectsUndoConnects(ops, chain[..n], k - 1);
      assert chain[..n][..n - (k - 1)] == chain[..|chain| - k];
      assert LastUndos(ops, chain, k)[1..] == LastUndos(ops, chain[..n], k - 1);
    }
  }
}
