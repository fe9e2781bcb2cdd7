/** The UTXO set: applying transactions and blocks with undo data, and rolling them back. */
module Ledger {
  import opened BigEndian
  import opened Primitives

  type UtxoMap = map<OutPoint, Utxo>

  datatype TxUndo = TxUndo(spent: seq<(OutPoint, Utxo)>, created: seq<OutPoint>)

  /** Result of an apply: the set as it is left (also after an error), the undo data, success. */
  datatype TxStep = TxStep(utxos: UtxoMap, undo: TxUndo, ok: bool)
  datatype BlockStep = BlockStep(utxos: UtxoMap, undo: seq<TxUndo>, ok: bool)

  const NO_UNDO := TxUndo([], [])

  // ---- specification ---------------------------------------------------------------------

  predicate InputsPresent(m: UtxoMap, tx: Tx) {
    forall i :: 0 <= i < |tx.inputs| ==> tx.inputs[i].prev in m
  }

  /** Remove the inputs one by one, recording each output the first time it is taken. */
  function Spend(m: UtxoMap, inputs: seq<TxIn>): (r: (UtxoMap, seq<(OutPoint, Utxo)>)) {
    if inputs == [] then (m, []) else
      var (m1, spent) := Spend(m, inputs[..|inputs| - 1]);
      var o := inputs[|inputs| - 1].prev;
      if o in m1 then (m1 - {o}, spent + [(o, m1[o])]) else (m1, spent)
  }

  /** Every output index fits 32 bits and none of the outpoints is unspent already (BIP-30). */
  predicate OutputsFresh(m: UtxoMap, id: Hash, count: nat) {
    count <= TWO_32 && forall k: u32 :: k < count ==> OutPoint(id, k) !in m
  }

  function Create(m: UtxoMap, id: Hash, tx: Tx, height: u64, n: nat): UtxoMap
    requires n <= |tx.outputs| && n <= TWO_32
  {
    if n == 0 then m
    else Create(m, id, tx, height, n - 1)[OutPoint(id, n - 1) := Utxo(tx.outputs[n - 1], height, IsCoinbase(tx))]
  }

  function Outpoints(id: Hash, n: nat): (s: seq<OutPoint>)
    requires n <= TWO_32
    ensures |s| == n
  {
    seq(n, k requires 0 <= k < n => OutPoint(id, k))
  }

  function ApplyTx(txid: Tx -> Hash, m: UtxoMap, tx: Tx, height: u64): TxStep {
    if !IsCoinbase(tx) && !InputsPresent(m, tx) then TxStep(m, NO_UNDO, false) else
      var (m1, spent) := if IsCoinbase(tx) then (m, []) else Spend(m, tx.inputs);
      var id, n := txid(tx), |tx.outputs|;
      if !OutputsFresh(m1, id, n) then TxStep(m1, NO_UNDO, false)
      else TxStep(Create(m1, id, tx, height, n), TxUndo(spent, Outpoints(id, n)), true)
  }

  function ApplyTxs(txid: Tx -> Hash, m: UtxoMap, txs: seq<Tx>, height: u64): BlockStep {
    if txs == [] then BlockStep(m, [], true) else
      var r := ApplyTxs(txid, m, txs[..|txs| - 1], height);
      if !r.ok then r else
        var s := ApplyTx(txid, r.utxos, txs[|txs| - 1], height);
        BlockStep(s.utxos, if s.ok then r.undo + [s.undo] else r.undo, s.ok)
  }

  function ApplyBlock(txid: Tx -> Hash, m: UtxoMap, b: Block): BlockStep {
    ApplyTxs(txid, m, b.txs, b.header.height)
  }

  function Forget(m: UtxoMap, created: seq<OutPoint>): UtxoMap {
    if created == [] then m else Forget(m, created[..|created| - 1]) - {created[|created| - 1]}
  }

  function Restore(m: UtxoMap, spent: seq<(OutPoint, Utxo)>): UtxoMap {
    if spent == [] then m else
      var (o, u) := spent[|spent| - 1];
      Restore(m, spent[..|spent| - 1])[o := u]
  }

  function DisconnectTx(m: UtxoMap, undo: TxUndo): UtxoMap {
    Restore(Forget(m, undo.created), undo.spent)
  }

  /** Last transaction first. */
  function Disconnect(m: UtxoMap, undo: seq<TxUndo>): UtxoMap
    decreases |undo|
  {
    if undo == [] then m else Disconnect(DisconnectTx(m, undo[|undo| - 1]), undo[..|undo| - 1])
  }

  // ---- disconnect undoes apply -----------------------------------------------------------

  /** What spending leaves and what it records, together, are the set it started from. */
  lemma {:induction false} SpendFacts(m: UtxoMap, inputs: seq<TxIn>)
    ensures var (m1, spent) := Spend(m, inputs);
            && (forall o :: o in m1 ==> o in m && m1[o] == m[o])
            && (forall i :: 0 <= i < |spent| ==> spent[i].0 in m && spent[i].1 == m[spent[i].0])
            && (forall o :: o in m && o !in m1 ==> exists i :: 0 <= i < |spent| && spent[i].0 == o)
            && (forall o :: o in m1 <==> o in m && forall i :: 0 <= i < |inputs| ==> inputs[i].prev != o)
  {
    if inputs != [] {
      var n := |inputs| - 1;
      SpendFacts(m, inputs[..n]);
      var (m0, s0) := Spend(m, inputs[..n]);
      var (m1, spent) := Spend(m, inputs);
      forall o | o in m && o !in m1
        ensures exists i :: 0 <= i < |spent| && spent[i].0 == o
      {
        if o !in m0 {
          var i :| 0 <= i < |s0| && s0[i].0 == o;
          assert spent[i].0 == o;
        } else {
          assert spent[|s0|].0 == o;
        }
      }
      assert inputs == inputs[..n] + [inputs[n]];
    }
  }

  lemma {:induction false} RestoreFacts(m: UtxoMap, x: UtxoMap, spent: seq<(OutPoint, Utxo)>)
    requires forall o :: o in x ==> o in m && x[o] == m[o]
    requires forall i :: 0 <= i < |spent| ==> spent[i].0 in m && spent[i].1 == m[spent[i].0]
    ensures forall o :: o in Restore(x, spent) ==> o in m && Restore(x, spent)[o] == m[o]
    ensures forall o :: o in x ==> o in Restore(x, spent)
    ensures forall i :: 0 <= i < |spent| ==> spent[i].0 in Restore(x, spent)
  {
    if spent != [] {
      RestoreFacts(m, x, spent[..|spent| - 1]);
    }
  }

  lemma RestoreSpend(m: UtxoMap, inputs: seq<TxIn>)
    ensures Restore(Spend(m, inputs).0, Spend(m, inputs).1) == m
  {
    var (m1, spent) := Spend(m, inputs);
    SpendFacts(m, inputs);
    RestoreFacts(m, m1, spent);
    var r := Restore(m1, spent);
    assert forall o :: o in m ==> o in r;
  }

  lemma {:induction false} CreateFacts(m: UtxoMap, id: Hash, tx: Tx, height: u64, n: nat)
    requires n <= |tx.outputs| && n <= TWO_32
    ensures var c := Create(m, id, tx, height, n);
            && (forall o :: o in c <==> o in m || (o.txid == id && o.vout < n))
            && (forall o :: o in c ==> c[o] == if o.txid == id && o.vout < n
               then Utxo(tx.outputs[o.vout], height, IsCoinbase(tx)) else m[o])
  {
    if n > 0 {
      CreateFacts(m, id, tx, height, n - 1);
    }
  }

  lemma {:induction false} ForgetFacts(m: UtxoMap, created: seq<OutPoint>)
    ensures forall o :: o in Forget(m, created) <==> o in m && o !in created
    ensures forall o :: o in Forget(m, created) ==> Forget(m, created)[o] == m[o]
  {
    if created != [] {
      ForgetFacts(m, created[..|created| - 1]);
      assert created == created[..|created| - 1] + [created[|created| - 1]];
    }
  }

  lemma ForgetCreate(m: UtxoMap, id: Hash, tx: Tx, height: u64)
    requires OutputsFresh(m, id, |tx.outputs|)
    ensures Forget(Create(m, id, tx, height, |tx.outputs|), Outpoints(id, |tx.outputs|)) == m
  {
    var n := |tx.outputs|;
    var c, os := Create(m, id, tx, height, n), Outpoints(id, n);
    CreateFacts(m, id, tx, height, n);
    ForgetFacts(c, os);
    forall o | o in c ensures o in os <==> o.txid == id && o.vout < n {
      if o.txid == id && o.vout < n {
        assert os[o.vout] == o;
      }
    }
    assert Forget(c, os) == m;
  }

  lemma DisconnectUndoesTx(txid: Tx -> Hash, m: UtxoMap, tx: Tx, height: u64)
    requires ApplyTx(txid, m, tx, height).ok
    ensures DisconnectTx(ApplyTx(txid, m, tx, height).utxos, ApplyTx(txid, m, tx, height).undo) == m
  {
    var (m1, spent) := if IsCoinbase(tx) then (m, []) else Spend(m, tx.inputs);
    ForgetCreate(m1, txid(tx), tx, height);
    if !IsCoinbase(tx) {
      RestoreSpend(m, tx.inputs);
    }
  }

  lemma {:induction false} DisconnectUndoesTxs(txid: Tx -> Hash, m: UtxoMap, txs: seq<Tx>, height: u64)
    requires ApplyTxs(txid, m, txs, height).ok
    ensures Disconnect(ApplyTxs(txid, m, txs, height).utxos, ApplyTxs(txid, m, txs, height).undo) == m
  {
    if txs != [] {
      var n := |txs| - 1;
      DisconnectUndoesTxs(txid, m, txs[..n], height);
      var r := ApplyTxs(txid, m, txs[..n], height);
      DisconnectUndoesTx(txid, r.utxos, txs[n], height);
      var undo := ApplyTxs(txid, m, txs, height).undo;
      assert undo[..|undo| - 1] == r.undo;
    }
  }

  /** For every set and every block that applies: disconnecting restores exactly the old set,
      repeated inputs and in-block spends included. */
  lemma DisconnectUndoesApply(txid: Tx -> Hash, m: UtxoMap, b: Block)
    requires ApplyBlock(txid, m, b).ok
    ensures Disconnect(ApplyBlock(txid, m, b).utxos, ApplyBlock(txid, m, b).undo) == m
  {
    DisconnectUndoesTxs(txid, m, b.txs, b.header.height);
  }

  // ---- the class -------------------------------------------------------------------------

  class UtxoSet {
    var utxos: UtxoMap

    constructor ()
      ensures utxos == map[]
    {
      utxos := map[];
    }

    method ApplyTransactionWithUndo(txid: Tx -> Hash, tx: Tx, height: u64) returns (r: Option<TxUndo>)
      modifies this
      ensures var s := ApplyTx(txid, old(utxos), tx, height);
              utxos == s.utxos && r == if s.ok then Some(s.undo) else None
    {
      var spent := [];
      if !IsCoinbase(tx) {
        var present := true;
        for i := 0 to |tx.inputs|
          invariant utxos == old(utxos)
          invariant present <==> forall j :: 0 <= j < i ==> tx.inputs[j].prev in utxos
        {
          if tx.inputs[i].prev !in utxos {
            present := false;
          }
        }
        if !present {
          return None;
        }
        for i := 0 to |tx.inputs|
          invariant (utxos, spent) == Spend(old(utxos), tx.inputs[..i])
        {
          assert tx.inputs[..i + 1][..i] == tx.inputs[..i];
          var o := tx.inputs[i].prev;
          if o in utxos {
            spent := spent + [(o, utxos[o])];
            utxos := utxos - {o};
          }
        }
        assert tx.inputs[..|tx.inputs|] == tx.inputs;
      }
      r := CreateOutputs(txid(tx), tx, height, spent);
    }

    /** The BIP-30 scan, then the insertions. */
    method CreateOutputs(id: Hash, tx: Tx, height: u64, spent: seq<(OutPoint, Utxo)>) returns (r: Option<TxUndo>)
      modifies this
      ensures !OutputsFresh(old(utxos), id, |tx.outputs|) ==> r == None && utxos == old(utxos)
      ensures OutputsFresh(old(utxos), id, |tx.outputs|) ==>
                && utxos == Create(old(utxos), id, tx, height, |tx.outputs|)
                && r == Some(TxUndo(spent, Outpoints(id, |tx.outputs|)))
    {
      var n := |tx.outputs|;
      var k := 0;
      while k < n
        invariant 0 <= k <= n && k <= TWO_32 && utxos == old(utxos)
        invariant OutputsFresh(utxos, id, k)
      {
        if k >= TWO_32 {
          return None;
        }
        if OutPoint(id, k) in utxos {
          return None;
        }
        k := k + 1;
      }
      var created := [];
      for j := 0 to n
        invariant utxos == Create(old(utxos), id, tx, height, j)
        invariant created == Outpoints(id, j)
      {
        utxos := utxos[OutPoint(id, j) := Utxo(tx.outputs[j], height, IsCoinbase(tx))];
        created := created + [OutPoint(id, j)];
      }
      r := Some(TxUndo(spent, created));
    }

    method ApplyBlockWithUndo(txid: Tx -> Hash, b: Block) returns (r: Option<seq<TxUndo>>)
      modifies this
      ensures var s := ApplyBlock(txid, old(utxos), b);
              utxos == s.utxos && r == if s.ok then Some(s.undo) else None
    {
      var undos := [];
      var n := |b.txs|;
      for i := 0 to n
        invariant ApplyTxs(txid, old(utxos), b.txs[..i], b.header.height) == BlockStep(utxos, undos, true)
      {
        assert b.txs[..i + 1][..i] == b.txs[..i];
        var u := ApplyTransactionWithUndo(txid, b.txs[i], b.header.height);
        if u == None {
          StuckAfterFailure(txid, old(utxos), b.txs, b.header.height, i + 1);
          return None;
        }
        undos := undos + [u.value];
      }
      assert b.txs[..n] == b.txs;
      r := Some(undos);
    }

    method DisconnectBlock(undo: seq<TxUndo>)
      modifies this
      ensures utxos == Disconnect(old(utxos), undo)
    {
      var i := |undo|;
      assert undo[..i] == undo;
      while i > 0
        invariant 0 <= i <= |undo|
        invariant Disconnect(utxos, undo[..i]) == Disconnect(old(utxos), undo)
      {
        i := i - 1;
        assert undo[..i + 1][..i] == undo[..i];
        ghost var m := utxos;
        var created, spent := undo[i].created, undo[i].spent;
        for j := 0 to |created|
          invariant utxos == Forget(m, created[..j])
        {
          assert created[..j + 1][..j] == created[..j];
          utxos := utxos - {created[j]};
        }
        assert created[..|created|] == created;
        ghost var f := utxos;
        for j := 0 to |spent|
          invariant utxos == Restore(f, spent[..j])
        {
          assert spent[..j + 1][..j] == spent[..j];
          utxos := utxos[spent[j].0 := spent[j].1];
        }
        assert spent[..|spent|] == spent;
      }
    }
  }

  /** The first failing transaction decides the result of the whole block. */
  lemma {:induction false} StuckAfterFailure(txid: Tx -> Hash, m: UtxoMap, txs: seq<Tx>, height: u64, i: nat)
    requires i <= |txs| && !ApplyTxs(txid, m, txs[..i], height).ok
    ensures ApplyTxs(txid, m, txs, height) == ApplyTxs(txid, m, txs[..i], height)
    decreases |txs|
  {
    if i == |txs| {
      assert txs[..i] == txs;
    } else {
      var n := |txs| - 1;
      assert txs[..n][..i] == txs[..i];
      StuckAfterFailure(txid, m, txs[..n], height, i);
    }
  }
}
