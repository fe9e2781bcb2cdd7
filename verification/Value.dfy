/** The total value of a UTXO set and how applying a transaction moves it. */
module Value {
  import opened BigEndian
  import opened Primitives
  import opened Ledger

  ghost function TotalValue(m: UtxoMap): nat {
    if m == map[] then 0 else
      var o :| o in m;
      m[o].output.value + TotalValue(m - {o})
  }

  function OutputValue(outputs: seq<TxOut>): nat {
    if outputs == [] then 0 else OutputValue(outputs[..|outputs| - 1]) + outputs[|outputs| - 1].value
  }

  /** Values of the inputs that are present in the set. */
  function InputValue(m: UtxoMap, inputs: seq<TxIn>): nat {
    if inputs == [] then 0 else
      var o := inputs[|inputs| - 1].prev;
      InputValue(m, inputs[..|inputs| - 1]) + if o in m then m[o].output.value else 0
  }

  ghost predicate DistinctInputs(inputs: seq<TxIn>) {
    forall i, j :: 0 <= i < j < |inputs| ==> inputs[i].prev != inputs[j].prev
  }

  lemma {:induction false} TotalRemove(m: UtxoMap, o: OutPoint)
    requires o in m
    ensures TotalValue(m) == m[o].output.value + TotalValue(m - {o})
    decreases |m|
  {
    var p :| p in m && TotalValue(m) == m[p].output.value + TotalValue(m - {p});
    if p != o {
      TotalRemove(m - {p}, o);
      TotalRemove(m - {o}, p);
      assert m - {p} - {o} == m - {o} - {p};
    }
  }

  lemma TotalInsert(m: UtxoMap, o: OutPoint, u: Utxo)
    requires o !in m
    ensures TotalValue(m[o := u]) == TotalValue(m) + u.output.value
  {
    TotalRemove(m[o := u], o);
    assert m[o := u] - {o} == m;
  }

  lemma {:induction false} SpendValue(m: UtxoMap, inputs: seq<TxIn>)
    requires DistinctInputs(inputs) && forall i :: 0 <= i < |inputs| ==> inputs[i].prev in m
    ensures TotalValue(Spend(m, inputs).0) + InputValue(m, inputs) == TotalValue(m)
  {
    if inputs != [] {
      var n := |inputs| - 1;
      SpendValue(m, inputs[..n]);
      SpendFacts(m, inputs[..n]);
      assert inputs[n].prev in Spend(m, inputs[..n]).0;
      TotalRemove(Spend(m, inputs[..n]).0, inputs[n].prev);
    }
  }

  lemma {:induction false} CreateValue(m: UtxoMap, id: Hash, tx: Tx, height: u64, n: nat)
    requires n <= |tx.outputs| && OutputsFresh(m, id, n)
    ensures TotalValue(Create(m, id, tx, height, n)) == TotalValue(m) + OutputValue(tx.outputs[..n])
  {
    if n > 0 {
      CreateValue(m, id, tx, height, n - 1);
      CreateFacts(m, id, tx, height, n - 1);
      assert tx.outputs[..n][..n - 1] == tx.outputs[..n - 1];
      TotalInsert(Create(m, id, tx, height, n - 1), OutPoint(id, n - 1),
        Utxo(tx.outputs[n - 1], height, IsCoinbase(tx)));
    }
  }

  /** Applying a transaction adds its outputs and removes its inputs, nothing else. */
  lemma ApplyTxValue(txid: Tx -> Hash, m: UtxoMap, tx: Tx, height: u64)
    requires ApplyTx(txid, m, tx, height).ok
    requires !IsCoinbase(tx) ==> DistinctInputs(tx.inputs)
    ensures TotalValue(ApplyTx(txid, m, tx, height).utxos) + (if IsCoinbase(tx) then 0 else InputValue(m, tx.inputs))
            == TotalValue(m) + OutputValue(tx.outputs)
  {
    var m1 := if IsCoinbase(tx) then m else Spend(m, tx.inputs).0;
    if !IsCoinbase(tx) {
      SpendValue(m, tx.inputs);
    }
    CreateValue(m1, txid(tx), tx, height, |tx.outputs|);
    assert tx.outputs[..|tx.outputs|] == tx.outputs;
  }

  lemma {:induction false} InputValueAgrees(m: UtxoMap, n: UtxoMap, inputs: seq<TxIn>)
    requires forall i :: 0 <= i < |inputs| ==>
               inputs[i].prev in m && inputs[i].prev in n && m[inputs[i].prev] == n[inputs[i].prev]
    ensures InputValue(m, inputs) == InputValue(n, inputs)
  {
    if inputs != [] {
      InputValueAgrees(m, n, inputs[..|inputs| - 1]);
    }
  }
}
