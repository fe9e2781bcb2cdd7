/** The lookup indexes kept beside the active chain. */
module Indexes {
  import opened BigEndian
  import opened Primitives

  datatype Index = Index(tx: map<Hash, nat>, script: map<seq<byte>, seq<Hash>>, chain: map<Hash, nat>)

  const EMPTY_INDEX := Index(map[], map[], map[])

  function AddScript(m: map<seq<byte>, seq<Hash>>, script: seq<byte>, id: Hash): map<seq<byte>, seq<Hash>> {
    m[script := (if script in m then m[script] else []) + [id]]
  }

  function AddOutputs(m: map<seq<byte>, seq<Hash>>, outputs: seq<TxOut>, id: Hash): map<seq<byte>, seq<Hash>> {
    if outputs == [] then m
    else AddScript(AddOutputs(m, outputs[..|outputs| - 1], id), outputs[|outputs| - 1].script, id)
  }

  function AddTxs(txid: Tx -> Hash, x: Index, txs: seq<Tx>, height: nat): Index {
    if txs == [] then x else
      var y := AddTxs(txid, x, txs[..|txs| - 1], height);
      var tx := txs[|txs| - 1];
      y.(tx := y.tx[txid(tx) := height], script := AddOutputs(y.script, tx.outputs, txid(tx)))
  }

  /** A block entered under a given hash and height. */
  function AddBlock(txid: Tx -> Hash, x: Index, hash: Hash, txs: seq<Tx>, height: nat): Index {
    AddTxs(txid, x.(chain := x.chain[hash := height]), txs, height)
  }

  /** The indexes of a whole chain, from scratch. */
  function OfChain(hashing: Hashing, blocks: seq<Block>): Index {
    if blocks == [] then EMPTY_INDEX else
      var n := |blocks| - 1;
      AddBlock(hashing.txid, OfChain(hashing, blocks[..n]), hashing.headerHash(blocks[n].header), blocks[n].txs, n)
  }

  /** The rebuild scan over the first `n` heights: blocks that are not stored only get their height. */
  function Rebuilt(hashing: Hashing, heightMap: map<nat, Hash>, storage: map<Hash, Block>, n: nat): Index {
    if n == 0 then EMPTY_INDEX else
      var x := Rebuilt(hashing, heightMap, storage, n - 1);
      if n - 1 !in heightMap then x else
        var hash := heightMap[n - 1];
        AddBlock(hashing.txid, x, hash, if hash in storage then storage[hash].txs else [], n - 1)
  }

  /** Rebuilding from stored bodies equals indexing the chain those bodies form. */
  lemma {:induction false} RebuiltIsChain(hashing: Hashing, heightMap: map<nat, Hash>, storage: map<Hash, Block>,
                                          blocks: seq<Block>)
    requires forall i :: 0 <= i < |blocks| ==> i in heightMap && heightMap[i] == hashing.headerHash(blocks[i].header)
    requires forall i :: 0 <= i < |blocks| ==> heightMap[i] in storage && storage[heightMap[i]] == blocks[i]
    ensures Rebuilt(hashing, heightMap, storage, |blocks|) == OfChain(hashing, blocks)
  {
    if blocks != [] {
      var n := |blocks| - 1;
      RebuiltIsChain(hashing, heightMap, storage, blocks[..n]);
      assert heightMap[n] in storage && storage[heightMap[n]] == blocks[n];
    }
  }

  /** The scan only reads the bodies of the heights it visits. */
  lemma {:induction false} RebuiltSame(hashing: Hashing, heights: map<nat, Hash>, storage: map<Hash, Block>,
                                       heights': map<nat, Hash>, storage': map<Hash, Block>, n: nat)
    requires forall i :: 0 <= i < n ==> (i in heights <==> i in heights')
    requires forall i :: 0 <= i < n && i in heights ==>
               && heights[i] == heights'[i] && (heights[i] in storage <==> heights[i] in storage')
               && (heights[i] in storage ==> storage[heights[i]].txs == storage'[heights[i]].txs)
    ensures Rebuilt(hashing, heights, storage, n) == Rebuilt(hashing, heights', storage', n)
  {
    if n > 0 {
      RebuiltSame(hashing, heights, storage, heights', storage', n - 1);
    }
  }

  method IndexTxs(txid: Tx -> Hash, x: Index, txs: seq<Tx>, height: nat) returns (y: Index)
    ensures y == AddTxs(txid, x, txs, height)
  {
    y := x;
    for i := 0 to |txs|
      invariant y == AddTxs(txid, x, txs[..i], height)
    {
      assert txs[..i + 1][..i] == txs[..i];
      var id, outputs := txid(txs[i]), txs[i].outputs;
      var script := y.script;
      for j := 0 to |outputs|
        invariant script == AddOutputs(y.script, outputs[..j], id)
      {
        assert outputs[..j + 1][..j] == outputs[..j];
        script := AddScript(script, outputs[j].script, id);
      }
      assert outputs[..|outputs|] == outputs;
      y := y.(tx := y.tx[id := height], script := script);
    }
    assert txs[..|txs|] == txs;
  }

  method RebuildIndexes(hashing: Hashing, heightMap: map<nat, Hash>, storage: map<Hash, Block>, height: nat)
    returns (x: Index)
    ensures x == Rebuilt(hashing, heightMap, storage, height + 1)
  {
    x := EMPTY_INDEX;
    for h := 0 to height + 1
      invariant x == Rebuilt(hashing, heightMap, storage, h)
    {
      if h in heightMap {
        var hash := heightMap[h];
        x := x.(chain := x.chain[hash := h]);
        if hash in storage {
          x := IndexTxs(hashing.txid, x, storage[hash].txs, h);
        }
      }
    }
  }
}
