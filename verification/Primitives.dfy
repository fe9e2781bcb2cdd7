/** Transactions, blocks and the hash functions they are named by. */
module Primitives {
  import opened BigEndian

  datatype Option<+T> = None | Some(value: T)

  /** A digest.  Only equality and the all-zero value matter, so the model does not fix a width:
      collision-freedom is then a hypothesis that some hash functions meet. */
  datatype Hash = Hash(digest: nat)

  const ZERO_HASH := Hash(0)

  datatype OutPoint = OutPoint(txid: Hash, vout: u32)
  datatype TxOut = TxOut(value: u64, script: seq<byte>)
  datatype TxIn = TxIn(prev: OutPoint, scriptSig: seq<byte>, sequence: u32, witnessStack: seq<seq<byte>>)
  datatype Tx = Tx(version: u32, inputs: seq<TxIn>, outputs: seq<TxOut>, lockTime: u32)

  datatype Utxo = Utxo(output: TxOut, height: u64, isCoinbase: bool)

  /** Header heights stay below the last 64-bit value, so a child height never saturates. */
  type BlockHeight = h: int | 0 <= h < TWO_64 - 1

  datatype Header = Header(version: int, prevHash: Hash, merkleRoot: Hash, timestamp: u64, bits: u32, nonce: u64,
    height: BlockHeight)
  datatype Block = Block(header: Header, txs: seq<Tx>)

  /** The null outpoint that marks a coinbase input. */
  const NULL_OUTPOINT := OutPoint(ZERO_HASH, 0xFFFF_FFFF)

  predicate IsCoinbase(tx: Tx) {
    |tx.inputs| == 1 && tx.inputs[0].prev == NULL_OUTPOINT
  }

  /** Transaction ids do not commit to witnesses. */
  function StripWitness(tx: Tx): Tx {
    tx.(inputs := seq(|tx.inputs|, i requires 0 <= i < |tx.inputs| => tx.inputs[i].(witnessStack := [])))
  }

  /** The double-SHA-256 functions of the node, as parameters of the model. */
  datatype Hashing = Hashing(
    headerHash: Header -> Hash,
    txid: Tx -> Hash,
    pair: (Hash, Hash) -> Hash
  )

  /** Transaction ids are collision-free on everything but witnesses. */
  ghost predicate TxidInjective(txid: Tx -> Hash) {
    forall a, b :: txid(a) == txid(b) ==> StripWitness(a) == StripWitness(b)
  }

  /** Header hashes are collision-free and never the all-zero parent marker. */
  ghost predicate HeaderHashInjective(headerHash: Header -> Hash) {
    && (forall a, b :: headerHash(a) == headerHash(b) ==> a == b)
    && forall a :: headerHash(a) != ZERO_HASH
  }

  lemma StripKeeps(a: Tx, b: Tx)
    requires StripWitness(a) == StripWitness(b)
    ensures |a.inputs| == |b.inputs| && a.outputs == b.outputs
    ensures forall i :: 0 <= i < |a.inputs| ==> a.inputs[i].prev == b.inputs[i].prev
    ensures IsCoinbase(a) <==> IsCoinbase(b)
  {
    forall i | 0 <= i < |a.inputs| ensures a.inputs[i].prev == b.inputs[i].prev {
      assert StripWitness(a).inputs[i].prev == StripWitness(b).inputs[i].prev;
    }
  }
}
