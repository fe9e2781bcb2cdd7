/** The bytes of transactions and blocks, and what the weight limit means for them. */
module Wire {
  import opened BigEndian
  import opened Primitives
  import opened Ledger
  import opened Validator
  import opened UtxoCodec

  // ---- bytes --------------------------------------------------------------------------------

  function CompactSize(n: nat): seq<byte> {
    if n < TWO_64 then EncodeVarint(n) else [0xFF] + ToLe(n, 8)
  }

  function Prefixed(data: seq<byte>): seq<byte> {
    CompactSize(|data|) + data
  }

  function Concat<T>(f: T -> seq<byte>, items: seq<T>): seq<byte> {
    if items == [] then [] else Concat(f, items[..|items| - 1]) + f(items[|items| - 1])
  }

  function Listed<T>(f: T -> seq<byte>, items: seq<T>): seq<byte> {
    CompactSize(|items|) + Concat(f, items)
  }

  function InputBytes(digest: Hash -> Bytes32, i: TxIn): seq<byte> {
    digest(i.prev.txid) + ToLe(i.prev.vout, 4) + Prefixed(i.scriptSig) + ToLe(i.sequence, 4)
  }

  function Inputs(digest: Hash -> Bytes32): TxIn -> seq<byte> {
    i => InputBytes(digest, i)
  }

  function WitnessBytes(i: TxIn): seq<byte> {
    Listed(Prefixed, i.witnessStack)
  }

  function OutputBytes(o: TxOut): seq<byte> {
    ToLe(o.value, 8) + Prefixed(o.script)
  }

  /** Some input has a nonempty witness stack. */
  predicate Segregated(tx: Tx) {
    exists i :: 0 <= i < |tx.inputs| && |tx.inputs[i].witnessStack| > 0
  }

  function Marker(tx: Tx): seq<byte> {
    if Segregated(tx) then [0x00, 0x01] else []
  }

  function Witnesses(tx: Tx): seq<byte> {
    if Segregated(tx) then Concat(WitnessBytes, tx.inputs) else []
  }

  function Body(digest: Hash -> Bytes32, tx: Tx): seq<byte> {
    Listed(Inputs(digest), tx.inputs) + Listed(OutputBytes, tx.outputs)
  }

  /** A transaction without its witnesses. */
  function StrippedBytes(digest: Hash -> Bytes32, tx: Tx): seq<byte> {
    ToLe(tx.version, 4) + Body(digest, tx) + ToLe(tx.lockTime, 4)
  }

  /** A transaction with its witnesses, marker and flag. */
  function TxBytes(digest: Hash -> Bytes32, tx: Tx): seq<byte> {
    ToLe(tx.version, 4) + Marker(tx) + Body(digest, tx) + Witnesses(tx) + ToLe(tx.lockTime, 4)
  }

  function Stripped(digest: Hash -> Bytes32): Tx -> seq<byte> {
    tx => StrippedBytes(digest, tx)
  }

  function Full(digest: Hash -> Bytes32): Tx -> seq<byte> {
    tx => TxBytes(digest, tx)
  }

  function HeaderBytes(digest: Hash -> Bytes32, h: Header): (s: seq<byte>)
    ensures |s| == 96
  {
    ToLe(h.version % TWO_32, 4) + digest(h.prevHash) + digest(h.merkleRoot) + ToLe(h.timestamp, 8) + ToLe(h.bits, 4)
    + ToLe(h.nonce, 8) + ToLe(h.height, 8)
  }

  function StrippedBlock(digest: Hash -> Bytes32, b: Block): seq<byte> {
    HeaderBytes(digest, b.header) + Listed(Stripped(digest), b.txs)
  }

  function BlockBytes(digest: Hash -> Bytes32, b: Block): seq<byte> {
    HeaderBytes(digest, b.header) + Listed(Full(digest), b.txs)
  }

  // ---- sizes are lengths --------------------------------------------------------------------

  lemma CompactLength(n: nat)
    ensures |CompactSize(n)| == CompactSizeLen(n)
  {}

  lemma {:induction false} InputsLength(digest: Hash -> Bytes32, inputs: seq<TxIn>)
    ensures |Concat(Inputs(digest), inputs)| == InputsSize(inputs)
  {
    if inputs != [] {
      InputsLength(digest, inputs[..|inputs| - 1]);
      CompactLength(|inputs[|inputs| - 1].scriptSig|);
    }
  }

  lemma {:induction false} OutputsLength(outputs: seq<TxOut>)
    ensures |Concat(OutputBytes, outputs)| == OutputsSize(outputs)
  {
    if outputs != [] {
      OutputsLength(outputs[..|outputs| - 1]);
      CompactLength(|outputs[|outputs| - 1].script|);
    }
  }

  lemma {:induction false} StackLength(stack: seq<seq<byte>>)
    ensures |Concat(Prefixed, stack)| == StackSize(stack)
  {
    if stack != [] {
      StackLength(stack[..|stack| - 1]);
      CompactLength(|stack[|stack| - 1]|);
    }
  }

  lemma {:induction false} WitnessesLength(inputs: seq<TxIn>)
    ensures |Concat(WitnessBytes, inputs)| == WitnessSize(inputs)
  {
    if inputs != [] {
      WitnessesLength(inputs[..|inputs| - 1]);
      var w := inputs[|inputs| - 1].witnessStack;
      CompactLength(|w|);
      StackLength(w);
    }
  }

  /** The sizes the weight is computed from are the lengths of the bytes. */
  lemma TxLength(digest: Hash -> Bytes32, tx: Tx)
    ensures |StrippedBytes(digest, tx)| == BaseSize(tx) && |TxBytes(digest, tx)| == TotalSize(tx)
    ensures |TxBytes(digest, tx)| >= |StrippedBytes(digest, tx)|
    ensures !Segregated(tx) ==> TxBytes(digest, tx) == StrippedBytes(digest, tx)
  {
    BodyLength(digest, tx);
    WitnessesLength(tx.inputs);
    assert Segregated(tx) <==> HasWitness(tx) by {
      assert forall i :: 0 <= i < |tx.inputs| ==>
          (|tx.inputs[i].witnessStack| > 0 <==> tx.inputs[i].witnessStack != []);
    }
    assert !Segregated(tx) ==> Marker(tx) == [] && Witnesses(tx) == [];
    var v, body, l := ToLe(tx.version, 4), Body(digest, tx), ToLe(tx.lockTime, 4);
    assert v + [] + body + [] + l == v + body + l;
  }

  lemma BodyLength(digest: Hash -> Bytes32, tx: Tx)
    ensures |Body(digest, tx)| + 8 == BaseSize(tx)
  {
    InputsLength(digest, tx.inputs);
    OutputsLength(tx.outputs);
    CompactLength(|tx.inputs|);
    CompactLength(|tx.outputs|);
  }

  lemma {:induction false} TxsLength(digest: Hash -> Bytes32, txs: seq<Tx>)
    ensures |Concat(Stripped(digest), txs)| == TxsBaseSize(txs)
    ensures |Concat(Full(digest), txs)| == TxsTotalSize(txs)
  {
    if txs != [] {
      TxsLength(digest, txs[..|txs| - 1]);
      TxLength(digest, txs[|txs| - 1]);
    }
  }

  /** Weight counts every byte without witnesses four times and every witness byte once. */
  lemma WeightIsBytes(digest: Hash -> Bytes32, b: Block)
    ensures BlockWeight(b) == 3 * |StrippedBlock(digest, b)| + |BlockBytes(digest, b)|
    ensures BlockWeight(b) == 4 * |StrippedBlock(digest, b)| + (|BlockBytes(digest, b)| - |StrippedBlock(digest, b)|)
  {
    TxsLength(digest, b.txs);
    CompactLength(|b.txs|);
  }

  // ---- the limit ----------------------------------------------------------------------------

  /** An accepted block fits; a nonempty one that does not is refused as too heavy, whatever else it breaks. */
  lemma WeightDecides(digest: Hash -> Bytes32, rules: Rules, b: Block, utxos: UtxoMap, mtp: u64 -> u64)
    ensures BlockAcceptable(rules, b, utxos, mtp) ==>
              3 * |StrippedBlock(digest, b)| + |BlockBytes(digest, b)| <= 4_000_000
    ensures b.txs != [] && 3 * |StrippedBlock(digest, b)| + |BlockBytes(digest, b)| > 4_000_000 ==>
              BlockFault(rules, b, utxos, mtp) == Some(BlockTooHeavy)
  {
    WeightIsBytes(digest, b);
    HeavyFault(rules, b, utxos, mtp);
  }

  lemma HeavyFault(rules: Rules, b: Block, utxos: UtxoMap, mtp: u64 -> u64)
    ensures BlockAcceptable(rules, b, utxos, mtp) ==> BlockWeight(b) <= 4_000_000
    ensures b.txs != [] && BlockWeight(b) > 4_000_000 ==> BlockFault(rules, b, utxos, mtp) == Some(BlockTooHeavy)
  {}

  lemma {:induction false} PlainBytes(digest: Hash -> Bytes32, txs: seq<Tx>)
    requires forall i :: 0 <= i < |txs| ==> !Segregated(txs[i])
    ensures Concat(Full(digest), txs) == Concat(Stripped(digest), txs)
  {
    if txs != [] {
      PlainBytes(digest, txs[..|txs| - 1]);
      TxLength(digest, txs[|txs| - 1]);
    }
  }

  /** Without witnesses the limit is one million bytes. */
  lemma PlainLimit(digest: Hash -> Bytes32, rules: Rules, b: Block, utxos: UtxoMap, mtp: u64 -> u64)
    requires b.txs != [] && forall i :: 0 <= i < |b.txs| ==> !Segregated(b.txs[i])
    ensures BlockAcceptable(rules, b, utxos, mtp) ==> |BlockBytes(digest, b)| <= 1_000_000
    ensures |BlockBytes(digest, b)| > 1_000_000 ==> BlockFault(rules, b, utxos, mtp) == Some(BlockTooHeavy)
  {
    PlainBytes(digest, b.txs);
    WeightDecides(digest, rules, b, utxos, mtp);
  }
}
