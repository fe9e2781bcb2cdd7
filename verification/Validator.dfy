/** Transaction and block validation against a UTXO set, and what it guarantees. */
module Validator {
  import opened BigEndian
  import opened Primitives
  import opened Emission
  import opened Ledger
  import opened Value
  import opened Merkle

  const MAX_BLOCK_WEIGHT: nat := 4_000_000
  const MAX_BLOCK_SIGOPS_COST: nat := 80_000
  const COINBASE_MATURITY: nat := 100

  /** Script execution, signature checks and sigop counting, as parameters of the model. */
  datatype Rules = Rules(
    hashing: Hashing,
    /** What signature and script verification of an input reports. */
    scriptFault: (Tx, nat, UtxoMap) -> Option<ValidationError>,
    sigopCost: (Tx, UtxoMap) -> nat,
    batchOk: (Block, UtxoMap) -> bool,
    witnessCommitmentOk: Block -> bool
  )

  datatype ValidationError =
    | MissingInput | InvalidSignature | InsufficientFunds | ImmatureCoinbase | DoubleSpend | InvalidScript
    | LockedUntilFuture | SequenceLockNotMet | TooManySigops | BlockTooHeavy | ExcessiveCoinbaseReward
    | InvalidMerkleRoot | TimestampBeforeMTP | BadBlockVersion | DuplicateTxid | InvalidCoinbasePosition
    | MultipleCoinbase

  // ---- sizes -----------------------------------------------------------------------------

  function CompactSizeLen(n: nat): nat {
    if n < 0xfd then 1 else if n <= 0xffff then 3 else if n <= 0xffff_ffff then 5 else 9
  }

  function InputsSize(inputs: seq<TxIn>): nat {
    if inputs == [] then 0 else
      var i := inputs[|inputs| - 1];
      InputsSize(inputs[..|inputs| - 1]) + 36 + CompactSizeLen(|i.scriptSig|) + |i.scriptSig| + 4
  }

  function OutputsSize(outputs: seq<TxOut>): (n: nat)
    ensures n >= |outputs|
  {
    if outputs == [] then 0 else
      var o := outputs[|outputs| - 1];
      OutputsSize(outputs[..|outputs| - 1]) + 8 + CompactSizeLen(|o.script|) + |o.script|
  }

  function StackSize(stack: seq<seq<byte>>): nat {
    if stack == [] then 0 else
      StackSize(stack[..|stack| - 1]) + CompactSizeLen(|stack[|stack| - 1]|) + |stack[|stack| - 1]|
  }

  function WitnessSize(inputs: seq<TxIn>): nat {
    if inputs == [] then 0 else
      var w := inputs[|inputs| - 1].witnessStack;
      WitnessSize(inputs[..|inputs| - 1]) + CompactSizeLen(|w|) + StackSize(w)
  }

  function BaseSize(tx: Tx): nat {
    8 + CompactSizeLen(|tx.inputs|) + InputsSize(tx.inputs) + CompactSizeLen(|tx.outputs|) + OutputsSize(tx.outputs)
  }

  predicate HasWitness(tx: Tx) {
    exists i :: 0 <= i < |tx.inputs| && tx.inputs[i].witnessStack != []
  }

  function TotalSize(tx: Tx): nat {
    BaseSize(tx) + if HasWitness(tx) then 2 + WitnessSize(tx.inputs) else 0
  }

  function TxsBaseSize(txs: seq<Tx>): nat {
    if txs == [] then 0 else TxsBaseSize(txs[..|txs| - 1]) + BaseSize(txs[|txs| - 1])
  }

  function TxsTotalSize(txs: seq<Tx>): nat {
    if txs == [] then 0 else TxsTotalSize(txs[..|txs| - 1]) + TotalSize(txs[|txs| - 1])
  }

  function BlockWeight(b: Block): nat {
    var base := 96 + CompactSizeLen(|b.txs|) + TxsBaseSize(b.txs);
    var total := 96 + CompactSizeLen(|b.txs|) + TxsTotalSize(b.txs);
    base * 3 + total
  }

  lemma {:induction false} OutputsWithinSize(txs: seq<Tx>, i: nat)
    requires i < |txs|
    ensures |txs[i].outputs| <= TxsBaseSize(txs)
  {
    var n := |txs| - 1;
    if i < n {
      OutputsWithinSize(txs[..n], i);
    }
  }

  // ---- transactions ----------------------------------------------------------------------

  predicate LockTimeOk(tx: Tx, height: u64, mtp: u64 -> u64) {
    || tx.lockTime == 0
    || (forall i :: 0 <= i < |tx.inputs| ==> tx.inputs[i].sequence == 0xFFFF_FFFF)
    || (if tx.lockTime < 500_000_000 then tx.lockTime <= height else tx.lockTime <= mtp(height))
  }

  /** BIP-68, for version-2 transactions whose disable flag is clear. */
  predicate SequenceOk(tx: Tx, sequence: u32, created: u64, height: u64, mtp: u64 -> u64) {
    || tx.version < 2
    || sequence >= 0x8000_0000
    || (if sequence / 0x40_0000 % 2 == 1
        then mtp(height) >= SatU64(mtp(created) + sequence % 0x1_0000 * 512)
        else height >= SatU64(created + sequence % 0x1_0000))
  }

  predicate Mature(u: Utxo, height: u64) {
    !u.isCoinbase || height >= SatU64(u.height + COINBASE_MATURITY)
  }

  predicate InputOk(rules: Rules, tx: Tx, i: nat, utxos: UtxoMap, height: u64, mtp: u64 -> u64)
    requires i < |tx.inputs|
  {
    var o := tx.inputs[i].prev;
    && o in utxos
    && Mature(utxos[o], height)
    && SequenceOk(tx, tx.inputs[i].sequence, utxos[o].height, height, mtp)
    && rules.scriptFault(tx, i, utxos) == None
  }

  /** What a valid transaction is. */
  predicate TxAcceptable(rules: Rules, tx: Tx, utxos: UtxoMap, height: u64, mtp: u64 -> u64) {
    || IsCoinbase(tx)
    || (&& 1 <= tx.version <= 2
        && (forall i :: 0 <= i < |tx.outputs| ==> tx.outputs[i].value <= MAX_SUPPLY)
        && LockTimeOk(tx, height, mtp)
        && (forall i :: 0 <= i < |tx.inputs| ==> InputOk(rules, tx, i, utxos, height, mtp))
        && OutputValue(tx.outputs) <= InputValue(utxos, tx.inputs) < TWO_64)
  }

  /** The first rule an input breaks, in the order the node checks them. */
  function InputFault(rules: Rules, tx: Tx, i: nat, utxos: UtxoMap, height: u64,
                      mtp: u64 -> u64): Option<ValidationError>
    requires i < |tx.inputs|
  {
    var o := tx.inputs[i].prev;
    if o !in utxos then Some(MissingInput)
    else if !Mature(utxos[o], height) then Some(ImmatureCoinbase)
    else if !SequenceOk(tx, tx.inputs[i].sequence, utxos[o].height, height, mtp) then Some(SequenceLockNotMet)
    else rules.scriptFault(tx, i, utxos)
  }

  /** The input loop from input `i` on, with `sum` collected so far, and the balance check after it. */
  ghost function InputsFault(rules: Rules, tx: Tx, i: nat, sum: nat, utxos: UtxoMap, height: u64,
                             mtp: u64 -> u64): Option<ValidationError>
    requires i <= |tx.inputs|
    decreases |tx.inputs| - i
  {
    if i == |tx.inputs| then
      if sum < OutputValue(tx.outputs) then Some(InsufficientFunds) else None
    else
      var fault := InputFault(rules, tx, i, utxos, height, mtp);
      if fault != None then fault
      else if sum + utxos[tx.inputs[i].prev].output.value >= TWO_64 then Some(InsufficientFunds)
      else InputsFault(rules, tx, i + 1, sum + utxos[tx.inputs[i].prev].output.value, utxos, height, mtp)
  }

  /** The first rule a transaction breaks. */
  ghost function TxFault(rules: Rules, tx: Tx, utxos: UtxoMap, height: u64, mtp: u64 -> u64): Option<ValidationError> {
    if IsCoinbase(tx) then None
    else if !(1 <= tx.version <= 2) then Some(InvalidScript)
    else if exists i :: 0 <= i < |tx.outputs| && tx.outputs[i].value > MAX_SUPPLY then Some(InvalidScript)
    else if !LockTimeOk(tx, height, mtp) then Some(LockedUntilFuture)
    else if !InputsPresent(utxos, tx) then Some(MissingInput)
    else InputsFault(rules, tx, 0, 0, utxos, height, mtp)
  }

  lemma {:induction false} InputValueMono(m: UtxoMap, inputs: seq<TxIn>, i: nat)
    requires i <= |inputs|
    ensures InputValue(m, inputs[..i]) <= InputValue(m, inputs)
  {
    if i < |inputs| {
      var n := |inputs| - 1;
      InputValueMono(m, inputs[..n], i);
      assert inputs[..n][..i] == inputs[..i];
    } else {
      assert inputs[..i] == inputs;
    }
  }

  lemma {:induction false} OutputValueMono(outputs: seq<TxOut>, i: nat)
    requires i <= |outputs|
    ensures OutputValue(outputs[..i]) <= OutputValue(outputs)
  {
    if i < |outputs| {
      var n := |outputs| - 1;
      OutputValueMono(outputs[..n], i);
      assert outputs[..n][..i] == outputs[..i];
    } else {
      assert outputs[..i] == outputs;
    }
  }

  /** Checked sum of the outputs; `None` on 64-bit overflow. */
  method TotalOutputValue(outputs: seq<TxOut>) returns (r: Option<nat>)
    ensures r == if OutputValue(outputs) < TWO_64 then Some(OutputValue(outputs)) else None
  {
    var sum: nat := 0;
    for i := 0 to |outputs|
      invariant sum == OutputValue(outputs[..i]) < TWO_64
    {
      assert outputs[..i + 1][..i] == outputs[..i];
      OutputValueMono(outputs, i + 1);
      if sum + outputs[i].value >= TWO_64 {
        return None;
      }
      sum := sum + outputs[i].value;
    }
    assert outputs[..|outputs|] == outputs;
    r := Some(sum);
  }

  method ValidateTransaction(rules: Rules, tx: Tx, utxos: UtxoMap, height: u64, mtp: u64 -> u64)
    returns (error: Option<ValidationError>)
    ensures error == None <==> TxAcceptable(rules, tx, utxos, height, mtp)
    ensures error == TxFault(rules, tx, utxos, height, mtp)
  {
    if IsCoinbase(tx) {
      return None;
    }
    if tx.version == 0 || tx.version > 2 {
      return Some(InvalidScript);
    }
    for i := 0 to |tx.outputs|
      invariant forall j :: 0 <= j < i ==> tx.outputs[j].value <= MAX_SUPPLY
    {
      if tx.outputs[i].value > MAX_SUPPLY {
        return Some(InvalidScript);
      }
    }
    var allFinal := forall i :: 0 <= i < |tx.inputs| ==> tx.inputs[i].sequence == 0xFFFF_FFFF;
    if tx.lockTime != 0 && !allFinal {
      if tx.lockTime < 500_000_000 {
        if tx.lockTime > height {
          return Some(LockedUntilFuture);
        }
      } else if tx.lockTime > mtp(height) {
        return Some(LockedUntilFuture);
      }
    }
    for i := 0 to |tx.inputs|
      invariant forall j :: 0 <= j < i ==> tx.inputs[j].prev in utxos
    {
      if tx.inputs[i].prev !in utxos {
        assert !InputOk(rules, tx, i, utxos, height, mtp);
        return Some(MissingInput);
      }
    }
    error := CheckInputs(rules, tx, utxos, height, mtp);
    FaultlessInputs(rules, tx, 0, 0, utxos, height, mtp);
  }

  /** The input loop and the balance. */
  method CheckInputs(rules: Rules, tx: Tx, utxos: UtxoMap, height: u64, mtp: u64 -> u64)
    returns (error: Option<ValidationError>)
    ensures error == InputsFault(rules, tx, 0, 0, utxos, height, mtp)
  {
    var inputSum: nat := 0;
    for i := 0 to |tx.inputs|
      invariant inputSum < TWO_64
      invariant InputsFault(rules, tx, i, inputSum, utxos, height, mtp) ==
                InputsFault(rules, tx, 0, 0, utxos, height, mtp)
    {
      var bad := InputError(rules, tx, i, utxos, height, mtp);
      if bad != None {
        return bad;
      }
      var value := utxos[tx.inputs[i].prev].output.value;
      if inputSum + value >= TWO_64 {
        return Some(InsufficientFunds);
      }
      inputSum := inputSum + value;
    }
    var outputSum := TotalOutputValue(tx.outputs);
    if outputSum == None || inputSum < outputSum.value {
      return Some(InsufficientFunds);
    }
    error := None;
  }

  ghost predicate InputsOkFrom(rules: Rules, tx: Tx, i: nat, utxos: UtxoMap, height: u64, mtp: u64 -> u64) {
    forall j :: i <= j < |tx.inputs| ==> InputOk(rules, tx, j, utxos, height, mtp)
  }

  lemma InputsOkStep(rules: Rules, tx: Tx, i: nat, utxos: UtxoMap, height: u64, mtp: u64 -> u64)
    requires i < |tx.inputs|
    ensures InputsOkFrom(rules, tx, i, utxos, height, mtp) <==>
            InputOk(rules, tx, i, utxos, height, mtp) && InputsOkFrom(rules, tx, i + 1, utxos, height, mtp)
  {}

  /** The loop finds no fault exactly when every input is good and the balance holds without overflow. */
  lemma {:induction false} FaultlessInputs(rules: Rules, tx: Tx, i: nat, sum: nat, utxos: UtxoMap, height: u64,
                                           mtp: u64 -> u64)
    requires i <= |tx.inputs| && sum == InputValue(utxos, tx.inputs[..i]) < TWO_64
    ensures InputsFault(rules, tx, i, sum, utxos, height, mtp) == None <==>
              && InputsOkFrom(rules, tx, i, utxos, height, mtp)
              && OutputValue(tx.outputs) <= InputValue(utxos, tx.inputs) < TWO_64
    decreases |tx.inputs| - i
  {
    if i == |tx.inputs| {
      assert tx.inputs[..i] == tx.inputs;
    } else {
      assert tx.inputs[..i + 1][..i] == tx.inputs[..i];
      InputValueMono(utxos, tx.inputs, i + 1);
      InputsOkStep(rules, tx, i, utxos, height, mtp);
      assert InputOk(rules, tx, i, utxos, height, mtp) <==> InputFault(rules, tx, i, utxos, height, mtp) == None;
      if InputFault(rules, tx, i, utxos, height, mtp) == None {
        var next := sum + utxos[tx.inputs[i].prev].output.value;
        if next < TWO_64 {
          FaultlessInputs(rules, tx, i + 1, next, utxos, height, mtp);
        }
      }
    }
  }

  /** One round of the input loop: maturity, relative lock time, signature. */
  method InputError(rules: Rules, tx: Tx, i: nat, utxos: UtxoMap, height: u64, mtp: u64 -> u64)
    returns (error: Option<ValidationError>)
    requires i < |tx.inputs|
    ensures error == None <==> InputOk(rules, tx, i, utxos, height, mtp)
    ensures error == InputFault(rules, tx, i, utxos, height, mtp)
  {
    var o, sequence: nat := tx.inputs[i].prev, tx.inputs[i].sequence;
    if o !in utxos {
      return Some(MissingInput);
    }
    var u := utxos[o];
    if u.isCoinbase && height < SatU64(u.height + 100) {
      return Some(ImmatureCoinbase);
    }
    if tx.version >= 2 && sequence < 0x8000_0000 {
      if sequence / 0x40_0000 % 2 == 1 {
        if mtp(height) < SatU64(mtp(u.height) + sequence % 0x1_0000 * 512) {
          return Some(SequenceLockNotMet);
        }
      } else if height < SatU64(u.height + sequence % 0x1_0000) {
        return Some(SequenceLockNotMet);
      }
    }
    error := rules.scriptFault(tx, i, utxos);
  }

  // ---- blocks ----------------------------------------------------------------------------

  function Txids(txid: Tx -> Hash, txs: seq<Tx>): (s: seq<Hash>)
    ensures |s| == |txs|
    ensures forall i :: 0 <= i < |txs| ==> s[i] == txid(txs[i])
  {
    seq(|txs|, i requires 0 <= i < |txs| => txid(txs[i]))
  }

  /** The outpoints spent by `txs[1..]`, in order. */
  function Prevs(txs: seq<Tx>): seq<OutPoint> {
    if |txs| <= 1 then [] else Prevs(txs[..|txs| - 1]) + TxPrevs(txs[|txs| - 1].inputs)
  }

  function TxPrevs(inputs: seq<TxIn>): (s: seq<OutPoint>)
    ensures |s| == |inputs|
    ensures forall i :: 0 <= i < |inputs| ==> s[i] == inputs[i].prev
  {
    seq(|inputs|, i requires 0 <= i < |inputs| => inputs[i].prev)
  }

  function Fee(m: UtxoMap, tx: Tx): nat {
    var i, o := InputValue(m, tx.inputs), OutputValue(tx.outputs);
    if i >= o then i - o else 0
  }

  /** Fees of `txs[1..]`. */
  function Fees(m: UtxoMap, txs: seq<Tx>): nat {
    if |txs| <= 1 then 0 else Fees(m, txs[..|txs| - 1]) + Fee(m, txs[|txs| - 1])
  }

  function SigopCost(rules: Rules, m: UtxoMap, txs: seq<Tx>): nat {
    if |txs| <= 1 then 0 else SigopCost(rules, m, txs[..|txs| - 1]) + rules.sigopCost(txs[|txs| - 1], m)
  }

  /** BIP-30: no output of the block is unspent already.  The index is cast to 32 bits. */
  predicate NoUnspentDuplicate(txid: Tx -> Hash, txs: seq<Tx>, utxos: UtxoMap) {
    forall i, k :: 0 <= i < |txs| && 0 <= k < |txs[i].outputs| ==> OutPoint(txid(txs[i]), k % TWO_32) !in utxos
  }

  ghost predicate OneCoinbase(txs: seq<Tx>) {
    txs != [] && IsCoinbase(txs[0]) && forall i :: 1 <= i < |txs| ==> !IsCoinbase(txs[i])
  }

  predicate VersionOk(version: int) {
    version >= 0 && version / 0x2000_0000 % 2 == 1
  }

  /** The test of bit 29 alone also lets versions through whose top three bits are 011. */
  lemma VersionTopBits(version: int)
    requires -0x8000_0000 <= version < 0x8000_0000
    ensures VersionOk(version) <==> version >= 0 && (version / 0x2000_0000 == 1 || version / 0x2000_0000 == 3)
    ensures VersionOk(0x6000_0000) && 0x6000_0000 / 0x2000_0000 == 3
  {}

  /** Weight, timestamp, version, BIP-30, coinbase position and the sigop budget. */
  ghost predicate StructureOk(rules: Rules, b: Block, utxos: UtxoMap, mtp: u64 -> u64) {
    && b.txs != []
    && BlockWeight(b) <= MAX_BLOCK_WEIGHT
    && (b.header.height > 0 ==> b.header.timestamp > mtp(b.header.height - 1))
    && VersionOk(b.header.version)
    && NoUnspentDuplicate(rules.hashing.txid, b.txs, utxos)
    && OneCoinbase(b.txs)
    && SigopCost(rules, utxos, b.txs) <= MAX_BLOCK_SIGOPS_COST
  }

  /** Every transaction is valid on its own and no outpoint is spent twice. */
  ghost predicate SpendsOk(rules: Rules, b: Block, utxos: UtxoMap, mtp: u64 -> u64) {
    && (forall i :: 1 <= i < |b.txs| ==> TxAcceptable(rules, b.txs[i], utxos, b.header.height, mtp))
    && rules.batchOk(b, utxos)
    && Distinct(Prevs(b.txs))
  }

  /** Coinbase reward, Merkle root and witness commitment. */
  ghost predicate CommitmentsOk(rules: Rules, b: Block, utxos: UtxoMap)
    requires b.txs != []
  {
    && OutputValue(b.txs[0].outputs) <= SatU64(BlockSubsidy(b.header.height) + Fees(utxos, b.txs))
    && Root(rules.hashing.pair, Txids(rules.hashing.txid, b.txs)) == b.header.merkleRoot
    && ((exists i :: 1 <= i < |b.txs| && HasWitness(b.txs[i])) ==> rules.witnessCommitmentOk(b))
  }

  /** What a valid block is. */
  ghost predicate BlockAcceptable(rules: Rules, b: Block, utxos: UtxoMap, mtp: u64 -> u64) {
    StructureOk(rules, b, utxos, mtp) && SpendsOk(rules, b, utxos, mtp) && CommitmentsOk(rules, b, utxos)
  }

  method CheckBip30(txid: Tx -> Hash, txs: seq<Tx>, utxos: UtxoMap) returns (ok: bool)
    ensures ok <==> NoUnspentDuplicate(txid, txs, utxos)
  {
    for i := 0 to |txs|
      invariant NoUnspentDuplicate(txid, txs[..i], utxos)
    {
      var id := txid(txs[i]);
      for k := 0 to |txs[i].outputs|
        invariant forall j :: 0 <= j < k ==> OutPoint(id, j % TWO_32) !in utxos
      {
        if OutPoint(id, k % TWO_32) in utxos {
          return false;
        }
      }
      assert txs[..i + 1] == txs[..i] + [txs[i]];
    }
    assert txs[..|txs|] == txs;
    ok := true;
  }

  lemma {:induction false} PrevsPrefix(txs: seq<Tx>, i: nat)
    requires i <= |txs|
    ensures Prevs(txs[..i]) <= Prevs(txs)
  {
    if i < |txs| {
      PrevsPrefix(txs[..|txs| - 1], i);
      assert txs[..|txs| - 1][..i] == txs[..i];
    } else {
      assert txs[..i] == txs;
    }
  }

  /** `spent_outpoints` holds exactly the outpoints met so far. */
  ghost predicate Tracks(spent: set<OutPoint>, seen: seq<OutPoint>) {
    Distinct(seen) && forall o :: o in spent <==> o in seen
  }

  method InsertInputs(inputs: seq<TxIn>, spent: set<OutPoint>, ghost seen: seq<OutPoint>)
    returns (ok: bool, spent': set<OutPoint>)
    requires Tracks(spent, seen)
    ensures ok <==> Distinct(seen + TxPrevs(inputs))
    ensures ok ==> Tracks(spent', seen + TxPrevs(inputs))
  {
    spent' := spent;
    ghost var met := seen;
    for k := 0 to |inputs|
      invariant met == seen + TxPrevs(inputs)[..k] && Tracks(spent', met)
    {
      var o := inputs[k].prev;
      assert TxPrevs(inputs)[..k + 1] == TxPrevs(inputs)[..k] + [o];
      assert met + [o] == seen + TxPrevs(inputs)[..k + 1];
      if o in spent' {
        RepeatedIn(met, o, seen + TxPrevs(inputs));
        return false, spent';
      }
      spent' := spent' + {o};
      met := met + [o];
    }
    assert TxPrevs(inputs)[..|inputs|] == TxPrevs(inputs);
    ok := true;
  }

  method CheckDoubleSpends(txs: seq<Tx>) returns (ok: bool)
    requires txs != []
    ensures ok <==> Distinct(Prevs(txs))
  {
    var spent: set<OutPoint> := {};
    for i := 1 to |txs|
      invariant Tracks(spent, Prevs(txs[..i]))
    {
      assert txs[..i + 1][..i] == txs[..i];
      ok, spent := InsertInputs(txs[i].inputs, spent, Prevs(txs[..i]));
      if !ok {
        PrevsPrefix(txs, i + 1);
        if Distinct(Prevs(txs)) {
          PrefixDistinct(Prevs(txs[..i + 1]), Prevs(txs));
        }
        return;
      }
    }
    assert txs[..|txs|] == txs;
    ok := true;
  }

  lemma PrefixDistinct<T(!new)>(s: seq<T>, t: seq<T>)
    requires s <= t && Distinct(t)
    ensures Distinct(s)
  {
    assert forall i :: 0 <= i < |s| ==> s[i] == t[i];
  }

  lemma RepeatedIn<T(!new)>(seen: seq<T>, x: T, all: seq<T>)
    requires x in seen && seen + [x] <= all
    ensures !Distinct(all)
  {
    var i :| 0 <= i < |seen| && seen[i] == x;
    assert all[i] == (seen + [x])[i] && all[|seen|] == (seen + [x])[|seen|];
  }

  method SumFees(m: UtxoMap, txs: seq<Tx>) returns (fees: nat)
    requires txs != []
    ensures fees == Fees(m, txs)
  {
    fees := 0;
    for i := 1 to |txs|
      invariant fees == Fees(m, txs[..i])
    {
      assert txs[..i + 1][..i] == txs[..i];
      fees := fees + Fee(m, txs[i]);
    }
    assert txs[..|txs|] == txs;
  }

  method SumSigops(rules: Rules, m: UtxoMap, txs: seq<Tx>) returns (cost: nat)
    requires txs != []
    ensures cost == SigopCost(rules, m, txs)
  {
    cost := 0;
    for i := 1 to |txs|
      invariant cost == SigopCost(rules, m, txs[..i])
    {
      assert txs[..i + 1][..i] == txs[..i];
      cost := cost + rules.sigopCost(txs[i], m);
    }
    assert txs[..|txs|] == txs;
  }

  ghost function StructureFault(rules: Rules, b: Block, utxos: UtxoMap, mtp: u64 -> u64): Option<ValidationError> {
    if b.txs == [] then Some(InvalidCoinbasePosition)
    else if BlockWeight(b) > MAX_BLOCK_WEIGHT then Some(BlockTooHeavy)
    else if b.header.height > 0 && b.header.timestamp <= mtp(b.header.height - 1) then Some(TimestampBeforeMTP)
    else if !VersionOk(b.header.version) then Some(BadBlockVersion)
    else if !NoUnspentDuplicate(rules.hashing.txid, b.txs, utxos) then Some(DuplicateTxid)
    else if !IsCoinbase(b.txs[0]) then Some(InvalidCoinbasePosition)
    else if !OneCoinbase(b.txs) then Some(MultipleCoinbase)
    else if SigopCost(rules, utxos, b.txs) > MAX_BLOCK_SIGOPS_COST then Some(TooManySigops)
    else None
  }

  /** The fault of the first faulty transaction from position `i` on. */
  ghost function FirstFault(rules: Rules, b: Block, i: nat, utxos: UtxoMap, mtp: u64 -> u64): Option<ValidationError>
    decreases |b.txs| - i
  {
    if i >= |b.txs| then None else
      var fault := TxFault(rules, b.txs[i], utxos, b.header.height, mtp);
      if fault != None then fault else FirstFault(rules, b, i + 1, utxos, mtp)
  }

  ghost function SpendsFault(rules: Rules, b: Block, utxos: UtxoMap, mtp: u64 -> u64): Option<ValidationError> {
    var first := FirstFault(rules, b, 1, utxos, mtp);
    if first != None then first
    else if !rules.batchOk(b, utxos) then Some(InvalidSignature)
    else if !Distinct(Prevs(b.txs)) then Some(DoubleSpend)
    else None
  }

  ghost function CommitmentsFault(rules: Rules, b: Block, utxos: UtxoMap): Option<ValidationError>
    requires b.txs != []
  {
    if OutputValue(b.txs[0].outputs) > SatU64(BlockSubsidy(b.header.height) + Fees(utxos, b.txs))
      then Some(ExcessiveCoinbaseReward)
    else if Root(rules.hashing.pair, Txids(rules.hashing.txid, b.txs)) != b.header.merkleRoot
      then Some(InvalidMerkleRoot)
    else if (exists i :: 1 <= i < |b.txs| && HasWitness(b.txs[i])) && !rules.witnessCommitmentOk(b)
      then Some(InvalidScript)
    else None
  }

  /** The first rule a block breaks. */
  ghost function BlockFault(rules: Rules, b: Block, utxos: UtxoMap, mtp: u64 -> u64): Option<ValidationError> {
    var structure := StructureFault(rules, b, utxos, mtp);
    if structure != None then structure else
      var spends := SpendsFault(rules, b, utxos, mtp);
      if spends != None then spends else CommitmentsFault(rules, b, utxos)
  }

  method CheckStructure(rules: Rules, b: Block, utxos: UtxoMap, mtp: u64 -> u64)
    returns (error: Option<ValidationError>)
    ensures error == None <==> StructureOk(rules, b, utxos, mtp)
    ensures error == StructureFault(rules, b, utxos, mtp)
  {
    var height := b.header.height;
    if b.txs == [] {
      return Some(InvalidCoinbasePosition);
    }
    if BlockWeight(b) > MAX_BLOCK_WEIGHT {
      return Some(BlockTooHeavy);
    }
    if height > 0 && b.header.timestamp <= mtp(height - 1) {
      return Some(TimestampBeforeMTP);
    }
    if !VersionOk(b.header.version) {
      return Some(BadBlockVersion);
    }
    var unspent := CheckBip30(rules.hashing.txid, b.txs, utxos);
    if !unspent {
      return Some(DuplicateTxid);
    }
    if !IsCoinbase(b.txs[0]) {
      return Some(InvalidCoinbasePosition);
    }
    for i := 1 to |b.txs|
      invariant forall j :: 1 <= j < i ==> !IsCoinbase(b.txs[j])
    {
      if IsCoinbase(b.txs[i]) {
        return Some(MultipleCoinbase);
      }
    }
    var sigops := SumSigops(rules, utxos, b.txs);
    error := if sigops > MAX_BLOCK_SIGOPS_COST then Some(TooManySigops) else None;
  }

  method CheckSpends(rules: Rules, b: Block, utxos: UtxoMap, mtp: u64 -> u64) returns (error: Option<ValidationError>)
    requires b.txs != []
    ensures error == None <==> SpendsOk(rules, b, utxos, mtp)
    ensures error == SpendsFault(rules, b, utxos, mtp)
  {
    for i := 1 to |b.txs|
      invariant forall j :: 1 <= j < i ==> TxAcceptable(rules, b.txs[j], utxos, b.header.height, mtp)
      invariant FirstFault(rules, b, i, utxos, mtp) == FirstFault(rules, b, 1, utxos, mtp)
    {
      var bad := ValidateTransaction(rules, b.txs[i], utxos, b.header.height, mtp);
      if bad != None {
        return bad;
      }
    }
    if !rules.batchOk(b, utxos) {
      return Some(InvalidSignature);
    }
    var single := CheckDoubleSpends(b.txs);
    error := if single then None else Some(DoubleSpend);
  }

  method CheckCommitments(rules: Rules, b: Block, utxos: UtxoMap) returns (error: Option<ValidationError>)
    requires b.txs != []
    ensures error == None <==> CommitmentsOk(rules, b, utxos)
    ensures error == CommitmentsFault(rules, b, utxos)
  {
    var fees := SumFees(utxos, b.txs);
    if OutputValue(b.txs[0].outputs) > SatU64(BlockSubsidy(b.header.height) + fees) {
      return Some(ExcessiveCoinbaseReward);
    }
    var root := CalculateMerkleRoot(rules.hashing.pair, Txids(rules.hashing.txid, b.txs));
    if root != b.header.merkleRoot {
      return Some(InvalidMerkleRoot);
    }
    if (exists i :: 1 <= i < |b.txs| && HasWitness(b.txs[i])) && !rules.witnessCommitmentOk(b) {
      return Some(InvalidScript);
    }
    error := None;
  }

  method ValidateBlock(rules: Rules, b: Block, utxos: UtxoMap, mtp: u64 -> u64) returns (error: Option<ValidationError>)
    ensures error == None <==> BlockAcceptable(rules, b, utxos, mtp)
    ensures error == BlockFault(rules, b, utxos, mtp)
  {
    error := CheckStructure(rules, b, utxos, mtp);
    if error == None {
      error := CheckSpends(rules, b, utxos, mtp);
      if error == None {
        error := CheckCommitments(rules, b, utxos);
      }
    }
  }
}
