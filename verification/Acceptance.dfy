/** What passing validation guarantees: the block applies, value is conserved, the transaction list
    is the one its Merkle root commits to. */
module Acceptance {
  import opened BigEndian
  import opened Primitives
  import opened Emission
  import opened Ledger
  import opened Value
  import opened Merkle
  import opened Validator

  /** No later transaction repeats one that has no inputs yet mints outputs. */
  ghost predicate NoRepeatedMint(txid: Tx -> Hash, txs: seq<Tx>) {
    forall i, j :: 0 <= i < j < |txs| && txs[i].inputs == [] && txs[i].outputs != [] ==> txid(txs[i]) != txid(txs[j])
  }

  // ---- the list of spent outpoints -------------------------------------------------------

  lemma {:induction false} PrevsContain(txs: seq<Tx>, k: nat, j: nat)
    requires 1 <= k < |txs| && j < |txs[k].inputs|
    ensures txs[k].inputs[j].prev in Prevs(txs)
  {
    var n := |txs| - 1;
    if k < n {
      PrevsContain(txs[..n], k, j);
    } else {
      assert TxPrevs(txs[k].inputs)[j] == txs[k].inputs[j].prev;
    }
  }

  /** Every outpoint the validator lists was required to be in the pre-block set. */
  lemma {:induction false} PrevsPresent(txs: seq<Tx>, m: UtxoMap)
    requires forall k :: 1 <= k < |txs| ==> InputsPresent(m, txs[k])
    ensures forall o :: o in Prevs(txs) ==> o in m
  {
    if |txs| > 1 {
      PrevsPresent(txs[..|txs| - 1], m);
    }
  }

  lemma DistinctSplit<T(!new)>(s: seq<T>, t: seq<T>)
    requires Distinct(s + t)
    ensures Distinct(t) && forall x :: x in t ==> x !in s
  {
    forall i, j | 0 <= i < j < |t| ensures t[i] != t[j] {
      assert (s + t)[|s| + i] == t[i] && (s + t)[|s| + j] == t[j];
    }
    forall i, j | 0 <= i < |s| && 0 <= j < |t| ensures s[i] != t[j] {
      assert (s + t)[i] == s[i] && (s + t)[|s| + j] == t[j];
    }
  }

  /** A transaction's inputs are pairwise different and not spent earlier in the block. */
  lemma InputsUnspent(txs: seq<Tx>, i: nat)
    requires 1 <= i < |txs| && Distinct(Prevs(txs))
    ensures DistinctInputs(txs[i].inputs)
    ensures forall j :: 0 <= j < |txs[i].inputs| ==> txs[i].inputs[j].prev !in Prevs(txs[..i])
  {
    PrevsPrefix(txs, i + 1);
    PrefixDistinct(Prevs(txs[..i + 1]), Prevs(txs));
    assert txs[..i + 1][..i] == txs[..i];
    var t := TxPrevs(txs[i].inputs);
    DistinctSplit(Prevs(txs[..i]), t);
    forall j | 0 <= j < |t| ensures t[j] !in Prevs(txs[..i]) {
      assert t[j] in t;
    }
  }

  /** Equal txids in a block accepted as double-spend-free belong to transactions without inputs. */
  lemma SameTxidHasNoInputs(rules: Rules, b: Block, m: UtxoMap, mtp: u64 -> u64, i: nat, k: nat)
    requires TxidInjective(rules.hashing.txid) && BlockAcceptable(rules, b, m, mtp)
    requires k < i < |b.txs| && rules.hashing.txid(b.txs[k]) == rules.hashing.txid(b.txs[i])
    ensures b.txs[i].inputs == [] && b.txs[k].inputs == [] && b.txs[i].outputs == b.txs[k].outputs && k >= 1
  {
    var txs := b.txs;
    StripKeeps(txs[k], txs[i]);
    assert k >= 1;
    if txs[i].inputs != [] {
      assert txs[k].inputs[0].prev == txs[i].inputs[0].prev;
      InputsUnspent(txs, i);
      PrevsContain(txs[..i], k, 0);
    }
  }

  // ---- the set half-way through a block --------------------------------------------------

  ghost predicate CreatedBy(txid: Tx -> Hash, txs: seq<Tx>, i: nat, o: OutPoint)
    requires i <= |txs|
  {
    exists k :: 0 <= k < i && o.txid == txid(txs[k]) && o.vout < |txs[k].outputs|
  }

  /** After `i` transactions: the old set less what was spent, plus what was created. */
  ghost predicate HalfWay(txid: Tx -> Hash, m: UtxoMap, txs: seq<Tx>, i: nat, s: UtxoMap)
    requires i <= |txs|
  {
    && (forall o :: o in s <==> (o in m && o !in Prevs(txs[..i])) || CreatedBy(txid, txs, i, o))
    && (forall o :: o in s && o in m ==> s[o] == m[o])
  }

  lemma CreatedIsNew(txid: Tx -> Hash, txs: seq<Tx>, m: UtxoMap, i: nat, o: OutPoint)
    requires NoUnspentDuplicate(txid, txs, m) && i <= |txs| && CreatedBy(txid, txs, i, o)
    ensures o !in m
  {
    var k :| 0 <= k < i && o.txid == txid(txs[k]) && o.vout < |txs[k].outputs|;
    assert OutPoint(txid(txs[k]), o.vout % TWO_32) !in m;
  }

  lemma AcceptedInputs(rules: Rules, b: Block, m: UtxoMap, mtp: u64 -> u64)
    requires BlockAcceptable(rules, b, m, mtp)
    ensures forall k :: 1 <= k < |b.txs| ==> InputsPresent(m, b.txs[k])
    ensures forall o :: o in Prevs(b.txs) ==> o in m
  {
    forall k | 1 <= k < |b.txs| ensures InputsPresent(m, b.txs[k]) {
      assert TxAcceptable(rules, b.txs[k], m, b.header.height, mtp);
      forall i | 0 <= i < |b.txs[k].inputs| ensures b.txs[k].inputs[i].prev in m {
        assert InputOk(rules, b.txs[k], i, m, b.header.height, mtp);
      }
    }
    PrevsPresent(b.txs, m);
  }

  /** What the half-way set needs of the transactions. */
  ghost predicate Sequential(txid: Tx -> Hash, txs: seq<Tx>, m: UtxoMap) {
    && OneCoinbase(txs) && (forall k :: 1 <= k < |txs| ==> InputsPresent(m, txs[k]))
    && forall i: nat, o :: i <= |txs| && CreatedBy(txid, txs, i, o) ==> o !in m
  }

  lemma AcceptedSequential(rules: Rules, b: Block, m: UtxoMap, mtp: u64 -> u64)
    requires BlockAcceptable(rules, b, m, mtp)
    ensures Sequential(rules.hashing.txid, b.txs, m)
  {
    AcceptedInputs(rules, b, m, mtp);
    forall i: nat, o | i <= |b.txs| && CreatedBy(rules.hashing.txid, b.txs, i, o) ensures o !in m {
      CreatedIsNew(rules.hashing.txid, b.txs, m, i, o);
    }
  }

  lemma {:induction false} HalfWayFrom(txid: Tx -> Hash, txs: seq<Tx>, m: UtxoMap, height: u64, i: nat)
    requires Sequential(txid, txs, m) && i <= |txs| && ApplyTxs(txid, m, txs[..i], height).ok
    ensures HalfWay(txid, m, txs, i, ApplyTxs(txid, m, txs[..i], height).utxos)
  {
    if i > 0 {
      assert txs[..i][..i - 1] == txs[..i - 1];
      HalfWayFrom(txid, txs, m, height, i - 1);
      HalfWayStep(txid, m, txs, i - 1, ApplyTxs(txid, m, txs[..i - 1], height).utxos, height);
    }
  }

  lemma ReachHalfWay(rules: Rules, b: Block, m: UtxoMap, mtp: u64 -> u64, i: nat)
    requires BlockAcceptable(rules, b, m, mtp) && i <= |b.txs|
    requires ApplyTxs(rules.hashing.txid, m, b.txs[..i], b.header.height).ok
    ensures HalfWay(rules.hashing.txid, m, b.txs, i, ApplyTxs(rules.hashing.txid, m, b.txs[..i], b.header.height).utxos)
  {
    AcceptedSequential(rules, b, m, mtp);
    HalfWayFrom(rules.hashing.txid, b.txs, m, b.header.height, i);
  }

  ghost predicate Takes(tx: Tx, o: OutPoint) {
    !IsCoinbase(tx) && exists j :: 0 <= j < |tx.inputs| && tx.inputs[j].prev == o
  }

  ghost predicate Makes(txid: Tx -> Hash, tx: Tx, o: OutPoint) {
    o.txid == txid(tx) && o.vout < |tx.outputs|
  }

  /** One applied transaction, outpoint by outpoint. */
  lemma ApplyTxFacts(txid: Tx -> Hash, s: UtxoMap, tx: Tx, height: u64)
    requires ApplyTx(txid, s, tx, height).ok
    ensures var s2 := ApplyTx(txid, s, tx, height).utxos;
            && (forall o :: o in s2 <==> (o in s && !Takes(tx, o)) || Makes(txid, tx, o))
            && (forall o :: o in s2 && !Makes(txid, tx, o) ==> s2[o] == s[o])
  {
    var s1 := if IsCoinbase(tx) then s else Spend(s, tx.inputs).0;
    SpendFacts(s, tx.inputs);
    CreateFacts(s1, txid(tx), tx, height, |tx.outputs|);
  }

  lemma HalfWayStep(txid: Tx -> Hash, m: UtxoMap, txs: seq<Tx>, i: nat, s: UtxoMap, height: u64)
    requires i < |txs| && OneCoinbase(txs) && HalfWay(txid, m, txs, i, s)
    requires i > 0 ==> InputsPresent(m, txs[i])
    requires forall o :: CreatedBy(txid, txs, i + 1, o) ==> o !in m
    requires ApplyTx(txid, s, txs[i], height).ok
    ensures HalfWay(txid, m, txs, i + 1, ApplyTx(txid, s, txs[i], height).utxos)
  {
    var s2 := ApplyTx(txid, s, txs[i], height).utxos;
    forall o ensures o in s2 <==> (o in m && o !in Prevs(txs[..i + 1])) || CreatedBy(txid, txs, i + 1, o) {
      ApplyTxAt(txid, s, txs[i], height, o);
      SpentAt(txs, i, o);
      CreatedAt(txid, txs, i, o);
      TakesOld(m, txs, i, o);
      HalfWayAt(txid, m, txs, i, s, s2, o);
    }
    forall o | o in s2 && o in m ensures s2[o] == m[o] {
      ApplyTxAt(txid, s, txs[i], height, o);
      CreatedAt(txid, txs, i, o);
    }
  }

  lemma ApplyTxAt(txid: Tx -> Hash, s: UtxoMap, tx: Tx, height: u64, o: OutPoint)
    requires ApplyTx(txid, s, tx, height).ok
    ensures var s2 := ApplyTx(txid, s, tx, height).utxos;
            && (o in s2 <==> (o in s && !Takes(tx, o)) || Makes(txid, tx, o))
            && (o in s2 && !Makes(txid, tx, o) ==> s2[o] == s[o])
  {
    ApplyTxFacts(txid, s, tx, height);
  }

  /** The step at one outpoint. */
  lemma HalfWayAt(txid: Tx -> Hash, m: UtxoMap, txs: seq<Tx>, i: nat, s: UtxoMap, s2: UtxoMap, o: OutPoint)
    requires i < |txs| && (o in s <==> (o in m && o !in Prevs(txs[..i])) || CreatedBy(txid, txs, i, o))
    requires o in s2 <==> (o in s && !Takes(txs[i], o)) || Makes(txid, txs[i], o)
    requires o in Prevs(txs[..i + 1]) <==> o in Prevs(txs[..i]) || Takes(txs[i], o)
    requires CreatedBy(txid, txs, i + 1, o) <==> CreatedBy(txid, txs, i, o) || Makes(txid, txs[i], o)
    requires (CreatedBy(txid, txs, i + 1, o) ==> o !in m) && (Takes(txs[i], o) ==> o in m)
    ensures o in s2 <==> (o in m && o !in Prevs(txs[..i + 1])) || CreatedBy(txid, txs, i + 1, o)
  {}

  lemma TakesOld(m: UtxoMap, txs: seq<Tx>, i: nat, o: OutPoint)
    requires i < |txs| && OneCoinbase(txs) && (i > 0 ==> InputsPresent(m, txs[i]))
    ensures Takes(txs[i], o) ==> o in m
  {}

  lemma CreatedAt(txid: Tx -> Hash, txs: seq<Tx>, i: nat, o: OutPoint)
    requires i < |txs|
    ensures CreatedBy(txid, txs, i + 1, o) <==> CreatedBy(txid, txs, i, o) || Makes(txid, txs[i], o)
  {
    if CreatedBy(txid, txs, i, o) {
      var k :| 0 <= k < i && o.txid == txid(txs[k]) && o.vout < |txs[k].outputs|;
      assert k < i + 1;
    }
  }

  lemma SpentAt(txs: seq<Tx>, i: nat, o: OutPoint)
    requires i < |txs| && OneCoinbase(txs)
    ensures o in Prevs(txs[..i + 1]) <==> o in Prevs(txs[..i]) || Takes(txs[i], o)
  {
    assert txs[..i + 1][..i] == txs[..i];
    if i > 0 {
      var t := TxPrevs(txs[i].inputs);
      assert o in t <==> Takes(txs[i], o) by {
        if j :| 0 <= j < |txs[i].inputs| && txs[i].inputs[j].prev == o {
          assert t[j] == o;
        }
      }
    }
  }

  // ---- validated blocks apply ------------------------------------------------------------

  lemma NextApplies(rules: Rules, b: Block, m: UtxoMap, mtp: u64 -> u64, i: nat, s: UtxoMap)
    requires TxidInjective(rules.hashing.txid) && BlockAcceptable(rules, b, m, mtp) && i < |b.txs|
    requires NoRepeatedMint(rules.hashing.txid, b.txs)
    requires HalfWay(rules.hashing.txid, m, b.txs, i, s)
    ensures ApplyTx(rules.hashing.txid, s, b.txs[i], b.header.height).ok
  {
    var tx := b.txs[i];
    if i > 0 {
      AcceptedInputs(rules, b, m, mtp);
      InputsUnspent(b.txs, i);
      assert InputsPresent(s, tx);
    }
    SpendFacts(s, tx.inputs);
    OutputsWithinSize(b.txs, i);
    NextIsFresh(rules, b, m, mtp, i, s);
  }

  lemma NextIsFresh(rules: Rules, b: Block, m: UtxoMap, mtp: u64 -> u64, i: nat, s: UtxoMap)
    requires TxidInjective(rules.hashing.txid) && BlockAcceptable(rules, b, m, mtp) && i < |b.txs|
    requires NoRepeatedMint(rules.hashing.txid, b.txs)
    requires HalfWay(rules.hashing.txid, m, b.txs, i, s)
    ensures forall k: u32 :: k < |b.txs[i].outputs| ==> OutPoint(rules.hashing.txid(b.txs[i]), k) !in s
  {
    var txid, txs := rules.hashing.txid, b.txs;
    forall k: u32 | k < |txs[i].outputs| ensures OutPoint(txid(txs[i]), k) !in s {
      CreatedIsNew(txid, txs, m, i + 1, OutPoint(txid(txs[i]), k));
      NotMadeBefore(rules, b, m, mtp, i, OutPoint(txid(txs[i]), k));
    }
  }

  lemma NotMadeBefore(rules: Rules, b: Block, m: UtxoMap, mtp: u64 -> u64, i: nat, o: OutPoint)
    requires TxidInjective(rules.hashing.txid) && BlockAcceptable(rules, b, m, mtp) && i < |b.txs|
    requires NoRepeatedMint(rules.hashing.txid, b.txs) && Makes(rules.hashing.txid, b.txs[i], o)
    ensures !CreatedBy(rules.hashing.txid, b.txs, i, o)
  {
    if CreatedBy(rules.hashing.txid, b.txs, i, o) {
      var k :| 0 <= k < i && o.txid == rules.hashing.txid(b.txs[k]) && o.vout < |b.txs[k].outputs|;
      SameTxidHasNoInputs(rules, b, m, mtp, i, k);
    }
  }

  lemma {:induction false} PrefixApplies(rules: Rules, b: Block, m: UtxoMap, mtp: u64 -> u64, i: nat)
    requires TxidInjective(rules.hashing.txid) && BlockAcceptable(rules, b, m, mtp) && i <= |b.txs|
    requires NoRepeatedMint(rules.hashing.txid, b.txs)
    ensures ApplyTxs(rules.hashing.txid, m, b.txs[..i], b.header.height).ok
  {
    if i > 0 {
      PrefixApplies(rules, b, m, mtp, i - 1);
      LongerPrefix(rules, b, m, mtp, i - 1);
    }
  }

  lemma LongerPrefix(rules: Rules, b: Block, m: UtxoMap, mtp: u64 -> u64, i: nat)
    requires TxidInjective(rules.hashing.txid) && BlockAcceptable(rules, b, m, mtp) && i < |b.txs|
    requires NoRepeatedMint(rules.hashing.txid, b.txs)
    requires ApplyTxs(rules.hashing.txid, m, b.txs[..i], b.header.height).ok
    ensures ApplyTxs(rules.hashing.txid, m, b.txs[..i + 1], b.header.height).ok
  {
    var txid, s := rules.hashing.txid, ApplyTxs(rules.hashing.txid, m, b.txs[..i], b.header.height).utxos;
    ReachHalfWay(rules, b, m, mtp, i);
    NextApplies(rules, b, m, mtp, i, s);
    OneMoreTx(txid, m, b.txs, i, b.header.height);
  }

  lemma OneMoreTx(txid: Tx -> Hash, m: UtxoMap, txs: seq<Tx>, i: nat, height: u64)
    requires i < |txs| && ApplyTxs(txid, m, txs[..i], height).ok
    ensures ApplyTxs(txid, m, txs[..i + 1], height).ok <==>
              ApplyTx(txid, ApplyTxs(txid, m, txs[..i], height).utxos, txs[i], height).ok
  {
    assert txs[..i + 1][..i] == txs[..i];
  }

  lemma {:induction false} PrefixOk(txid: Tx -> Hash, m: UtxoMap, txs: seq<Tx>, height: u64, i: nat)
    requires i <= |txs| && ApplyTxs(txid, m, txs, height).ok
    ensures ApplyTxs(txid, m, txs[..i], height).ok
  {
    if !ApplyTxs(txid, m, txs[..i], height).ok {
      StuckAfterFailure(txid, m, txs, height, i);
    }
  }

  lemma RepeatedMintFails(rules: Rules, b: Block, m: UtxoMap, mtp: u64 -> u64, i: nat, j: nat)
    requires BlockAcceptable(rules, b, m, mtp) && i < j < |b.txs|
    requires b.txs[i].outputs != [] && rules.hashing.txid(b.txs[i]) == rules.hashing.txid(b.txs[j])
    requires b.txs[j].outputs == b.txs[i].outputs
    ensures !ApplyBlock(rules.hashing.txid, m, b).ok
  {
    var txid, txs, h := rules.hashing.txid, b.txs, b.header.height;
    if ApplyBlock(txid, m, b).ok {
      PrefixOk(txid, m, txs, h, j);
      PrefixOk(txid, m, txs, h, j + 1);
      ReachHalfWay(rules, b, m, mtp, j);
      var s, o := ApplyTxs(txid, m, txs[..j], h).utxos, OutPoint(txid(txs[i]), 0);
      assert CreatedBy(txid, txs, j, o);
      CreatedIsNew(txid, txs, m, j, o);
      AcceptedInputs(rules, b, m, mtp);
      assert txs[..j + 1][..j] == txs[..j];
      CannotRecreate(txid, s, m, txs[j], h, o);
    }
  }

  /** A transaction whose inputs are older than one of its outputs that already exists does not apply. */
  lemma CannotRecreate(txid: Tx -> Hash, s: UtxoMap, m: UtxoMap, tx: Tx, height: u64, o: OutPoint)
    requires InputsPresent(m, tx) && o in s && o !in m && o.txid == txid(tx) && o.vout == 0 && tx.outputs != []
    ensures !ApplyTx(txid, s, tx, height).ok
  {
    SpendFacts(s, tx.inputs);
  }

  /** A validated block applies without error exactly when it does not repeat an input-less
      transaction that has outputs; with an input in every non-coinbase transaction it always applies. */
  lemma ValidatedBlockApplies(rules: Rules, b: Block, m: UtxoMap, mtp: u64 -> u64)
    requires TxidInjective(rules.hashing.txid) && BlockAcceptable(rules, b, m, mtp)
    ensures ApplyBlock(rules.hashing.txid, m, b).ok <==> NoRepeatedMint(rules.hashing.txid, b.txs)
    ensures (forall i :: 1 <= i < |b.txs| ==> b.txs[i].inputs != []) ==> ApplyBlock(rules.hashing.txid, m, b).ok
  {
    if NoRepeatedMint(rules.hashing.txid, b.txs) {
      PrefixApplies(rules, b, m, mtp, |b.txs|);
      assert b.txs[..|b.txs|] == b.txs;
    } else {
      var i, j :| 0 <= i < j < |b.txs| && b.txs[i].inputs == [] && b.txs[i].outputs != []
                  && rules.hashing.txid(b.txs[i]) == rules.hashing.txid(b.txs[j]);
      SameTxidHasNoInputs(rules, b, m, mtp, j, i);
      RepeatedMintFails(rules, b, m, mtp, i, j);
    }
  }

  // ---- transactions without inputs ---------------------------------------------------------

  /** A coinbase that pays nothing. */
  const EMPTY_COINBASE := Tx(1, [TxIn(NULL_OUTPOINT, [], 0xFFFF_FFFF, [])], [], 0)

  /** No inputs, one output of value zero. */
  function FreeMint(script: seq<byte>): Tx {
    Tx(1, [], [TxOut(0, script)], 0)
  }

  ghost predicate IsFreeMint(tx: Tx) {
    |tx.outputs| == 1 && |tx.outputs[0].script| <= 10 && tx == FreeMint(tx.outputs[0].script)
  }

  /** An empty coinbase and free mints that create nothing already unspent, under a header and rules that
      do not object. */
  ghost predicate FreeBlock(rules: Rules, b: Block, m: UtxoMap, mtp: u64 -> u64) {
    && 1 <= |b.txs| <= 100 && b.txs[0] == EMPTY_COINBASE && (forall i :: 1 <= i < |b.txs| ==> IsFreeMint(b.txs[i]))
    && (forall i :: 1 <= i < |b.txs| ==>
         OutPoint(rules.hashing.txid(b.txs[i]), 0) !in m && rules.sigopCost(b.txs[i], m) == 0)
    && VersionOk(b.header.version) && (b.header.height > 0 ==> b.header.timestamp > mtp(b.header.height - 1))
    && b.header.merkleRoot == Root(rules.hashing.pair, Txids(rules.hashing.txid, b.txs)) && rules.batchOk(b, m)
  }

  lemma CoinbaseSize()
    ensures BaseSize(EMPTY_COINBASE) == TotalSize(EMPTY_COINBASE) == 51
  {
    assert EMPTY_COINBASE.inputs[..0] == [];
    assert InputsSize(EMPTY_COINBASE.inputs) == 41;
    assert OutputsSize(EMPTY_COINBASE.outputs) == 0;
  }

  lemma FreeMintSize(tx: Tx)
    requires IsFreeMint(tx)
    ensures BaseSize(tx) == TotalSize(tx) <= 29 && OutputValue(tx.outputs) == 0 && InputValue(map[], tx.inputs) == 0
  {
    assert tx.outputs[..0] == [];
    assert OutputsSize(tx.outputs) == 9 + |tx.outputs[0].script|;
    assert InputsSize(tx.inputs) == 0;
  }

  lemma {:induction false} FreeTxsSmall(rules: Rules, m: UtxoMap, txs: seq<Tx>)
    requires txs != [] && txs[0] == EMPTY_COINBASE && forall i :: 1 <= i < |txs| ==>
               IsFreeMint(txs[i]) && rules.sigopCost(txs[i], m) == 0
    ensures TxsBaseSize(txs) <= 60 * |txs| && TxsTotalSize(txs) <= 60 * |txs|
    ensures SigopCost(rules, m, txs) == 0 && Prevs(txs) == []
    decreases |txs|
  {
    var n := |txs| - 1;
    if n == 0 {
      CoinbaseSize();
      assert txs[..0] == [];
    } else {
      FreeTxsSmall(rules, m, txs[..n]);
      FreeMintSize(txs[n]);
    }
  }

  lemma FreeBlockStands(rules: Rules, b: Block, m: UtxoMap, mtp: u64 -> u64)
    requires FreeBlock(rules, b, m, mtp)
    ensures StructureOk(rules, b, m, mtp)
  {
    FreeTxsSmall(rules, m, b.txs);
  }

  lemma FreeBlockSpends(rules: Rules, b: Block, m: UtxoMap, mtp: u64 -> u64)
    requires FreeBlock(rules, b, m, mtp)
    ensures SpendsOk(rules, b, m, mtp)
  {
    FreeTxsSmall(rules, m, b.txs);
    forall i | 1 <= i < |b.txs| ensures TxAcceptable(rules, b.txs[i], m, b.header.height, mtp) {
      FreeMintSize(b.txs[i]);
    }
  }

  /** The validator accepts every such block. */
  lemma FreeBlockPasses(rules: Rules, b: Block, m: UtxoMap, mtp: u64 -> u64)
    requires FreeBlock(rules, b, m, mtp)
    ensures BlockAcceptable(rules, b, m, mtp)
  {
    FreeBlockStands(rules, b, m, mtp);
    FreeBlockSpends(rules, b, m, mtp);
    forall i | 1 <= i < |b.txs| ensures !HasWitness(b.txs[i]) {
      assert IsFreeMint(b.txs[i]);
    }
  }

  const TWICE_MINTED: seq<Tx> := [EMPTY_COINBASE, FreeMint([]), FreeMint([])]

  /** A block that mints the same thing twice passes validation against any set and yet does not apply:
      acceptance alone does not make a block applicable. */
  lemma AcceptedButInapplicable(rules: Rules, b: Block, m: UtxoMap, mtp: u64 -> u64)
    requires FreeBlock(rules, b, m, mtp) && b.txs == TWICE_MINTED
    ensures BlockAcceptable(rules, b, m, mtp) && !NoRepeatedMint(rules.hashing.txid, b.txs)
    ensures !ApplyBlock(rules.hashing.txid, m, b).ok
  {
    FreeBlockPasses(rules, b, m, mtp);
    assert b.txs[1] == b.txs[2] == FreeMint([]);
    RepeatedMintFails(rules, b, m, mtp, 1, 2);
  }

  const SHORT_BODY: seq<Tx> := [EMPTY_COINBASE, FreeMint([]), FreeMint([7])]
  const LONG_BODY: seq<Tx> := [EMPTY_COINBASE, FreeMint([]), FreeMint([7]), FreeMint([7])]

  /** One header, hence one block hash, with two different accepted bodies. */
  lemma OneHeaderTwoBodies(rules: Rules, header: Header, m: UtxoMap, mtp: u64 -> u64)
    requires FreeBlock(rules, Block(header, SHORT_BODY), m, mtp) && rules.batchOk(Block(header, LONG_BODY), m)
    ensures SHORT_BODY != LONG_BODY
    ensures BlockAcceptable(rules, Block(header, SHORT_BODY), m, mtp)
            && BlockAcceptable(rules, Block(header, LONG_BODY), m, mtp)
  {
    var s, t := Txids(rules.hashing.txid, SHORT_BODY), Txids(rules.hashing.txid, LONG_BODY);
    assert t == s + [s[2]];
    DuplicateTailCollides(rules.hashing.pair, s);
    LongBodyFree(rules, header, m, mtp);
    FreeBlockPasses(rules, Block(header, SHORT_BODY), m, mtp);
    FreeBlockPasses(rules, Block(header, LONG_BODY), m, mtp);
  }

  lemma LongBodyFree(rules: Rules, header: Header, m: UtxoMap, mtp: u64 -> u64)
    requires FreeBlock(rules, Block(header, SHORT_BODY), m, mtp) && rules.batchOk(Block(header, LONG_BODY), m)
    requires header.merkleRoot == Root(rules.hashing.pair, Txids(rules.hashing.txid, LONG_BODY))
    ensures FreeBlock(rules, Block(header, LONG_BODY), m, mtp)
  {
    forall i | 1 <= i < |LONG_BODY| ensures exists j :: 1 <= j < |SHORT_BODY| && LONG_BODY[i] == SHORT_BODY[j] {
      assert LONG_BODY[i] == SHORT_BODY[if i == 3 then 2 else i];
    }
  }

  // ---- value -----------------------------------------------------------------------------

  lemma {:induction false} PrefixValue(rules: Rules, b: Block, m: UtxoMap, mtp: u64 -> u64, i: nat)
    requires BlockAcceptable(rules, b, m, mtp) && 1 <= i <= |b.txs|
    requires ApplyTxs(rules.hashing.txid, m, b.txs[..i], b.header.height).ok
    ensures TotalValue(ApplyTxs(rules.hashing.txid, m, b.txs[..i], b.header.height).utxos) + Fees(m, b.txs[..i])
            == TotalValue(m) + OutputValue(b.txs[0].outputs)
  {
    var txid, txs, h := rules.hashing.txid, b.txs, b.header.height;
    assert txs[..i][..i - 1] == txs[..i - 1];
    var s := ApplyTxs(txid, m, txs[..i - 1], h).utxos;
    if i == 1 {
      assert txs[..0] == [];
      ApplyTxValue(txid, s, txs[0], h);
    } else {
      PrefixValue(rules, b, m, mtp, i - 1);
      NextValue(rules, b, m, mtp, i - 1, s);
    }
  }

  /** One more transaction pays its inputs less its outputs in fees. */
  lemma NextValue(rules: Rules, b: Block, m: UtxoMap, mtp: u64 -> u64, i: nat, s: UtxoMap)
    requires BlockAcceptable(rules, b, m, mtp) && 1 <= i < |b.txs|
    requires ApplyTxs(rules.hashing.txid, m, b.txs[..i], b.header.height).ok
    requires s == ApplyTxs(rules.hashing.txid, m, b.txs[..i], b.header.height).utxos
    requires ApplyTx(rules.hashing.txid, s, b.txs[i], b.header.height).ok
    ensures InputValue(m, b.txs[i].inputs) >= OutputValue(b.txs[i].outputs)
    ensures TotalValue(ApplyTx(rules.hashing.txid, s, b.txs[i], b.header.height).utxos) + InputValue(m, b.txs[i].inputs)
            == TotalValue(s) + OutputValue(b.txs[i].outputs)
  {
    ReachHalfWay(rules, b, m, mtp, i);
    InputsUnspent(b.txs, i);
    AcceptedInputs(rules, b, m, mtp);
    ApplyTxValue(rules.hashing.txid, s, b.txs[i], b.header.height);
    assert InputsPresent(m, b.txs[i]);
    InputValueAgrees(m, s, b.txs[i].inputs);
    assert TxAcceptable(rules, b.txs[i], m, b.header.height, mtp);
  }

  /** Conservation: a validated block that applies changes total value by its coinbase output less
      the fees, hence mints at most the subsidy of its height. */
  lemma BlockValue(rules: Rules, b: Block, m: UtxoMap, mtp: u64 -> u64)
    requires BlockAcceptable(rules, b, m, mtp) && ApplyBlock(rules.hashing.txid, m, b).ok
    ensures TotalValue(ApplyBlock(rules.hashing.txid, m, b).utxos) + Fees(m, b.txs)
            == TotalValue(m) + OutputValue(b.txs[0].outputs)
    ensures TotalValue(ApplyBlock(rules.hashing.txid, m, b).utxos) <= TotalValue(m) + BlockSubsidy(b.header.height)
  {
    assert b.txs[..|b.txs|] == b.txs;
    PrefixValue(rules, b, m, mtp, |b.txs|);
  }

  // ---- commitment ------------------------------------------------------------------------

  /** No transaction without inputs occurs twice. */
  ghost predicate InputlessDiffer(txid: Tx -> Hash, txs: seq<Tx>) {
    forall i, j :: 0 <= i < j < |txs| && txs[i].inputs == [] && txs[j].inputs == [] ==> txid(txs[i]) != txid(txs[j])
  }

  /** The double-spend rule leaves transactions without inputs as the only possible duplicates: the txids
      of an accepted block are pairwise different exactly when none of those repeats. */
  lemma AcceptedTxidsDistinct(rules: Rules, b: Block, m: UtxoMap, mtp: u64 -> u64)
    requires TxidInjective(rules.hashing.txid) && BlockAcceptable(rules, b, m, mtp)
    ensures Distinct(Txids(rules.hashing.txid, b.txs)) <==> InputlessDiffer(rules.hashing.txid, b.txs)
  {
    var ids := Txids(rules.hashing.txid, b.txs);
    if InputlessDiffer(rules.hashing.txid, b.txs) {
      forall i, j | 0 <= i < j < |b.txs| ensures ids[i] != ids[j] {
        if ids[i] == ids[j] {
          SameTxidHasNoInputs(rules, b, m, mtp, j, i);
        }
      }
    } else {
      var i, j :| 0 <= i < j < |b.txs| && b.txs[i].inputs == [] && b.txs[j].inputs == []
                  && rules.hashing.txid(b.txs[i]) == rules.hashing.txid(b.txs[j]);
      assert ids[i] == ids[j];
    }
  }

  /** Two accepted blocks with one Merkle root, neither repeating a transaction without inputs, carry the
      same transactions, witnesses aside. */
  lemma MerkleRootCommits(rules: Rules, isTxid: Hash -> bool, a: Block, m: UtxoMap, f: u64 -> u64,
                          b: Block, n: UtxoMap, g: u64 -> u64)
    requires TxidInjective(rules.hashing.txid) && PairInjective(rules.hashing.pair)
    requires LeavesSeparate(rules.hashing.pair, isTxid) && forall tx :: isTxid(rules.hashing.txid(tx))
    requires BlockAcceptable(rules, a, m, f) && InputlessDiffer(rules.hashing.txid, a.txs)
    requires BlockAcceptable(rules, b, n, g) && InputlessDiffer(rules.hashing.txid, b.txs)
    requires a.header.merkleRoot == b.header.merkleRoot
    ensures |a.txs| == |b.txs|
    ensures forall i :: 0 <= i < |a.txs| ==> StripWitness(a.txs[i]) == StripWitness(b.txs[i])
  {
    var s, t := Txids(rules.hashing.txid, a.txs), Txids(rules.hashing.txid, b.txs);
    AcceptedTxidsDistinct(rules, a, m, f);
    AcceptedTxidsDistinct(rules, b, n, g);
    RootInjective(rules.hashing.pair, isTxid, s, t);
    forall i | 0 <= i < |a.txs| ensures StripWitness(a.txs[i]) == StripWitness(b.txs[i]) {
      assert s[i] == t[i];
    }
  }
}
