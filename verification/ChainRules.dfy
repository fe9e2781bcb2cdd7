/** The consensus rules as properties of every valid chain: block `n`, its transaction `k`, input `x`. */
module ChainRules {
  import opened BigEndian
  import opened Primitives
  import opened Emission
  import opened Ledger
  import opened Value
  import opened Validator
  import opened ChainLedger
  import opened ActiveChain
  import opened Coins

  /** The sum of `f` over `from <= i < to`. */
  ghost function Total(f: int -> int, from: int, to: int): int
    decreases to - from
  {
    if from >= to then 0 else Total(f, from, to - 1) + f(to - 1)
  }

  /** One coinbase, first, in every block above genesis. */
  lemma CoinbaseFirst(net: Network, ops: Ops, chain: seq<Block>, n: nat, k: nat)
    requires Implements(net, ops) && ValidChain(ops, chain) && 1 <= n < |chain|
    ensures chain[n].txs != []
    ensures k < |chain[n].txs| ==>
              (k == 0 <==>
                |chain[n].txs[k].inputs| == 1 && chain[n].txs[k].inputs[0].prev == OutPoint(ZERO_HASH, 0xFFFF_FFFF))
  {
    BlockAccepted(net, ops, chain, n);
  }

  /** Every other transaction has version 1 or 2, and no output above 21 million coins. */
  lemma TransactionsInRange(net: Network, ops: Ops, chain: seq<Block>, n: nat, k: nat)
    requires Implements(net, ops) && ValidChain(ops, chain) && 1 <= n < |chain| && 1 <= k < |chain[n].txs|
    ensures 1 <= chain[n].txs[k].version <= 2
    ensures forall i :: 0 <= i < |chain[n].txs[k].outputs| ==> chain[n].txs[k].outputs[i].value <= 2_100_000_000_000_000
  {
    TxAccepted(net, ops, chain, n, k);
  }

  lemma TxAccepted(net: Network, ops: Ops, chain: seq<Block>, n: nat, k: nat)
    requires Implements(net, ops) && ValidChain(ops, chain) && 1 <= n < |chain| && 1 <= k < |chain[n].txs|
    ensures var m, mtp := ReplayChain(ops, chain[..n]).utxos, net.mtp(ChainHeaders(chain[..n]));
            !IsCoinbase(chain[n].txs[k]) && TxAcceptable(net.rules, chain[n].txs[k], m, n, mtp)
  {
    BlockAccepted(net, ops, chain, n);
  }

  // ---- values -------------------------------------------------------------------------------

  /** What each input's coin is worth: the value of the output it spends, wherever on the chain that is. */
  ghost predicate Worth(txid: Tx -> Hash, chain: seq<Block>, n: int, tx: Tx, worth: int -> int)
    requires 0 <= n <= |chain|
  {
    forall x :: 0 <= x < |tx.inputs| ==> WorthAt(txid, chain[..n], tx.inputs[x].prev, worth(x))
  }

  ghost predicate WorthAt(txid: Tx -> Hash, chain: seq<Block>, o: OutPoint, value: int) {
    forall j, i :: UnspentFrom(txid, chain, j, i, o) ==> value == chain[j].txs[i].outputs[o.vout].value
  }

  lemma {:induction false} InputsWorth(net: Network, ops: Ops, chain: seq<Block>, n: nat, k: nat,
                                       worth: int -> int, x: nat)
    requires Implements(net, ops) && ValidChain(ops, chain) && 1 <= n < |chain| && 1 <= k < |chain[n].txs|
    requires x <= |chain[n].txs[k].inputs| && Worth(net.rules.hashing.txid, chain, n, chain[n].txs[k], worth)
    ensures InputValue(ReplayChain(ops, chain[..n]).utxos, chain[n].txs[k].inputs[..x]) == Total(worth, 0, x)
  {
    if x > 0 {
      var inputs, o := chain[n].txs[k].inputs, chain[n].txs[k].inputs[x - 1].prev;
      InputsWorth(net, ops, chain, n, k, worth, x - 1);
      assert inputs[..x][..x - 1] == inputs[..x - 1];
      assert IsInput(chain, n, k, x - 1);
      SpentWasUnspent(net, ops, chain, n, k, x - 1);
      var j, i :| UnspentFrom(net.rules.hashing.txid, chain[..n], j, i, o);
      BlockAccepted(net, ops, chain, n);
      ReplayCoins(net, ops, chain[..n], o);
    }
  }

  lemma {:induction false} OutputsTotal(outputs: seq<TxOut>, values: int -> int)
    requires forall i :: 0 <= i < |outputs| ==> values(i) == outputs[i].value
    ensures OutputValue(outputs) == Total(values, 0, |outputs|)
  {
    if outputs != [] {
      OutputsTotal(outputs[..|outputs| - 1], values);
    }
  }

  /** No transaction pays out more than the outputs it spends were worth. */
  lemma InputsCoverOutputs(net: Network, ops: Ops, chain: seq<Block>, n: nat, k: nat, worth: int -> int,
                           values: int -> int)
    requires Implements(net, ops) && ValidChain(ops, chain) && 1 <= n < |chain| && 1 <= k < |chain[n].txs|
    requires Worth(net.rules.hashing.txid, chain, n, chain[n].txs[k], worth)
    requires forall i :: 0 <= i < |chain[n].txs[k].outputs| ==> values(i) == chain[n].txs[k].outputs[i].value
    ensures Total(values, 0, |chain[n].txs[k].outputs|) <= Total(worth, 0, |chain[n].txs[k].inputs|)
  {
    var tx := chain[n].txs[k];
    TxAccepted(net, ops, chain, n, k);
    InputsWorth(net, ops, chain, n, k, worth, |tx.inputs|);
    assert tx.inputs[..|tx.inputs|] == tx.inputs;
    OutputsTotal(tx.outputs, values);
  }

  // ---- scripts and budgets ------------------------------------------------------------------

  /** The script layer found no fault with any input, block-wide verification passed, and a block with
      witnesses beyond the coinbase carries a good witness commitment. */
  lemma ScriptsPassed(net: Network, ops: Ops, chain: seq<Block>, n: nat, k: nat, x: nat)
    requires Implements(net, ops) && ValidChain(ops, chain) && 1 <= n < |chain| && 1 <= k < |chain[n].txs|
    requires x < |chain[n].txs[k].inputs|
    ensures var m := ReplayChain(ops, chain[..n]).utxos;
            && net.rules.scriptFault(chain[n].txs[k], x, m) == None && net.rules.batchOk(chain[n], m)
            && (|chain[n].txs[k].inputs[x].witnessStack| > 0 ==> net.rules.witnessCommitmentOk(chain[n]))
  {
    BlockAccepted(net, ops, chain, n);
    TxAccepted(net, ops, chain, n, k);
    var m, mtp := ReplayChain(ops, chain[..n]).utxos, net.mtp(ChainHeaders(chain[..n]));
    assert InputOk(net.rules, chain[n].txs[k], x, m, n, mtp);
    if |chain[n].txs[k].inputs[x].witnessStack| > 0 {
      assert HasWitness(chain[n].txs[k]);
    }
  }

  lemma {:induction false} SigopsTotal(rules: Rules, m: UtxoMap, txs: seq<Tx>, cost: int -> int)
    requires txs != [] && forall i :: 1 <= i < |txs| ==> cost(i) == rules.sigopCost(txs[i], m)
    ensures SigopCost(rules, m, txs) == Total(cost, 1, |txs|)
  {
    if |txs| > 1 {
      SigopsTotal(rules, m, txs[..|txs| - 1], cost);
    }
  }

  /** The signature operations of a block's transactions, the coinbase aside, cost at most 80,000 together. */
  lemma SigopsWithinBudget(net: Network, ops: Ops, chain: seq<Block>, n: nat, cost: int -> int)
    requires Implements(net, ops) && ValidChain(ops, chain) && 1 <= n < |chain|
    requires forall i :: 1 <= i < |chain[n].txs| ==>
               cost(i) == net.rules.sigopCost(chain[n].txs[i], ReplayChain(ops, chain[..n]).utxos)
    ensures Total(cost, 1, |chain[n].txs|) <= 80_000
  {
    BlockAccepted(net, ops, chain, n);
    SigopsTotal(net.rules, ReplayChain(ops, chain[..n]).utxos, chain[n].txs, cost);
  }

  // ---- one input ----------------------------------------------------------------------------

  /** How an input is judged, in blocks and seconds: unknown outpoints first, then a coinbase output less than
      100 blocks old, then the relative lock, then the scripts. */
  lemma InputVerdict(rules: Rules, tx: Tx, i: nat, utxos: UtxoMap, height: u64, mtp: u64 -> u64)
    requires i < |tx.inputs| && (tx.inputs[i].prev in utxos ==> utxos[tx.inputs[i].prev].height < 0x8000_0000_0000_0000)
    ensures var o, s, fault := tx.inputs[i].prev, tx.inputs[i].sequence, InputFault(rules, tx, i, utxos, height, mtp);
            if o !in utxos then fault == Some(MissingInput) else
              var made: nat := utxos[o].height;
              if utxos[o].isCoinbase && height < made + 100 then fault == Some(ImmatureCoinbase)
              else if tx.version >= 2 && s < 0x8000_0000 && s / 0x40_0000 % 2 == 0 && height < made + s % 0x1_0000
                then fault == Some(SequenceLockNotMet)
              else if && tx.version >= 2 && s < 0x8000_0000 && s / 0x40_0000 % 2 == 1
                      && mtp(height) < mtp(made) + 512 * (s % 0x1_0000) && mtp(height) < TWO_64 - 1
                then fault == Some(SequenceLockNotMet)
              else fault == rules.scriptFault(tx, i, utxos)
  {}
}
