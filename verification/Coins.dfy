/** Where the coins of a chain come from, and when they may be spent.  Everything is said of the blocks of
    the chain themselves: block `j`, transaction `i`. */
module Coins {
  import opened BigEndian
  import opened Primitives
  import opened Ledger
  import opened Validator
  import opened Acceptance
  import opened ChainLedger
  import opened ActiveChain

  // ---- making and taking an outpoint -------------------------------------------------------

  ghost predicate MadeAt(txid: Tx -> Hash, chain: seq<Block>, j: int, i: int, o: OutPoint) {
    && 0 <= j < |chain| && 0 <= i < |chain[j].txs|
    && o.txid == txid(chain[j].txs[i]) && o.vout < |chain[j].txs[i].outputs|
  }

  ghost predicate TakenAt(chain: seq<Block>, j: int, i: int, o: OutPoint) {
    && 0 <= j < |chain| && 0 <= i < |chain[j].txs| && !IsCoinbase(chain[j].txs[i])
    && exists x :: 0 <= x < |chain[j].txs[i].inputs| && chain[j].txs[i].inputs[x].prev == o
  }

  predicate Before(j: int, i: int, j': int, i': int) {
    j < j' || (j == j' && i < i')
  }

  /** Made there, and taken by no later transaction. */
  ghost predicate UnspentFrom(txid: Tx -> Hash, chain: seq<Block>, j: int, i: int, o: OutPoint) {
    MadeAt(txid, chain, j, i, o) && forall j', i' :: Before(j, i, j', i') ==> !TakenAt(chain, j', i', o)
  }

  /** The coin a transaction leaves: its output, the height of its block, whether it is a coinbase. */
  ghost function CoinOf(txid: Tx -> Hash, chain: seq<Block>, j: int, i: int, o: OutPoint): Utxo
    requires MadeAt(txid, chain, j, i, o)
  {
    var tx := chain[j].txs[i];
    Utxo(tx.outputs[o.vout], chain[j].header.height, IsCoinbase(tx))
  }

  /** `o` is in the set exactly if some transaction made it and none took it since, as the coin made there. */
  ghost predicate CoinStands(txid: Tx -> Hash, chain: seq<Block>, m: UtxoMap, o: OutPoint) {
    && (o in m ==> exists j, i :: UnspentFrom(txid, chain, j, i, o))
    && forall j, i :: UnspentFrom(txid, chain, j, i, o) ==> o in m && m[o] == CoinOf(txid, chain, j, i, o)
  }

  // ---- one transaction ----------------------------------------------------------------------

  function Grown(chain: seq<Block>, tx: Tx): seq<Block>
    requires chain != []
  {
    var last := chain[|chain| - 1];
    chain[..|chain| - 1] + [last.(txs := last.txs + [tx])]
  }

  lemma GrownAt(txid: Tx -> Hash, chain: seq<Block>, tx: Tx, j: int, i: int, o: OutPoint)
    requires chain != []
    ensures var n := |chain| - 1;
            var k := |chain[n].txs|;
            && (MadeAt(txid, Grown(chain, tx), j, i, o) <==>
                 MadeAt(txid, chain, j, i, o) || (j == n && i == k && Makes(txid, tx, o)))
            && (TakenAt(Grown(chain, tx), j, i, o) <==> TakenAt(chain, j, i, o) || (j == n && i == k && Takes(tx, o)))
            && (MadeAt(txid, chain, j, i, o) ==>
                 CoinOf(txid, Grown(chain, tx), j, i, o) == CoinOf(txid, chain, j, i, o))
  {
    var n := |chain| - 1;
    if 0 <= j < |chain| && 0 <= i < |Grown(chain, tx)[j].txs| {
      assert Grown(chain, tx)[j].txs[i] == if j == n && i == |chain[n].txs| then tx else chain[j].txs[i];
    }
  }

  /** What was unspent stays so unless the new transaction takes it. */
  lemma GrownUnspent(txid: Tx -> Hash, chain: seq<Block>, tx: Tx, j: int, i: int, o: OutPoint)
    requires chain != []
    ensures var n := |chain| - 1;
            var k := |chain[n].txs|;
            UnspentFrom(txid, Grown(chain, tx), j, i, o) <==>
              if j == n && i == k then Makes(txid, tx, o)
              else UnspentFrom(txid, chain, j, i, o) && !Takes(tx, o)
  {
    var n, more := |chain| - 1, Grown(chain, tx);
    var k := |chain[n].txs|;
    GrownAt(txid, chain, tx, j, i, o);
    forall j', i'
      ensures TakenAt(more, j', i', o) <==> TakenAt(chain, j', i', o) || (j' == n && i' == k && Takes(tx, o))
    {
      GrownAt(txid, chain, tx, j', i', o);
    }
    if MadeAt(txid, chain, j, i, o) && Takes(tx, o) {
      assert Before(j, i, n, k) && TakenAt(more, n, k, o);
    }
  }

  /** A transaction that applies makes coins of its own block's height and leaves the others alone. */
  lemma ApplyTxCoin(txid: Tx -> Hash, m: UtxoMap, tx: Tx, height: u64, o: OutPoint)
    requires ApplyTx(txid, m, tx, height).ok
    ensures var m' := ApplyTx(txid, m, tx, height).utxos;
            && (o in m' <==> (o in m && !Takes(tx, o)) || Makes(txid, tx, o))
            && (Makes(txid, tx, o) ==>
                 m'[o] == Utxo(tx.outputs[o.vout], height, IsCoinbase(tx)) && (o in m ==> Takes(tx, o)))
            && (o in m' && !Makes(txid, tx, o) ==> m'[o] == m[o])
  {
    ApplyTxFacts(txid, m, tx, height);
    var m1 := if IsCoinbase(tx) then m else Spend(m, tx.inputs).0;
    SpendFacts(m, tx.inputs);
    CreateFacts(m1, txid(tx), tx, height, |tx.outputs|);
  }

  lemma CoinStep(txid: Tx -> Hash, chain: seq<Block>, m: UtxoMap, tx: Tx, o: OutPoint)
    requires chain != [] && CoinStands(txid, chain, m, o)
    requires ApplyTx(txid, m, tx, chain[|chain| - 1].header.height).ok
    ensures CoinStands(txid, Grown(chain, tx), ApplyTx(txid, m, tx, chain[|chain| - 1].header.height).utxos, o)
  {
    var n, more := |chain| - 1, Grown(chain, tx);
    var k := |chain[n].txs|;
    var m' := ApplyTx(txid, m, tx, chain[n].header.height).utxos;
    ApplyTxCoin(txid, m, tx, chain[n].header.height, o);
    if o in m' {
      if Makes(txid, tx, o) {
        GrownUnspent(txid, chain, tx, n, k, o);
        assert UnspentFrom(txid, more, n, k, o);
      } else {
        var j, i :| UnspentFrom(txid, chain, j, i, o);
        GrownUnspent(txid, chain, tx, j, i, o);
        assert UnspentFrom(txid, more, j, i, o);
      }
    }
    forall j, i | UnspentFrom(txid, more, j, i, o) ensures o in m' && m'[o] == CoinOf(txid, more, j, i, o) {
      GrownUnspent(txid, chain, tx, j, i, o);
      GrownAt(txid, chain, tx, j, i, o);
    }
  }

  // ---- blocks and chains --------------------------------------------------------------------

  /** A block with no transactions yet changes nothing. */
  lemma CoinOpen(txid: Tx -> Hash, chain: seq<Block>, m: UtxoMap, b: Block, o: OutPoint)
    requires CoinStands(txid, chain, m, o) && b.txs == []
    ensures CoinStands(txid, chain + [b], m, o)
  {
    var more := chain + [b];
    forall j, i ensures TakenAt(more, j, i, o) <==> TakenAt(chain, j, i, o) {}
    forall j, i ensures UnspentFrom(txid, more, j, i, o) <==> UnspentFrom(txid, chain, j, i, o) {
      assert MadeAt(txid, more, j, i, o) <==> MadeAt(txid, chain, j, i, o);
    }
  }

  lemma {:induction false} CoinBlock(txid: Tx -> Hash, chain: seq<Block>, m: UtxoMap, b: Block, k: nat, o: OutPoint)
    requires CoinStands(txid, chain, m, o) && k <= |b.txs| && ApplyTxs(txid, m, b.txs[..k], b.header.height).ok
    ensures CoinStands(txid, chain + [b.(txs := b.txs[..k])], ApplyTxs(txid, m, b.txs[..k], b.header.height).utxos, o)
  {
    if k == 0 {
      CoinOpen(txid, chain, m, b.(txs := []), o);
    } else {
      assert b.txs[..k][..k - 1] == b.txs[..k - 1];
      CoinBlock(txid, chain, m, b, k - 1, o);
      var part := chain + [b.(txs := b.txs[..k - 1])];
      CoinStep(txid, part, ApplyTxs(txid, m, b.txs[..k - 1], b.header.height).utxos, b.txs[k - 1], o);
      assert part[..|part| - 1] == chain && b.txs[..k - 1] + [b.txs[k - 1]] == b.txs[..k];
      assert Grown(part, b.txs[k - 1]) == chain + [b.(txs := b.txs[..k])];
    }
  }

  /** The UTXO set of a chain that applies is what its transactions made and none took since. */
  lemma {:induction false} ReplayCoins(net: Network, ops: Ops, chain: seq<Block>, o: OutPoint)
    requires Implements(net, ops) && ReplayChain(ops, chain).ok
    ensures CoinStands(net.rules.hashing.txid, chain, ReplayChain(ops, chain).utxos, o)
  {
    if chain != [] {
      var n := |chain| - 1;
      var b, m := chain[n], ReplayChain(ops, chain[..n]).utxos;
      ReplayCoins(net, ops, chain[..n], o);
      assert At(m, b) && b.txs[..|b.txs|] == b.txs;
      CoinBlock(net.rules.hashing.txid, chain[..n], m, b, |b.txs|, o);
      assert chain[..n] + [b.(txs := b.txs[..|b.txs|])] == chain;
    }
  }

  // ---- spending -----------------------------------------------------------------------------

  /** Input `x` of transaction `k` of block `n`. */
  ghost predicate IsInput(chain: seq<Block>, n: int, k: int, x: int) {
    1 <= n < |chain| && 1 <= k < |chain[n].txs| && 0 <= x < |chain[n].txs[k].inputs|
  }

  lemma BlockAccepted(net: Network, ops: Ops, chain: seq<Block>, n: nat)
    requires Implements(net, ops) && ValidChain(ops, chain) && 1 <= n < |chain|
    ensures ReplayChain(ops, chain[..n]).ok
    ensures BlockAcceptable(net.rules, chain[n], ReplayChain(ops, chain[..n]).utxos, net.mtp(ChainHeaders(chain[..n])))
  {
    ReplayPrefixOk(ops, chain, n);
    ValidAt(ops, chain, n);
    assert AtBlock(ChainHeaders(chain[..n]), ReplayChain(ops, chain[..n]).utxos, chain[n]);
  }

  /** What an input spends was made below its block, and not taken since. */
  lemma SpentWasUnspent(net: Network, ops: Ops, chain: seq<Block>, n: int, k: int, x: int)
    requires Implements(net, ops) && ValidChain(ops, chain) && IsInput(chain, n, k, x)
    ensures exists j, i :: UnspentFrom(net.rules.hashing.txid, chain[..n], j, i, chain[n].txs[k].inputs[x].prev)
  {
    BlockAccepted(net, ops, chain, n);
    AcceptedInputs(net.rules, chain[n], ReplayChain(ops, chain[..n]).utxos, net.mtp(ChainHeaders(chain[..n])));
    ReplayCoins(net, ops, chain[..n], chain[n].txs[k].inputs[x].prev);
  }

  /** The coin an input spends is the one its maker left, and it passed the input rules. */
  lemma SpentCoin(net: Network, ops: Ops, chain: seq<Block>, n: int, k: int, x: int, j: int, i: int)
    requires Implements(net, ops) && ValidChain(ops, chain) && IsInput(chain, n, k, x)
    requires UnspentFrom(net.rules.hashing.txid, chain[..n], j, i, chain[n].txs[k].inputs[x].prev)
    ensures var tx := chain[n].txs[k];
            var coin := CoinOf(net.rules.hashing.txid, chain[..n], j, i, tx.inputs[x].prev);
            && coin.height == j && coin.isCoinbase == IsCoinbase(chain[j].txs[i])
            && Mature(coin, n)
            && SequenceOk(tx, tx.inputs[x].sequence, j, n, net.mtp(ChainHeaders(chain[..n])))
  {
    var m, mtp := ReplayChain(ops, chain[..n]).utxos, net.mtp(ChainHeaders(chain[..n]));
    BlockAccepted(net, ops, chain, n);
    ReplayCoins(net, ops, chain[..n], chain[n].txs[k].inputs[x].prev);
    assert TxAcceptable(net.rules, chain[n].txs[k], m, n, mtp);
    assert InputOk(net.rules, chain[n].txs[k], x, m, n, mtp);
  }

  /** The inputs of one block are pairwise different. */
  lemma OnceInBlock(net: Network, ops: Ops, chain: seq<Block>, n: int, k: int, x: int, k': int, x': int)
    requires Implements(net, ops) && ValidChain(ops, chain) && IsInput(chain, n, k, x) && IsInput(chain, n, k', x')
    requires chain[n].txs[k].inputs[x].prev == chain[n].txs[k'].inputs[x'].prev && k <= k'
    ensures k == k' && x == x'
  {
    var txs := chain[n].txs;
    BlockAccepted(net, ops, chain, n);
    InputsUnspent(txs, k');
    if k < k' {
      PrevsContain(txs[..k'], k, x);
    }
  }

  /** No outpoint is spent twice on a valid chain, unless it was made again in between. */
  lemma SpentOnce(net: Network, ops: Ops, chain: seq<Block>, n: int, k: int, x: int, n': int, k': int, x': int)
    requires Implements(net, ops) && ValidChain(ops, chain) && IsInput(chain, n, k, x) && IsInput(chain, n', k', x')
    requires chain[n].txs[k].inputs[x].prev == chain[n'].txs[k'].inputs[x'].prev && n <= n'
    ensures n == n' ==> k == k' && x == x'
    ensures n < n' ==> exists j, i ::
              n <= j < n' && MadeAt(net.rules.hashing.txid, chain, j, i, chain[n].txs[k].inputs[x].prev)
  {
    var o := chain[n].txs[k].inputs[x].prev;
    if n == n' {
      OnceInBlock(net, ops, chain, n, if k <= k' then k else k', if k <= k' then x else x', if k <= k' then k' else k,
                  if k <= k' then x' else x);
    } else {
      SpentWasUnspent(net, ops, chain, n', k', x');
      var j, i :| UnspentFrom(net.rules.hashing.txid, chain[..n'], j, i, o);
      BlockAccepted(net, ops, chain, n);
      assert TakenAt(chain[..n'], n, k, o);
      assert MadeAt(net.rules.hashing.txid, chain, j, i, o);
    }
  }

  /** Nothing unspent is made again, neither below block `n` nor in it. */
  lemma NotMadeAgain(net: Network, ops: Ops, chain: seq<Block>, n: nat, j: int, i: int, j': int, i': int, o: OutPoint)
    requires Implements(net, ops) && ValidChain(ops, chain) && 1 <= n < |chain|
    requires UnspentFrom(net.rules.hashing.txid, chain[..n], j', i', o)
    requires MadeAt(net.rules.hashing.txid, chain, j, i, o) && j <= n
    ensures j <= j'
  {
    if j > j' {
      UnspentEarlier(net.rules.hashing.txid, chain, n, j, j', i', o);
      MakesWhatIsNew(net, ops, chain, j, i, o);
    }
  }

  lemma UnspentEarlier(txid: Tx -> Hash, chain: seq<Block>, n: nat, j: nat, j': int, i': int, o: OutPoint)
    requires j' < j <= n <= |chain| && UnspentFrom(txid, chain[..n], j', i', o)
    ensures UnspentFrom(txid, chain[..j], j', i', o)
  {
    forall a, c | Before(j', i', a, c) ensures !TakenAt(chain[..j], a, c, o) {
      TakenLater(chain, n, j, a, c, o);
    }
  }

  lemma TakenLater(chain: seq<Block>, n: nat, j: nat, a: int, c: int, o: OutPoint)
    requires j <= n <= |chain|
    ensures TakenAt(chain[..j], a, c, o) ==> TakenAt(chain[..n], a, c, o)
  {}

  /** A block makes only outpoints that are not in the set below it. */
  lemma MakesWhatIsNew(net: Network, ops: Ops, chain: seq<Block>, j: nat, i: int, o: OutPoint)
    requires Implements(net, ops) && ValidChain(ops, chain) && 1 <= j < |chain|
    requires MadeAt(net.rules.hashing.txid, chain, j, i, o)
    ensures forall j', i' :: !UnspentFrom(net.rules.hashing.txid, chain[..j], j', i', o)
  {
    BlockAccepted(net, ops, chain, j);
    ReplayCoins(net, ops, chain[..j], o);
    assert OutPoint(net.rules.hashing.txid(chain[j].txs[i]), o.vout % TWO_32) == o;
  }

  /** No block of a valid chain spends a coinbase output fewer than 100 blocks after the block that made it. */
  lemma CoinbasesMature(net: Network, ops: Ops, chain: seq<Block>, n: int, k: int, x: int, j: int, i: int)
    requires NetworkOk(net) && Implements(net, ops) && ValidChain(ops, chain) && IsInput(chain, n, k, x)
    requires j <= n && MadeAt(net.rules.hashing.txid, chain, j, i, chain[n].txs[k].inputs[x].prev)
    requires IsCoinbase(chain[j].txs[i])
    ensures n >= j + 100
  {
    var txid, o := net.rules.hashing.txid, chain[n].txs[k].inputs[x].prev;
    SpentWasUnspent(net, ops, chain, n, k, x);
    var j', i' :| UnspentFrom(txid, chain[..n], j', i', o);
    NotMadeAgain(net, ops, chain, n, j, i, j', i', o);
    StripKeeps(chain[j].txs[i], chain[j'].txs[i']);
    SpentCoin(net, ops, chain, n, k, x, j', i');
  }

  ghost predicate NoYoungCoinbase(txid: Tx -> Hash, chain: seq<Block>) {
    forall n, k, x, j, i ::
      IsInput(chain, n, k, x) && j <= n && MadeAt(txid, chain, j, i, chain[n].txs[k].inputs[x].prev)
      && IsCoinbase(chain[j].txs[i]) ==>
        n >= j + 100
  }

  lemma ChainMatures(net: Network, ops: Ops, chain: seq<Block>)
    requires NetworkOk(net) && Implements(net, ops) && ValidChain(ops, chain)
    ensures NoYoungCoinbase(net.rules.hashing.txid, chain)
  {
    forall n, k, x, j, i |
      IsInput(chain, n, k, x) && j <= n && MadeAt(net.rules.hashing.txid, chain, j, i, chain[n].txs[k].inputs[x].prev)
      && IsCoinbase(chain[j].txs[i])
      ensures n >= j + 100
    {
      CoinbasesMature(net, ops, chain, n, k, x, j, i);
    }
  }

  /** Relative lock times: an input of a version-2 transaction whose disable bit is clear waits the number of
      blocks, or of 512-second units of median time, its sequence asks for since its coin was made. */
  lemma RelativeLocksKept(net: Network, ops: Ops, chain: seq<Block>, n: int, k: int, x: int, j: int, i: int)
    requires Implements(net, ops) && ValidChain(ops, chain) && IsInput(chain, n, k, x)
    requires UnspentFrom(net.rules.hashing.txid, chain[..n], j, i, chain[n].txs[k].inputs[x].prev)
    requires chain[n].txs[k].version == 2 && chain[n].txs[k].inputs[x].sequence < 0x8000_0000
    ensures var sequence, mtp := chain[n].txs[k].inputs[x].sequence, net.mtp(ChainHeaders(chain[..n]));
            if sequence / 0x40_0000 % 2 == 0 then n >= j + sequence % 0x1_0000
            else mtp(n) == TWO_64 - 1 || mtp(n) >= mtp(j) + 512 * (sequence % 0x1_0000)
  {
    SpentCoin(net, ops, chain, n, k, x, j, i);
  }

  /** Absolute lock times: a transaction with a lock time and an input that is not final is in no block below
      that height, or of no greater median time. */
  lemma AbsoluteLocksKept(net: Network, ops: Ops, chain: seq<Block>, n: int, k: int, x: int)
    requires Implements(net, ops) && ValidChain(ops, chain) && IsInput(chain, n, k, x)
    requires chain[n].txs[k].inputs[x].sequence != 0xFFFF_FFFF
    ensures var lock := chain[n].txs[k].lockTime;
            if lock < 500_000_000 then n >= lock else net.mtp(ChainHeaders(chain[..n]))(n) >= lock
  {
    var m, mtp := ReplayChain(ops, chain[..n]).utxos, net.mtp(ChainHeaders(chain[..n]));
    BlockAccepted(net, ops, chain, n);
    assert TxAcceptable(net.rules, chain[n].txs[k], m, n, mtp);
  }

  /** Every block is later than the median time of the blocks below it. */
  lemma TimesAdvance(net: Network, ops: Ops, chain: seq<Block>, n: nat)
    requires Implements(net, ops) && ValidChain(ops, chain) && 1 <= n < |chain|
    ensures chain[n].header.timestamp > net.mtp(ChainHeaders(chain[..n]))(n - 1)
  {
    BlockAccepted(net, ops, chain, n);
  }
}
