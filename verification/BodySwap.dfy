/** What replacing one stored body does to a rebuild of the indexes. */
module BodySwap {
  import opened BigEndian
  import opened Primitives
  import opened Indexes

  type Scripts = map<seq<byte>, seq<Hash>>

  // ---- what a body enters ------------------------------------------------------------------

  function OutputIds(outputs: seq<TxOut>, script: seq<byte>, id: Hash): seq<Hash> {
    if outputs == [] then [] else
      OutputIds(outputs[..|outputs| - 1], script, id) + if outputs[|outputs| - 1].script == script then [id] else []
  }

  /** The txids a body enters under `script`, one for each output that pays it, in order. */
  function ScriptIds(txid: Tx -> Hash, txs: seq<Tx>, script: seq<byte>): seq<Hash> {
    if txs == [] then [] else
      var last := txs[|txs| - 1];
      ScriptIds(txid, txs[..|txs| - 1], script) + OutputIds(last.outputs, script, txid(last))
  }

  ghost predicate Occurs(txid: Tx -> Hash, txs: seq<Tx>, id: Hash) {
    exists k :: 0 <= k < |txs| && txid(txs[k]) == id
  }

  function Listed(m: Scripts, script: seq<byte>): seq<Hash> {
    if script in m then m[script] else []
  }

  ghost predicate NoneEmpty(m: Scripts) {
    forall s :: s in m ==> m[s] != []
  }

  /** The height an index has for a txid, if any. */
  function HeightOf(x: Index, id: Hash): Option<nat> {
    if id in x.tx then Some(x.tx[id]) else None
  }

  lemma {:induction false} OutputsListed(m: Scripts, outputs: seq<TxOut>, id: Hash, script: seq<byte>)
    ensures Listed(AddOutputs(m, outputs, id), script) == Listed(m, script) + OutputIds(outputs, script, id)
    ensures NoneEmpty(m) ==> NoneEmpty(AddOutputs(m, outputs, id))
  {
    if outputs != [] {
      OutputsListed(m, outputs[..|outputs| - 1], id, script);
    }
  }

  lemma {:induction false} TxsListed(txid: Tx -> Hash, x: Index, txs: seq<Tx>, height: nat, script: seq<byte>)
    ensures var y := AddTxs(txid, x, txs, height);
            && Listed(y.script, script) == Listed(x.script, script) + ScriptIds(txid, txs, script)
            && (NoneEmpty(x.script) ==> NoneEmpty(y.script)) && y.chain == x.chain
  {
    if txs != [] {
      var n := |txs| - 1;
      TxsListed(txid, x, txs[..n], height, script);
      OutputsListed(AddTxs(txid, x, txs[..n], height).script, txs[n].outputs, txid(txs[n]), script);
    }
  }

  lemma OccursStep(txid: Tx -> Hash, txs: seq<Tx>, id: Hash)
    requires txs != []
    ensures Occurs(txid, txs, id) <==> Occurs(txid, txs[..|txs| - 1], id) || txid(txs[|txs| - 1]) == id
  {
    var n := |txs| - 1;
    if Occurs(txid, txs[..n], id) {
      var k :| 0 <= k < n && txid(txs[..n][k]) == id;
      assert txs[k] == txs[..n][k];
    }
    if Occurs(txid, txs, id) && txid(txs[n]) != id {
      var k :| 0 <= k < |txs| && txid(txs[k]) == id;
      assert txs[..n][k] == txs[k];
    }
  }

  lemma {:induction false} TxsEntered(txid: Tx -> Hash, x: Index, txs: seq<Tx>, height: nat, id: Hash)
    ensures HeightOf(AddTxs(txid, x, txs, height), id) == if Occurs(txid, txs, id) then Some(height)
            else HeightOf(x, id)
  {
    if txs != [] {
      TxsEntered(txid, x, txs[..|txs| - 1], height, id);
      OccursStep(txid, txs, id);
    }
  }

  // ---- the rebuild, height by height ---------------------------------------------------------

  function TxsUnder(storage: map<Hash, Block>, h: Hash): seq<Tx> {
    if h in storage then storage[h].txs else []
  }

  function BodyAt(heights: map<nat, Hash>, storage: map<Hash, Block>, i: nat): seq<Tx> {
    if i in heights then TxsUnder(storage, heights[i]) else []
  }

  lemma RebuiltStep(hashing: Hashing, heights: map<nat, Hash>, storage: map<Hash, Block>, n: nat, script: seq<byte>,
                    id: Hash)
    ensures var x, y := Rebuilt(hashing, heights, storage, n), Rebuilt(hashing, heights, storage, n + 1);
            var body := BodyAt(heights, storage, n);
            && Listed(y.script, script) == Listed(x.script, script) + ScriptIds(hashing.txid, body, script)
            && (NoneEmpty(x.script) ==> NoneEmpty(y.script))
            && HeightOf(y, id) == (if Occurs(hashing.txid, body, id) then Some(n) else HeightOf(x, id))
            && y.chain == if n in heights then x.chain[heights[n] := n] else x.chain
  {
    var x := Rebuilt(hashing, heights, storage, n);
    if n in heights {
      var start := x.(chain := x.chain[heights[n] := n]);
      TxsListed(hashing.txid, start, BodyAt(heights, storage, n), n, script);
      TxsEntered(hashing.txid, start, BodyAt(heights, storage, n), n, id);
    }
  }

  lemma {:induction false} RebuiltSane(hashing: Hashing, heights: map<nat, Hash>, storage: map<Hash, Block>, n: nat,
                                       id: Hash)
    ensures var x := Rebuilt(hashing, heights, storage, n); NoneEmpty(x.script) && (id in x.tx ==> x.tx[id] < n)
  {
    if n > 0 {
      RebuiltSane(hashing, heights, storage, n - 1, id);
      RebuiltStep(hashing, heights, storage, n - 1, [], id);
    }
  }

  // ---- one body replaced ---------------------------------------------------------------------

  /** A body stored under a hash in place of another. */
  datatype Swap = Swap(hashing: Hashing, heights: map<nat, Hash>, storage: map<Hash, Block>, hash: Hash, body: Block) {
    function Before(n: nat): Index { Rebuilt(hashing, heights, storage, n) }
    function After(n: nat): Index { Rebuilt(hashing, heights, storage[hash := body], n) }
    function OldIds(script: seq<byte>): seq<Hash> { ScriptIds(hashing.txid, TxsUnder(storage, hash), script) }
    function NewIds(script: seq<byte>): seq<Hash> { ScriptIds(hashing.txid, body.txs, script) }
    ghost predicate InOld(id: Hash) { Occurs(hashing.txid, TxsUnder(storage, hash), id) }
    ghost predicate InNew(id: Hash) { Occurs(hashing.txid, body.txs, id) }
    predicate Hits(i: nat) { i in heights && heights[i] == hash }

    /** `i` is the last of the first `n` heights that carries the hash. */
    ghost predicate Last(n: nat, i: nat) {
      i < n && Hits(i) && forall j :: i < j < n ==> !Hits(j)
    }

    /** The bodies list the same txids under every script, and a txid that only one of them has occurs
        again above height `i`. */
    ghost predicate Alike(n: nat, i: nat) {
      && (forall script :: OldIds(script) == NewIds(script))
      && forall id :: InOld(id) != InNew(id) ==> Again(n, i, id)
    }

    ghost predicate Keeps(n: nat) {
      forall i: nat :: Last(n, i) ==> Alike(n, i)
    }

    ghost predicate Again(n: nat, i: nat, id: Hash) {
      exists j :: i < j < n && Occurs(hashing.txid, BodyAt(heights, storage, j), id)
    }
  }

  lemma ListStep(s: Swap, n: nat, script: seq<byte>)
    ensures var ids := ScriptIds(s.hashing.txid, BodyAt(s.heights, s.storage, n), script);
            && Listed(s.Before(n + 1).script, script) ==
               Listed(s.Before(n).script, script) + (if s.Hits(n) then s.OldIds(script) else ids)
            && Listed(s.After(n + 1).script, script) ==
               Listed(s.After(n).script, script) + (if s.Hits(n) then s.NewIds(script) else ids)
  {
    RebuiltStep(s.hashing, s.heights, s.storage, n, script, Hash(0));
    RebuiltStep(s.hashing, s.heights, s.storage[s.hash := s.body], n, script, Hash(0));
  }

  lemma HeightStep(s: Swap, n: nat, id: Hash)
    ensures var here := Occurs(s.hashing.txid, BodyAt(s.heights, s.storage, n), id);
            && HeightOf(s.Before(n + 1), id) ==
               (if if s.Hits(n) then s.InOld(id) else here then Some(n) else HeightOf(s.Before(n), id))
            && HeightOf(s.After(n + 1), id) ==
               (if if s.Hits(n) then s.InNew(id) else here then Some(n) else HeightOf(s.After(n), id))
  {
    RebuiltStep(s.hashing, s.heights, s.storage, n, [], id);
    RebuiltStep(s.hashing, s.heights, s.storage[s.hash := s.body], n, [], id);
  }

  lemma {:induction false} SameChain(s: Swap, n: nat)
    ensures s.Before(n).chain == s.After(n).chain
  {
    if n > 0 {
      SameChain(s, n - 1);
      RebuiltStep(s.hashing, s.heights, s.storage, n - 1, [], Hash(0));
      RebuiltStep(s.hashing, s.heights, s.storage[s.hash := s.body], n - 1, [], Hash(0));
    }
  }

  /** The longer list makes every longer list. */
  lemma {:induction false} ListsGrow(s: Swap, n: nat, script: seq<byte>)
    ensures var x, y := |s.OldIds(script)|, |s.NewIds(script)|;
            var a, b := |Listed(s.Before(n).script, script)|, |Listed(s.After(n).script, script)|;
            (x <= y ==> a <= b) && (y <= x ==> b <= a)
  {
    if n > 0 {
      ListsGrow(s, n - 1, script);
      LengthStep(s, n - 1, script);
    }
  }

  lemma LengthStep(s: Swap, n: nat, script: seq<byte>)
    ensures var a, b := |Listed(s.Before(n).script, script)|, |Listed(s.After(n).script, script)|;
            var a', b' := |Listed(s.Before(n + 1).script, script)|, |Listed(s.After(n + 1).script, script)|;
            a' - a == b' - b || (a' - a == |s.OldIds(script)| && b' - b == |s.NewIds(script)|)
  {
    ListStep(s, n, script);
  }

  lemma {:induction false} ListsSame(s: Swap, n: nat, script: seq<byte>)
    requires s.OldIds(script) == s.NewIds(script)
    ensures Listed(s.Before(n).script, script) == Listed(s.After(n).script, script)
  {
    if n > 0 {
      ListsSame(s, n - 1, script);
      ListStep(s, n - 1, script);
    }
  }

  lemma TailsEqual<T>(a: seq<T>, x: seq<T>, b: seq<T>, y: seq<T>)
    requires a + x == b + y && |x| == |y|
    ensures a == b && x == y
  {
    assert a == (a + x)[..|a|] == (b + y)[..|b|] == b;
    assert x == (a + x)[|a|..] == (b + y)[|b|..] == y;
  }

  /** At the last height the lists that were equal before must have grown alike. */
  lemma ListsDiffer(s: Swap, i: nat, script: seq<byte>)
    requires s.Hits(i) && s.OldIds(script) != s.NewIds(script)
    ensures Listed(s.Before(i + 1).script, script) != Listed(s.After(i + 1).script, script)
  {
    ListStep(s, i, script);
    ListsGrow(s, i, script);
    var a, b := Listed(s.Before(i).script, script), Listed(s.After(i).script, script);
    if a + s.OldIds(script) == b + s.NewIds(script) {
      TailsEqual(a, s.OldIds(script), b, s.NewIds(script));
    }
  }

  lemma {:induction false} ListsIff(s: Swap, n: nat, i: nat, script: seq<byte>)
    requires s.Last(n, i)
    ensures Listed(s.Before(n).script, script) == Listed(s.After(n).script, script) <==>
              s.OldIds(script) == s.NewIds(script)
    decreases n
  {
    if s.OldIds(script) == s.NewIds(script) {
      ListsSame(s, n, script);
    } else if i == n - 1 {
      ListsDiffer(s, i, script);
    } else {
      ListsIff(s, n - 1, i, script);
      ListsStay(s, n - 1, script);
    }
  }

  lemma ListsStay(s: Swap, n: nat, script: seq<byte>)
    requires !s.Hits(n) && Listed(s.Before(n).script, script) != Listed(s.After(n).script, script)
    ensures Listed(s.Before(n + 1).script, script) != Listed(s.After(n + 1).script, script)
  {
    ListStep(s, n, script);
    var a, b, z := Listed(s.Before(n).script, script), Listed(s.After(n).script, script),
      ScriptIds(s.hashing.txid, BodyAt(s.heights, s.storage, n), script);
    if a + z == b + z {
      TailsEqual(a, z, b, z);
    }
  }

  lemma {:induction false} HeightsSame(s: Swap, n: nat, id: Hash)
    requires !s.InOld(id) && !s.InNew(id)
    ensures HeightOf(s.Before(n), id) == HeightOf(s.After(n), id)
  {
    if n > 0 {
      HeightsSame(s, n - 1, id);
      HeightStep(s, n - 1, id);
    }
  }

  lemma HeightsAt(s: Swap, i: nat, id: Hash)
    requires s.Hits(i)
    ensures HeightOf(s.Before(i + 1), id) == HeightOf(s.After(i + 1), id) <==> (s.InOld(id) <==> s.InNew(id))
  {
    HeightStep(s, i, id);
    RebuiltSane(s.hashing, s.heights, s.storage, i, id);
    RebuiltSane(s.hashing, s.heights, s.storage[s.hash := s.body], i, id);
    if !s.InOld(id) && !s.InNew(id) {
      HeightsSame(s, i, id);
    }
  }

  lemma {:induction false} HeightsIff(s: Swap, n: nat, i: nat, id: Hash)
    requires s.Last(n, i)
    ensures HeightOf(s.Before(n), id) == HeightOf(s.After(n), id) <==>
              (s.InOld(id) <==> s.InNew(id)) || s.Again(n, i, id)
    decreases n
  {
    if i == n - 1 {
      HeightsAt(s, i, id);
    } else {
      HeightsIff(s, n - 1, i, id);
      HeightStep(s, n - 1, id);
      AgainStep(s, n - 1, i, id);
    }
  }

  lemma AgainStep(s: Swap, n: nat, i: nat, id: Hash)
    requires i < n
    ensures s.Again(n + 1, i, id) <==> s.Again(n, i, id) || Occurs(s.hashing.txid, BodyAt(s.heights, s.storage, n), id)
  {
    if Occurs(s.hashing.txid, BodyAt(s.heights, s.storage, n), id) {
      assert i < n < n + 1;
    }
  }

  lemma IndexEqual(x: Index, y: Index)
    requires NoneEmpty(x.script) && NoneEmpty(y.script) && x.chain == y.chain
    ensures x == y <==>
              (forall script :: Listed(x.script, script) == Listed(y.script, script))
                && forall id :: HeightOf(x, id) == HeightOf(y, id)
  {
    if (forall script :: Listed(x.script, script) == Listed(y.script, script))
      && forall id :: HeightOf(x, id) == HeightOf(y, id) {
      forall script ensures script in x.script <==> script in y.script {
        assert Listed(x.script, script) == Listed(y.script, script);
      }
      forall script | script in x.script ensures x.script[script] == y.script[script] {
        assert Listed(x.script, script) == Listed(y.script, script);
      }
      assert x.script == y.script;
      forall id ensures id in x.tx <==> id in y.tx {
        assert HeightOf(x, id) == HeightOf(y, id);
      }
      forall id | id in x.tx ensures x.tx[id] == y.tx[id] {
        assert HeightOf(x, id) == HeightOf(y, id);
      }
      assert x.tx == y.tx;
    }
  }

  /** Replacing a body leaves the rebuild as it was if and only if the two bodies are alike at the last
      height that carries their hash. */
  lemma SwapIff(s: Swap, n: nat, i: nat)
    requires s.Last(n, i)
    ensures s.Before(n) == s.After(n) <==> s.Alike(n, i)
  {
    SameChain(s, n);
    RebuiltSane(s.hashing, s.heights, s.storage, n, Hash(0));
    RebuiltSane(s.hashing, s.heights, s.storage[s.hash := s.body], n, Hash(0));
    IndexEqual(s.Before(n), s.After(n));
    forall script
      ensures Listed(s.Before(n).script, script) == Listed(s.After(n).script, script) <==>
              s.OldIds(script) == s.NewIds(script)
    {
      ListsIff(s, n, i, script);
    }
    forall id
      ensures HeightOf(s.Before(n), id) == HeightOf(s.After(n), id) <==>
              (s.InOld(id) <==> s.InNew(id)) || s.Again(n, i, id)
    {
      HeightsIff(s, n, i, id);
    }
  }

  lemma SwapUnmapped(s: Swap, n: nat)
    requires forall i :: 0 <= i < n ==> !s.Hits(i)
    ensures s.Before(n) == s.After(n)
  {
    forall i | 0 <= i < n && i in s.heights ensures s.heights[i] != s.hash {
      assert !s.Hits(i);
    }
    RebuiltSame(s.hashing, s.heights, s.storage, s.heights, s.storage[s.hash := s.body], n);
  }

  lemma {:induction false} LastHit(s: Swap, n: nat, i: nat)
    requires i < n && s.Hits(i)
    ensures exists k: nat :: s.Last(n, k)
  {
    if s.Hits(n - 1) {
      assert s.Last(n, n - 1);
    } else {
      LastHit(s, n - 1, i);
      var k: nat :| s.Last(n - 1, k);
      assert s.Last(n, k);
    }
  }

  /** Whether the rebuild stays the same: nothing carries the hash, or the bodies are alike where the last
      such height is. */
  lemma SameRebuildIff(s: Swap, n: nat)
    ensures s.Before(n) == s.After(n) <==> s.Keeps(n)
  {
    if i: nat :| i < n && s.Hits(i) {
      LastHit(s, n, i);
      var k: nat :| s.Last(n, k);
      SwapIff(s, n, k);
      forall j: nat | s.Last(n, j) ensures j == k {}
    } else {
      SwapUnmapped(s, n);
    }
  }
}
