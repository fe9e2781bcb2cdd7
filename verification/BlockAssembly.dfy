/** Choosing pool transactions for a block: packages of unselected ancestors, parents first, within the
    weight and sigop budgets. */
module BlockAssembly {
  import opened Primitives
  import opened PoolGraph

  const MAX_BLOCK_SIGOPS: nat := 80_000

  /** Spending is well-founded: a hash cannot name a transaction that commits to it. */
  ghost predicate Acyclic(pool: Pool, rank: Hash -> nat) {
    forall c, p :: c in pool && p in pool && SpendsFrom(pool[c].tx, p) ==> rank(p) < rank(c)
  }

  ghost predicate NoDup(s: seq<Hash>) {
    forall i, j :: 0 <= i < j < |s| ==> s[i] != s[j]
  }

  /** Every in-pool parent of `id` is already selected or listed. */
  ghost predicate ParentsIn(pool: Pool, done: set<Hash>, list: seq<Hash>, id: Hash)
    requires id in pool
  {
    forall p :: p in pool && SpendsFrom(pool[id].tx, p) ==> p in done || p in list
  }

  predicate OpenOrder(k: int) { true }

  /** `OrderedBy`, sealed. */
  ghost predicate Ordered(pool: Pool, done: set<Hash>, list: seq<Hash>) {
    forall k: int {:trigger OpenOrder(k)} :: OpenOrder(k) ==> OrderedBy(pool, done, list)
  }

  /** Pool entries outside `done`, none twice, parents first. */
  ghost predicate OrderedBy(pool: Pool, done: set<Hash>, list: seq<Hash>) {
    && NoDup(list)
    && (forall i :: 0 <= i < |list| ==> list[i] in pool && list[i] !in done)
    && forall i :: 0 <= i < |list| ==> ParentsIn(pool, done, list[..i], list[i])
  }

  lemma OrderedEmpty(pool: Pool, done: set<Hash>)
    ensures Ordered(pool, done, [])
  {}

  lemma OrderedAppend(pool: Pool, done: set<Hash>, list: seq<Hash>, id: Hash)
    requires Ordered(pool, done, list) && id in pool && id !in done && id !in list && ParentsIn(pool, done, list, id)
    ensures Ordered(pool, done, list + [id])
  {
    assert OpenOrder(0);
    var more := list + [id];
    forall i | 0 <= i < |more| ensures ParentsIn(pool, done, more[..i], more[i]) {
      assert more[..i] == list[..i];
      assert i == |list| ==> list[..i] == list;
    }
  }

  /** A package ordered after what is selected extends the selection's order. */
  lemma {:induction false} OrderedConcat(pool: Pool, order: seq<Hash>, pkg: seq<Hash>)
    requires Ordered(pool, {}, order) && Ordered(pool, Members(order), pkg)
    ensures Ordered(pool, {}, order + pkg)
  {
    assert OpenOrder(0);
    var all := order + pkg;
    forall i, j | 0 <= i < j < |all| ensures all[i] != all[j] {
      if i < |order| <= j {
        assert all[i] in Members(order);
      }
    }
    forall i | 0 <= i < |all| ensures ParentsIn(pool, {}, all[..i], all[i]) {
      if i < |order| {
        assert all[..i] == order[..i];
      } else {
        assert all[..i] == order + pkg[..i - |order|];
        assert ParentsIn(pool, Members(order), pkg[..i - |order|], pkg[i - |order|]);
      }
    }
  }

  /** What `collect_package` has listed on behalf of `id`. */
  ghost predicate ListedFor(pool: Pool, rank: Hash -> nat, id: Hash, before: seq<Hash>, out: seq<Hash>) {
    && |before| <= |out| && out[..|before|] == before
    && forall k :: |before| <= k < |out| ==> Reach(Up(pool), id, out[k]) && rank(out[k]) < rank(id)
  }

  lemma ListParent(pool: Pool, rank: Hash -> nat, id: Hash, parent: Hash, before: seq<Hash>, mid: seq<Hash>,
                   out: seq<Hash>)
    requires Acyclic(pool, rank) && id in pool && parent in pool && SpendsFrom(pool[id].tx, parent)
    requires ListedFor(pool, rank, id, before, mid) && ListedFor(pool, rank, parent, mid, out) && parent !in mid
    ensures parent !in out && ListedFor(pool, rank, id, before, out + [parent])
  {
    var e := Up(pool);
    ReachSelf(e, id);
    ReachStep(e, id, id, parent);
    forall k | |before| <= k < |out| ensures Reach(e, id, out[k]) && rank(out[k]) < rank(id) {
      if k < |mid| {
        assert out[k] == out[..|mid|][k];
      } else {
        ReachThrough(e, id, parent, out[k]);
      }
    }
    forall k | 0 <= k < |out| ensures out[k] != parent {
      if k < |mid| {
        assert out[k] == out[..|mid|][k];
      }
    }
    assert (out + [parent])[..|before|] == out[..|mid|][..|before|];
  }

  lemma ReachThrough(e: Edges, a: Hash, b: Hash, c: Hash)
    requires Reach(e, a, b) && Reach(e, b, c)
    ensures Reach(e, a, c)
  {
    var p :| WalkFrom(e, b, c, p);
    WalkThrough(e, a, p, |p| - 1);
  }

  lemma {:induction false} WalkThrough(e: Edges, a: Hash, p: seq<Hash>, i: nat)
    requires i < |p| && Walk(e, p) && Reach(e, a, p[0])
    ensures Reach(e, a, p[i])
  {
    if i > 0 {
      WalkThrough(e, a, p, i - 1);
      assert e(p[i - 1], p[i]);
      ReachStep(e, a, p[i - 1], p[i]);
    }
  }

  /** `collect_package`: unselected in-pool ancestors of `id`, each after its own. */
  method CollectPackage(pool: Pool, ghost rank: Hash -> nat, id: Hash, selected: set<Hash>, before: seq<Hash>)
    returns (out: seq<Hash>)
    requires Acyclic(pool, rank) && id in pool && Ordered(pool, selected, before)
    ensures Ordered(pool, selected, out) && ListedFor(pool, rank, id, before, out) && ParentsIn(pool, selected, out, id)
    decreases rank(id)
  {
    out := before;
    var inputs := pool[id].tx.inputs;
    for i := 0 to |inputs|
      invariant Ordered(pool, selected, out) && ListedFor(pool, rank, id, before, out)
      invariant forall j :: 0 <= j < i && inputs[j].prev.txid in pool ==>
                  inputs[j].prev.txid in selected || inputs[j].prev.txid in out
    {
      var parent := inputs[i].prev.txid;
      if parent !in selected && parent !in out && parent in pool {
        assert SpendsFrom(pool[id].tx, parent);
        ghost var mid := out;
        out := CollectPackage(pool, rank, parent, selected, out);
        ListParent(pool, rank, id, parent, before, mid, out);
        OrderedAppend(pool, selected, out, parent);
        KeepsListed(mid, out, parent);
        out := out + [parent];
      }
    }
  }

  lemma KeepsListed(mid: seq<Hash>, out: seq<Hash>, parent: Hash)
    requires |mid| <= |out| && out[..|mid|] == mid
    ensures parent in out + [parent] && forall x :: x in mid ==> x in out + [parent]
  {
    assert (out + [parent])[|out|] == parent;
    forall x | x in mid ensures x in out + [parent] {
      var k :| 0 <= k < |mid| && mid[k] == x;
      assert (out + [parent])[k] == out[..|mid|][k];
    }
  }

  // ---- the assembly loop -----------------------------------------------------------------

  /** An entry and all its in-pool ancestors. */
  ghost function Package(pool: Pool, id: Hash): set<Hash> {
    set a | a in pool && Reach(Up(pool), id, a)
  }

  /** Adding the whole package of `id` to the selection would break a budget. */
  ghost predicate Overfull(pool: Pool, selected: set<Hash>, id: Hash, maxWeight: nat) {
    || Sum(WeightOf(pool), selected + Package(pool, id)) > maxWeight
    || Sum(SigopsOf(pool), selected + Package(pool, id)) > MAX_BLOCK_SIGOPS
  }

  /** A selection in order, within both budgets. */
  ghost predicate Selection(pool: Pool, order: seq<Hash>, weight: nat, sigops: nat, maxWeight: nat) {
    && Ordered(pool, {}, order)
    && weight == Sum(WeightOf(pool), Members(order)) <= maxWeight
    && sigops == Sum(SigopsOf(pool), Members(order)) <= MAX_BLOCK_SIGOPS
  }

  lemma SelectionClosed(pool: Pool, order: seq<Hash>)
    requires Ordered(pool, {}, order)
    ensures Members(order) <= pool.Keys && Closed(Up(pool), Members(order))
  {
    assert OpenOrder(0);
    forall x, y | x in Members(order) && Up(pool)(x, y) ensures y in Members(order) {
      var i :| 0 <= i < |order| && order[i] == x;
      assert ParentsIn(pool, {}, order[..i], order[i]);
      assert y in order[..i];
    }
  }

  /** The package listed for `id` with `id` itself is exactly what its ancestors add to the selection. */
  lemma PackageIsNew(pool: Pool, rank: Hash -> nat, id: Hash, selected: set<Hash>, out: seq<Hash>)
    requires Closed(Up(pool), selected) && id in pool && id !in selected
    requires Ordered(pool, selected, out) && ListedFor(pool, rank, id, [], out) && ParentsIn(pool, selected, out, id)
    ensures id !in out && Ordered(pool, selected, out + [id])
    ensures selected !! Members(out + [id]) && selected + Members(out + [id]) == selected + Package(pool, id)
  {
    assert id !in out;
    OrderedAppend(pool, selected, out, id);
    var e, pkg := Up(pool), Members(out + [id]);
    assert pkg == Members(out) + {id};
    PackageClosed(pool, selected, out, id);
    ReachSelf(e, id);
    forall x | x in pkg ensures x in Package(pool, id) && x !in selected {
      assert OpenOrder(0);
    }
    forall x | x in Package(pool, id) ensures x in selected + pkg {
      ReachStays(e, selected + pkg, id, x);
    }
  }

  lemma PackageClosed(pool: Pool, selected: set<Hash>, out: seq<Hash>, id: Hash)
    requires Closed(Up(pool), selected) && id in pool && Ordered(pool, selected, out)
             && ParentsIn(pool, selected, out, id)
    ensures Closed(Up(pool), selected + Members(out + [id]))
  {
    assert OpenOrder(0);
    assert Members(out + [id]) == Members(out) + {id};
    forall x, y | x in selected + Members(out + [id]) && Up(pool)(x, y) ensures y in selected + Members(out + [id]) {
      if x in out {
        var i :| 0 <= i < |out| && out[i] == x;
        assert ParentsIn(pool, selected, out[..i], out[i]);
        assert y in selected || y in out[..i];
      }
    }
  }

  /** Selecting more never makes room. */
  lemma OverfullStays(pool: Pool, selected: set<Hash>, more: set<Hash>, id: Hash, maxWeight: nat)
    requires Overfull(pool, selected, id, maxWeight) && selected <= more
    ensures Overfull(pool, more, id, maxWeight)
  {
    SumSubset(WeightOf(pool), selected + Package(pool, id), more + Package(pool, id));
    SumSubset(SigopsOf(pool), selected + Package(pool, id), more + Package(pool, id));
  }

  method SumOver(f: Hash -> nat, list: seq<Hash>) returns (total: nat)
    requires NoDup(list)
    ensures total == Sum(f, Members(list))
  {
    total := 0;
    assert Members(list[..0]) == {};
    for i := 0 to |list|
      invariant total == Sum(f, Members(list[..i]))
    {
      assert list[..i + 1] == list[..i] + [list[i]];
      assert Members(list[..i + 1]) == Members(list[..i]) + {list[i]};
      SumAdd(f, Members(list[..i]), list[i]);
      total := total + f(list[i]);
    }
    assert list[..|list|] == list;
  }

  /** One candidate: its package joins if both budgets allow. */
  method Consider(pool: Pool, ghost rank: Hash -> nat, maxWeight: nat, id: Hash, order: seq<Hash>, selected: set<Hash>,
                  weight: nat, sigops: nat)
    returns (order': seq<Hash>, selected': set<Hash>, weight': nat, sigops': nat)
    requires Acyclic(pool, rank) && id in pool && Selection(pool, order, weight, sigops, maxWeight)
             && selected == Members(order)
    ensures Selection(pool, order', weight', sigops', maxWeight) && selected' == Members(order')
            && selected <= selected'
    ensures id in order' || Overfull(pool, Members(order'), id, maxWeight)
  {
    order', selected', weight', sigops' := order, selected, weight, sigops;
    if id in selected {
      return;
    }
    SelectionClosed(pool, order);
    OrderedEmpty(pool, selected);
    var out := CollectPackage(pool, rank, id, selected, []);
    PackageIsNew(pool, rank, id, selected, out);
    var pkg := out + [id];
    assert NoDup(pkg) by {
      assert OpenOrder(0);
    }
    var pkgWeight := SumOver(WeightOf(pool), pkg);
    var pkgSigops := SumOver(SigopsOf(pool), pkg);
    SumUnion(WeightOf(pool), selected, Members(pkg));
    SumUnion(SigopsOf(pool), selected, Members(pkg));
    if weight + pkgWeight > maxWeight || sigops + pkgSigops > MAX_BLOCK_SIGOPS {
      return;
    }
    OrderedConcat(pool, order, pkg);
    assert Members(order + pkg) == selected + Members(pkg);
    assert pkg[|out|] == id;
    order', selected' := order + pkg, selected + (set x | x in pkg);
    weight', sigops' := weight + pkgWeight, sigops + pkgSigops;
  }

  predicate OpenLeft(k: int) { true }

  /** Sealed: every candidate already tried and not taken is still too much. */
  ghost predicate LeftOut(pool: Pool, rest: set<Hash>, order: seq<Hash>, maxWeight: nat) {
    forall k: int {:trigger OpenLeft(k)} :: OpenLeft(k) ==>
      forall x :: x in pool && x !in rest && x !in order ==> Overfull(pool, Members(order), x, maxWeight)
  }

  lemma OneLess(pool: Pool, rest: set<Hash>, id: Hash, was: seq<Hash>, order: seq<Hash>, maxWeight: nat)
    requires LeftOut(pool, rest, was, maxWeight) && Members(was) <= Members(order)
    requires id in order || Overfull(pool, Members(order), id, maxWeight)
    ensures LeftOut(pool, rest - {id}, order, maxWeight)
  {
    assert OpenLeft(0);
    forall x | x in pool && x !in rest - {id} && x !in order ensures Overfull(pool, Members(order), x, maxWeight) {
      if x != id {
        assert x !in Members(order);
        OverfullStays(pool, Members(was), Members(order), x, maxWeight);
      }
    }
  }

  /** `get_block_transactions`, for every order in which the candidates may be tried.  The result lists
      pool entries once each, parents before children, with all their ancestors, within both budgets; and
      nothing left out would have fitted with its ancestors. */
  method GetBlockTransactions(pool: Pool, ghost rank: Hash -> nat, maxWeight: nat)
    returns (order: seq<Hash>, txs: seq<Tx>)
    requires Acyclic(pool, rank)
    ensures OrderedBy(pool, {}, order)
    ensures Sum(WeightOf(pool), Members(order)) <= maxWeight && Sum(SigopsOf(pool), Members(order)) <= MAX_BLOCK_SIGOPS
    ensures forall x :: x in pool && x !in order ==> Overfull(pool, Members(order), x, maxWeight)
    ensures 4 * Sum(SizeOf(pool), Members(order)) <= maxWeight && Sum(SigopsOf(pool), Members(order)) <= 80_000
    ensures forall x :: x in pool && x !in order ==>
              || 4 * Sum(SizeOf(pool), Members(order) + Package(pool, x)) > maxWeight
              || Sum(SigopsOf(pool), Members(order) + Package(pool, x)) > 80_000
    ensures |txs| == |order| && forall i :: 0 <= i < |order| ==> order[i] in pool && txs[i] == pool[order[i]].tx
  {
    order := [];
    var selected: set<Hash> := {};
    var weight, sigops, rest := 0, 0, pool.Keys;
    OrderedEmpty(pool, {});
    assert Members(order) == {};
    while rest != {}
      invariant rest <= pool.Keys && Selection(pool, order, weight, sigops, maxWeight) && selected == Members(order)
      invariant LeftOut(pool, rest, order, maxWeight)
      decreases |rest|
    {
      var id :| id in rest;
      ghost var was := order;
      order, selected, weight, sigops := Consider(pool, rank, maxWeight, id, order, selected, weight, sigops);
      OneLess(pool, rest, id, was, order, maxWeight);
      rest := rest - {id};
    }
    assert OpenOrder(0) && OpenLeft(0);
    InBytes(pool, Members(order), maxWeight);
    txs := seq(|order|, i requires 0 <= i < |order| => pool[order[i]].tx);
  }

  /** Weight is four units a byte. */
  lemma {:induction false} FourUnits(pool: Pool, s: set<Hash>)
    ensures Sum(WeightOf(pool), s) == 4 * Sum(SizeOf(pool), s)
    decreases |s|
  {
    if s != {} {
      var x :| x in s;
      SumRemove(WeightOf(pool), s, x);
      SumRemove(SizeOf(pool), s, x);
      FourUnits(pool, s - {x});
    }
  }

  lemma InBytes(pool: Pool, selected: set<Hash>, maxWeight: nat)
    ensures Sum(WeightOf(pool), selected) == 4 * Sum(SizeOf(pool), selected)
    ensures forall x :: Overfull(pool, selected, x, maxWeight) ==>
              || 4 * Sum(SizeOf(pool), selected + Package(pool, x)) > maxWeight
              || Sum(SigopsOf(pool), selected + Package(pool, x)) > 80_000
  {
    FourUnits(pool, selected);
    forall x | Overfull(pool, selected, x, maxWeight)
      ensures || 4 * Sum(SizeOf(pool), selected + Package(pool, x)) > maxWeight
              || Sum(SigopsOf(pool), selected + Package(pool, x)) > 80_000
    {
      FourUnits(pool, selected + Package(pool, x));
    }
  }

  /** Every in-pool ancestor of a listed entry is listed. */
  lemma AncestorsIncluded(pool: Pool, order: seq<Hash>, id: Hash, a: Hash)
    requires OrderedBy(pool, {}, order) && id in order && Reach(Up(pool), id, a)
    ensures a in order
  {
    SelectionClosed(pool, order);
    ReachStays(Up(pool), Members(order), id, a);
  }

  /** A pool that fits is taken whole. */
  lemma EverythingFits(pool: Pool, order: seq<Hash>, maxWeight: nat)
    requires OrderedBy(pool, {}, order)
    requires forall x :: x in pool && x !in order ==> Overfull(pool, Members(order), x, maxWeight)
    requires Sum(WeightOf(pool), pool.Keys) <= maxWeight && Sum(SigopsOf(pool), pool.Keys) <= MAX_BLOCK_SIGOPS
    ensures Members(order) == pool.Keys
  {
    forall x | x in pool ensures x in order {
      SumSubset(WeightOf(pool), Members(order) + Package(pool, x), pool.Keys);
      SumSubset(SigopsOf(pool), Members(order) + Package(pool, x), pool.Keys);
    }
  }
}
