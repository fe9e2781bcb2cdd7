/** The pool of unconfirmed transactions as a graph: who spends whom, reachability along spends, and
    the walks that collect descendants and ancestors. */
module PoolGraph {
  import opened Primitives

  datatype Entry = Entry(tx: Tx, fee: nat, addedTime: nat, size: nat, sigopCost: nat, ancestorFee: nat,
    ancestorSize: nat)

  type Pool = map<Hash, Entry>
  type Edges = (Hash, Hash) -> bool

  /** `tx` spends some output of transaction `parent`. */
  predicate SpendsFrom(tx: Tx, parent: Hash) {
    exists i :: 0 <= i < |tx.inputs| && tx.inputs[i].prev.txid == parent
  }

  /** Parent to child, children restricted to the pool and outside `stop`. */
  function Down(pool: Pool, stop: set<Hash>): Edges {
    (p, c) => c in pool && c !in stop && SpendsFrom(pool[c].tx, p)
  }

  /** Child to parent, both in the pool. */
  function Up(pool: Pool): Edges {
    (c, p) => c in pool && p in pool && SpendsFrom(pool[c].tx, p)
  }

  // ---- reachability ----------------------------------------------------------------------

  ghost predicate Walk(e: Edges, p: seq<Hash>) {
    forall i :: 0 < i < |p| ==> e(p[i - 1], p[i])
  }

  ghost predicate WalkFrom(e: Edges, a: Hash, b: Hash, p: seq<Hash>) {
    p != [] && p[0] == a && p[|p| - 1] == b && Walk(e, p)
  }

  ghost predicate Reach(e: Edges, a: Hash, b: Hash) {
    exists p :: WalkFrom(e, a, b, p)
  }

  lemma ReachSelf(e: Edges, a: Hash)
    ensures Reach(e, a, a)
  {
    assert WalkFrom(e, a, a, [a]);
  }

  lemma ReachStep(e: Edges, a: Hash, b: Hash, c: Hash)
    requires Reach(e, a, b) && e(b, c)
    ensures Reach(e, a, c)
  {
    var p :| WalkFrom(e, a, b, p);
    assert WalkFrom(e, a, c, p + [c]);
  }

  ghost predicate Closed(e: Edges, s: set<Hash>) {
    forall x, y :: x in s && e(x, y) ==> y in s
  }

  /** A walk cannot leave a closed set. */
  lemma ReachStays(e: Edges, s: set<Hash>, a: Hash, b: Hash)
    requires Closed(e, s) && a in s && Reach(e, a, b)
    ensures b in s
  {
    var p :| WalkFrom(e, a, b, p);
    WalkStays(e, s, p, |p| - 1);
  }

  lemma {:induction false} WalkStays(e: Edges, s: set<Hash>, p: seq<Hash>, i: nat)
    requires Closed(e, s) && Walk(e, p) && i < |p| && p[0] in s
    ensures p[i] in s
  {
    if i > 0 {
      WalkStays(e, s, p, i - 1);
      assert e(p[i - 1], p[i]);
    }
  }

  /** Walks along fewer edges. */
  lemma ReachMore(e: Edges, f: Edges, a: Hash, b: Hash)
    requires Reach(e, a, b) && forall x, y :: e(x, y) ==> f(x, y)
    ensures Reach(f, a, b)
  {
    var p :| WalkFrom(e, a, b, p);
    assert WalkFrom(f, a, b, p);
  }

  /** Reached from one of `roots`. */
  ghost predicate ReachAny(e: Edges, roots: set<Hash>, x: Hash) {
    exists r :: r in roots && Reach(e, r, x)
  }

  lemma ReachAnyStep(e: Edges, roots: set<Hash>, x: Hash, y: Hash)
    requires ReachAny(e, roots, x) && e(x, y)
    ensures ReachAny(e, roots, y)
  {
    var r :| r in roots && Reach(e, r, x);
    ReachStep(e, r, x, y);
  }

  // ---- sums over sets of entries -----------------------------------------------------------

  ghost function Sum(f: Hash -> nat, s: set<Hash>): nat {
    if s == {} then 0 else
      var x :| x in s;
      f(x) + Sum(f, s - {x})
  }

  lemma {:induction false} SumRemove(f: Hash -> nat, s: set<Hash>, x: Hash)
    requires x in s
    ensures Sum(f, s) == f(x) + Sum(f, s - {x})
    decreases |s|
  {
    var y :| y in s && Sum(f, s) == f(y) + Sum(f, s - {y});
    if y != x {
      SumRemove(f, s - {y}, x);
      SumRemove(f, s - {x}, y);
      assert s - {y} - {x} == s - {x} - {y};
    }
  }

  lemma SumAdd(f: Hash -> nat, s: set<Hash>, x: Hash)
    requires x !in s
    ensures Sum(f, s + {x}) == Sum(f, s) + f(x)
  {
    SumRemove(f, s + {x}, x);
    assert s + {x} - {x} == s;
  }

  lemma {:induction false} SumUnion(f: Hash -> nat, s: set<Hash>, t: set<Hash>)
    requires s !! t
    ensures Sum(f, s + t) == Sum(f, s) + Sum(f, t)
    decreases |t|
  {
    if t == {} {
      assert s + t == s;
    } else {
      var x :| x in t;
      SumUnion(f, s, t - {x});
      SumRemove(f, t, x);
      assert s + t == s + (t - {x}) + {x};
      SumAdd(f, s + (t - {x}), x);
    }
  }

  lemma SumSubset(f: Hash -> nat, s: set<Hash>, t: set<Hash>)
    requires s <= t
    ensures Sum(f, s) <= Sum(f, t)
  {
    SumUnion(f, s, t - s);
    assert s + (t - s) == t;
  }

  lemma {:induction false} SumSame(f: Hash -> nat, g: Hash -> nat, s: set<Hash>)
    requires forall x :: x in s ==> f(x) == g(x)
    ensures Sum(f, s) == Sum(g, s)
    decreases |s|
  {
    if s != {} {
      var x :| x in s;
      SumRemove(f, s, x);
      SumRemove(g, s, x);
      SumSame(f, g, s - {x});
    }
  }

  function SizeOf(pool: Pool): Hash -> nat { x => if x in pool then pool[x].size else 0 }
  function FeeOf(pool: Pool): Hash -> nat { x => if x in pool then pool[x].fee else 0 }
  function SigopsOf(pool: Pool): Hash -> nat { x => if x in pool then pool[x].sigopCost else 0 }

  /** Block weight charged for an entry: every byte as a non-witness byte. */
  function WeightOf(pool: Pool): Hash -> nat { x => if x in pool then pool[x].size * 4 else 0 }

  ghost function TotalSize(pool: Pool): nat { Sum(SizeOf(pool), pool.Keys) }
  ghost function TotalFees(pool: Pool): nat { Sum(FeeOf(pool), pool.Keys) }

  // ---- descendants -----------------------------------------------------------------------

  /** The children of `current` outside `before`, each found once. */
  method FreshChildren(pool: Pool, current: Hash, before: set<Hash>) returns (out: set<Hash>, found: seq<Hash>)
    ensures forall c :: c in found <==> Down(pool, before)(current, c)
    ensures forall c :: c in out <==> c in before || c in found
  {
    out, found := before, [];
    var rest := pool.Keys;
    while rest != {}
      invariant forall c :: c in found <==> c !in rest && Down(pool, before)(current, c)
      invariant forall c :: c in out <==> c in before || c in found
      invariant rest <= pool.Keys
      decreases |rest|
    {
      var c :| c in rest;
      if SpendsFrom(pool[c].tx, current) && c !in out {
        out, found := out + {c}, found + [c];
      }
      rest := rest - {c};
    }
  }

  lemma ReachedIsNew(pool: Pool, stop: set<Hash>, root: Hash, x: Hash)
    requires Reach(Down(pool, stop), root, x)
    ensures x == root || (x in pool && x !in stop)
  {
    var p :| WalkFrom(Down(pool, stop), root, x, p);
    if |p| > 1 {
      assert Down(pool, stop)(p[|p| - 2], p[|p| - 1]);
    }
  }

  /** `collect_descendants`: adds everything reachable from `root` without passing through what was
      collected before. */
  method CollectDescendants(pool: Pool, root: Hash, before: set<Hash>) returns (out: set<Hash>)
    requires root in before
    ensures forall x :: x in out <==> x in before || Reach(Down(pool, before), root, x)
  {
    ghost var e := Down(pool, before);
    ReachSelf(e, root);
    forall x | Reach(e, root, x) ensures x == root || x !in before {
      ReachedIsNew(pool, before, root, x);
    }
    out := before;
    var stack := [root];
    while stack != []
      invariant forall x :: x in stack ==> x in out && Reach(e, root, x)
      invariant forall x :: x in before ==> x in out
      invariant forall x :: x in out ==> x in before || Reach(e, root, x)
      invariant forall x, y :: x in out && Reach(e, root, x) && x !in stack && e(x, y) ==> y in out
      invariant root in out
      decreases |pool.Keys - out|, |stack|
    {
      var current := stack[|stack| - 1];
      ghost var was, stack0 := out, stack;
      stack := stack[..|stack| - 1];
      var found;
      out, found := FreshChildren(pool, current, out);
      stack := stack + found;
      Expanded(pool, root, before, was, current, out, found);
      Pushed(e, root, was, stack0, current, out, found, stack);
    }
    DescentDone(e, root, before, out);
  }

  /** One expansion only adds what is reachable, and completes `current`. */
  lemma Expanded(pool: Pool, root: Hash, before: set<Hash>, was: set<Hash>, current: Hash, out: set<Hash>,
                 found: seq<Hash>)
    requires before <= was && Reach(Down(pool, before), root, current)
    requires forall c :: c in found <==> Down(pool, was)(current, c)
    requires forall c :: c in out <==> c in was || c in found
    ensures forall c :: c in found ==> Reach(Down(pool, before), root, c)
    ensures forall y :: Down(pool, before)(current, y) ==> y in out
    ensures |pool.Keys - out| <= |pool.Keys - was| && (found != [] ==> |pool.Keys - out| < |pool.Keys - was|)
  {
    forall c | c in found ensures Reach(Down(pool, before), root, c) {
      ReachStep(Down(pool, before), root, current, c);
    }
    assert pool.Keys - out <= pool.Keys - was;
    if found != [] {
      assert found[0] in found;
      assert pool.Keys - out <= pool.Keys - was - {found[0]};
      SubsetSize(pool.Keys - out, pool.Keys - was - {found[0]});
    } else {
      SubsetSize(pool.Keys - out, pool.Keys - was);
    }
  }

  lemma {:induction false} SubsetSize(s: set<Hash>, t: set<Hash>)
    requires s <= t
    ensures |s| <= |t|
    decreases |s|
  {
    if s != {} {
      var x :| x in s;
      SubsetSize(s - {x}, t - {x});
    }
  }

  lemma Pushed(e: Edges, root: Hash, was: set<Hash>, stack0: seq<Hash>, current: Hash, out: set<Hash>, found: seq<Hash>,
               stack: seq<Hash>)
    requires stack0 != [] && current == stack0[|stack0| - 1] && stack == stack0[..|stack0| - 1] + found
    requires forall c :: c in out <==> c in was || c in found
    requires forall x, y :: x in was && Reach(e, root, x) && x !in stack0 && e(x, y) ==> y in was
    requires forall y :: e(current, y) ==> y in out
    ensures forall x, y :: x in out && Reach(e, root, x) && x !in stack && e(x, y) ==> y in out
    ensures forall x :: x in stack ==> x in stack0 || x in found
  {
    forall x, y | x in out && Reach(e, root, x) && x !in stack && e(x, y) ensures y in out {
      assert x in found ==> x in stack;
      assert x in stack0 ==> x in stack || x == current;
    }
  }

  lemma DescentDone(e: Edges, root: Hash, before: set<Hash>, out: set<Hash>)
    requires root in out && Reach(e, root, root)
    requires forall x, y :: x in out && Reach(e, root, x) && e(x, y) ==> y in out
    ensures forall x :: Reach(e, root, x) ==> x in out
  {
    forall x | Reach(e, root, x) ensures x in out {
      var p :| WalkFrom(e, root, x, p);
      WalkCollected(e, root, out, p, |p| - 1);
    }
  }

  lemma {:induction false} WalkCollected(e: Edges, root: Hash, out: set<Hash>, p: seq<Hash>, i: nat)
    requires root in out && Walk(e, p) && i < |p| && p[0] == root
    requires forall x, y :: x in out && Reach(e, root, x) && e(x, y) ==> y in out
    ensures p[i] in out && Reach(e, root, p[i])
  {
    if i == 0 {
      ReachSelf(e, root);
    } else {
      WalkCollected(e, root, out, p, i - 1);
      assert e(p[i - 1], p[i]);
      ReachStep(e, root, p[i - 1], p[i]);
    }
  }

  ghost function Members(s: seq<Hash>): set<Hash> {
    set x | x in s
  }

  /** Every root with its descendants, on top of `start`; descent never passes through `start`. */
  method Cascade(pool: Pool, start: set<Hash>, roots: seq<Hash>) returns (out: set<Hash>)
    ensures forall x :: x in out <==> x in start || ReachAny(Down(pool, start), Members(roots), x)
  {
    out := start;
    for i := 0 to |roots|
      invariant forall x :: x in out <==> x in start || ReachAny(Down(pool, start), Members(roots[..i]), x)
    {
      ghost var was := out;
      out := CollectDescendants(pool, roots[i], out + {roots[i]});
      assert Members(roots[..i + 1]) == Members(roots[..i]) + {roots[i]};
      forall x ensures x in out <==> x in start || ReachAny(Down(pool, start), Members(roots[..i + 1]), x) {
        CascadeStep(pool, start, Members(roots[..i]), roots[i], was, out, x);
      }
    }
    assert roots[..|roots|] == roots;
  }

  lemma CascadeStep(pool: Pool, start: set<Hash>, done: set<Hash>, root: Hash, was: set<Hash>, out: set<Hash>, x: Hash)
    requires forall y :: y in was <==> y in start || ReachAny(Down(pool, start), done, y)
    requires forall y :: y in out <==> y in was + {root} || Reach(Down(pool, was + {root}), root, y)
    ensures x in out <==> x in start || ReachAny(Down(pool, start), done + {root}, x)
  {
    var e := Down(pool, start);
    if x == root {
      ReachSelf(e, root);
    } else if x in out && x !in was {
      ReachMore(Down(pool, was + {root}), e, root, x);
    }
    if ReachAny(e, done + {root}, x) && !ReachAny(e, done, x) {
      assert Reach(e, root, x);
      var p :| WalkFrom(e, root, x, p);
      CascadeWalk(pool, start, done, root, was, p, |p| - 1);
    }
  }

  lemma {:induction false} CascadeWalk(pool: Pool, start: set<Hash>, done: set<Hash>, root: Hash, was: set<Hash>,
                                       p: seq<Hash>, i: nat)
    requires forall y :: y in was <==> y in start || ReachAny(Down(pool, start), done, y)
    requires Walk(Down(pool, start), p) && i < |p| && p[0] == root
    ensures ReachAny(Down(pool, start), done, p[i]) || Reach(Down(pool, was + {root}), root, p[i])
  {
    var e, f := Down(pool, start), Down(pool, was + {root});
    ReachSelf(f, root);
    if i > 0 {
      CascadeWalk(pool, start, done, root, was, p, i - 1);
      assert e(p[i - 1], p[i]);
      if ReachAny(e, done, p[i - 1]) {
        ReachAnyStep(e, done, p[i - 1], p[i]);
      } else if f(p[i - 1], p[i]) {
        ReachStep(f, root, p[i - 1], p[i]);
      }
    }
  }

  lemma LastPopped(stack: seq<Hash>)
    requires stack != []
    ensures stack == stack[..|stack| - 1] + [stack[|stack| - 1]]
  {}

  lemma InPushed(rest: seq<Hash>, x: Hash)
    ensures forall y :: y in rest + [x] <==> y in rest || y == x
  {}

  ghost predicate Descending(pool: Pool, root: Hash, seen: set<Hash>, stack: seq<Hash>) {
    && (forall x :: x in seen || x in stack ==> Reach(Down(pool, {}), root, x))
    && (root in seen || root in stack)
    && forall x, y :: x in seen && Down(pool, {})(x, y) ==> y in seen || y in stack
  }

  lemma DescendStep(pool: Pool, root: Hash, seen: set<Hash>, rest: seq<Hash>, current: Hash, children: seq<Hash>)
    requires Descending(pool, root, seen, rest + [current]) && forall c :: c in children <==> Down(pool, {})(current, c)
    ensures if current in seen then Descending(pool, root, seen, rest)
            else Descending(pool, root, seen + {current}, rest + children)
    ensures current in pool.Keys + {root}
  {
    InPushed(rest, current);
    ReachedIsNew(pool, {}, root, current);
    forall c | c in children ensures Reach(Down(pool, {}), root, c) {
      ReachStep(Down(pool, {}), root, current, c);
    }
  }

  /** `count_descendants`: everything reachable from `txid`, itself excepted. */
  method CountDescendants(pool: Pool, txid: Hash) returns (n: nat, ghost visited: set<Hash>)
    ensures forall x :: x in visited <==> Reach(Down(pool, {}), txid, x)
    ensures n == |visited| - 1
  {
    var seen: set<Hash> := {};
    ReachSelf(Down(pool, {}), txid);
    var stack := [txid];
    while stack != []
      invariant Descending(pool, txid, seen, stack) && seen <= pool.Keys + {txid}
      decreases |pool.Keys + {txid} - seen|, |stack|
    {
      var current := stack[|stack| - 1];
      LastPopped(stack);
      stack := stack[..|stack| - 1];
      var ignored, children := FreshChildren(pool, current, {});
      DescendStep(pool, txid, seen, stack, current, children);
      if current !in seen {
        assert pool.Keys + {txid} - (seen + {current}) == pool.Keys + {txid} - seen - {current};
        seen := seen + {current};
        stack := stack + children;
      }
    }
    visited := seen;
    forall x | Reach(Down(pool, {}), txid, x) ensures x in seen {
      ReachStays(Down(pool, {}), seen, txid, x);
    }
    n := |seen| - 1;
  }

  // ---- ancestors -------------------------------------------------------------------------

  /** In-pool parents of a transaction and everything above them. */
  ghost predicate IsAncestor(pool: Pool, tx: Tx, a: Hash) {
    exists p :: p in pool && SpendsFrom(tx, p) && Reach(Up(pool), p, a)
  }

  function ParentIds(tx: Tx): (s: seq<Hash>) {
    seq(|tx.inputs|, i requires 0 <= i < |tx.inputs| => tx.inputs[i].prev.txid)
  }

  lemma ParentIdsAre(tx: Tx)
    ensures forall p :: p in ParentIds(tx) <==> SpendsFrom(tx, p)
  {
    forall p | SpendsFrom(tx, p) ensures p in ParentIds(tx) {
      var i :| 0 <= i < |tx.inputs| && tx.inputs[i].prev.txid == p;
      assert ParentIds(tx)[i] == p;
    }
  }

  predicate OpenClimb(k: int) { true }

  /** `ClimbingAt`, sealed. */
  ghost predicate Climbing(pool: Pool, tx: Tx, visited: set<Hash>, stack: seq<Hash>) {
    forall k: int {:trigger OpenClimb(k)} :: OpenClimb(k) ==> ClimbingAt(pool, tx, visited, stack)
  }

  /** What the ancestor walk keeps: everything met is an ancestor, and every parent still to visit is stacked. */
  ghost predicate ClimbingAt(pool: Pool, tx: Tx, visited: set<Hash>, stack: seq<Hash>) {
    && visited <= pool.Keys
    && (forall a :: a in visited || (a in stack && a in pool) ==> IsAncestor(pool, tx, a))
    && (forall p :: p in pool && SpendsFrom(tx, p) ==> p in visited || p in stack)
    && forall x, y :: x in visited && Up(pool)(x, y) ==> y in visited || y in stack
  }

  lemma ClimbStart(pool: Pool, tx: Tx)
    ensures Climbing(pool, tx, {}, ParentIds(tx))
  {
    ParentIdsAre(tx);
    forall a | a in ParentIds(tx) && a in pool ensures IsAncestor(pool, tx, a) {
      ReachSelf(Up(pool), a);
    }
  }

  lemma ClimbStep(pool: Pool, tx: Tx, visited: set<Hash>, rest: seq<Hash>, parent: Hash)
    requires Climbing(pool, tx, visited, rest + [parent])
    ensures if parent in pool && parent !in visited
            then Climbing(pool, tx, visited + {parent}, rest + ParentIds(pool[parent].tx))
            else Climbing(pool, tx, visited, rest)
  {
    assert OpenClimb(0);
    InPushed(rest, parent);
    if parent in pool && parent !in visited {
      assert IsAncestor(pool, tx, parent);
      ParentIdsAre(pool[parent].tx);
      forall a | a in rest + ParentIds(pool[parent].tx) && a in pool ensures IsAncestor(pool, tx, a) {
        if a in ParentIds(pool[parent].tx) {
          AncestorStep(pool, tx, parent, a);
        }
      }
    }
  }

  lemma ClimbDone(pool: Pool, tx: Tx, visited: set<Hash>)
    requires Climbing(pool, tx, visited, [])
    ensures forall a :: a in visited <==> IsAncestor(pool, tx, a)
  {
    assert OpenClimb(0);
    forall a | IsAncestor(pool, tx, a) ensures a in visited {
      var p :| p in pool && SpendsFrom(tx, p) && Reach(Up(pool), p, a);
      ReachStays(Up(pool), visited, p, a);
    }
  }

  lemma CountIn(pool: Pool, visited: set<Hash>, x: Hash)
    requires x in pool && x !in visited
    ensures Sum(FeeOf(pool), visited + {x}) == Sum(FeeOf(pool), visited) + pool[x].fee
    ensures Sum(SizeOf(pool), visited + {x}) == Sum(SizeOf(pool), visited) + pool[x].size
    ensures |pool.Keys - (visited + {x})| < |pool.Keys - visited|
  {
    SumAdd(FeeOf(pool), visited, x);
    SumAdd(SizeOf(pool), visited, x);
    FewerLeft(pool.Keys, visited, x);
  }

  lemma FewerLeft(keys: set<Hash>, visited: set<Hash>, x: Hash)
    requires x in keys && x !in visited
    ensures |keys - (visited + {x})| < |keys - visited|
  {
    assert keys - (visited + {x}) == (keys - visited) - {x};
  }

  /** The ancestor walk behind `count_ancestors` and `compute_ancestor_package`: the visited set and the
      fees and sizes added up along it. */
  method AncestorPackage(pool: Pool, tx: Tx, fee: nat, size: nat)
    returns (visited: set<Hash>, totalFee: nat, totalSize: nat)
    ensures forall a :: a in visited <==> IsAncestor(pool, tx, a)
    ensures totalFee == fee + Sum(FeeOf(pool), visited) && totalSize == size + Sum(SizeOf(pool), visited)
  {
    visited, totalFee, totalSize := {}, fee, size;
    var stack := ParentIds(tx);
    ClimbStart(pool, tx);
    while stack != []
      invariant Climbing(pool, tx, visited, stack)
      invariant totalFee == fee + Sum(FeeOf(pool), visited) && totalSize == size + Sum(SizeOf(pool), visited)
      decreases |pool.Keys - visited|, |stack|
    {
      var parent := stack[|stack| - 1];
      LastPopped(stack);
      stack := stack[..|stack| - 1];
      ClimbStep(pool, tx, visited, stack, parent);
      if parent in pool && parent !in visited {
        CountIn(pool, visited, parent);
        visited := visited + {parent};
        totalFee, totalSize := totalFee + pool[parent].fee, totalSize + pool[parent].size;
        stack := stack + ParentIds(pool[parent].tx);
      }
    }
    ClimbDone(pool, tx, visited);
  }

  lemma AncestorStep(pool: Pool, tx: Tx, a: Hash, b: Hash)
    requires IsAncestor(pool, tx, a) && a in pool && b in pool && SpendsFrom(pool[a].tx, b)
    ensures IsAncestor(pool, tx, b)
  {
    var p :| p in pool && SpendsFrom(tx, p) && Reach(Up(pool), p, a);
    ReachStep(Up(pool), p, a, b);
  }
}
