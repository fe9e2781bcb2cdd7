/** The tree of stored headers: ancestor paths, cumulative work, forks. */
module ChainTree {
  import opened BigEndian
  import opened Primitives

  type Headers = map<Hash, Header>

  /** A header sits one height above its stored parent. */
  ghost predicate HasParent(hs: Headers, h: Hash) {
    h in hs && hs[h].prevHash in hs && hs[h].height == hs[hs[h].prevHash].height + 1
  }

  /** Rooted at `g`; every other header has a parent.  The trigger keeps the solver from walking
      ancestor chains on its own. */
  ghost predicate Tree(hs: Headers, g: Hash) {
    && g in hs && hs[g].height == 0 && hs[g].prevHash == ZERO_HASH
    && ZERO_HASH !in hs
    && forall h {:trigger HasParent(hs, h)} :: h in hs && h != g ==> HasParent(hs, h)
  }

  ghost function Parent(hs: Headers, g: Hash, h: Hash): (p: Hash)
    requires Tree(hs, g) && h in hs && h != g
    ensures p in hs && p == hs[h].prevHash && hs[h].height == hs[p].height + 1
  {
    assert HasParent(hs, h);
    hs[h].prevHash
  }

  /** The path from the root to a header, root first. */
  ghost function PathTo(hs: Headers, g: Hash, h: Hash): (p: seq<Hash>)
    requires Tree(hs, g) && h in hs
    ensures |p| == hs[h].height + 1 && p[|p| - 1] == h
    decreases hs[h].height
  {
    if h == g then [g] else PathTo(hs, g, Parent(hs, g, h)) + [h]
  }

  /** Sum of block works along that path, `w` giving the work of a block's compact bits. */
  ghost function PathWork(w: u32 -> nat, hs: Headers, g: Hash, h: Hash): nat
    requires Tree(hs, g) && h in hs
    decreases hs[h].height
  {
    if h == g then w(hs[h].bits) else PathWork(w, hs, g, Parent(hs, g, h)) + w(hs[h].bits)
  }

  /** Every node of a path is stored, stands at its index's height, and ends its own path. */
  lemma {:induction false} PathNode(hs: Headers, g: Hash, h: Hash, i: nat)
    requires Tree(hs, g) && h in hs && i <= hs[h].height
    ensures var p := PathTo(hs, g, h);
            p[i] in hs && hs[p[i]].height == i && PathTo(hs, g, p[i]) == p[..i + 1]
    ensures PathTo(hs, g, h)[0] == g
    decreases hs[h].height
  {
    var p := PathTo(hs, g, h);
    if h == g {
      assert p[..1] == p;
    } else {
      var q := PathTo(hs, g, Parent(hs, g, h));
      if i < hs[h].height {
        PathNode(hs, g, Parent(hs, g, h), i);
        assert p[..i + 1] == q[..i + 1];
      } else {
        PathNode(hs, g, Parent(hs, g, h), 0);
        assert p[..i + 1] == p;
      }
    }
  }

  /** The parent of path node `i + 1` is path node `i`. */
  lemma PathParent(hs: Headers, g: Hash, h: Hash, i: nat)
    requires Tree(hs, g) && h in hs && i < hs[h].height
    ensures var p := PathTo(hs, g, h);
            p[i + 1] in hs && p[i + 1] != g && hs[p[i + 1]].prevHash == p[i] && p[i] in hs
  {
    var p := PathTo(hs, g, h);
    PathNode(hs, g, h, i);
    PathNode(hs, g, h, i + 1);
    var q := PathTo(hs, g, p[i + 1]);
    assert q[i] == p[i];
    assert q == PathTo(hs, g, Parent(hs, g, p[i + 1])) + [p[i + 1]];
  }

  lemma PathDistinct(hs: Headers, g: Hash, h: Hash, i: nat, j: nat)
    requires Tree(hs, g) && h in hs && i <= hs[h].height && j <= hs[h].height
    requires PathTo(hs, g, h)[i] == PathTo(hs, g, h)[j]
    ensures i == j
  {
    PathNode(hs, g, h, i);
    PathNode(hs, g, h, j);
  }

  /** Storing a child of a known header keeps the tree and every existing path and work. */
  lemma Grow(w: u32 -> nat, hs: Headers, g: Hash, h: Hash, header: Header)
    requires Tree(hs, g) && h !in hs && h != ZERO_HASH
    requires header.prevHash in hs && header.height == hs[header.prevHash].height + 1
    ensures Tree(hs[h := header], g)
    ensures forall k :: k in hs ==> PathTo(hs[h := header], g, k) == PathTo(hs, g, k)
    ensures forall k :: k in hs ==> PathWork(w, hs[h := header], g, k) == PathWork(w, hs, g, k)
  {
    var more := hs[h := header];
    forall k | k in more && k != g ensures HasParent(more, k) {
      if k != h {
        assert HasParent(hs, k);
      }
    }
    forall k | k in hs ensures PathTo(hs[h := header], g, k) == PathTo(hs, g, k)
      && PathWork(w, hs[h := header], g, k) == PathWork(w, hs, g, k) {
      GrowAt(w, hs, hs[h := header], g, k);
    }
  }

  ghost predicate Extends(hs: Headers, more: Headers) {
    forall k :: k in hs ==> k in more && more[k] == hs[k]
  }

  lemma {:induction false} GrowAt(w: u32 -> nat, hs: Headers, more: Headers, g: Hash, k: Hash)
    requires Tree(hs, g) && Tree(more, g) && Extends(hs, more) && k in hs
    ensures PathTo(more, g, k) == PathTo(hs, g, k)
    ensures PathWork(w, more, g, k) == PathWork(w, hs, g, k)
    decreases hs[k].height
  {
    if k != g {
      assert Parent(hs, g, k) == Parent(more, g, k);
      GrowAt(w, hs, more, g, Parent(hs, g, k));
    }
  }

  // ---- forks -----------------------------------------------------------------------------

  /** Length of the longest common prefix. */
  ghost function CommonLen(p: seq<Hash>, q: seq<Hash>): (k: nat)
    ensures k <= |p| && k <= |q|
  {
    if p == [] || q == [] || p[0] != q[0] then 0 else 1 + CommonLen(p[1..], q[1..])
  }

  lemma {:induction false} CommonLenFacts(p: seq<Hash>, q: seq<Hash>)
    ensures var k := CommonLen(p, q);
            p[..k] == q[..k] && (k < |p| && k < |q| ==> p[k] != q[k])
  {
    if p != [] && q != [] && p[0] == q[0] {
      CommonLenFacts(p[1..], q[1..]);
      var k := CommonLen(p[1..], q[1..]);
      assert p[..k + 1] == [p[0]] + p[1..][..k] && q[..k + 1] == [q[0]] + q[1..][..k];
    }
  }

  function Reversed(s: seq<Hash>): (r: seq<Hash>)
    ensures |r| == |s|
    ensures forall i :: 0 <= i < |s| ==> r[i] == s[|s| - 1 - i]
  {
    if s == [] then [] else [s[|s| - 1]] + Reversed(s[..|s| - 1])
  }

  /** Beyond the fork the two paths share no block: a shared block would carry its whole path. */
  lemma BranchesDisjoint(hs: Headers, g: Hash, a: Hash, b: Hash, i: nat, j: nat)
    requires Tree(hs, g) && a in hs && b in hs
    requires i < |PathTo(hs, g, a)| && j < |PathTo(hs, g, b)| && PathTo(hs, g, a)[i] == PathTo(hs, g, b)[j]
    ensures i == j < CommonLen(PathTo(hs, g, a), PathTo(hs, g, b))
  {
    var p, q := PathTo(hs, g, a), PathTo(hs, g, b);
    PathNode(hs, g, a, i);
    PathNode(hs, g, b, j);
    CommonLenFacts(p, q);
    assert p[..i + 1] == q[..i + 1];
    assert forall k :: 0 <= k <= i ==> p[k] == p[..i + 1][k] == q[..i + 1][k] == q[k];
  }

  lemma CommonNonempty(hs: Headers, g: Hash, a: Hash, b: Hash)
    requires Tree(hs, g) && a in hs && b in hs
    ensures CommonLen(PathTo(hs, g, a), PathTo(hs, g, b)) >= 1
  {
    PathNode(hs, g, a, 0);
    PathNode(hs, g, b, 0);
  }
}
