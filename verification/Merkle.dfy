/** Merkle roots, inclusion proofs and what a root commits to. */
module Merkle {
  import opened Primitives

  type PairHash = (Hash, Hash) -> Hash

  /** Node `i` of the next level: neighbours are hashed together, an odd last node with itself. */
  function Node(h: PairHash, s: seq<Hash>, i: nat): Hash
    requires 2 * i < |s|
  {
    h(s[2 * i], if 2 * i + 1 < |s| then s[2 * i + 1] else s[2 * i])
  }

  function Level(h: PairHash, s: seq<Hash>): (t: seq<Hash>)
    ensures |t| == (|s| + 1) / 2
    ensures forall i :: 0 <= i < |t| ==> t[i] == Node(h, s, i)
  {
    seq((|s| + 1) / 2, i requires 0 <= i < (|s| + 1) / 2 => Node(h, s, i))
  }

  /** The node a position is hashed with, on a level of `n` nodes. */
  function Sibling(pos: nat, n: nat): (q: nat)
    requires pos < n
    ensures q < n
  {
    if pos % 2 == 1 then pos - 1 else if pos + 1 < n then pos + 1 else n - 1
  }

  function Root(h: PairHash, s: seq<Hash>): Hash
    decreases |s|
  {
    if s == [] then ZERO_HASH else if |s| == 1 then s[0] else Root(h, Level(h, s))
  }

  /** The sibling at every level. */
  function Proof(h: PairHash, s: seq<Hash>, pos: nat): seq<Hash>
    requires |s| <= 1 || pos < |s|
    decreases |s|
  {
    if |s| <= 1 then [] else [s[Sibling(pos, |s|)]] + Proof(h, Level(h, s), pos / 2)
  }

  /** Number of levels above the leaves. */
  function Depth(n: nat): nat {
    if n <= 1 then 0 else 1 + Depth((n + 1) / 2)
  }

  /** Verification: fold the path, the position bits telling left from right. */
  function FoldPath(h: PairHash, node: Hash, pos: nat, path: seq<Hash>): Hash
    decreases |path|
  {
    if path == [] then node
    else FoldPath(h, if pos % 2 == 0 then h(node, path[0]) else h(path[0], node), pos / 2, path[1..])
  }

  // ---- methods ---------------------------------------------------------------------------

  method NextLevel(h: PairHash, s: seq<Hash>) returns (t: seq<Hash>)
    ensures t == Level(h, s)
  {
    t := [];
    var i := 0;
    while i < |s|
      invariant 0 <= i && i == 2 * |t|
      invariant |t| <= (|s| + 1) / 2 && t == Level(h, s)[..|t|]
    {
      var combined := if i + 1 < |s| then h(s[i], s[i + 1]) else h(s[i], s[i]);
      assert Level(h, s)[|t|] == Node(h, s, |t|) == combined;
      t := t + [combined];
      i := i + 2;
    }
    assert t == Level(h, s);
  }

  method CalculateMerkleRoot(h: PairHash, txids: seq<Hash>) returns (r: Hash)
    ensures r == Root(h, txids)
  {
    if txids == [] {
      return ZERO_HASH;
    }
    var hashes := txids;
    while |hashes| > 1
      invariant hashes != [] && Root(h, hashes) == Root(h, txids)
    {
      hashes := NextLevel(h, hashes);
    }
    r := hashes[0];
  }

  method BuildMerkleProof(h: PairHash, txids: seq<Hash>, position: nat) returns (proof: seq<Hash>)
    requires |txids| <= 1 || position < |txids|
    ensures proof == Proof(h, txids, position) && |proof| == Depth(|txids|)
    ensures position < |txids| ==> FoldPath(h, txids[position], position, proof) == Root(h, txids)
  {
    ProofLength(h, txids, position);
    if position < |txids| {
      ProofFolds(h, txids, position);
    }
    proof := CollectSiblings(h, txids, position);
  }

  method CollectSiblings(h: PairHash, txids: seq<Hash>, position: nat) returns (proof: seq<Hash>)
    requires |txids| <= 1 || position < |txids|
    ensures proof == Proof(h, txids, position)
  {
    proof := [];
    if |txids| <= 1 {
      return;
    }
    var hashes, pos := txids, position;
    ghost var rest := Proof(h, txids, position);
    while |hashes| > 1
      invariant 0 <= pos < |hashes|
      invariant rest == Proof(h, hashes, pos)
      invariant proof + rest == Proof(h, txids, position)
    {
      ProofStep(h, hashes, pos);
      var siblingPos := if pos % 2 == 0 then (if pos + 1 < |hashes| - 1 then pos + 1 else |hashes| - 1) else pos - 1;
      assert proof + rest == proof + [rest[0]] + rest[1..];
      proof := proof + [hashes[siblingPos]];
      rest := rest[1..];
      hashes := NextLevel(h, hashes);
      pos := pos / 2;
    }
    assert rest == [];
  }

  lemma ProofStep(h: PairHash, s: seq<Hash>, pos: nat)
    requires |s| > 1 && pos < |s|
    ensures var p := Proof(h, s, pos);
            p != [] && p[0] == s[Sibling(pos, |s|)] && p[1..] == Proof(h, Level(h, s), pos / 2)
  {}

  lemma {:induction false} ProofLength(h: PairHash, s: seq<Hash>, pos: nat)
    requires |s| <= 1 || pos < |s|
    ensures |Proof(h, s, pos)| == Depth(|s|)
    decreases |s|
  {
    if |s| > 1 {
      ProofLength(h, Level(h, s), pos / 2);
    }
  }

  // ---- completeness and soundness of proofs ----------------------------------------------

  /** The path built for a position folds to the root, for every list and position. */
  lemma {:induction false} ProofFolds(h: PairHash, s: seq<Hash>, pos: nat)
    requires pos < |s|
    ensures FoldPath(h, s[pos], pos, Proof(h, s, pos)) == Root(h, s)
    decreases |s|
  {
    if |s| > 1 {
      ProofFolds(h, Level(h, s), pos / 2);
      assert Level(h, s)[pos / 2] == Node(h, s, pos / 2);
      assert Proof(h, s, pos)[1..] == Proof(h, Level(h, s), pos / 2);
    }
  }

  ghost predicate PairInjective(h: PairHash) {
    forall a, b, c, d :: h(a, b) == h(c, d) ==> a == c && b == d
  }

  /** With a collision-free pair hash, a path of full depth that folds to the root proves the leaf
      that stands at that position and no other. */
  lemma {:induction false} ProofSound(h: PairHash, s: seq<Hash>, pos: nat, leaf: Hash, path: seq<Hash>)
    requires PairInjective(h) && pos < |s| && |path| == Depth(|s|)
    requires FoldPath(h, leaf, pos, path) == Root(h, s)
    ensures leaf == s[pos]
    decreases |s|
  {
    if |s| > 1 {
      var up := if pos % 2 == 0 then h(leaf, path[0]) else h(path[0], leaf);
      ProofSound(h, Level(h, s), pos / 2, up, path[1..]);
      assert up == Level(h, s)[pos / 2] == Node(h, s, pos / 2);
    }
  }

  // ---- the root determines the list ------------------------------------------------------

  ghost predicate Distinct<T(!new)>(s: seq<T>) {
    forall i, j :: 0 <= i < j < |s| ==> s[i] != s[j]
  }

  /** Leaves are not pair hashes. */
  ghost predicate LeavesSeparate(h: PairHash, isLeaf: Hash -> bool) {
    forall a, b :: !isLeaf(h(a, b))
  }

  /** `x` is the root of a tree whose left spine has `k` hashes above a leaf. */
  ghost predicate AtHeight(h: PairHash, isLeaf: Hash -> bool, k: nat, x: Hash) {
    if k == 0 then isLeaf(x) else exists a, b :: x == h(a, b) && AtHeight(h, isLeaf, k - 1, a)
  }

  ghost predicate AllAtHeight(h: PairHash, isLeaf: Hash -> bool, k: nat, s: seq<Hash>) {
    forall i :: 0 <= i < |s| ==> AtHeight(h, isLeaf, k, s[i])
  }

  lemma {:induction false} HeightUnique(h: PairHash, isLeaf: Hash -> bool, j: nat, k: nat, x: Hash)
    requires PairInjective(h) && LeavesSeparate(h, isLeaf)
    requires AtHeight(h, isLeaf, j, x) && AtHeight(h, isLeaf, k, x)
    ensures j == k
  {
    if j > 0 && k > 0 {
      var a, b :| x == h(a, b) && AtHeight(h, isLeaf, j - 1, a);
      var c, d :| x == h(c, d) && AtHeight(h, isLeaf, k - 1, c);
      HeightUnique(h, isLeaf, j - 1, k - 1, a);
    }
  }

  lemma LevelKeeps(h: PairHash, isLeaf: Hash -> bool, k: nat, s: seq<Hash>)
    requires PairInjective(h) && Distinct(s) && AllAtHeight(h, isLeaf, k, s)
    ensures Distinct(Level(h, s)) && AllAtHeight(h, isLeaf, k + 1, Level(h, s))
  {
    var t := Level(h, s);
    forall i | 0 <= i < |t| ensures AtHeight(h, isLeaf, k + 1, t[i]) {
      assert t[i] == Node(h, s, i) && AtHeight(h, isLeaf, k, s[2 * i]);
    }
    forall i, j | 0 <= i < j < |t| ensures t[i] != t[j] {
      assert t[i] == Node(h, s, i) && t[j] == Node(h, s, j) && s[2 * i] != s[2 * j];
    }
  }

  lemma {:induction false} RootHeight(h: PairHash, isLeaf: Hash -> bool, k: nat, s: seq<Hash>)
    requires PairInjective(h) && s != [] && Distinct(s) && AllAtHeight(h, isLeaf, k, s)
    ensures AtHeight(h, isLeaf, k + Depth(|s|), Root(h, s))
    decreases |s|
  {
    if |s| > 1 {
      LevelKeeps(h, isLeaf, k, s);
      RootHeight(h, isLeaf, k + 1, Level(h, s));
    }
  }

  /** Equal levels of distinct nodes come from equal lists: the self-paired odd node is the only
      source of ambiguity, and it would need a repeated node on the other side. */
  lemma LevelInjective(h: PairHash, s: seq<Hash>, t: seq<Hash>)
    requires PairInjective(h) && Distinct(s) && Distinct(t) && Level(h, s) == Level(h, t)
    ensures s == t
  {
    var l := Level(h, s);
    if l != [] {
      var i := |l| - 1;
      assert l[i] == Node(h, s, i) == Node(h, t, i);
    }
    assert |s| == |t|;
    forall k | 0 <= k < |s| ensures s[k] == t[k] {
      assert l[k / 2] == Node(h, s, k / 2) == Node(h, t, k / 2);
    }
  }

  lemma {:induction false} RootInjectiveAt(h: PairHash, isLeaf: Hash -> bool, k: nat, s: seq<Hash>, t: seq<Hash>)
    requires PairInjective(h) && LeavesSeparate(h, isLeaf) && s != [] && t != []
    requires Distinct(s) && AllAtHeight(h, isLeaf, k, s)
    requires Distinct(t) && AllAtHeight(h, isLeaf, k, t)
    requires Root(h, s) == Root(h, t)
    ensures s == t
    decreases |s|
  {
    RootHeight(h, isLeaf, k, s);
    RootHeight(h, isLeaf, k, t);
    HeightUnique(h, isLeaf, k + Depth(|s|), k + Depth(|t|), Root(h, s));
    if |s| > 1 {
      LevelKeeps(h, isLeaf, k, s);
      LevelKeeps(h, isLeaf, k, t);
      RootInjectiveAt(h, isLeaf, k + 1, Level(h, s), Level(h, t));
      LevelInjective(h, s, t);
    }
  }

  /** On duplicate-free lists of leaves, of any two lengths, the root determines the list. */
  lemma RootInjective(h: PairHash, isLeaf: Hash -> bool, s: seq<Hash>, t: seq<Hash>)
    requires PairInjective(h) && LeavesSeparate(h, isLeaf) && s != [] && t != []
    requires Distinct(s) && Distinct(t)
    requires forall i :: 0 <= i < |s| ==> isLeaf(s[i])
    requires forall i :: 0 <= i < |t| ==> isLeaf(t[i])
    ensures Root(h, s) == Root(h, t) <==> s == t
  {
    if Root(h, s) == Root(h, t) {
      RootInjectiveAt(h, isLeaf, 0, s, t);
    }
  }

  /** Without distinctness the root is ambiguous: an odd list and the same list with its last
      element repeated have one root. */
  lemma DuplicateTailCollides(h: PairHash, s: seq<Hash>)
    requires |s| > 1 && |s| % 2 == 1
    ensures Root(h, s) == Root(h, s + [s[|s| - 1]])
  {
    SameLevel(h, s, s + [s[|s| - 1]]);
  }

  lemma SameLevel(h: PairHash, s: seq<Hash>, t: seq<Hash>)
    requires |s| % 2 == 1 && t == s + [s[|s| - 1]]
    ensures Level(h, s) == Level(h, t)
  {
    forall i | 0 <= i < |Level(h, s)| ensures Level(h, s)[i] == Level(h, t)[i] {
      SameNode(h, s, t, i);
    }
  }

  lemma SameNode(h: PairHash, s: seq<Hash>, t: seq<Hash>, i: nat)
    requires |s| % 2 == 1 && t == s + [s[|s| - 1]] && 2 * i < |s|
    ensures Node(h, s, i) == Node(h, t, i)
  {}

  function Power(d: nat): (n: nat)
    ensures n > 0
  {
    if d == 0 then 1 else 2 * Power(d - 1)
  }

  /** Hashing the levels of two lists side by side. */
  lemma LevelOfHalves(h: PairHash, a: seq<Hash>, b: seq<Hash>)
    requires |a| % 2 == 0
    ensures Level(h, a + b) == Level(h, a) + Level(h, b)
  {
    forall i | 0 <= i < |Level(h, a + b)| ensures Level(h, a + b)[i] == (Level(h, a) + Level(h, b))[i] {
      NodeOfHalves(h, a, b, i);
    }
  }

  lemma NodeOfHalves(h: PairHash, a: seq<Hash>, b: seq<Hash>, i: nat)
    requires |a| % 2 == 0 && 2 * i < |a + b|
    ensures Node(h, a + b, i) == if 2 * i < |a| then Node(h, a, i) else Node(h, b, i - |a| / 2)
  {}

  /** The tree top down: over a power of two leaves the root is the hash of the left half's root and the right
      half's root, in that order. */
  lemma {:induction false} RootOfHalves(h: PairHash, a: seq<Hash>, b: seq<Hash>, d: nat)
    requires |a| == |b| == Power(d)
    ensures Root(h, a + b) == h(Root(h, a), Root(h, b))
    decreases d
  {
    if d == 0 {
      assert Level(h, a + b) == [h(a[0], b[0])] by {
        assert Node(h, a + b, 0) == h(a[0], b[0]);
      }
    } else {
      LevelOfHalves(h, a, b);
      RootOfHalves(h, Level(h, a), Level(h, b), d - 1);
    }
  }
}
