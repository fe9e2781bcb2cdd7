/** Blocks waiting for an unknown parent, and their index by parent. */
module OrphanPool {
  import opened Primitives
  import opened ActiveChain

  type ByParent = map<Hash, set<Hash>>

  function Waiting(byParent: ByParent, p: Hash): set<Hash> {
    if p in byParent then byParent[p] else {}
  }

  predicate OpenOrphans(k: int, orphans: map<Hash, Block>) { true }

  /** `OrphansListed`, sealed: opened only where a proof asserts the marker. */
  ghost predicate OrphansOk(net: Network, orphans: map<Hash, Block>, byParent: ByParent) {
    forall k: int {:trigger OpenOrphans(k, orphans)} :: OpenOrphans(k, orphans) ==>
        OrphansListed(net, orphans, byParent)
  }

  /** The pool names each block by its hash, and the index lists exactly the pool, parent by parent. */
  ghost predicate OrphansListed(net: Network, orphans: map<Hash, Block>, byParent: ByParent) {
    && (forall c :: c in orphans ==> HashOf(net, orphans[c]) == c)
    && (forall p, c :: c in Waiting(byParent, p) <==> WaitsFor(orphans, c, p))
    && (forall p :: p in byParent ==> byParent[p] != {})
  }

  ghost predicate WaitsFor(orphans: map<Hash, Block>, c: Hash, p: Hash) {
    c in orphans && orphans[c].header.prevHash == p
  }

  function Without(byParent: ByParent, p: Hash, c: Hash): ByParent {
    if p !in byParent then byParent
    else if byParent[p] - {c} == {} then byParent - {p} else byParent[p := byParent[p] - {c}]
  }

  function With(byParent: ByParent, p: Hash, c: Hash): ByParent {
    byParent[p := Waiting(byParent, p) + {c}]
  }

  lemma WaitingWithout(byParent: ByParent, p: Hash, c: Hash, q: Hash)
    ensures Waiting(Without(byParent, p, c), q) == if q == p then Waiting(byParent, p) - {c} else Waiting(byParent, q)
  {}

  lemma WaitingWith(byParent: ByParent, p: Hash, c: Hash, q: Hash)
    ensures Waiting(With(byParent, p, c), q) == if q == p then Waiting(byParent, p) + {c} else Waiting(byParent, q)
  {}

  lemma OrphanDropped(net: Network, orphans: map<Hash, Block>, byParent: ByParent, c: Hash)
    requires OrphansOk(net, orphans, byParent) && c in orphans
    ensures |orphans - {c}| == |orphans| - 1
    ensures OrphansOk(net, orphans - {c}, Without(byParent, orphans[c].header.prevHash, c))
  {
    assert OpenOrphans(0, orphans);
    var p := orphans[c].header.prevHash;
    assert |orphans - {c}| == |orphans| - 1 by {
      assert (orphans - {c}).Keys == orphans.Keys - {c};
      assert |orphans.Keys - {c}| == |orphans.Keys| - 1;
    }
    forall q, d
      ensures d in Waiting(Without(byParent, p, c), q) <==> WaitsFor(orphans - {c}, d, q)
    {
      WaitingWithout(byParent, p, c, q);
      assert d in Waiting(byParent, q) <==> WaitsFor(orphans, d, q);
    }
  }

  lemma IndexAdded(orphans: map<Hash, Block>, byParent: ByParent, h: Hash, b: Block, q: Hash, d: Hash)
    requires h in orphans ==> orphans[h].header == b.header
    requires d in Waiting(byParent, q) <==> WaitsFor(orphans, d, q)
    ensures d in Waiting(With(byParent, b.header.prevHash, h), q) <==> WaitsFor(orphans[h := b], d, q)
  {
    WaitingWith(byParent, b.header.prevHash, h, q);
  }

  lemma OrphanAdded(net: Network, orphans: map<Hash, Block>, byParent: ByParent, b: Block)
    requires OrphansOk(net, orphans, byParent)
    requires HashOf(net, b) in orphans ==> orphans[HashOf(net, b)].header == b.header
    ensures OrphansOk(net, orphans[HashOf(net, b) := b], With(byParent, b.header.prevHash, HashOf(net, b)))
  {
    assert OpenOrphans(0, orphans);
    var h, p := HashOf(net, b), b.header.prevHash;
    forall q, d ensures d in Waiting(With(byParent, p, h), q) <==> WaitsFor(orphans[h := b], d, q) {
      IndexAdded(orphans, byParent, h, b, q, d);
    }
  }

  lemma OrphanNamed(net: Network, orphans: map<Hash, Block>, byParent: ByParent, c: Hash)
    requires OrphansOk(net, orphans, byParent) && c in orphans
    ensures HashOf(net, orphans[c]) == c
  {
    assert OpenOrphans(0, orphans);
  }

  lemma WaitingOnly(net: Network, orphans: map<Hash, Block>, byParent: ByParent, p: Hash)
    requires OrphansOk(net, orphans, byParent)
    ensures forall c :: c in Waiting(byParent, p) <==> WaitsFor(orphans, c, p)
  {
    assert OpenOrphans(0, orphans);
  }
}
