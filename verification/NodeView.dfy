/** The chain state as one value, and what a run leaves behind: a log of its steps and what the log says
    about the state. */
module NodeView {
  import opened BigEndian
  import opened Primitives
  import opened Ledger
  import opened ChainLedger
  import opened ActiveChain
  import opened NodeInvariant
  import Indexes

  /** `active` are the blocks connected, genesis first, as they were when connected; `torn` says that a
      failure left the UTXO set between two blocks, `refused` that a heavier branch was stored but not
      switched to, `swapped` that a stored body of a block on the height map was replaced by another;
      `peak` is the greatest height the tip has had. */
  datatype View = View(
    storage: Blocks, work: Works, tip: Hash, height: nat, chainwork: Bytes32,
    active: seq<Block>, utxos: UtxoMap, heights: Heights, undo: Undos, index: Indexes.Index,
    torn: bool, refused: bool, swapped: bool, peak: nat
  )

  ghost function SnapOf(v: View): Snapshot {
    Snapshot(HeadersOf(v.storage), v.tip)
  }

  datatype Outcome = Rejected | Orphaned | Extended | StoredSide | Reorganised | ReorgRefused | LedgerTorn {
    predicate IsOk() {
      Orphaned? || Extended? || StoredSide? || Reorganised?
    }
  }

  /** One step of a run: what became of a block, and whether storing it replaced the stored body of a
      block on the height map. */
  datatype Event = Event(outcome: Outcome, overwrote: bool)

  ghost predicate Happened(log: seq<Event>, o: Outcome) {
    exists i :: 0 <= i < |log| && log[i].outcome == o
  }

  ghost predicate Overwrote(log: seq<Event>) {
    exists i :: 0 <= i < |log| && log[i].overwrote
  }

  /** Whether the indexes may be stale: an overwriting store makes them so, a reorganisation rebuilds them. */
  ghost function StaleAfter(stale: bool, log: seq<Event>): bool {
    if log == [] then stale else
      var e := log[|log| - 1];
      !e.outcome.Reorganised? && (e.overwrote || StaleAfter(stale, log[..|log| - 1]))
  }

  predicate OpenFresh(k: int) { true }

  /** Sealed: the indexes are what a rebuild from height map and storage would produce. */
  ghost predicate Fresh(net: Network, v: View) {
    forall k: int {:trigger OpenFresh(k)} :: OpenFresh(k) ==>
        v.index == Indexes.Rebuilt(net.rules.hashing, v.heights, v.storage, v.height + 1)
  }

  /** Block `i` of `p` is still connected in `q`. */
  ghost predicate Stays(p: View, q: View, i: nat) {
    i < |p.active| && i < |q.active| && q.active[i] == p.active[i]
  }

  /** Blocks at least the reorg limit below the peak stay connected. */
  ghost predicate Finalised(p: View, q: View) {
    && p.peak <= q.peak
    && (!q.torn ==> forall i: nat :: i < |p.active| && i + 100 <= p.peak ==> Stays(p, q, i))
  }

  /** The faults of `q` are those of `p` and the log, nothing else; its indexes are fresh unless the log
      says they may not be; what was final stayed. */
  ghost predicate TracedBy(net: Network, p: View, log: seq<Event>, q: View) {
    && (q.torn <==> p.torn || Happened(log, LedgerTorn))
    && (q.refused <==> p.refused || Happened(log, ReorgRefused))
    && (q.swapped <==> p.swapped || Overwrote(log))
    && (!q.torn && !StaleAfter(!Fresh(net, p), log) ==> Fresh(net, q))
    && Finalised(p, q)
  }

  predicate OpenMoved(k: int, log: seq<Event>) { true }

  /** Sealed: `q` is a later state than `p`, and the log of the steps between them accounts for it. */
  ghost predicate Moved(net: Network, ops: Ops, p: View, log: seq<Event>, q: View) {
    forall k: int {:trigger OpenMoved(k, log)} :: OpenMoved(k, log) ==>
        Later(ops.work, Root0(net), SnapOf(p), SnapOf(q)) && TracedBy(net, p, log, q)
  }

  // ---- composing logs --------------------------------------------------------------------

  lemma HappenedIn(a: seq<Event>, b: seq<Event>, o: Outcome)
    ensures Happened(a + b, o) <==> Happened(a, o) || Happened(b, o)
  {
    if i :| 0 <= i < |a| && a[i].outcome == o {
      assert (a + b)[i] == a[i];
    }
    if i :| 0 <= i < |b| && b[i].outcome == o {
      assert (a + b)[|a| + i] == b[i];
    }
  }

  lemma OverwroteIn(a: seq<Event>, b: seq<Event>)
    ensures Overwrote(a + b) <==> Overwrote(a) || Overwrote(b)
  {
    if i :| 0 <= i < |a| && a[i].overwrote {
      assert (a + b)[i] == a[i];
    }
    if i :| 0 <= i < |b| && b[i].overwrote {
      assert (a + b)[|a| + i] == b[i];
    }
  }

  lemma {:induction false} StaleIn(stale: bool, a: seq<Event>, b: seq<Event>)
    ensures StaleAfter(stale, a + b) == StaleAfter(StaleAfter(stale, a), b)
    decreases |b|
  {
    if b == [] {
      assert a + b == a;
    } else {
      var n := |b| - 1;
      StaleIn(stale, a, b[..n]);
      assert (a + b)[..|a| + n] == a + b[..n];
    }
  }

  lemma {:induction false} StaleMono(log: seq<Event>)
    ensures StaleAfter(false, log) ==> StaleAfter(true, log)
  {
    if log != [] {
      StaleMono(log[..|log| - 1]);
    }
  }

  lemma TracedChain(net: Network, p: View, a: seq<Event>, q: View, b: seq<Event>, r: View)
    requires TracedBy(net, p, a, q) && TracedBy(net, q, b, r)
    ensures TracedBy(net, p, a + b, r)
  {
    HappenedIn(a, b, LedgerTorn);
    HappenedIn(a, b, ReorgRefused);
    OverwroteIn(a, b);
    StaleIn(!Fresh(net, p), a, b);
    StaleMono(b);
    FinalChain(p, q, r);
  }

  lemma FinalChain(p: View, q: View, r: View)
    requires Finalised(p, q) && Finalised(q, r) && (q.torn ==> r.torn)
    ensures Finalised(p, r)
  {
    if !r.torn {
      forall i: nat | i < |p.active| && i + 100 <= p.peak ensures Stays(p, r, i) {
        assert Stays(p, q, i);
        assert Stays(q, r, i);
      }
    }
  }

  lemma MovedChain(net: Network, ops: Ops, p: View, a: seq<Event>, q: View, b: seq<Event>, r: View)
    requires Moved(net, ops, p, a, q) && Moved(net, ops, q, b, r)
    ensures Moved(net, ops, p, a + b, r)
  {
    assert OpenMoved(0, a) && OpenMoved(0, b);
    LaterTrans(ops.work, Root0(net), SnapOf(p), SnapOf(q), SnapOf(r));
    TracedChain(net, p, a, q, b, r);
  }

  /** A single step, flag by flag. */
  lemma TracedStep(net: Network, p: View, e: Event, q: View)
    requires q.torn == (p.torn || e.outcome.LedgerTorn?) && q.refused == (p.refused || e.outcome.ReorgRefused?)
    requires q.swapped == (p.swapped || e.overwrote) && Finalised(p, q)
    requires !q.torn && (e.outcome.Reorganised? || (!e.overwrote && Fresh(net, p))) ==> Fresh(net, q)
    ensures TracedBy(net, p, [e], q)
  {
    StaleOnce(!Fresh(net, p), e);
    assert [e][0] == e;
  }

  lemma StaleOnce(stale: bool, e: Event)
    ensures StaleAfter(stale, [e]) == (!e.outcome.Reorganised? && (e.overwrote || stale))
  {
    assert [e][..0] == [];
  }
}
