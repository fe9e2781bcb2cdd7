/** What an addition to the pool means for the transactions involved: the rules of BIP 125 and of the package
    limits, in the inputs of the entries themselves. */
module PoolRules {
  import opened BigEndian
  import opened Primitives
  import opened PoolGraph
  import opened Mempool

  // ---- replacement --------------------------------------------------------------------------

  /** Entry `k` and `tx` spend one outpoint. */
  ghost predicate Conflicts(pool: Pool, tx: Tx, k: Hash) {
    && k in pool
    && exists i, j ::
         && 0 <= i < |pool[k].tx.inputs| && 0 <= j < |tx.inputs|
         && pool[k].tx.inputs[i].prev == tx.inputs[j].prev
  }

  /** Entry `k` conflicts with `tx` or descends from one that does. */
  ghost predicate Displaced(pool: Pool, tx: Tx, k: Hash) {
    k in pool && exists r :: Conflicts(pool, tx, r) && Reach(Down(pool, {}), r, k)
  }

  /** Input `j` of `tx` and an entry that spends the same outpoint. */
  ghost predicate ClashAt(pool: Pool, tx: Tx, j: int, k: Hash) {
    && 0 <= j < |tx.inputs| && k in pool
    && exists i :: 0 <= i < |pool[k].tx.inputs| && pool[k].tx.inputs[i].prev == tx.inputs[j].prev
  }

  /** All such pairs. */
  ghost function Clashes(pool: Pool, tx: Tx): set<(int, Hash)> {
    set j, k | 0 <= j < |tx.inputs| && k in pool && ClashAt(pool, tx, j, k) :: (j, k)
  }

  lemma ConflictsAre(pool: Pool, tx: Tx, k: Hash)
    ensures k in DirectConflicts(pool, tx) <==> Conflicts(pool, tx, k)
  {
    if Conflicts(pool, tx, k) {
      var i, j :| && 0 <= i < |pool[k].tx.inputs| && 0 <= j < |tx.inputs|
                  && pool[k].tx.inputs[i].prev == tx.inputs[j].prev;
      assert Spends(pool[k].tx, tx.inputs[j].prev) && Spends(tx, tx.inputs[j].prev);
    }
  }

  lemma DisplacedAre(pool: Pool, tx: Tx, gone: set<Hash>)
    requires forall k :: k in gone <==> Displaced(pool, tx, k)
    ensures gone == Evicted(pool, tx)
  {
    forall k ensures k in gone <==> k in Evicted(pool, tx) {
      if k in gone {
        var r :| Conflicts(pool, tx, r) && Reach(Down(pool, {}), r, k);
        ConflictsAre(pool, tx, r);
      }
      if k in Evicted(pool, tx) {
        var r :| r in DirectConflicts(pool, tx) && Reach(Down(pool, {}), r, k);
        ConflictsAre(pool, tx, r);
      }
    }
  }

  /** The pairs at the first `n` inputs. */
  ghost function ClashesBelow(pool: Pool, tx: Tx, n: int): set<(int, Hash)> {
    set j, k | 0 <= j < n && k in pool && ClashAt(pool, tx, j, k) :: (j, k)
  }

  lemma {:induction false} CountIsClashes(pool: Pool, tx: Tx, n: nat)
    requires n <= |tx.inputs|
    ensures ConflictCount(pool, tx.inputs[..n]) == |ClashesBelow(pool, tx, n)|
    decreases n
  {
    if n > 0 {
      CountIsClashes(pool, tx, n - 1);
      ClashesStep(pool, tx, n - 1);
      assert tx.inputs[..n][..n - 1] == tx.inputs[..n - 1];
    } else {
      assert ClashesBelow(pool, tx, 0) == {};
    }
  }

  lemma ClashesStep(pool: Pool, tx: Tx, m: nat)
    requires m < |tx.inputs|
    ensures |ClashesBelow(pool, tx, m + 1)| == |ClashesBelow(pool, tx, m)| + |ConflictsAt(pool, tx.inputs[m].prev)|
  {
    var here := ConflictsAt(pool, tx.inputs[m].prev);
    var pairs := set k | k in here :: (m, k);
    PairsCount(here, m);
    forall k | k in pool ensures k in here <==> ClashAt(pool, tx, m, k) {}
    assert ClashesBelow(pool, tx, m + 1) == ClashesBelow(pool, tx, m) + pairs;
    assert ClashesBelow(pool, tx, m) !! pairs;
  }

  lemma {:induction false} PairsCount(s: set<Hash>, m: int)
    ensures |set k | k in s :: (m, k)| == |s|
    decreases |s|
  {
    if s != {} {
      var x :| x in s;
      PairsCount(s - {x}, m);
      assert (set k | k in s :: (m, k)) == (set k | k in s - {x} :: (m, k)) + {(m, x)};
    }
  }

  lemma AllClashes(pool: Pool, tx: Tx)
    ensures ConflictCount(pool, tx.inputs) == |Clashes(pool, tx)|
  {
    CountIsClashes(pool, tx, |tx.inputs|);
    assert tx.inputs[..|tx.inputs|] == tx.inputs;
    assert Clashes(pool, tx) == ClashesBelow(pool, tx, |tx.inputs|);
  }

  lemma NoneDisplaced(pool: Pool, tx: Tx, gone: set<Hash>)
    requires forall k :: k in gone <==> Displaced(pool, tx, k)
    ensures gone != {} <==> DirectConflicts(pool, tx) != {}
  {
    DisplacedAre(pool, tx, gone);
    DirectInEvicted(pool, tx);
  }

  /** Some input of `tx` opts in to replacement. */
  ghost predicate OptsIn(tx: Tx) {
    exists i :: 0 <= i < |tx.inputs| && tx.inputs[i].sequence < 0xFFFF_FFFE
  }

  /** Whatever an addition displaces must be paid for: it opts in, conflicts at most 100 times, and its fee
      exceeds those of all it displaces.  Exactly when one of these fails the pool is left alone, with the
      error of the first that does. */
  lemma ReplacementPays(txid: Tx -> Hash, sizeOf: Tx -> nat, rate: (nat, nat) -> int, max: nat, before: Pool,
                        after: Pool, tx: Tx, fee: nat, now: nat, r: AddOutcome, gone: set<Hash>)
    requires Effect(txid, sizeOf, rate, max, before, after, tx, fee, now, r) && txid(tx) !in before
    requires (forall k :: k in gone <==> Displaced(before, tx, k)) && gone != {}
    ensures r.NotReplaceable? <==> !OptsIn(tx)
    ensures r.TooManyConflicts? <==> OptsIn(tx) && |Clashes(before, tx)| > 100
    ensures r.FeeTooLow? <==> OptsIn(tx) && |Clashes(before, tx)| <= 100 && fee <= Sum(FeeOf(before), gone)
    ensures r.NotReplaceable? || r.TooManyConflicts? || r.FeeTooLow? ==> after == before
    ensures r.Added? ==> OptsIn(tx) && |Clashes(before, tx)| <= 100 && fee > Sum(FeeOf(before), gone)
  {
    DisplacedAre(before, tx, gone);
    NoneDisplaced(before, tx, gone);
    AllClashes(before, tx);
    SettledOutcomes(txid, sizeOf, rate, max, before, after, tx, fee, now, r);
  }

  /** After the replacement rules only limits, size arithmetic and capacity can refuse. */
  lemma SettledOutcomes(txid: Tx -> Hash, sizeOf: Tx -> nat, rate: (nat, nat) -> int, max: nat, before: Pool,
                        after: Pool, tx: Tx, fee: nat, now: nat, r: AddOutcome)
    requires Effect(txid, sizeOf, rate, max, before, after, tx, fee, now, r) && txid(tx) !in before
    ensures !Replacement(before, tx, fee).Added? ==> r == Replacement(before, tx, fee) && after == before
    ensures Replacement(before, tx, fee).Added? ==>
              !r.NotReplaceable? && !r.TooManyConflicts? && !r.FeeTooLow? && !r.AlreadyInPool?
  {}

  /** Without conflicts the replacement rules refuse nothing. */
  lemma NothingToReplace(txid: Tx -> Hash, sizeOf: Tx -> nat, rate: (nat, nat) -> int, max: nat, before: Pool,
                         after: Pool, tx: Tx, fee: nat, now: nat, r: AddOutcome)
    requires Effect(txid, sizeOf, rate, max, before, after, tx, fee, now, r) && txid(tx) !in before
    requires forall k :: !Conflicts(before, tx, k)
    ensures !r.NotReplaceable? && !r.TooManyConflicts? && !r.FeeTooLow?
  {
    forall k ensures k !in DirectConflicts(before, tx) && !Displaced(before, tx, k) {
      ConflictsAre(before, tx, k);
    }
    NoneDisplaced(before, tx, {});
    DisplacedAre(before, tx, {});
    assert Clashes(before, tx) == {} by {
      forall j, k | 0 <= j < |tx.inputs| && k in before ensures !ClashAt(before, tx, j, k) {
        assert !Conflicts(before, tx, k);
      }
    }
    AllClashes(before, tx);
    SettledOutcomes(txid, sizeOf, rate, max, before, after, tx, fee, now, r);
  }

  /** A replacement that needs no capacity eviction raises the pool's total fees. */
  lemma ReplacementPaysMore(txid: Tx -> Hash, sizeOf: Tx -> nat, rate: (nat, nat) -> int, max: nat, before: Pool,
                            after: Pool, tx: Tx, fee: nat, now: nat, r: AddOutcome, gone: set<Hash>)
    requires Effect(txid, sizeOf, rate, max, before, after, tx, fee, now, r) && r.Added?
    requires (forall k :: k in gone <==> Displaced(before, tx, k)) && gone != {}
    requires TotalSize(before - gone) + sizeOf(tx) <= max < TWO_64
    ensures TotalFees(after) == TotalFees(before) - Sum(FeeOf(before), gone) + fee > TotalFees(before)
  {
    ReplacementPays(txid, sizeOf, rate, max, before, after, tx, fee, now, r, gone);
    DisplacedAre(before, tx, gone);
    var left := before - gone;
    AddedFits(txid, sizeOf, rate, max, before, after, tx, fee, now, r, gone);
    ReplacementRaisesFees(before, tx, txid(tx), NewEntry(left, tx, fee, sizeOf(tx), now));
  }

  lemma AddedFits(txid: Tx -> Hash, sizeOf: Tx -> nat, rate: (nat, nat) -> int, max: nat, before: Pool,
                  after: Pool, tx: Tx, fee: nat, now: nat, r: AddOutcome, gone: set<Hash>)
    requires Effect(txid, sizeOf, rate, max, before, after, tx, fee, now, r) && r.Added? && gone == Evicted(before, tx)
    requires TotalSize(before - gone) + sizeOf(tx) <= max < TWO_64
    ensures txid(tx) !in before
            && after == (before - gone)[txid(tx) := NewEntry(before - gone, tx, fee, sizeOf(tx), now)]
  {}

  // ---- limits -------------------------------------------------------------------------------

  /** `a` is a pool transaction that `tx` spends from, or an ancestor of one. */
  ghost predicate Above(pool: Pool, tx: Tx, a: Hash) {
    a in pool && exists p :: p in pool && SpendsFrom(tx, p) && Reach(Up(pool), p, a)
  }

  ghost predicate Under(pool: Pool, p: Hash, d: Hash) {
    d in pool && Reach(Down(pool, {}), p, d)
  }

  /** `up` are all pool ancestors of `tx`; `families` gives each pool parent with its descendants. */
  ghost predicate Relatives(pool: Pool, tx: Tx, up: set<Hash>, families: Hash -> set<Hash>) {
    && (forall a :: a in up <==> Above(pool, tx, a))
    && forall p, d :: d in families(p) <==> Under(pool, p, d)
  }

  ghost predicate Crowded(pool: Pool, tx: Tx, families: Hash -> set<Hash>) {
    exists p :: p in pool && SpendsFrom(tx, p) && |families(p)| > 25
  }

  /** After conflicts have left, at most 25 ancestors, and at most 25 transactions in the family of each
      parent before the newcomer joins it; otherwise nothing more changes. */
  lemma LimitsDecide(txid: Tx -> Hash, sizeOf: Tx -> nat, rate: (nat, nat) -> int, max: nat, before: Pool,
                     after: Pool, tx: Tx, fee: nat, now: nat, r: AddOutcome, gone: set<Hash>, up: set<Hash>,
                     families: Hash -> set<Hash>)
    requires Effect(txid, sizeOf, rate, max, before, after, tx, fee, now, r)
    requires forall k :: k in gone <==> Displaced(before, tx, k)
    requires Relatives(before - gone, tx, up, families)
    ensures r.Added? ==> |up| <= 25 && !Crowded(before - gone, tx, families)
    ensures r.TooManyAncestors? ==> |up| > 25 && after == before - gone
    ensures r.TooManyDescendants? ==> |up| <= 25 && Crowded(before - gone, tx, families) && after == before - gone
    ensures r.SizeOverflow? || r.PoolFull? ==> |up| <= 25 && !Crowded(before - gone, tx, families)
  {
    DisplacedAre(before, tx, gone);
    LimitsAre(before - gone, tx, up, families);
    AfterReplacement(txid, sizeOf, rate, max, before, after, tx, fee, now, r, gone);
  }

  /** Outcomes other than the replacement errors come from the limits and the capacity. */
  lemma AfterReplacement(txid: Tx -> Hash, sizeOf: Tx -> nat, rate: (nat, nat) -> int, max: nat, before: Pool,
                         after: Pool, tx: Tx, fee: nat, now: nat, r: AddOutcome, gone: set<Hash>)
    requires Effect(txid, sizeOf, rate, max, before, after, tx, fee, now, r) && gone == Evicted(before, tx)
    ensures r.Added? || r.SizeOverflow? || r.PoolFull? ==> Limits(before - gone, tx).Added?
    ensures r.TooManyAncestors? || r.TooManyDescendants? ==> r == Limits(before - gone, tx) && after == before - gone
  {}

  lemma LimitsAre(pool: Pool, tx: Tx, up: set<Hash>, families: Hash -> set<Hash>)
    requires Relatives(pool, tx, up, families)
    ensures Limits(pool, tx) == if |up| > 25 then TooManyAncestors
                                else if Crowded(pool, tx, families) then TooManyDescendants else Added
  {
    assert up == Ancestors(pool, tx) by {
      forall a ensures a in up <==> a in Ancestors(pool, tx) {
        assert Above(pool, tx, a) <==> a in pool && IsAncestor(pool, tx, a);
      }
    }
    forall p | p in pool ensures families(p) == Family(pool, p) {
      forall d ensures d in families(p) <==> d in Family(pool, p) {
        assert Under(pool, p, d) <==> d in Family(pool, p);
      }
    }
  }

  /** What an added transaction's entry records. */
  lemma AddedEntry(txid: Tx -> Hash, sizeOf: Tx -> nat, rate: (nat, nat) -> int, max: nat, before: Pool, after: Pool,
                   tx: Tx, fee: nat, now: nat, r: AddOutcome, gone: set<Hash>, up: set<Hash>)
    requires Effect(txid, sizeOf, rate, max, before, after, tx, fee, now, r) && r.Added?
    requires forall k :: k in gone <==> Displaced(before, tx, k)
    requires forall a :: a in up <==> Above(before - gone, tx, a)
    ensures txid(tx) in after
    ensures var e := after[txid(tx)];
            && e.tx == tx && e.fee == fee && e.size == sizeOf(tx) && e.addedTime == now
            && e.ancestorFee == fee + Sum(FeeOf(before - gone), up)
            && e.ancestorSize == sizeOf(tx) + Sum(SizeOf(before - gone), up)
    ensures forall k :: k in after && k != txid(tx) ==> k in before && k !in gone && after[k] == before[k]
  {
    DisplacedAre(before, tx, gone);
    var left := before - gone;
    assert up == Ancestors(left, tx) by {
      forall a ensures a in up <==> a in Ancestors(left, tx) {
        assert Above(left, tx, a) <==> a in left && IsAncestor(left, tx, a);
      }
    }
    SettledEntry(rate, left, after, txid(tx), tx, fee, sizeOf(tx), max, now, r);
  }

  lemma SettledEntry(rate: (nat, nat) -> int, left: Pool, after: Pool, id: Hash, tx: Tx, fee: nat, size: nat,
                     max: nat, now: nat, r: AddOutcome)
    requires Settled(rate, r, left, after, id, tx, fee, size, max, now) && r.Added?
    ensures id in after && after[id] == NewEntry(left, tx, fee, size, now)
    ensures forall k :: k in after && k != id ==> k in left && after[k] == left[k]
  {
    forall k | k in after && k != id ensures k in left && after[k] == left[k] {
      assert k in after - {id};
    }
  }
}
