/** The pool of unconfirmed transactions: insertion with BIP 125 replacement, capacity eviction, removal
    by blocks and by age, and what all of them keep. */
module Mempool {
  import opened BigEndian
  import opened Primitives
  import opened PoolGraph

  const MAX_ANCESTORS: nat := 25
  const MAX_DESCENDANTS: nat := 25
  const MAX_RBF_CONFLICTS: nat := 100
  const MEMPOOL_EXPIRY_SECS: nat := 14 * 24 * 60 * 60
  const MAX_STANDARD_TX_SIGOPS_COST: nat := 16_000

  // ---- what a pool keeps -----------------------------------------------------------------

  predicate Spends(tx: Tx, o: OutPoint) {
    exists i :: 0 <= i < |tx.inputs| && tx.inputs[i].prev == o
  }

  ghost predicate NoDoubleSpend(pool: Pool) {
    forall a, b, o :: a in pool && b in pool && Spends(pool[a].tx, o) && Spends(pool[b].tx, o) ==> a == b
  }

  ghost predicate Named(txid: Tx -> Hash, sizeOf: Tx -> nat, pool: Pool) {
    forall k :: k in pool ==> txid(pool[k].tx) == k && pool[k].size == sizeOf(pool[k].tx)
  }

  predicate OpenPool(k: int) { true }

  /** `PoolHolds`, sealed: opened only where a proof asserts the marker. */
  ghost predicate PoolOk(txid: Tx -> Hash, sizeOf: Tx -> nat, pool: Pool, size: nat, max: nat) {
    forall k: int {:trigger OpenPool(k)} :: OpenPool(k) ==> PoolHolds(txid, sizeOf, pool, size, max)
  }

  /** Entries are filed under their ids, sizes add up and fit, no outpoint is spent twice. */
  ghost predicate PoolHolds(txid: Tx -> Hash, sizeOf: Tx -> nat, pool: Pool, size: nat, max: nat) {
    Named(txid, sizeOf, pool) && NoDoubleSpend(pool) && size == TotalSize(pool) <= max
  }

  ghost predicate SubPool(a: Pool, b: Pool) {
    forall k :: k in a ==> k in b && a[k] == b[k]
  }

  lemma {:induction false} TotalWithout(pool: Pool, ids: set<Hash>)
    requires ids <= pool.Keys
    ensures TotalSize(pool - ids) + Sum(SizeOf(pool), ids) == TotalSize(pool)
    ensures TotalFees(pool - ids) + Sum(FeeOf(pool), ids) == TotalFees(pool)
  {
    assert pool.Keys == (pool - ids).Keys + ids;
    SumUnion(SizeOf(pool), (pool - ids).Keys, ids);
    SumUnion(FeeOf(pool), (pool - ids).Keys, ids);
    SumSame(SizeOf(pool), SizeOf(pool - ids), (pool - ids).Keys);
    SumSame(FeeOf(pool), FeeOf(pool - ids), (pool - ids).Keys);
  }

  lemma TotalWith(pool: Pool, id: Hash, e: Entry)
    requires id !in pool
    ensures TotalSize(pool[id := e]) == TotalSize(pool) + e.size && TotalFees(pool[id := e]) == TotalFees(pool) + e.fee
  {
    var more := pool[id := e];
    assert more.Keys == pool.Keys + {id};
    SumAdd(SizeOf(more), pool.Keys, id);
    SumAdd(FeeOf(more), pool.Keys, id);
    SumSame(SizeOf(more), SizeOf(pool), pool.Keys);
    SumSame(FeeOf(more), FeeOf(pool), pool.Keys);
  }

  lemma SingleSum(f: Hash -> nat, x: Hash)
    ensures Sum(f, {x}) == f(x)
  {
    SumAdd(f, {}, x);
    assert {} + {x} == {x};
  }

  lemma Removed(txid: Tx -> Hash, sizeOf: Tx -> nat, pool: Pool, size: nat, max: nat, id: Hash)
    requires PoolOk(txid, sizeOf, pool, size, max) && id in pool
    ensures pool[id].size <= size && PoolOk(txid, sizeOf, pool - {id}, size - pool[id].size, max)
    ensures |pool - {id}| < |pool|
  {
    assert OpenPool(0);
    RemovedTotal(pool, id);
  }

  lemma RemovedTotal(pool: Pool, id: Hash)
    requires id in pool
    ensures TotalSize(pool - {id}) + pool[id].size == TotalSize(pool) && |pool - {id}| < |pool|
  {
    TotalWithout(pool, {id});
    SingleSum(SizeOf(pool), id);
    assert (pool - {id}).Keys == pool.Keys - {id};
  }

  // ---- conflicts -------------------------------------------------------------------------

  function ConflictsAt(pool: Pool, o: OutPoint): set<Hash> {
    set k | k in pool && Spends(pool[k].tx, o)
  }

  /** Conflicts counted input by input. */
  ghost function ConflictCount(pool: Pool, inputs: seq<TxIn>): nat {
    if inputs == [] then 0
      else ConflictCount(pool, inputs[..|inputs| - 1]) + |ConflictsAt(pool, inputs[|inputs| - 1].prev)|
  }

  /** Pool entries that spend an outpoint `tx` spends. */
  ghost function DirectConflicts(pool: Pool, tx: Tx): set<Hash> {
    set k | k in pool && exists o :: Spends(pool[k].tx, o) && Spends(tx, o)
  }

  /** Direct conflicts and all their descendants in the pool. */
  ghost function Evicted(pool: Pool, tx: Tx): set<Hash> {
    set k | k in pool && ReachAny(Down(pool, {}), DirectConflicts(pool, tx), k)
  }

  /** BIP 125 opt-in: some input's sequence is below 0xfffffffe. */
  predicate Signals(tx: Tx) {
    exists i :: 0 <= i < |tx.inputs| && tx.inputs[i].sequence < 0xFFFF_FFFE
  }

  lemma DirectInEvicted(pool: Pool, tx: Tx)
    ensures DirectConflicts(pool, tx) <= Evicted(pool, tx)
  {
    forall k | k in DirectConflicts(pool, tx) ensures k in Evicted(pool, tx) {
      ReachSelf(Down(pool, {}), k);
    }
  }

  lemma NoConflictLeft(pool: Pool, tx: Tx, rest: Pool)
    requires SubPool(rest, pool - Evicted(pool, tx))
    ensures DirectConflicts(rest, tx) == {}
  {
    DirectInEvicted(pool, tx);
    assert DirectConflicts(rest, tx) <= DirectConflicts(pool, tx);
    assert DirectConflicts(rest, tx) <= rest.Keys;
  }

  lemma FewerConflicts(pool: Pool, tx: Tx, rest: Pool)
    requires SubPool(rest, pool)
    ensures DirectConflicts(rest, tx) <= DirectConflicts(pool, tx)
  {}

  lemma Inserted(txid: Tx -> Hash, sizeOf: Tx -> nat, pool: Pool, size: nat, max: nat, e: Entry)
    requires PoolOk(txid, sizeOf, pool, size, max) && DirectConflicts(pool, e.tx) == {} && txid(e.tx) !in pool
    requires e.size == sizeOf(e.tx) && size + e.size <= max
    ensures PoolOk(txid, sizeOf, pool[txid(e.tx) := e], size + e.size, max)
  {
    assert OpenPool(0);
    TotalWith(pool, txid(e.tx), e);
    assert forall k, o :: k in pool && Spends(pool[k].tx, o) && Spends(e.tx, o) ==> k in DirectConflicts(pool, e.tx);
  }

  // ---- the replacement theorems ----------------------------------------------------------

  /** No entry that survives a replacement descends from an evicted one. */
  lemma NoSurvivorDescends(pool: Pool, tx: Tx, gone: Hash, left: Hash)
    requires gone in Evicted(pool, tx) && left in pool - Evicted(pool, tx)
    ensures !Reach(Down(pool, {}), gone, left) && !Reach(Down(pool - Evicted(pool, tx), {}), gone, left)
  {
    var e, s := Down(pool, {}), Evicted(pool, tx);
    forall x, y | x in s && e(x, y) ensures y in s {
      ReachAnyStep(e, DirectConflicts(pool, tx), x, y);
    }
    if Reach(Down(pool - s, {}), gone, left) {
      ReachMore(Down(pool - s, {}), e, gone, left);
    }
    if Reach(e, gone, left) {
      ReachStays(e, s, gone, left);
    }
  }

  /** Replacing raises the pool's total fees by the difference, which rule 3 makes positive. */
  lemma ReplacementRaisesFees(pool: Pool, tx: Tx, id: Hash, e: Entry)
    requires id !in pool && (Evicted(pool, tx) != {} ==> e.fee > Sum(FeeOf(pool), Evicted(pool, tx)))
    ensures var after := (pool - Evicted(pool, tx))[id := e];
            && TotalFees(after) + Sum(FeeOf(pool), Evicted(pool, tx)) == TotalFees(pool) + e.fee
            && (Evicted(pool, tx) != {} || e.fee > 0 ==> TotalFees(after) > TotalFees(pool))
  {
    TotalWithout(pool, Evicted(pool, tx));
    TotalWith(pool - Evicted(pool, tx), id, e);
  }

  // ---- reading the pool ------------------------------------------------------------------

  /** Entries conflicting with the inputs, once per input. */
  method FindConflicts(pool: Pool, tx: Tx) returns (conflicts: seq<Hash>)
    ensures Members(conflicts) == DirectConflicts(pool, tx) && |conflicts| == ConflictCount(pool, tx.inputs)
  {
    conflicts := [];
    for i := 0 to |tx.inputs|
      invariant |conflicts| == ConflictCount(pool, tx.inputs[..i])
      invariant forall k :: k in conflicts <==> exists j :: 0 <= j < i && k in ConflictsAt(pool, tx.inputs[j].prev)
    {
      ghost var before := conflicts;
      var rest := ConflictsAt(pool, tx.inputs[i].prev);
      ghost var n := |conflicts| + |rest|;
      while rest != {}
        invariant |conflicts| + |rest| == n && rest <= ConflictsAt(pool, tx.inputs[i].prev)
        invariant forall k :: k in conflicts <==>
                    k in before || (k in ConflictsAt(pool, tx.inputs[i].prev) && k !in rest)
        decreases |rest|
      {
        var k :| k in rest;
        conflicts, rest := conflicts + [k], rest - {k};
      }
      assert tx.inputs[..i + 1][..i] == tx.inputs[..i];
    }
    assert tx.inputs[..|tx.inputs|] == tx.inputs;
  }

  /** The sum a loop over a set accumulates, in whatever order. */
  method SumFees(pool: Pool, ids: set<Hash>) returns (total: nat)
    ensures total == Sum(FeeOf(pool), ids)
  {
    total := 0;
    var rest := ids;
    while rest != {}
      invariant total + Sum(FeeOf(pool), rest) == Sum(FeeOf(pool), ids)
      decreases |rest|
    {
      var x :| x in rest;
      SumRemove(FeeOf(pool), rest, x);
      total := total + if x in pool then pool[x].fee else 0;
      rest := rest - {x};
    }
  }

  datatype AddOutcome =
    | Added | AlreadyInPool | NotReplaceable | TooManyConflicts | FeeTooLow
    | TooManyAncestors | TooManyDescendants | SizeOverflow | PoolFull

  /** The verdict of the replacement rules alone. */
  ghost function Replacement(pool: Pool, tx: Tx, fee: nat): AddOutcome {
    if DirectConflicts(pool, tx) != {} && !Signals(tx) then NotReplaceable
    else if ConflictCount(pool, tx.inputs) > MAX_RBF_CONFLICTS then TooManyConflicts
    else if Evicted(pool, tx) != {} && fee <= Sum(FeeOf(pool), Evicted(pool, tx)) then FeeTooLow
    else Added
  }

  /** BIP 125 checks; on success the set to evict. */
  method PlanReplacement(pool: Pool, tx: Tx, fee: nat) returns (r: AddOutcome, evict: set<Hash>)
    ensures r == Replacement(pool, tx, fee) && (r.Added? ==> evict == Evicted(pool, tx))
  {
    evict := {};
    var conflicts := FindConflicts(pool, tx);
    assert conflicts != [] ==> conflicts[0] in Members(conflicts);
    assert conflicts == [] ==> Members(conflicts) == {};
    if conflicts != [] && !Signals(tx) {
      return NotReplaceable, evict;
    }
    if |conflicts| > MAX_RBF_CONFLICTS {
      return TooManyConflicts, evict;
    }
    evict := Cascade(pool, {}, conflicts);
    CascadeIsEvicted(pool, tx, evict);
    var aggregate := SumFees(pool, evict);
    r := if evict != {} && fee <= aggregate then FeeTooLow else Added;
  }

  lemma CascadeIsEvicted(pool: Pool, tx: Tx, out: set<Hash>)
    requires forall x :: x in out <==> x in {} || ReachAny(Down(pool, {}), DirectConflicts(pool, tx), x)
    ensures out == Evicted(pool, tx)
  {
    forall x | x in out ensures x in pool {
      var r :| r in DirectConflicts(pool, tx) && Reach(Down(pool, {}), r, x);
      ReachedIsNew(pool, {}, r, x);
    }
  }

  ghost function Ancestors(pool: Pool, tx: Tx): set<Hash> {
    set a | a in pool && IsAncestor(pool, tx, a)
  }

  /** A pool transaction with everything that descends from it. */
  ghost function Family(pool: Pool, id: Hash): set<Hash> {
    set x | x in pool && Reach(Down(pool, {}), id, x)
  }

  /** The ancestor limit, then for each in-pool parent its descendants with the newcomer. */
  ghost function Limits(pool: Pool, tx: Tx): AddOutcome {
    if |Ancestors(pool, tx)| > MAX_ANCESTORS then TooManyAncestors
    else if exists p :: p in pool && SpendsFrom(tx, p) && |Family(pool, p)| > MAX_DESCENDANTS then TooManyDescendants
    else Added
  }

  method CheckLimits(pool: Pool, tx: Tx, fee: nat, size: nat)
    returns (r: AddOutcome, ancestorFee: nat, ancestorSize: nat)
    ensures r == Limits(pool, tx)
    ensures ancestorFee == fee + Sum(FeeOf(pool), Ancestors(pool, tx))
            && ancestorSize == size + Sum(SizeOf(pool), Ancestors(pool, tx))
  {
    var visited;
    visited, ancestorFee, ancestorSize := AncestorPackage(pool, tx, fee, size);
    AncestorsInPool(pool, tx, visited);
    if |visited| > MAX_ANCESTORS {
      return TooManyAncestors, ancestorFee, ancestorSize;
    }
    for i := 0 to |tx.inputs|
      invariant forall j :: 0 <= j < i && tx.inputs[j].prev.txid in pool ==>
                  |Family(pool, tx.inputs[j].prev.txid)| <= MAX_DESCENDANTS
    {
      var parent := tx.inputs[i].prev.txid;
      if parent in pool {
        var n, family := CountDescendants(pool, parent);
        FamilyInPool(pool, parent, family);
        if n + 1 > MAX_DESCENDANTS {
          assert SpendsFrom(tx, parent);
          return TooManyDescendants, ancestorFee, ancestorSize;
        }
      }
    }
    r := Added;
  }

  lemma AncestorsInPool(pool: Pool, tx: Tx, visited: set<Hash>)
    requires forall a :: a in visited <==> IsAncestor(pool, tx, a)
    ensures visited == Ancestors(pool, tx)
  {
    forall a | a in visited ensures a in pool {
      var p :| p in pool && SpendsFrom(tx, p) && Reach(Up(pool), p, a);
      assert Closed(Up(pool), pool.Keys);
      ReachStays(Up(pool), pool.Keys, p, a);
    }
  }

  lemma FamilyInPool(pool: Pool, id: Hash, family: set<Hash>)
    requires id in pool && forall x :: x in family <==> Reach(Down(pool, {}), id, x)
    ensures family == Family(pool, id)
  {
    forall x | x in family ensures x in pool {
      ReachedIsNew(pool, {}, id, x);
    }
  }

  // ---- confirmation ----------------------------------------------------------------------

  function ConfirmedIds(txid: Tx -> Hash, txs: seq<Tx>): set<Hash> {
    set i | 0 <= i < |txs| && !IsCoinbase(txs[i]) :: txid(txs[i])
  }

  /** Outpoints spent by the block's non-coinbase transactions, null ones excepted. */
  function ConfirmedSpends(txs: seq<Tx>): set<OutPoint> {
    set i, j | 0 <= i < |txs| && !IsCoinbase(txs[i]) && 0 <= j < |txs[i].inputs|
      && txs[i].inputs[j].prev != NULL_OUTPOINT ::
      txs[i].inputs[j].prev
  }

  /** Some input spends one of `spent`. */
  predicate SpendsAny(tx: Tx, spent: set<OutPoint>) {
    exists i :: 0 <= i < |tx.inputs| && tx.inputs[i].prev in spent
  }

  /** Entries that are not confirmed themselves but spend what the block spent. */
  function ConflictRoots(pool: Pool, confirmed: set<Hash>, spent: set<OutPoint>): set<Hash> {
    set k | k in pool && k !in confirmed && SpendsAny(pool[k].tx, spent)
  }

  /** Confirmed entries, conflicting ones, and what descends from those without passing through a
      confirmed entry. */
  ghost function Outdated(pool: Pool, confirmed: set<Hash>, spent: set<OutPoint>): set<Hash> {
    set k | k in pool
      && (k in confirmed || ReachAny(Down(pool, pool.Keys * confirmed), ConflictRoots(pool, confirmed, spent), k))
  }

  /** Entry `k` is a transaction of the block. */
  ghost predicate InBlock(txid: Tx -> Hash, txs: seq<Tx>, k: Hash) {
    exists i :: 0 <= i < |txs| && !IsCoinbase(txs[i]) && txid(txs[i]) == k
  }

  /** `tx` spends an outpoint that a transaction of the block spends. */
  ghost predicate SpentByBlock(txs: seq<Tx>, tx: Tx) {
    exists i, j, x ::
      && 0 <= i < |txs| && !IsCoinbase(txs[i]) && 0 <= j < |txs[i].inputs| && txs[i].inputs[j].prev != NULL_OUTPOINT
      && 0 <= x < |tx.inputs| && tx.inputs[x].prev == txs[i].inputs[j].prev
  }

  ghost function Confirmed(txid: Tx -> Hash, pool: Pool, txs: seq<Tx>): set<Hash> {
    set k | k in pool && InBlock(txid, txs, k)
  }

  lemma BlockSets(txid: Tx -> Hash, pool: Pool, txs: seq<Tx>)
    ensures forall k :: k in ConfirmedIds(txid, txs) <==> InBlock(txid, txs, k)
    ensures forall k :: k in pool ==> (SpendsAny(pool[k].tx, ConfirmedSpends(txs)) <==> SpentByBlock(txs, pool[k].tx))
    ensures pool.Keys * ConfirmedIds(txid, txs) == Confirmed(txid, pool, txs)
  {
    forall k | k in pool ensures SpendsAny(pool[k].tx, ConfirmedSpends(txs)) <==> SpentByBlock(txs, pool[k].tx) {
      SpendsAre(txs, pool[k].tx);
    }
  }

  lemma SpendsAre(txs: seq<Tx>, tx: Tx)
    ensures SpendsAny(tx, ConfirmedSpends(txs)) <==> SpentByBlock(txs, tx)
  {
    if SpentByBlock(txs, tx) {
      var i, j, x :|
        && 0 <= i < |txs| && !IsCoinbase(txs[i]) && 0 <= j < |txs[i].inputs| && txs[i].inputs[j].prev != NULL_OUTPOINT
        && 0 <= x < |tx.inputs| && tx.inputs[x].prev == txs[i].inputs[j].prev;
      assert txs[i].inputs[j].prev in ConfirmedSpends(txs);
    }
  }

  /** Exactly these entries leave when the block is confirmed: its own transactions, those that spend what it
      spent, and what descends from those without passing through its own. */
  ghost predicate Leaves(txid: Tx -> Hash, pool: Pool, txs: seq<Tx>, k: Hash) {
    || InBlock(txid, txs, k)
    || exists r :: r in pool && !InBlock(txid, txs, r) && SpentByBlock(txs, pool[r].tx)
                   && Reach(Down(pool, Confirmed(txid, pool, txs)), r, k)
  }

  lemma BlockLeaves(txid: Tx -> Hash, pool: Pool, txs: seq<Tx>, k: Hash)
    requires k in pool
    ensures k in Outdated(pool, ConfirmedIds(txid, txs), ConfirmedSpends(txs)) <==> Leaves(txid, pool, txs, k)
  {
    var confirmed, spent := ConfirmedIds(txid, txs), ConfirmedSpends(txs);
    BlockSets(txid, pool, txs);
    forall r ensures r in ConflictRoots(pool, confirmed, spent) <==>
                       r in pool && !InBlock(txid, txs, r) && SpentByBlock(txs, pool[r].tx) {}
  }

  /** What confirming a block does: exactly those entries leave, no entry of the block and none that spends what
      it spent is left, and what else leaves descends from such a spender. */
  ghost predicate BlockTaken(txid: Tx -> Hash, before: Pool, txs: seq<Tx>, after: Pool) {
    && SubPool(after, before) && (forall k :: k in before ==> (k in after <==> !Leaves(txid, before, txs, k)))
    && (forall k :: k in after ==> !InBlock(txid, txs, k) && !SpentByBlock(txs, after[k].tx))
    && forall k :: k in before && k !in after && !InBlock(txid, txs, k) ==> UnderSpender(before, txs, k)
  }

  ghost predicate UnderSpender(pool: Pool, txs: seq<Tx>, k: Hash) {
    exists r :: r in pool && SpentByBlock(txs, pool[r].tx) && Reach(Down(pool, {}), r, k)
  }

  lemma LeftUnderSpender(txid: Tx -> Hash, pool: Pool, txs: seq<Tx>, k: Hash)
    requires Leaves(txid, pool, txs, k) && !InBlock(txid, txs, k)
    ensures UnderSpender(pool, txs, k)
  {
    var r :| r in pool && !InBlock(txid, txs, r) && SpentByBlock(txs, pool[r].tx)
             && Reach(Down(pool, Confirmed(txid, pool, txs)), r, k);
    ReachMore(Down(pool, Confirmed(txid, pool, txs)), Down(pool, {}), r, k);
  }

  lemma StayedOut(txid: Tx -> Hash, pool: Pool, txs: seq<Tx>, k: Hash)
    requires k in pool && !Leaves(txid, pool, txs, k)
    ensures !InBlock(txid, txs, k) && !SpentByBlock(txs, pool[k].tx)
  {
    ReachSelf(Down(pool, Confirmed(txid, pool, txs)), k);
  }

  lemma BlockIsTaken(txid: Tx -> Hash, before: Pool, txs: seq<Tx>, after: Pool)
    requires after == before - Outdated(before, ConfirmedIds(txid, txs), ConfirmedSpends(txs))
    ensures BlockTaken(txid, before, txs, after)
    ensures |Outdated(before, ConfirmedIds(txid, txs), ConfirmedSpends(txs))| == |before| - |after|
  {
    forall k | k in before
      ensures k in after <==> !Leaves(txid, before, txs, k)
      ensures k in after ==> !InBlock(txid, txs, k) && !SpentByBlock(txs, before[k].tx)
      ensures k !in after && !InBlock(txid, txs, k) ==> UnderSpender(before, txs, k)
    {
      BlockLeaves(txid, before, txs, k);
      if k in after {
        StayedOut(txid, before, txs, k);
      } else if !InBlock(txid, txs, k) {
        LeftUnderSpender(txid, before, txs, k);
      }
    }
    RemovedCount(before, Outdated(before, ConfirmedIds(txid, txs), ConfirmedSpends(txs)));
  }

  lemma RemovedCount(pool: Pool, gone: set<Hash>)
    requires gone <= pool.Keys
    ensures |gone| == |pool| - |pool - gone|
  {
    assert pool.Keys == (pool - gone).Keys + gone;
  }

  /** After a block nothing in the pool is confirmed or spends an outpoint the block spent. */
  lemma NothingSpentTwice(pool: Pool, confirmed: set<Hash>, spent: set<OutPoint>, k: Hash)
    requires k in pool - Outdated(pool, confirmed, spent)
    ensures k !in confirmed && !SpendsAny(pool[k].tx, spent)
  {
    ReachSelf(Down(pool, pool.Keys * confirmed), k);
    assert k in ConflictRoots(pool, confirmed, spent) ==> k in Outdated(pool, confirmed, spent);
  }

  /** A child of a confirmed entry stays unless it conflicts or descends from a conflict otherwise. */
  lemma SurvivorsStay(pool: Pool, confirmed: set<Hash>, spent: set<OutPoint>, k: Hash)
    requires k in pool && k !in confirmed && !SpendsAny(pool[k].tx, spent)
    requires forall p :: p in pool && SpendsFrom(pool[k].tx, p) ==> p in confirmed
    ensures k in pool - Outdated(pool, confirmed, spent)
  {
    var e, roots := Down(pool, pool.Keys * confirmed), ConflictRoots(pool, confirmed, spent);
    if ReachAny(e, roots, k) {
      var r :| r in roots && Reach(e, r, k);
      OnlyThroughParents(pool, pool.Keys * confirmed, r, k);
    }
  }

  lemma OnlyThroughParents(pool: Pool, stop: set<Hash>, r: Hash, k: Hash)
    requires Reach(Down(pool, stop), r, k) && r in pool && r !in stop && k in pool
    requires forall p :: p in pool && SpendsFrom(pool[k].tx, p) ==> p in stop
    ensures r == k
  {
    var p :| WalkFrom(Down(pool, stop), r, k, p);
    if |p| > 1 {
      assert Down(pool, stop)(p[|p| - 2], p[|p| - 1]);
      assert WalkFrom(Down(pool, stop), r, p[|p| - 2], p[..|p| - 1]);
      ReachedIsNew(pool, stop, r, p[|p| - 2]);
    }
  }

  method InAnyOrder(s: set<Hash>) returns (list: seq<Hash>)
    ensures Members(list) == s
  {
    list := [];
    var rest := s;
    while rest != {}
      invariant rest <= s && forall x :: x in list <==> x in s && x !in rest
      decreases |rest|
    {
      var x :| x in rest;
      list, rest := list + [x], rest - {x};
    }
  }

  lemma CascadeIsOutdated(pool: Pool, confirmed: set<Hash>, spent: set<OutPoint>, out: set<Hash>)
    requires forall x :: x in out <==>
      x in pool.Keys * confirmed
        || ReachAny(Down(pool, pool.Keys * confirmed), ConflictRoots(pool, confirmed, spent), x)
    ensures out == Outdated(pool, confirmed, spent)
  {
    forall x | x in out ensures x in pool {
      if x !in pool.Keys * confirmed {
        var r :| r in ConflictRoots(pool, confirmed, spent) && Reach(Down(pool, pool.Keys * confirmed), r, x);
        ReachedIsNew(pool, pool.Keys * confirmed, r, x);
      }
    }
  }

  // ---- the pool object -------------------------------------------------------------------

  function SatSub(a: nat, b: nat): nat {
    if a >= b then a - b else 0
  }

  function RateOf(rate: (nat, nat) -> int, e: Entry): int {
    rate(e.fee, e.size)
  }

  /** Entries of size zero. */
  function Weightless(pool: Pool): Pool {
    map k | k in pool && pool[k].size == 0 :: pool[k]
  }

  /** Every entry that left had a positive size and a rate no higher than any positive-size entry that stayed. */
  ghost predicate CheapestLeft(rate: (nat, nat) -> int, before: Pool, after: Pool) {
    && (forall k :: k in before && k !in after ==> before[k].size > 0)
    && forall k, s :: k in before && k !in after && s in after && after[s].size > 0 ==>
         RateOf(rate, before[k]) <= RateOf(rate, after[s])
  }

  /** The positive-size entry with the lowest rate. */
  method Cheapest(rate: (nat, nat) -> int, pool: Pool) returns (victim: Option<Hash>)
    ensures victim == None <==> forall k :: k in pool ==> pool[k].size == 0
    ensures victim != None ==> && victim.value in pool && pool[victim.value].size > 0
                               && forall k :: k in pool && pool[k].size > 0 ==>
                                    RateOf(rate, pool[victim.value]) <= RateOf(rate, pool[k])
  {
    victim := None;
    var rest := pool.Keys;
    while rest != {}
      invariant rest <= pool.Keys
      invariant victim == None ==> forall k :: k in pool && k !in rest ==> pool[k].size == 0
      invariant victim != None ==>
        && victim.value in pool && pool[victim.value].size > 0
        && forall k :: k in pool && k !in rest && pool[k].size > 0 ==>
             RateOf(rate, pool[victim.value]) <= RateOf(rate, pool[k])
      decreases |rest|
    {
      var k :| k in rest;
      if pool[k].size > 0 && (victim == None || RateOf(rate, pool[k]) < RateOf(rate, pool[victim.value])) {
        victim := Some(k);
      }
      rest := rest - {k};
    }
  }

  lemma MinusOneMore(pool: Pool, ids: set<Hash>, rest: set<Hash>, id: Hash)
    requires rest <= ids && id in rest
    ensures pool - (ids - rest) - {id} == pool - (ids - (rest - {id}))
  {}

  class TxPool {
    const txid: Tx -> Hash
    const sizeOf: Tx -> nat
    /** The floating-point quotient of fee and size, of which only the order matters. */
    const rate: (nat, nat) -> int
    const maxSize: nat
    var transactions: Pool
    var currentSize: nat

    ghost predicate Valid()
      reads this
    {
      PoolOk(txid, sizeOf, transactions, currentSize, maxSize)
    }

    constructor (txid: Tx -> Hash, sizeOf: Tx -> nat, rate: (nat, nat) -> int, maxSize: nat)
      ensures Valid() && transactions == map[]
      ensures this.txid == txid && this.sizeOf == sizeOf && this.rate == rate && this.maxSize == maxSize
    {
      this.txid, this.sizeOf, this.rate, this.maxSize := txid, sizeOf, rate, maxSize;
      transactions, currentSize := map[], 0;
      new;
      EmptyPool(txid, sizeOf, maxSize);
    }

    method RemoveTransaction(id: Hash)
      requires Valid()
      modifies this
      ensures Valid() && transactions == old(transactions) - {id}
      ensures id in old(transactions) ==> currentSize + old(transactions)[id].size == old(currentSize)
    {
      if id in transactions {
        Removed(txid, sizeOf, transactions, currentSize, maxSize, id);
        currentSize := SatSub(currentSize, transactions[id].size);
        transactions := transactions - {id};
      }
    }

    method RemoveAll(ids: set<Hash>)
      requires Valid()
      modifies this
      ensures Valid() && transactions == old(transactions) - ids
    {
      var rest := ids;
      while rest != {}
        invariant Valid() && rest <= ids && transactions == old(transactions) - (ids - rest)
        decreases |rest|
      {
        var id :| id in rest;
        MinusOneMore(old(transactions), ids, rest, id);
        RemoveTransaction(id);
        rest := rest - {id};
      }
    }

    method Clear()
      modifies this
      ensures Valid() && transactions == map[]
    {
      transactions, currentSize := map[], 0;
      EmptyPool(txid, sizeOf, maxSize);
    }

    /** Entries older than two weeks leave; their descendants stay. */
    method ExpireOldEntries(now: nat)
      requires Valid()
      modifies this
      ensures Valid()
      ensures var cutoff := SatSub(now, MEMPOOL_EXPIRY_SECS);
              transactions == map k | k in old(transactions)
                && old(transactions)[k].addedTime >= cutoff :: old(transactions)[k]
      ensures Aged(old(transactions), transactions, now)
    {
      var cutoff := SatSub(now, MEMPOOL_EXPIRY_SECS);
      var expired := set k | k in transactions && transactions[k].addedTime < cutoff;
      RemoveAll(expired);
    }

    /** The cheapest entry by fee rate leaves, again and again, until `needed` bytes are free or only entries
        of size zero remain. */
    method EvictLowestFeerate(needed: nat) returns (ok: bool)
      requires Valid()
      modifies this
      ensures Valid() && SubPool(transactions, old(transactions)) && CheapestLeft(rate, old(transactions), transactions)
      ensures ok ==> currentSize + needed <= old(currentSize)
      ensures ok ==> OneFewerShort(old(transactions), transactions, needed, old(currentSize) - currentSize)
      ensures !ok ==> needed > old(currentSize) && currentSize == 0 && transactions == Weightless(old(transactions))
    {
      var freed: nat := 0;
      while freed < needed
        invariant Valid() && SubPool(transactions, old(transactions)) && freed + currentSize == old(currentSize)
        invariant CheapestLeft(rate, old(transactions), transactions)
        invariant OneFewerShort(old(transactions), transactions, needed, freed)
        decreases |transactions|
      {
        var victim := Cheapest(rate, transactions);
        if victim == None {
          NothingLeft(txid, sizeOf, transactions, currentSize, maxSize);
          return false;
        }
        var size := transactions[victim.value].size;
        Removed(txid, sizeOf, transactions, currentSize, maxSize, victim.value);
        RemoveTransaction(victim.value);
        freed := freed + size;
      }
      ok := true;
    }

    /** `remove_block_transactions`. */
    method RemoveBlockTransactions(b: Block) returns (count: nat)
      requires Valid()
      modifies this
      ensures Valid()
      ensures var gone := Outdated(old(transactions), ConfirmedIds(txid, b.txs), ConfirmedSpends(b.txs));
              transactions == old(transactions) - gone && count == |gone|
      ensures BlockTaken(txid, old(transactions), b.txs, transactions) && count == |old(transactions)| - |transactions|
    {
      var confirmed, spent := ConfirmedIds(txid, b.txs), ConfirmedSpends(b.txs);
      var roots := InAnyOrder(ConflictRoots(transactions, confirmed, spent));
      var gone := Cascade(transactions, transactions.Keys * confirmed, roots);
      CascadeIsOutdated(transactions, confirmed, spent, gone);
      count := |gone|;
      RemoveAll(gone);
      BlockIsTaken(txid, old(transactions), b.txs, transactions);
    }

    /** The relay floor of one satoshi per byte, then insertion. */
    method AddTransactionWithFee(tx: Tx, fee: nat, now: nat) returns (r: Option<AddOutcome>)
      requires Valid()
      modifies this
      ensures Valid()
      ensures r == None <==> sizeOf(tx) > 0 && fee < sizeOf(tx)
      ensures r == None ==> transactions == old(transactions)
      ensures r != None ==> Effect(txid, sizeOf, rate, maxSize, old(transactions), transactions, tx, fee, now, r.value)
      ensures r == Some(Added) ==> txid(tx) in transactions && transactions[txid(tx)].sigopCost == 0
    {
      if sizeOf(tx) > 0 && (fee == 0 || fee < sizeOf(tx)) {
        return None;
      }
      var o := AddTransactionUnchecked(tx, fee, now);
      r := Some(o);
    }

    /** The sigop policy around it; the entry then records the cost. */
    method AddTransactionChecked(tx: Tx, fee: nat, sigopCost: nat, now: nat)
      returns (ok: bool, ghost r: Option<AddOutcome>, ghost added: Pool)
      requires Valid()
      modifies this
      ensures Valid()
      ensures r == None <==> sigopCost > 16_000 || (sizeOf(tx) > 0 && fee < sizeOf(tx))
      ensures r == None ==> !ok && transactions == old(transactions)
      ensures r != None ==> Effect(txid, sizeOf, rate, maxSize, old(transactions), added, tx, fee, now, r.value)
      ensures r != None ==> (ok <==> r.value.Added?) && Costed(added, transactions, txid(tx), sigopCost, ok)
    {
      r, added := None, transactions;
      if sigopCost > MAX_STANDARD_TX_SIGOPS_COST {
        return false, r, added;
      }
      var outcome := AddTransactionWithFee(tx, fee, now);
      r, added := outcome, transactions;
      if outcome != Some(Added) {
        return false, r, added;
      }
      SigopsFree(txid, sizeOf, transactions, currentSize, maxSize, txid(tx), sigopCost);
      transactions := transactions[txid(tx) := transactions[txid(tx)].(sigopCost := sigopCost)];
      ok := true;
    }

    /** `add_transaction_unchecked`.  The replaced entries leave before the limits and the capacity are
        checked, so a transaction refused for those reasons has still evicted its conflicts. */
    method AddTransactionUnchecked(tx: Tx, fee: nat, now: nat) returns (r: AddOutcome)
      requires Valid()
      modifies this
      ensures Valid()
      ensures Effect(txid, sizeOf, rate, maxSize, old(transactions), transactions, tx, fee, now, r)
    {
      if txid(tx) in transactions {
        return AlreadyInPool;
      }
      var evict;
      r, evict := PlanReplacement(transactions, tx, fee);
      if !r.Added? {
        return;
      }
      RemoveAll(evict);
      NoConflictLeft(old(transactions), tx, transactions);
      r := Admit(tx, fee, now);
    }

    /** Limits, size arithmetic and capacity, once the conflicts are gone. */
    method Admit(tx: Tx, fee: nat, now: nat) returns (r: AddOutcome)
      requires Valid() && txid(tx) !in transactions && DirectConflicts(transactions, tx) == {}
      modifies this
      ensures Valid() && Settled(rate, r, old(transactions), transactions, txid(tx), tx, fee, sizeOf(tx), maxSize, now)
    {
      var size := sizeOf(tx);
      var ancestorFee, ancestorSize;
      r, ancestorFee, ancestorSize := CheckLimits(transactions, tx, fee, size);
      if !r.Added? {
        return;
      }
      r := House(Entry(tx, fee, now, size, 0, ancestorFee, ancestorSize));
    }

    /** Make room if the pool is full, and insert. */
    method House(e: Entry) returns (r: AddOutcome)
      requires Valid() && txid(e.tx) !in transactions && DirectConflicts(transactions, e.tx) == {}
               && e.size == sizeOf(e.tx)
      modifies this
      ensures Valid() && Housed(rate, r, old(transactions), transactions, txid(e.tx), e, maxSize)
    {
      SizeIsTotal(txid, sizeOf, transactions, currentSize, maxSize);
      if currentSize + e.size > TWO_64 - 1 {
        return SizeOverflow;
      }
      if currentSize + e.size > maxSize {
        var ok := EvictLowestFeerate(e.size);
        if !ok {
          SizeIsTotal(txid, sizeOf, transactions, currentSize, maxSize);
          return PoolFull;
        }
      }
      Insert(e, old(transactions));
      r := Added;
    }

    method Insert(e: Entry, ghost before: Pool)
      requires Valid() && SubPool(transactions, before) && txid(e.tx) !in before && DirectConflicts(before, e.tx) == {}
      requires e.size == sizeOf(e.tx) && currentSize + e.size <= maxSize
      modifies this
      ensures Valid() && transactions == old(transactions)[txid(e.tx) := e]
      ensures TotalSize(transactions) == old(currentSize) + e.size
    {
      FewerConflicts(before, e.tx, transactions);
      Inserted(txid, sizeOf, transactions, currentSize, maxSize, e);
      transactions := transactions[txid(e.tx) := e];
      currentSize := currentSize + e.size;
      SizeIsTotal(txid, sizeOf, transactions, currentSize, maxSize);
    }
  }

  /** All that adding `tx` may do: refuse and leave the pool alone, or take out the conflicts with their
      descendants and then settle the newcomer. */
  ghost predicate Effect(txid: Tx -> Hash, sizeOf: Tx -> nat, rate: (nat, nat) -> int, max: nat, before: Pool,
                         after: Pool, tx: Tx, fee: nat, now: nat, r: AddOutcome) {
    if txid(tx) in before then r.AlreadyInPool? && after == before
    else if !Replacement(before, tx, fee).Added? then r == Replacement(before, tx, fee) && after == before
    else Settled(rate, r, before - Evicted(before, tx), after, txid(tx), tx, fee, sizeOf(tx), max, now)
  }

  // ---- refused additions -------------------------------------------------------------------

  lemma WeightlessIff(pool: Pool)
    ensures Weightless(pool) == pool <==> TotalSize(pool) == 0
  {
    if TotalSize(pool) == 0 {
      forall k | k in pool ensures pool[k].size == 0 {
        SumRemove(SizeOf(pool), pool.Keys, k);
      }
    } else if Weightless(pool) == pool {
      forall k | k in pool ensures pool[k].size == 0 {
        assert k in Weightless(pool);
      }
      AllZero(SizeOf(pool), pool.Keys);
    }
  }

  /** A refused addition leaves the pool as it was exactly when it was refused before eviction, or evicted
      nothing and was then stopped by a limit, by the size arithmetic, or with no bytes to free. */
  lemma RefusedAddKeeps(txid: Tx -> Hash, sizeOf: Tx -> nat, rate: (nat, nat) -> int, max: nat, before: Pool,
                        after: Pool, tx: Tx, fee: nat, now: nat, r: AddOutcome)
    requires Effect(txid, sizeOf, rate, max, before, after, tx, fee, now, r) && !r.Added?
    ensures after == before <==>
            || txid(tx) in before || !Replacement(before, tx, fee).Added?
            || (&& Evicted(before, tx) == {}
                && (!Limits(before, tx).Added? || TotalSize(before) + sizeOf(tx) > TWO_64 - 1
                   || TotalSize(before) == 0))
  {
    var gone := Evicted(before, tx);
    if txid(tx) !in before && Replacement(before, tx, fee).Added? {
      if gone == {} {
        assert before - gone == before;
        SettledKeeps(rate, r, before, after, txid(tx), tx, fee, sizeOf(tx), max, now);
      } else {
        SettledWithin(rate, r, before - gone, after, txid(tx), tx, fee, sizeOf(tx), max, now);
        Smaller(before, gone, after);
      }
    }
  }

  lemma Smaller(before: Pool, gone: set<Hash>, after: Pool)
    requires gone != {} && gone <= before.Keys && SubPool(after, before - gone)
    ensures after != before
  {
    var k :| k in gone;
    assert k in before && k !in after;
  }

  lemma SettledKeeps(rate: (nat, nat) -> int, r: AddOutcome, left: Pool, after: Pool, id: Hash, tx: Tx, fee: nat,
                     size: nat, max: nat, now: nat)
    requires Settled(rate, r, left, after, id, tx, fee, size, max, now) && !r.Added?
    ensures after == left <==> !Limits(left, tx).Added? || TotalSize(left) + size > TWO_64 - 1 || TotalSize(left) == 0
  {
    WeightlessIff(left);
  }

  lemma SettledWithin(rate: (nat, nat) -> int, r: AddOutcome, left: Pool, after: Pool, id: Hash, tx: Tx, fee: nat,
                      size: nat, max: nat, now: nat)
    requires Settled(rate, r, left, after, id, tx, fee, size, max, now) && !r.Added?
    ensures SubPool(after, left)
  {}

  /** Two transactions with one input each, the same one, of which `tx` may replace the other. */
  ghost predicate Rivals(other: Tx, tx: Tx) {
    |other.inputs| == 1 && |tx.inputs| == 1 && other.inputs[0].prev == tx.inputs[0].prev && Signals(tx)
  }

  /** In a pool of one entry that shares its only input with `tx`, exactly that entry is evicted. */
  lemma OneConflict(pool: Pool, id: Hash, tx: Tx, o: OutPoint)
    requires pool.Keys == {id} && |tx.inputs| == 1 && tx.inputs[0].prev == o
    requires |pool[id].tx.inputs| == 1 && pool[id].tx.inputs[0].prev == o
    ensures DirectConflicts(pool, tx) == {id} && Evicted(pool, tx) == {id}
  {
    assert Spends(pool[id].tx, o) by {
      assert pool[id].tx.inputs[0].prev == o;
    }
    assert Spends(tx, o) by {
      assert tx.inputs[0].prev == o;
    }
    OneDirect(pool, id, tx, o);
    OneEvicted(pool, id, tx);
  }

  lemma OneEvicted(pool: Pool, id: Hash, tx: Tx)
    requires pool.Keys == {id} && DirectConflicts(pool, tx) == {id}
    ensures Evicted(pool, tx) == {id}
  {
    DirectInEvicted(pool, tx);
    OnlyFrom(pool, tx);
  }

  lemma OneDirect(pool: Pool, id: Hash, tx: Tx, o: OutPoint)
    requires pool.Keys == {id} && Spends(pool[id].tx, o) && Spends(tx, o)
    ensures DirectConflicts(pool, tx) == {id}
  {
    assert id in DirectConflicts(pool, tx);
  }

  lemma OnlyFrom(pool: Pool, tx: Tx)
    ensures Evicted(pool, tx) <= pool.Keys
  {}

  lemma OneConflictCount(pool: Pool, id: Hash, tx: Tx, o: OutPoint)
    requires pool.Keys == {id} && |tx.inputs| == 1 && tx.inputs[0].prev == o
    requires |pool[id].tx.inputs| == 1 && pool[id].tx.inputs[0].prev == o
    ensures ConflictCount(pool, tx.inputs) == 1
  {
    assert Spends(pool[id].tx, o);
    assert ConflictsAt(pool, o) == {id};
    assert tx.inputs[..0] == [];
  }

  lemma OnlyEntryReplaced(pool: Pool, id: Hash, tx: Tx, fee: nat)
    requires pool.Keys == {id} && Rivals(pool[id].tx, tx) && pool[id].fee < fee
    ensures Evicted(pool, tx) == {id} && Replacement(pool, tx, fee).Added?
  {
    var o := tx.inputs[0].prev;
    OneConflict(pool, id, tx, o);
    OneConflictCount(pool, id, tx, o);
    SingleSum(FeeOf(pool), id);
  }

  lemma EmptyPoolFacts(tx: Tx)
    ensures var none: Pool := map[]; TotalSize(none) == 0 && Limits(none, tx).Added? && Weightless(none) == none
  {
    var none: Pool := map[];
    AllZero(SizeOf(none), none.Keys);
    assert Ancestors(none, tx) == {};
  }

  lemma NothingReplaced(tx: Tx, fee: nat)
    requires |tx.inputs| == 1
    ensures Evicted(map[], tx) == {} && Replacement(map[], tx, fee).Added?
  {
    var none: Pool := map[];
    OnlyFrom(none, tx);
    assert DirectConflicts(none, tx) == {};
    assert tx.inputs[..0] == [] && ConflictsAt(none, tx.inputs[0].prev) == {};
    assert ConflictCount(none, tx.inputs) == 0;
  }

  lemma NoRoomAlone(rate: (nat, nat) -> int, r: AddOutcome, after: Pool, id: Hash, tx: Tx, fee: nat, size: nat,
                    max: nat, now: nat)
    requires Settled(rate, r, map[], after, id, tx, fee, size, max, now) && max < size < TWO_64
    ensures r.PoolFull? && after == map[]
  {
    EmptyPoolFacts(tx);
  }

  lemma EffectSettles(txid: Tx -> Hash, sizeOf: Tx -> nat, rate: (nat, nat) -> int, max: nat, before: Pool, after: Pool,
                      gone: set<Hash>, tx: Tx, fee: nat, now: nat, r: AddOutcome)
    requires Effect(txid, sizeOf, rate, max, before, after, tx, fee, now, r) && txid(tx) !in before
    requires Replacement(before, tx, fee).Added? && Evicted(before, tx) == gone
    ensures Settled(rate, r, before - gone, after, txid(tx), tx, fee, sizeOf(tx), max, now)
  {}

  lemma OnlyEntrySettles(txid: Tx -> Hash, sizeOf: Tx -> nat, rate: (nat, nat) -> int, max: nat, before: Pool,
                         after: Pool, id: Hash, tx: Tx, fee: nat, now: nat, r: AddOutcome)
    requires before.Keys == {id} && txid(tx) != id && Rivals(before[id].tx, tx) && before[id].fee < fee
    requires Effect(txid, sizeOf, rate, max, before, after, tx, fee, now, r)
    ensures Settled(rate, r, map[], after, txid(tx), tx, fee, sizeOf(tx), max, now)
  {
    assert txid(tx) !in before.Keys;
    OnlyEntryReplaced(before, id, tx, fee);
    EffectSettles(txid, sizeOf, rate, max, before, after, {id}, tx, fee, now, r);
    assert before - {id} == map[];
  }

  /** Whatever the only entry of a pool, a rival that pays more but is itself larger than the pool is refused
      for lack of room, and the entry it would have replaced is gone. */
  lemma RefusedAddEvicts(txid: Tx -> Hash, sizeOf: Tx -> nat, rate: (nat, nat) -> int, max: nat, before: Pool,
                         after: Pool, id: Hash, tx: Tx, fee: nat, now: nat, r: AddOutcome)
    requires PoolHolds(txid, sizeOf, before, TotalSize(before), max) && before.Keys == {id} && txid(tx) != id
    requires Rivals(before[id].tx, tx) && before[id].fee < fee && max < sizeOf(tx) < TWO_64
    requires Effect(txid, sizeOf, rate, max, before, after, tx, fee, now, r)
    ensures r.PoolFull? && after == map[] && after != before
  {
    OnlyEntrySettles(txid, sizeOf, rate, max, before, after, id, tx, fee, now, r);
    NoRoomAlone(rate, r, after, txid(tx), tx, fee, sizeOf(tx), max, now);
    assert id in before;
  }

  lemma FirstAdd(txid: Tx -> Hash, sizeOf: Tx -> nat, rate: (nat, nat) -> int, max: nat, after: Pool, tx: Tx, fee: nat,
                 now: nat, r: AddOutcome)
    requires Effect(txid, sizeOf, rate, max, map[], after, tx, fee, now, r) && |tx.inputs| == 1 && sizeOf(tx) <= max
             && sizeOf(tx) < TWO_64
    ensures r.Added? && after.Keys == {txid(tx)} && after[txid(tx)].tx == tx && after[txid(tx)].fee == fee
  {
    var none: Pool := map[];
    EmptyPoolFacts(tx);
    NothingReplaced(tx, fee);
    assert none - {} == none;
  }

  /** Such pools come about: both transactions pay the relay floor, the first is accepted, and the second
      empties the pool. */
  method LoseOnlyEntry(txid: Tx -> Hash, sizeOf: Tx -> nat, rate: (nat, nat) -> int, max: nat, first: Tx, firstFee: nat,
                       tx: Tx, fee: nat, now: nat)
    returns (pool: TxPool, accepted: Option<AddOutcome>, refused: Option<AddOutcome>)
    requires Rivals(first, tx) && txid(first) != txid(tx) && sizeOf(first) <= max < sizeOf(tx) < TWO_64
    requires sizeOf(first) <= firstFee < fee && sizeOf(tx) <= fee
    ensures pool.Valid() && accepted == Some(Added) && refused == Some(PoolFull) && pool.transactions == map[]
  {
    pool := new TxPool(txid, sizeOf, rate, max);
    accepted := pool.AddTransactionWithFee(first, firstFee, now);
    FirstAdd(txid, sizeOf, rate, max, pool.transactions, first, firstFee, now, accepted.value);
    ghost var before := pool.transactions;
    SizeIsTotal(txid, sizeOf, before, pool.currentSize, max);
    PoolMeans(txid, sizeOf, before, pool.currentSize, max);
    refused := pool.AddTransactionWithFee(tx, fee, now);
    RefusedAddEvicts(txid, sizeOf, rate, max, before, pool.transactions, txid(first), tx, fee, now, refused.value);
  }

  lemma PoolMeans(txid: Tx -> Hash, sizeOf: Tx -> nat, pool: Pool, size: nat, max: nat)
    requires PoolOk(txid, sizeOf, pool, size, max)
    ensures PoolHolds(txid, sizeOf, pool, size, max)
  {
    assert OpenPool(0);
  }

  datatype Command =
    | Add(tx: Tx, fee: nat)
    | AddChecked(tx: Tx, fee: nat, sigopCost: nat)
    | Remove(id: Hash)
    | Confirm(b: Block)
    | Expire
    | Reset

  /** What one call does to a pool with these parameters. */
  ghost predicate Performed(txid: Tx -> Hash, sizeOf: Tx -> nat, rate: (nat, nat) -> int, max: nat, c: Command,
                            now: nat,
                            before: Pool, after: Pool) {
    match c
    case Add(tx, fee) =>
      if sizeOf(tx) > 0 && fee < sizeOf(tx) then after == before
      else exists r :: Effect(txid, sizeOf, rate, max, before, after, tx, fee, now, r)
    case AddChecked(tx, fee, cost) =>
      if cost > 16_000 || (sizeOf(tx) > 0 && fee < sizeOf(tx)) then after == before
      else exists added, r ::
             && Effect(txid, sizeOf, rate, max, before, added, tx, fee, now, r)
             && Costed(added, after, txid(tx), cost, r.Added?)
    case Remove(id) => after == before - {id}
    case Confirm(b) => BlockTaken(txid, before, b.txs, after)
    case Expire => Aged(before, after, now)
    case Reset => after == map[]
  }

  /** Entries of the last two weeks stay, all others leave. */
  ghost predicate Aged(before: Pool, after: Pool, now: nat) {
    && SubPool(after, before)
    && forall k :: k in before ==> (k in after <==> before[k].addedTime + 1_209_600 >= now)
  }

  /** `trace` are the pools before, between and after the first `n` calls. */
  ghost predicate Traced(txid: Tx -> Hash, sizeOf: Tx -> nat, rate: (nat, nat) -> int, max: nat,
                         commands: seq<Command>, clock: nat -> nat, trace: seq<Pool>, n: nat)
    requires n <= |commands|
  {
    && |trace| == n + 1
    && forall i :: 0 <= i < n ==>
         Performed(txid, sizeOf, rate, max, commands[i], clock(i), trace[i], trace[i + 1])
  }

  lemma TracedMore(txid: Tx -> Hash, sizeOf: Tx -> nat, rate: (nat, nat) -> int, max: nat, commands: seq<Command>,
                   clock: nat -> nat, trace: seq<Pool>, n: nat, after: Pool)
    requires n < |commands| && Traced(txid, sizeOf, rate, max, commands, clock, trace, n)
    requires Performed(txid, sizeOf, rate, max, commands[n], clock(n), trace[n], after)
    ensures Traced(txid, sizeOf, rate, max, commands, clock, trace + [after], n + 1)
  {
    var more := trace + [after];
    forall i | 0 <= i < n + 1
      ensures Performed(txid, sizeOf, rate, max, commands[i], clock(i), more[i], more[i + 1])
    {
      assert more[i] == trace[i] && more[i + 1] == if i < n then trace[i + 1] else after;
    }
  }

  /** Any sequence of calls, succeeding or not, from any valid pool. */
  method Run(pool: TxPool, commands: seq<Command>, clock: nat -> nat) returns (ghost trace: seq<Pool>)
    requires pool.Valid()
    modifies pool
    ensures pool.Valid()
    ensures PoolHolds(pool.txid, pool.sizeOf, pool.transactions, pool.currentSize, pool.maxSize)
    ensures Traced(pool.txid, pool.sizeOf, pool.rate, pool.maxSize, commands, clock, trace, |commands|)
    ensures trace[0] == old(pool.transactions) && trace[|commands|] == pool.transactions
  {
    trace := [pool.transactions];
    for i := 0 to |commands|
      invariant pool.Valid() && Traced(pool.txid, pool.sizeOf, pool.rate, pool.maxSize, commands, clock, trace, i)
      invariant trace[0] == old(pool.transactions) && trace[i] == pool.transactions
    {
      ghost var before := trace;
      Perform(pool, commands[i], clock(i));
      TracedMore(pool.txid, pool.sizeOf, pool.rate, pool.maxSize, commands, clock, before, i, pool.transactions);
      trace := before + [pool.transactions];
    }
    assert OpenPool(0);
  }

  method Perform(pool: TxPool, c: Command, now: nat)
    requires pool.Valid()
    modifies pool
    ensures pool.Valid()
    ensures Performed(pool.txid, pool.sizeOf, pool.rate, pool.maxSize, c, now, old(pool.transactions),
            pool.transactions)
  {
    match c {
      case Add(tx, fee) =>
        var r := pool.AddTransactionWithFee(tx, fee, now);
      case AddChecked(tx, fee, cost) =>
        ghost var r, added;
        var ok;
        ok, r, added := pool.AddTransactionChecked(tx, fee, cost, now);
      case Remove(id) =>
        pool.RemoveTransaction(id);
      case Confirm(b) =>
        var n := pool.RemoveBlockTransactions(b);
      case Expire =>
        pool.ExpireOldEntries(now);
      case Reset =>
        pool.Clear();
    }
  }

  /** Eviction is minimal: it takes nothing if nothing is needed, and without its last victim it would
      have freed too little. */
  ghost predicate OneFewerShort(before: Pool, after: Pool, needed: nat, freed: nat) {
    || (freed == 0 && after == before)
    || exists k :: k in before && k !in after && freed < needed + before[k].size
  }

  /** What remains of `left` once the limits and the capacity have had their say. */
  ghost predicate Settled(rate: (nat, nat) -> int, r: AddOutcome, left: Pool, after: Pool, id: Hash, tx: Tx, fee: nat,
                          size: nat, max: nat, now: nat) {
    if !Limits(left, tx).Added? then r == Limits(left, tx) && after == left
    else Housed(rate, r, left, after, id, NewEntry(left, tx, fee, size, now), max)
  }

  /** Size arithmetic and capacity: the entry joins `left`, or joins what capacity eviction leaves of it,
      or does not fit at all. */
  ghost predicate Housed(rate: (nat, nat) -> int, r: AddOutcome, left: Pool, after: Pool, id: Hash, e: Entry,
                         max: nat) {
    if TotalSize(left) + e.size > TWO_64 - 1 then r.SizeOverflow? && after == left
    else if TotalSize(left) + e.size <= max then r.Added? && after == left[id := e]
    else if e.size <= TotalSize(left) then
      && r.Added? && id in after && after[id] == e && SubPool(after - {id}, left) && TotalSize(after) <= TotalSize(left)
      && OneFewerShort(left, after - {id}, e.size, TotalSize(left) + e.size - TotalSize(after))
         && CheapestLeft(rate, left, after - {id})
    else r.PoolFull? && after == Weightless(left)
  }

  /** The entry of a newcomer, with the fees and sizes of its ancestors. */
  ghost function NewEntry(pool: Pool, tx: Tx, fee: nat, size: nat, now: nat): Entry {
    Entry(tx, fee, now, size, 0, fee + Sum(FeeOf(pool), Ancestors(pool, tx)),
      size + Sum(SizeOf(pool), Ancestors(pool, tx)))
  }

  lemma SizeIsTotal(txid: Tx -> Hash, sizeOf: Tx -> nat, pool: Pool, size: nat, max: nat)
    requires PoolOk(txid, sizeOf, pool, size, max)
    ensures size == TotalSize(pool) <= max
  {
    assert OpenPool(0);
  }

  /** The pool as the addition left it, with the new entry's cost recorded if there is one. */
  ghost predicate Costed(added: Pool, after: Pool, id: Hash, cost: nat, ok: bool) {
    if ok then id in added && after == added[id := added[id].(sigopCost := cost)] else after == added
  }

  lemma SigopsFree(txid: Tx -> Hash, sizeOf: Tx -> nat, pool: Pool, size: nat, max: nat, id: Hash, cost: nat)
    requires PoolOk(txid, sizeOf, pool, size, max) && id in pool
    ensures PoolOk(txid, sizeOf, pool[id := pool[id].(sigopCost := cost)], size, max)
  {
    assert OpenPool(0);
    var after := pool[id := pool[id].(sigopCost := cost)];
    assert after.Keys == pool.Keys;
    SumSame(SizeOf(pool), SizeOf(after), pool.Keys);
  }

  lemma EmptyPool(txid: Tx -> Hash, sizeOf: Tx -> nat, max: nat)
    ensures PoolOk(txid, sizeOf, map[], 0, max)
  {
    var none: Pool := map[];
    assert none.Keys == {};
    AllZero(SizeOf(none), none.Keys);
  }

  lemma NothingLeft(txid: Tx -> Hash, sizeOf: Tx -> nat, pool: Pool, size: nat, max: nat)
    requires PoolOk(txid, sizeOf, pool, size, max) && forall k :: k in pool ==> pool[k].size == 0
    ensures size == 0
  {
    assert OpenPool(0);
    AllZero(SizeOf(pool), pool.Keys);
  }

  lemma {:induction false} AllZero(f: Hash -> nat, s: set<Hash>)
    requires forall x :: x in s ==> f(x) == 0
    ensures Sum(f, s) == 0
    decreases |s|
  {
    if s != {} {
      var x :| x in s;
      SumRemove(f, s, x);
      AllZero(f, s - {x});
    }
  }
}
