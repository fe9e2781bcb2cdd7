/** What becomes of a block, and the history of a run: every block handled, from which state, with which
    outcome, to which state. */
module NodeHistory {
  import opened BigEndian
  import opened Primitives
  import opened Emission
  import opened ChainTree
  import opened ChainWalk
  import opened ChainLedger
  import opened ActiveChain
  import opened NodeInvariant
  import opened NodeView
  import opened NodeSteps
  import opened OrphanPool

  const MAX_FUTURE_BLOCK_TIME_SECS: nat := 7200

  // ---- what becomes of a block -------------------------------------------------------------

  /** The checkpoint at the block's height and the limit on future timestamps. */
  predicate OnTime(net: Network, b: Block, now: u64) {
    CheckpointOk(net.checkpoints, b.header.height, HashOf(net, b))
      && b.header.timestamp <= SatU64(now + MAX_FUTURE_BLOCK_TIME_SECS)
  }

  /** A child of the tip is validated against the ledger and the headers below it, then applied. */
  ghost function OnTip(ops: Ops, v: View, b: Block): Outcome {
    if !ops.accept(HeadersBelow(v.heights, v.storage, b.header.height), v.utxos, b) then Rejected
    else if ops.apply(v.utxos, b).ok then Extended else LedgerTorn
  }

  /** Any other block is stored, and becomes the tip if its branch has strictly more work, lies within the
      limits and goes through. */
  ghost function OnSide(net: Network, ops: Ops, v: View, b: Block): Outcome {
    var h := HashOf(net, b);
    var storage := v.storage[h := b];
    if AddWrap(Val(ParentWork(v.work, b.header.prevHash)), ops.work(b.header.bits)) <= Val(v.chainwork) then StoredSide
    else if !WithinLimits(net, storage, v.tip, h) then ReorgRefused
    else if CanSwitch(net, ops, storage, v.tip, v.active, v.peak, h) then Reorganised else LedgerTorn
  }

  /** The three decisions about a side block, taken one by one. */
  lemma SideDecided(net: Network, ops: Ops, v: View, b: Block, w: Bytes32, r: Outcome)
    requires Val(w) == AddWrap(Val(ParentWork(v.work, b.header.prevHash)), ops.work(b.header.bits))
    requires r.StoredSide? || r.Reorganised? || r.ReorgRefused? || r.LedgerTorn?
    requires r.StoredSide? <==> Val(w) <= Val(v.chainwork)
    requires var h := HashOf(net, b);
             var storage := v.storage[h := b];
             !r.StoredSide? ==>
               && (r.ReorgRefused? <==> !WithinLimits(net, storage, v.tip, h))
               && (r.Reorganised? <==>
                    WithinLimits(net, storage, v.tip, h) && CanSwitch(net, ops, storage, v.tip, v.active, v.peak, h))
    ensures r == OnSide(net, ops, v, b)
  {}

  ghost function OutcomeOf(net: Network, ops: Ops, v: View, b: Block, now: u64): Outcome {
    if !OnTime(net, b, now) then Rejected
    else if b.header.prevHash != ZERO_HASH && b.header.prevHash !in v.storage then Orphaned
    else if !ConnectsOk(net, v.storage, b) then Rejected
    else if b.header.prevHash == v.tip then OnTip(ops, v, b)
    else OnSide(net, ops, v, b)
  }

  /** The events a handled block leaves: a block beside the tip is stored first, and only then may its
      branch be switched to, refused, or tear the ledger. */
  ghost function Events(ops: Ops, v: View, b: Block, r: Outcome): seq<Event> {
    if r.Rejected? || r.Orphaned? || b.header.prevHash == v.tip then [Event(r, false)]
    else if r.StoredSide? then [Event(r, Overwrites(ops, v, b))]
    else [Event(StoredSide, Overwrites(ops, v, b))] + [Event(r, false)]
  }

  /** A block beside the tip is stored, and then its branch decided. */
  lemma SideMoved(net: Network, ops: Ops, p: View, b: Block, q: View, r: Outcome, s: View)
    requires b.header.prevHash != p.tip && (r.Reorganised? || r.ReorgRefused? || r.LedgerTorn?)
    requires Moved(net, ops, p, [Event(StoredSide, Overwrites(ops, p, b))], q)
             && Moved(net, ops, q, [Event(r, false)], s)
    ensures Moved(net, ops, p, Events(ops, p, b, r), s)
  {
    MovedChain(net, ops, p, [Event(StoredSide, Overwrites(ops, p, b))], q, [Event(r, false)], s);
  }

  // ---- histories -------------------------------------------------------------------------

  datatype Step = Step(before: View, block: Block, now: u64, outcome: Outcome, after: View)

  predicate OpenStep(k: int, s: Step) { true }

  /** Sealed: the step's events account for its change of state, and from an untorn state its outcome is the
      one the rules give. */
  ghost predicate Stepped(net: Network, ops: Ops, s: Step) {
    forall k: int {:trigger OpenStep(k, s)} :: OpenStep(k, s) ==>
      && Sound(net, ops, s.before) && Moved(net, ops, s.before, Events(ops, s.before, s.block, s.outcome), s.after)
      && (!s.before.torn ==> s.outcome == OutcomeOf(net, ops, s.before, s.block, s.now))
  }

  /** Each step starts where the one before it ended. */
  ghost predicate Linked(p: View, log: seq<Step>, q: View) {
    && (log == [] ==> p == q)
    && (log != [] ==> log[0].before == p && log[|log| - 1].after == q)
    && forall i :: 0 < i < |log| ==> log[i].before == log[i - 1].after
  }

  predicate OpenHistory(k: int, log: seq<Step>) { true }

  /** Sealed: the log leads from `p` to `q` step by step. */
  ghost predicate History(net: Network, ops: Ops, p: View, log: seq<Step>, q: View) {
    forall k: int {:trigger OpenHistory(k, log)} :: OpenHistory(k, log) ==>
      Linked(p, log, q) && forall i :: 0 <= i < |log| ==> Stepped(net, ops, log[i])
  }

  ghost function AllEvents(ops: Ops, log: seq<Step>): seq<Event> {
    if log == [] then [] else
      var s := log[|log| - 1];
      AllEvents(ops, log[..|log| - 1]) + Events(ops, s.before, s.block, s.outcome)
  }

  lemma HistoryNone(net: Network, ops: Ops, p: View)
    ensures History(net, ops, p, [], p)
  {}

  lemma HistoryOne(net: Network, ops: Ops, s: Step)
    requires Stepped(net, ops, s)
    ensures History(net, ops, s.before, [s], s.after)
  {}

  lemma HistoryJoin(net: Network, ops: Ops, p: View, a: seq<Step>, q: View, b: seq<Step>, r: View)
    requires History(net, ops, p, a, q) && History(net, ops, q, b, r)
    ensures History(net, ops, p, a + b, r)
  {
    assert OpenHistory(0, a) && OpenHistory(0, b);
    LinkedJoin(p, a, q, b, r);
    forall i | 0 <= i < |a + b| ensures Stepped(net, ops, (a + b)[i]) {
      assert (a + b)[i] == if i < |a| then a[i] else b[i - |a|];
    }
  }

  lemma LinkedJoin(p: View, a: seq<Step>, q: View, b: seq<Step>, r: View)
    requires Linked(p, a, q) && Linked(q, b, r)
    ensures Linked(p, a + b, r)
  {
    var log := a + b;
    forall i | 0 < i < |log| ensures log[i].before == log[i - 1].after {
      if i < |a| {
        assert log[i] == a[i] && log[i - 1] == a[i - 1];
      } else if i == |a| {
        assert log[i] == b[0] && (a != [] ==> log[i - 1] == a[|a| - 1]);
      } else {
        assert log[i] == b[i - |a|] && log[i - 1] == b[i - |a| - 1];
      }
    }
  }

  /** A history accounts for the change from its first state to its last. */
  lemma {:induction false} HistoryMoved(net: Network, ops: Ops, p: View, log: seq<Step>, q: View)
    requires Sound(net, ops, p) && History(net, ops, p, log, q)
    ensures Moved(net, ops, p, AllEvents(ops, log), q)
    decreases |log|
  {
    assert OpenHistory(0, log);
    if log == [] {
      Standing(net, ops, p);
    } else {
      var n := |log| - 1;
      var s := log[n];
      assert Moved(net, ops, s.before, Events(ops, s.before, s.block, s.outcome), s.after) by {
        assert Stepped(net, ops, s);
        assert OpenStep(0, s);
      }
      assert History(net, ops, p, log[..n], s.before) by {
        assert n > 0 ==> log[..n][n - 1] == log[n - 1] && log[n].before == log[n - 1].after;
      }
      HistoryMoved(net, ops, p, log[..n], s.before);
      MovedChain(net, ops, p, AllEvents(ops, log[..n]), s.before, Events(ops, s.before, s.block, s.outcome), q);
    }
  }

  lemma HistoryTraced(net: Network, ops: Ops, p: View, log: seq<Step>, q: View)
    requires Sound(net, ops, p) && History(net, ops, p, log, q)
    ensures Later(ops.work, Root0(net), SnapOf(p), SnapOf(q)) && TracedBy(net, p, AllEvents(ops, log), q)
  {
    HistoryMoved(net, ops, p, log, q);
    assert OpenMoved(0, AllEvents(ops, log));
  }

  /** A block handled, and the orphans handled after it. */
  lemma Followed(net: Network, ops: Ops, first: Step, rest: seq<Step>, q: View)
    requires Stepped(net, ops, first) && Sound(net, ops, first.before) && History(net, ops, first.after, rest, q)
    ensures var log := [first] + rest;
            && History(net, ops, first.before, log, q) && log[0] == first && log[1..] == rest
            && Later(ops.work, Root0(net), SnapOf(first.before), SnapOf(q))
            && TracedBy(net, first.before, AllEvents(ops, log), q)
  {
    HistoryOne(net, ops, first);
    HistoryJoin(net, ops, first.before, [first], first.after, rest, q);
    HistoryTraced(net, ops, first.before, [first] + rest, q);
  }

  /** Every outcome of a log is among its events. */
  lemma {:induction false} OutcomeHappened(ops: Ops, log: seq<Step>, i: nat)
    requires i < |log|
    ensures Happened(AllEvents(ops, log), log[i].outcome)
    decreases |log|
  {
    var n := |log| - 1;
    var last := Events(ops, log[n].before, log[n].block, log[n].outcome);
    HappenedIn(AllEvents(ops, log[..n]), last, log[i].outcome);
    if i < n {
      OutcomeHappened(ops, log[..n], i);
    } else {
      assert last[|last| - 1].outcome == log[n].outcome;
    }
  }

  // ---- which blocks a history handles --------------------------------------------------------

  ghost predicate Handled(log: seq<Step>, b: Block, now: u64, r: Outcome) {
    exists i :: 0 <= i < |log| && log[i].block == b && log[i].now == now && log[i].outcome == r
  }

  ghost predicate DrawnFrom(log: seq<Step>, blocks: set<Block>) {
    forall i :: 0 <= i < |log| ==> log[i].block in blocks
  }

  ghost function BlocksOf(blocks: seq<Block>): set<Block> {
    set i | 0 <= i < |blocks| :: blocks[i]
  }

  ghost predicate Seen(log: seq<Step>, b: Block) {
    exists i :: 0 <= i < |log| && log[i].block == b
  }

  predicate OpenTaken(k: int, log: seq<Step>) { true }

  /** Sealed: the blocks handled are those that left the pool. */
  ghost predicate Taken(waiting: Blocks, log: seq<Step>, still: Blocks) {
    forall k: int {:trigger OpenTaken(k, log)} :: OpenTaken(k, log) ==>
      DrawnFrom(log, waiting.Values) && forall x :: x in waiting && x !in still ==> Seen(log, waiting[x])
  }

  /** Every orphan that left the pool was handled, each once, and nothing else was. */
  ghost predicate Drained(waiting: Blocks, log: seq<Step>, still: Blocks) {
    SubMap(still, waiting) && |log| + |still| == |waiting| && Taken(waiting, log, still)
  }

  lemma NoneDrained(waiting: Blocks)
    ensures Drained(waiting, [], waiting)
  {}

  lemma SeenIn(a: seq<Step>, b: seq<Step>, block: Block)
    requires Seen(a, block) || Seen(b, block)
    ensures Seen(a + b, block)
  {
    if i :| 0 <= i < |a| && a[i].block == block {
      assert (a + b)[i] == a[i];
    } else {
      var i :| 0 <= i < |b| && b[i].block == block;
      assert (a + b)[|a| + i] == b[i];
    }
  }

  lemma DrainedJoin(waiting: Blocks, a: seq<Step>, left: Blocks, b: seq<Step>, still: Blocks)
    requires Drained(waiting, a, left) && Drained(left, b, still)
    ensures Drained(waiting, a + b, still)
  {
    assert OpenTaken(0, a) && OpenTaken(0, b);
    forall i | 0 <= i < |a + b| ensures (a + b)[i].block in waiting.Values {
      if i >= |a| {
        var x :| x in left && left[x] == b[i - |a|].block;
        assert x in waiting && waiting[x] == left[x];
      }
    }
    forall x | x in waiting && x !in still ensures Seen(a + b, waiting[x]) {
      assert x in left ==> left[x] == waiting[x];
      SeenIn(a, b, waiting[x]);
    }
  }

  /** An orphan taken out of the pool and handled first. */
  lemma DrainedFirst(waiting: Blocks, c: Hash, log: seq<Step>, still: Blocks)
    requires c in waiting && |waiting - {c}| == |waiting| - 1 && log != [] && log[0].block == waiting[c]
    requires Drained(waiting - {c}, log[1..], still)
    ensures Drained(waiting, log, still)
  {
    OneDrained(waiting, c, log[0]);
    DrainedJoin(waiting, [log[0]], waiting - {c}, log[1..], still);
    assert log == [log[0]] + log[1..];
  }

  lemma OneDrained(waiting: Blocks, c: Hash, s: Step)
    requires c in waiting && |waiting - {c}| == |waiting| - 1 && s.block == waiting[c]
    ensures Drained(waiting, [s], waiting - {c})
  {
    assert [s][0].block == waiting[c];
  }

  /** No orphan waits for `p`. */
  ghost predicate NoneWaits(waiting: Blocks, p: Hash) {
    forall c :: !WaitsFor(waiting, c, p)
  }

  lemma StillNone(waiting: Blocks, still: Blocks, p: Hash)
    requires SubMap(still, waiting) && NoneWaits(waiting, p)
    ensures NoneWaits(still, p)
  {
    assert forall c :: WaitsFor(still, c, p) ==> WaitsFor(waiting, c, p);
  }

  predicate OpenServed(k: int, log: seq<Step>) { true }

  predicate Kept(o: Outcome) {
    o == Extended || o == StoredSide || o == Reorganised
  }

  /** The block `h` was connected or stored in the log. */
  ghost predicate KeptIn(net: Network, log: seq<Step>, h: Hash) {
    exists j :: 0 <= j < |log| && Kept(log[j].outcome) && HashOf(net, log[j].block) == h
  }

  /** Sealed: every block of the log is a child of `root` or of a block kept before it; no orphan waits any more
      for a kept one, except those still in the queue; and the queue holds only such. */
  ghost predicate Served(net: Network, root: Hash, log: seq<Step>, waiting: Blocks, queue: seq<Hash>) {
    forall k: int {:trigger OpenServed(k, log)} :: OpenServed(k, log) ==>
      && (forall i :: 0 <= i < |log| ==> Rooted(net, root, log[..i], log[i].block.header.prevHash))
      && (forall i :: 0 <= i < |log| && Kept(log[i].outcome) ==>
           NoneWaits(waiting, HashOf(net, log[i].block)) || HashOf(net, log[i].block) in queue)
      && forall q :: q in queue ==> Rooted(net, root, log, q)
  }

  ghost predicate Rooted(net: Network, root: Hash, log: seq<Step>, h: Hash) {
    h == root || KeptIn(net, log, h)
  }

  lemma ServedNone(net: Network, root: Hash, waiting: Blocks, queue: seq<Hash>)
    requires forall q :: q in queue ==> q == root
    ensures Served(net, root, [], waiting, queue)
  {}

  lemma KeptOn(net: Network, a: seq<Step>, b: seq<Step>, n: nat, h: Hash)
    requires n <= |b|
    ensures KeptIn(net, a, h) || KeptIn(net, b[..n], h) ==> KeptIn(net, (a + b)[..|a| + n], h)
  {
    var all := (a + b)[..|a| + n];
    if j :| 0 <= j < |a| && Kept(a[j].outcome) && HashOf(net, a[j].block) == h {
      assert all[j] == a[j];
    }
    if j :| 0 <= j < n && Kept(b[..n][j].outcome) && HashOf(net, b[..n][j].block) == h {
      assert all[|a| + j] == b[..n][j];
    }
  }

  /** The log goes on with what hangs from a block of the queue, or from the root itself. */
  lemma ServedJoin(net: Network, root: Hash, a: seq<Step>, before: Blocks, queue: seq<Hash>, p: Hash, b: seq<Step>,
                   after: Blocks, more: seq<Hash>)
    requires Served(net, root, a, before, queue) && (p == root || p in queue) && SubMap(after, before)
    requires Served(net, p, b, after, more)
    ensures Served(net, root, a + b, after, queue + more)
  {
    assert OpenServed(0, a) && OpenServed(0, b);
    var all := a + b;
    assert b[..|b|] == b && all[..|all|] == all;
    forall i | 0 <= i < |all| ensures Rooted(net, root, all[..i], all[i].block.header.prevHash) {
      JoinRooted(net, root, a, p, b, i);
    }
    forall i | 0 <= i < |all| && Kept(all[i].outcome)
      ensures NoneWaits(after, HashOf(net, all[i].block)) || HashOf(net, all[i].block) in queue + more
    {
      if i < |a| && NoneWaits(before, HashOf(net, a[i].block)) {
        StillNone(before, after, HashOf(net, a[i].block));
      } else if i >= |a| {
        assert all[i] == b[i - |a|];
      }
    }
    forall q | q in queue + more ensures Rooted(net, root, all, q) {
      KeptOn(net, a, b, |b|, q);
      KeptOn(net, a, b, |b|, p);
    }
  }

  lemma JoinRooted(net: Network, root: Hash, a: seq<Step>, p: Hash, b: seq<Step>, i: nat)
    requires i < |a + b| && Rooted(net, root, a, p)
    requires forall x :: 0 <= x < |a| ==> Rooted(net, root, a[..x], a[x].block.header.prevHash)
    requires forall x :: 0 <= x < |b| ==> Rooted(net, p, b[..x], b[x].block.header.prevHash)
    ensures Rooted(net, root, (a + b)[..i], (a + b)[i].block.header.prevHash)
  {
    if i < |a| {
      assert (a + b)[..i] == a[..i] && (a + b)[i] == a[i];
    } else {
      var x, h := i - |a|, b[i - |a|].block.header.prevHash;
      assert (a + b)[i] == b[x] && Rooted(net, p, b[..x], h);
      KeptOn(net, a, b, x, h);
      KeptOn(net, a, b, x, p);
    }
  }

  /** The last of the queue has been served, and others have joined. */
  lemma ServedPop(net: Network, root: Hash, log: seq<Step>, waiting: Blocks, queue: seq<Hash>, p: Hash,
                  more: seq<Hash>)
    requires Served(net, root, log, waiting, queue + [p] + more) && NoneWaits(waiting, p)
    ensures Served(net, root, log, waiting, queue + more)
  {
    assert OpenServed(0, log);
    assert forall h :: h in queue + [p] + more ==> h == p || h in queue + more;
    assert forall h :: h in queue + more ==> h in queue + [p] + more;
  }

  /** What has been done for `root` so far: a history, which orphans it took, and whose are served. */
  ghost predicate Chased(net: Network, ops: Ops, root: Hash, p: View, waiting: Blocks, log: seq<Step>, q: View,
                         still: Blocks, queue: seq<Hash>) {
    History(net, ops, p, log, q) && Drained(waiting, log, still) && Served(net, root, log, still, queue)
  }

  lemma ChasedNone(net: Network, ops: Ops, root: Hash, p: View, waiting: Blocks, queue: seq<Hash>)
    requires forall x :: x in queue ==> x == root
    ensures Chased(net, ops, root, p, waiting, [], p, waiting, queue)
  {
    HistoryNone(net, ops, p);
    NoneDrained(waiting);
    ServedNone(net, root, waiting, queue);
  }

  lemma ChasedJoin(net: Network, ops: Ops, root: Hash, p: View, waiting: Blocks, a: seq<Step>, q: View, left: Blocks,
                   queue: seq<Hash>, h: Hash, b: seq<Step>, r: View, still: Blocks, more: seq<Hash>)
    requires Chased(net, ops, root, p, waiting, a, q, left, queue) && (h == root || h in queue)
    requires Chased(net, ops, h, q, left, b, r, still, more)
    ensures Chased(net, ops, root, p, waiting, a + b, r, still, queue + more)
  {
    HistoryJoin(net, ops, p, a, q, b, r);
    DrainedJoin(waiting, a, left, b, still);
    ServedJoin(net, root, a, left, queue, h, b, still, more);
  }

  /** The last of the queue has been dealt with. */
  lemma ChasedTurn(net: Network, ops: Ops, root: Hash, p: View, waiting: Blocks, a: seq<Step>, q: View, left: Blocks,
                   queue: seq<Hash>, b: seq<Step>, r: View, still: Blocks, more: seq<Hash>)
    requires Chased(net, ops, root, p, waiting, a, q, left, queue) && queue != []
    requires var h := queue[|queue| - 1];
             Chased(net, ops, h, q, left, b, r, still, more) && NoneWaits(still, h)
    ensures Chased(net, ops, root, p, waiting, a + b, r, still, queue[..|queue| - 1] + more)
  {
    var h, rest := queue[|queue| - 1], queue[..|queue| - 1];
    ChasedJoin(net, ops, root, p, waiting, a, q, left, queue, h, b, r, still, more);
    assert queue + more == rest + [h] + more;
    ServedPop(net, root, a + b, still, rest, h, more);
  }

  /** A child, and after it blocks that hang from it; it joins the queue exactly if it was kept. */
  lemma ServedFirst(net: Network, p: Hash, log: seq<Step>, waiting: Blocks, child: Hash, ok: bool)
    requires log != [] && log[0].block.header.prevHash == p && HashOf(net, log[0].block) == child
    requires Served(net, child, log[1..], waiting, []) && (log[1..] != [] ==> ok) && (ok <==> Kept(log[0].outcome))
    ensures Served(net, p, log, waiting, if ok then [child] else [])
  {
    var first, rest := [log[0]], log[1..];
    assert log == first + rest;
    assert ok ==> KeptIn(net, first, child) by {
      assert first[0] == log[0];
    }
    if ok {
      assert Served(net, p, first, waiting, [child]) by {
        assert first[..0] == [];
      }
      ServedJoin(net, p, first, waiting, [child], child, rest, waiting, []);
      assert [child] + [] == [child];
    } else {
      assert log[..0] == [];
    }
  }

  /** A block, then orphans that waited. */
  lemma ThenDrained(first: Step, rest: seq<Step>, waiting: Blocks, still: Blocks)
    requires Drained(waiting, rest, still)
    ensures ([first] + rest)[1..] == rest && DrawnFrom([first] + rest, waiting.Values + {first.block})
            && still.Values <= waiting.Values
  {
    assert OpenTaken(0, rest);
    assert forall x :: x in still ==> x in waiting && still[x] == waiting[x];
  }

  /** `pool` holds all the blocks that can be handled or come to wait. */
  lemma DrawnMore(a: seq<Step>, more: seq<Step>, b: Block, waiting: set<Block>, still: set<Block>, pool: set<Block>)
    requires DrawnFrom(a, pool) && DrawnFrom(more, waiting + {b}) && still <= waiting + {b} && waiting + {b} <= pool
    ensures DrawnFrom(a + more, pool) && still <= pool
  {}

  /** Each block given so far was handled with the outcome reported. */
  ghost predicate Answered(log: seq<Step>, blocks: seq<Block>, clock: seq<u64>, outcomes: seq<Outcome>) {
    |outcomes| <= |blocks| == |clock| && forall i :: 0 <= i < |outcomes| ==>
        Handled(log, blocks[i], clock[i], outcomes[i])
  }

  lemma AnsweredMore(a: seq<Step>, more: seq<Step>, blocks: seq<Block>, clock: seq<u64>, outcomes: seq<Outcome>)
    requires Answered(a, blocks, clock, outcomes) && |outcomes| < |blocks| && more != []
    requires more[0].block == blocks[|outcomes|] && more[0].now == clock[|outcomes|]
    ensures Answered(a + more, blocks, clock, outcomes + [more[0].outcome])
  {
    forall k | 0 <= k < |outcomes| ensures Handled(a + more, blocks[k], clock[k], outcomes[k]) {
      var i :| 0 <= i < |a| && a[i].block == blocks[k] && a[i].now == clock[k] && a[i].outcome == outcomes[k];
      assert (a + more)[i] == a[i];
    }
    assert (a + more)[|a|] == more[0];
  }

  // ---- where a ledger was torn ---------------------------------------------------------------

  ghost predicate Tears(net: Network, ops: Ops, s: Step) {
    !s.before.torn && OutcomeOf(net, ops, s.before, s.block, s.now) == LedgerTorn
  }

  /** A ledger torn in a run was torn at some step, from an untorn state, by the rules. */
  lemma {:induction false} TornByStep(net: Network, ops: Ops, p: View, log: seq<Step>, q: View)
    requires Sound(net, ops, p) && History(net, ops, p, log, q) && !p.torn && q.torn
    ensures exists i :: 0 <= i < |log| && Tears(net, ops, log[i])
    decreases |log|
  {
    assert OpenHistory(0, log);
    var n := |log| - 1;
    var s := log[n];
    assert Stepped(net, ops, s);
    if s.before.torn {
      assert History(net, ops, p, log[..n], s.before) by {
        assert n > 0 ==> log[..n][n - 1] == log[n - 1] && log[n].before == log[n - 1].after;
      }
      TornByStep(net, ops, p, log[..n], s.before);
      var i :| 0 <= i < n && Tears(net, ops, log[..n][i]);
      assert Tears(net, ops, log[i]);
    } else {
      assert OpenStep(0, s);
      TornIsOutcome(net, ops, s);
      assert Tears(net, ops, log[n]);
    }
  }

  lemma TornIsOutcome(net: Network, ops: Ops, s: Step)
    requires Moved(net, ops, s.before, Events(ops, s.before, s.block, s.outcome), s.after) && !s.before.torn
             && s.after.torn
    ensures s.outcome == LedgerTorn
  {
    var events := Events(ops, s.before, s.block, s.outcome);
    assert OpenMoved(0, events);
    var i :| 0 <= i < |events| && events[i].outcome == LedgerTorn;
  }

  // ---- what the rules refuse -----------------------------------------------------------------

  /** A block stamped more than two hours ahead of the clock, or one that differs from the first checkpoint at
      its height, is rejected in every state. */
  lemma EarlyRefusals(net: Network, ops: Ops, v: View, b: Block, now: u64)
    ensures b.header.timestamp > now + 7200 ==> OutcomeOf(net, ops, v, b, now) == Rejected
    ensures FirstCheckpointDiffers(net, b) ==> OutcomeOf(net, ops, v, b, now) == Rejected
    ensures OutcomeOf(net, ops, v, b, now) == Orphaned <==>
              && (b.header.timestamp <= now + 7200 && !FirstCheckpointDiffers(net, b))
              && b.header.prevHash != ZERO_HASH && b.header.prevHash !in v.storage
  {
    CheckpointMeans(net.checkpoints, b.header.height, HashOf(net, b));
  }

  ghost predicate FirstCheckpointDiffers(net: Network, b: Block) {
    FirstDiffers(net.checkpoints, b.header.height, HashOf(net, b))
  }

  /** The first checkpoint at `height` names another hash. */
  ghost predicate FirstDiffers(cps: seq<Checkpoint>, height: nat, hash: Hash) {
    exists i :: && 0 <= i < |cps| && cps[i].height == height && cps[i].hash != hash
                && forall j :: 0 <= j < i ==> cps[j].height != height
  }

  lemma {:induction false} CheckpointMeans(cps: seq<Checkpoint>, height: nat, hash: Hash)
    ensures CheckpointOk(cps, height, hash) <==> !FirstDiffers(cps, height, hash)
  {
    if cps != [] {
      CheckpointMeans(cps[1..], height, hash);
      if cps[0].height != height {
        FirstShifts(cps, height, hash);
      }
    }
  }

  lemma FirstShifts(cps: seq<Checkpoint>, height: nat, hash: Hash)
    requires cps != [] && cps[0].height != height
    ensures FirstDiffers(cps, height, hash) <==> FirstDiffers(cps[1..], height, hash)
  {
    if FirstDiffers(cps[1..], height, hash) {
      var i :| && 0 <= i < |cps| - 1 && cps[1..][i].height == height && cps[1..][i].hash != hash
               && forall j :: 0 <= j < i ==> cps[1..][j].height != height;
      forall j | 0 <= j < i + 1 ensures cps[j].height != height {
        assert j > 0 ==> cps[j] == cps[1..][j - 1];
      }
      assert cps[i + 1] == cps[1..][i];
    }
    if FirstDiffers(cps, height, hash) {
      var i :| && 0 <= i < |cps| && cps[i].height == height && cps[i].hash != hash
               && forall j :: 0 <= j < i ==> cps[j].height != height;
      forall j | 0 <= j < i - 1 ensures cps[1..][j].height != height {
        assert cps[1..][j] == cps[j + 1];
      }
      assert cps[1..][i - 1] == cps[i];
    }
  }

  /** A branch that leaves the active chain more than 100 blocks below the tip, or below the last checkpoint, is
      never switched to; nor is one without strictly more work. */
  lemma NeverSwitched(net: Network, ops: Ops, v: View, b: Block, now: u64)
    requires b.header.prevHash != v.tip && Tree(HeadersOf(v.storage[HashOf(net, b) := b]), Root0(net))
             && v.tip in v.storage
    ensures var hs, h := HeadersOf(v.storage[HashOf(net, b) := b]), HashOf(net, b);
            var fork := ForkHeight(hs, Root0(net), v.tip, h);
            var work := AddWrap(Val(ParentWork(v.work, b.header.prevHash)), ops.work(b.header.bits));
            (|| hs[v.tip].height - fork > 100
             || (net.checkpoints != [] && fork < net.checkpoints[|net.checkpoints| - 1].height)
             || work <= Val(v.chainwork)) ==>
              OutcomeOf(net, ops, v, b, now) != Reorganised && OutcomeOf(net, ops, v, b, now) != Extended
  {}
}
