/** BIP 152 compact blocks: building one, rebuilding the block from a pool, and listing what is missing. */
module CompactBlocks {
  import opened BigEndian
  import opened Primitives

  const MAX_BLOCK_TXS: nat := 25_000

  type Raw = seq<byte>

  datatype ShortId = ShortId(bits: nat)
  datatype Prefilled = Prefilled(index: u64, tx: Raw)
  datatype Compact = Compact(shortIds: seq<ShortId>, prefilled: seq<Prefilled>)
  datatype Rebuild = Ok(txs: seq<Raw>) | InvalidPrefilledIndex | MissingTransactions

  type TxPool = map<ShortId, Raw>

  function Wrap64(x: nat): u64 {
    x % TWO_64
  }

  // ---- layouts: what a compact block says about each position ------------------------------

  datatype Slot = Known(tx: Raw) | Short(id: ShortId)

  /** Prefilled entries from position `i` on, indices counted from `last`. */
  ghost function PrefilledFrom(layout: seq<Slot>, i: nat, last: nat): seq<Prefilled>
    requires last <= i <= |layout| < TWO_64
    decreases |layout| - i
  {
    if i == |layout| then []
    else if layout[i].Known? then [Prefilled(i - last, layout[i].tx)] + PrefilledFrom(layout, i + 1, i + 1)
    else PrefilledFrom(layout, i + 1, last)
  }

  ghost function ShortFrom(layout: seq<Slot>, i: nat): seq<ShortId>
    requires i <= |layout|
    decreases |layout| - i
  {
    if i == |layout| then []
    else if layout[i].Short? then [layout[i].id] + ShortFrom(layout, i + 1)
    else ShortFrom(layout, i + 1)
  }

  /** The compact block with a given layout. */
  ghost function Encode(layout: seq<Slot>): Compact
    requires |layout| < TWO_64
  {
    Compact(ShortFrom(layout, 0), PrefilledFrom(layout, 0, 0))
  }

  lemma {:induction false} EncodedLength(layout: seq<Slot>, i: nat, last: nat)
    requires last <= i <= |layout| < TWO_64
    ensures |ShortFrom(layout, i)| + |PrefilledFrom(layout, i, last)| == |layout| - i
    decreases |layout| - i
  {
    if i < |layout| {
      EncodedLength(layout, i + 1, if layout[i].Known? then i + 1 else last);
    }
  }

  lemma EncodeStep(layout: seq<Slot>, i: nat, last: nat)
    requires last <= i < |layout| < TWO_64
    ensures if layout[i].Known?
            then
              && PrefilledFrom(layout, i, last) ==
                 [Prefilled(i - last, layout[i].tx)] + PrefilledFrom(layout, i + 1, i + 1)
                 && ShortFrom(layout, i) == ShortFrom(layout, i + 1)
            else && PrefilledFrom(layout, i, last) == PrefilledFrom(layout, i + 1, last)
                 && ShortFrom(layout, i) == [layout[i].id] + ShortFrom(layout, i + 1)
  {}

  lemma MoveHead<T>(done: seq<T>, x: T, rest: seq<T>)
    ensures done + ([x] + rest) == done + [x] + rest
  {}

  // ---- building --------------------------------------------------------------------------

  ghost function LayoutOf(shortOf: Raw -> ShortId, txs: seq<Raw>, prefill: set<int>): seq<Slot> {
    seq(|txs|, i requires 0 <= i < |txs| => if i in prefill then Known(txs[i]) else Short(shortOf(txs[i])))
  }

  /** `CompactBlock::new`: the requested indices and always the coinbase are sent in full. */
  method New(shortOf: Raw -> ShortId, txs: seq<Raw>, indices: seq<nat>) returns (c: Compact)
    requires |txs| < TWO_64
    ensures c == Encode(LayoutOf(shortOf, txs, (set k | k in indices) + {0})) && SentFor(c, shortOf, txs, indices)
  {
    var prefill: set<int> := (set k | k in indices) + {0};
    ghost var layout := LayoutOf(shortOf, txs, prefill);
    var shortIds, prefilled, last := [], [], 0;
    for i := 0 to |txs|
      invariant last <= i
      invariant shortIds + ShortFrom(layout, i) == ShortFrom(layout, 0)
      invariant prefilled + PrefilledFrom(layout, i, last) == PrefilledFrom(layout, 0, 0)
    {
      EncodeStep(layout, i, last);
      if i in prefill {
        MoveHead(prefilled, Prefilled(i - last, txs[i]), PrefilledFrom(layout, i + 1, i + 1));
        prefilled := prefilled + [Prefilled(i - last, txs[i])];
        last := i + 1;
      } else {
        MoveHead(shortIds, shortOf(txs[i]), ShortFrom(layout, i + 1));
        shortIds := shortIds + [shortOf(txs[i])];
      }
    }
    c := Compact(shortIds, prefilled);
    EncodedIsSent(shortOf, txs, indices);
  }

  // ---- rebuilding ------------------------------------------------------------------------

  /** Place prefilled transactions; indices are added with 64-bit wrap-around. */
  ghost function Place(slots: seq<Raw>, index: u64, prefilled: seq<Prefilled>): Option<seq<Raw>>
    decreases |prefilled|
  {
    if prefilled == [] then Some(slots) else
      var at := Wrap64(index + prefilled[0].index);
      if at >= |slots| then None
      else Place(slots[at := prefilled[0].tx], Wrap64(at + 1), prefilled[1..])
  }

  /** Fill the empty slots, in order, with the pool's transactions for the short ids, in order. */
  ghost function Fill(slots: seq<Raw>, shortIds: seq<ShortId>, pool: TxPool): Option<seq<Raw>>
    decreases |slots|
  {
    if slots == [] then Some([])
    else if slots[0] == [] then
      if shortIds == [] || shortIds[0] !in pool then None
      else Prepend(pool[shortIds[0]], Fill(slots[1..], shortIds[1..], pool))
    else Prepend(slots[0], Fill(slots[1..], shortIds, pool))
  }

  ghost function Prepend(x: Raw, rest: Option<seq<Raw>>): Option<seq<Raw>> {
    if rest == None then None else Some([x] + rest.value)
  }

  ghost function Empty(n: nat): (s: seq<Raw>)
    ensures |s| == n && forall i :: 0 <= i < n ==> s[i] == []
  {
    seq(n, i => [])
  }

  ghost function Reconstructed(c: Compact, pool: TxPool): Rebuild {
    var total := |c.shortIds| + |c.prefilled|;
    if total > MAX_BLOCK_TXS then InvalidPrefilledIndex else
      var placed := Place(Empty(total), 0, c.prefilled);
      if placed == None then InvalidPrefilledIndex else
        var filled := Fill(placed.value, c.shortIds, pool);
        if filled == None then MissingTransactions else Ok(filled.value)
  }

  /** The prefilled loop, on the slots in place. */
  method PlacePrefilled(slots: array<Raw>, prefilled: seq<Prefilled>) returns (ok: bool)
    modifies slots
    ensures Place(old(slots[..]), 0, prefilled) == if ok then Some(slots[..]) else None
  {
    var index: u64 := 0;
    for k := 0 to |prefilled|
      invariant Place(slots[..], index, prefilled[k..]) == Place(old(slots[..]), 0, prefilled)
    {
      var at := Wrap64(index + prefilled[k].index);
      if at >= slots.Length {
        return false;
      }
      assert prefilled[k..][1..] == prefilled[k + 1..];
      ghost var before := slots[..];
      slots[at] := prefilled[k].tx;
      assert slots[..] == before[at := prefilled[k].tx];
      index := Wrap64(at + 1);
    }
    ok := true;
  }

  /** The pool loop, on the slots in place. */
  method FillSlots(slots: array<Raw>, shortIds: seq<ShortId>, pool: TxPool) returns (ok: bool)
    modifies slots
    ensures Fill(old(slots[..]), shortIds, pool) == if ok then Some(slots[..]) else None
  {
    ghost var placed := slots[..];
    assert placed[0..] == placed && shortIds[0..] == shortIds;
    PrependNone(Fill(placed, shortIds, pool));
    assert slots[..0] == [];
    var used := 0;
    for j := 0 to slots.Length
      invariant used <= |shortIds| && forall k :: j <= k < slots.Length ==> slots[k] == placed[k]
      invariant Fill(placed, shortIds, pool) == PrependAll(slots[..j], Fill(placed[j..], shortIds[used..], pool))
    {
      FillStep(placed, j, shortIds[used..], pool);
      ghost var done := slots[..j];
      if slots[j] == [] {
        if used >= |shortIds| || shortIds[used] !in pool {
          return false;
        }
        slots[j] := pool[shortIds[used]];
        assert shortIds[used..][1..] == shortIds[used + 1..];
        used := used + 1;
      }
      assert slots[..j + 1] == done + [slots[j]];
      PrependMore(done, slots[j], Fill(placed[j + 1..], shortIds[used..], pool));
    }
    assert slots[..slots.Length] == slots[..] && slots[..] + [] == slots[..];
    ok := true;
  }

  method Reconstruct(c: Compact, pool: TxPool) returns (r: Rebuild)
    ensures r == Reconstructed(c, pool)
  {
    var total := |c.shortIds| + |c.prefilled|;
    if total > MAX_BLOCK_TXS {
      return InvalidPrefilledIndex;
    }
    var slots := new Raw[total](_ => []);
    assert slots[..] == Empty(total);
    var ok := PlacePrefilled(slots, c.prefilled);
    if !ok {
      return InvalidPrefilledIndex;
    }
    ok := FillSlots(slots, c.shortIds, pool);
    r := if ok then Ok(slots[..]) else MissingTransactions;
  }

  ghost function PrependAll(xs: seq<Raw>, rest: Option<seq<Raw>>): Option<seq<Raw>> {
    if rest == None then None else Some(xs + rest.value)
  }

  lemma PrependNone(rest: Option<seq<Raw>>)
    ensures PrependAll([], rest) == rest
  {
    if rest != None {
      assert [] + rest.value == rest.value;
    }
  }

  lemma PrependMore(xs: seq<Raw>, x: Raw, rest: Option<seq<Raw>>)
    ensures PrependAll(xs, Prepend(x, rest)) == PrependAll(xs + [x], rest)
  {
    if rest != None {
      assert xs + ([x] + rest.value) == xs + [x] + rest.value;
    }
  }

  lemma FillStep(slots: seq<Raw>, j: nat, ids: seq<ShortId>, pool: TxPool)
    requires j < |slots|
    ensures Fill(slots[j..], ids, pool) ==
            if slots[j] == [] then
              if ids == [] || ids[0] !in pool then None else Prepend(pool[ids[0]], Fill(slots[j + 1..], ids[1..], pool))
            else Prepend(slots[j], Fill(slots[j + 1..], ids, pool))
  {
    assert slots[j..][0] == slots[j] && slots[j..][1..] == slots[j + 1..];
  }

  // ---- what rebuilding means -------------------------------------------------------------

  /** The slots once the prefilled transactions of a layout are placed. */
  ghost function Placed(layout: seq<Slot>): seq<Raw> {
    seq(|layout|, i requires 0 <= i < |layout| => if layout[i].Known? then layout[i].tx else [])
  }

  lemma NoWrap(x: nat)
    requires x < TWO_64
    ensures Wrap64(x) == x
  {}

  lemma {:induction false} PlaceLayout(layout: seq<Slot>, i: nat, last: nat, slots: seq<Raw>)
    requires last <= i <= |layout| < TWO_64 - 1 && |slots| == |layout|
    requires forall k :: 0 <= k < |layout| ==> slots[k] == if k < i then Placed(layout)[k] else []
    ensures Place(slots, last, PrefilledFrom(layout, i, last)) == Some(Placed(layout))
    decreases |layout| - i
  {
    if i == |layout| {
      assert slots == Placed(layout);
    } else if layout[i].Known? {
      var entries := PrefilledFrom(layout, i, last);
      assert entries[0] == Prefilled(i - last, layout[i].tx) && entries[1..] == PrefilledFrom(layout, i + 1, i + 1);
      NoWrap(last + (i - last));
      NoWrap(i + 1);
      PlaceLayout(layout, i + 1, i + 1, slots[i := layout[i].tx]);
    } else {
      PlaceLayout(layout, i + 1, last, slots);
    }
  }

  ghost predicate Resolved(layout: seq<Slot>, pool: TxPool, i: nat) {
    forall k :: i <= k < |layout| ==> if layout[k].Known? then layout[k].tx != [] else layout[k].id in pool
  }

  /** The transactions a layout stands for, by the pool's lights. */
  ghost function Resolve(layout: seq<Slot>, pool: TxPool): seq<Raw> {
    seq(|layout|, i requires 0 <= i < |layout| =>
      if layout[i].Known? then layout[i].tx else if layout[i].id in pool then pool[layout[i].id] else [])
  }

  /** Filling succeeds exactly when no prefilled transaction is empty and every short id is in the pool. */
  lemma {:induction false} FillLayout(layout: seq<Slot>, pool: TxPool, i: nat)
    requires i <= |layout| && (forall k :: i <= k < |layout| && layout[k].Known? ==> layout[k].tx != [])
    ensures Fill(Placed(layout)[i..], ShortFrom(layout, i), pool) ==
            if Resolved(layout, pool, i) then Some(Resolve(layout, pool)[i..]) else None
    decreases |layout| - i
  {
    if i < |layout| {
      FillLayout(layout, pool, i + 1);
      FillStep(Placed(layout), i, ShortFrom(layout, i), pool);
      var rest := Fill(Placed(layout)[i + 1..], ShortFrom(layout, i + 1), pool);
      if layout[i].Known? {
        assert Fill(Placed(layout)[i..], ShortFrom(layout, i), pool) == Prepend(layout[i].tx, rest);
      } else {
        assert ShortFrom(layout, i)[0] == layout[i].id && ShortFrom(layout, i)[1..] == ShortFrom(layout, i + 1);
        assert Fill(Placed(layout)[i..], ShortFrom(layout, i), pool) == if layout[i].id in pool
               then Prepend(pool[layout[i].id], rest) else None;
      }
      ResolveStep(layout, pool, i);
    } else {
      assert Placed(layout)[i..] == [] && Resolve(layout, pool)[i..] == [];
    }
  }

  lemma ResolveStep(layout: seq<Slot>, pool: TxPool, i: nat)
    requires i < |layout|
    ensures Resolved(layout, pool, i) <==>
            (if layout[i].Known? then layout[i].tx != [] else layout[i].id in pool) && Resolved(layout, pool, i + 1)
    ensures var whole := Resolve(layout, pool); whole[i..] == [whole[i]] + whole[i + 1..]
  {}

  /** Too few short ids for the empty slots: filling runs out. */
  ghost function EmptyCount(slots: seq<Raw>): nat {
    if slots == [] then 0 else (if slots[0] == [] then 1 else 0) + EmptyCount(slots[1..])
  }

  lemma {:induction false} FillRunsOut(slots: seq<Raw>, ids: seq<ShortId>, pool: TxPool)
    requires EmptyCount(slots) > |ids|
    ensures Fill(slots, ids, pool) == None
    decreases |slots|
  {
    if slots[0] == [] {
      if ids != [] {
        FillRunsOut(slots[1..], ids[1..], pool);
      }
    } else {
      FillRunsOut(slots[1..], ids, pool);
    }
  }

  lemma {:induction false} EmptySlots(layout: seq<Slot>, i: nat)
    requires i <= |layout|
    ensures EmptyCount(Placed(layout)[i..]) >= |ShortFrom(layout, i)|
    ensures (exists k :: i <= k < |layout| && layout[k] == Known([])) ==>
              EmptyCount(Placed(layout)[i..]) > |ShortFrom(layout, i)|
    decreases |layout| - i
  {
    if i < |layout| {
      EmptySlots(layout, i + 1);
      assert Placed(layout)[i..][1..] == Placed(layout)[i + 1..];
    }
  }

  /** Rebuilding a layout of up to 25,000 positions gives its transactions exactly when no prefilled
      transaction is empty and the pool knows every short id; it fails as missing otherwise. */
  lemma ReconstructLayout(layout: seq<Slot>, pool: TxPool)
    requires |layout| <= MAX_BLOCK_TXS
    ensures Reconstructed(Encode(layout), pool) == if Resolved(layout, pool, 0) then Ok(Resolve(layout, pool))
            else MissingTransactions
  {
    EncodedLength(layout, 0, 0);
    PlaceLayout(layout, 0, 0, Empty(|layout|));
    assert Placed(layout)[0..] == Placed(layout) && Resolve(layout, pool)[0..] == Resolve(layout, pool);
    if k :| 0 <= k < |layout| && layout[k] == Known([]) {
      EmptySlots(layout, 0);
      FillRunsOut(Placed(layout), ShortFrom(layout, 0), pool);
    } else {
      FillLayout(layout, pool, 0);
    }
  }

  /** Round trip: a block sent compactly to a peer whose pool resolves the short ids arrives unchanged,
      if and only if every transaction sent in full is nonempty. */
  lemma RoundTrip(shortOf: Raw -> ShortId, txs: seq<Raw>, prefill: set<int>, pool: TxPool)
    requires |txs| <= MAX_BLOCK_TXS
    requires forall i :: 0 <= i < |txs| && i !in prefill ==> shortOf(txs[i]) in pool && pool[shortOf(txs[i])] == txs[i]
    ensures Reconstructed(Encode(LayoutOf(shortOf, txs, prefill)), pool) == Ok(txs) <==>
            forall i :: 0 <= i < |txs| && i in prefill ==> txs[i] != []
  {
    var layout := LayoutOf(shortOf, txs, prefill);
    ReconstructLayout(layout, pool);
    assert Resolve(layout, pool) == txs;
    assert Resolved(layout, pool, 0) <==> forall i :: 0 <= i < |txs| && i in prefill ==> txs[i] != [];
  }

  // ---- what is missing -------------------------------------------------------------------

  ghost function Mark(flags: seq<bool>, index: u64, prefilled: seq<Prefilled>): (r: seq<bool>)
    ensures |r| == |flags|
    decreases |prefilled|
  {
    if prefilled == [] then flags else
      var at := Wrap64(index + prefilled[0].index);
      Mark(if at < |flags| then flags[at := true] else flags, Wrap64(at + 1), prefilled[1..])
  }

  /** The first position from `index` on that is not marked. */
  ghost function Skip(flags: seq<bool>, index: nat): nat
    decreases |flags| - index
  {
    if index < |flags| && flags[index] then Skip(flags, index + 1) else index
  }

  ghost function Walk(flags: seq<bool>, index: nat, ids: seq<ShortId>, pool: TxPool): seq<nat>
    decreases |ids|
  {
    if ids == [] then [] else
      var at := Skip(flags, index);
      (if ids[0] in pool then [] else [at]) + Walk(flags, at + 1, ids[1..], pool)
  }

  ghost function Unmarked(n: nat): (s: seq<bool>)
    ensures |s| == n && forall i :: 0 <= i < n ==> !s[i]
  {
    seq(n, i => false)
  }

  ghost function Missing(c: Compact, pool: TxPool): seq<nat> {
    var total := |c.shortIds| + |c.prefilled|;
    if total > MAX_BLOCK_TXS then [] else Walk(Mark(Unmarked(total), 0, c.prefilled), 0, c.shortIds, pool)
  }

  method MarkPrefilled(flags: array<bool>, prefilled: seq<Prefilled>)
    modifies flags
    ensures flags[..] == Mark(old(flags[..]), 0, prefilled)
  {
    var index: u64 := 0;
    for k := 0 to |prefilled|
      invariant Mark(flags[..], index, prefilled[k..]) == Mark(old(flags[..]), 0, prefilled)
    {
      var at := Wrap64(index + prefilled[k].index);
      assert prefilled[k..][1..] == prefilled[k + 1..];
      ghost var before := flags[..];
      if at < flags.Length {
        flags[at] := true;
        assert flags[..] == before[at := true];
      }
      index := Wrap64(at + 1);
    }
  }

  /** `get_missing_indices`. */
  method GetMissingIndices(c: Compact, pool: TxPool) returns (missing: seq<nat>)
    ensures missing == Missing(c, pool)
  {
    var total := |c.shortIds| + |c.prefilled|;
    if total > MAX_BLOCK_TXS {
      return [];
    }
    var flags := new bool[total](_ => false);
    assert flags[..] == Unmarked(total);
    MarkPrefilled(flags, c.prefilled);
    missing := WalkMissing(flags[..], c.shortIds, pool);
  }

  method WalkMissing(flags: seq<bool>, ids: seq<ShortId>, pool: TxPool) returns (missing: seq<nat>)
    ensures missing == Walk(flags, 0, ids, pool)
  {
    missing := [];
    var index := 0;
    for k := 0 to |ids|
      invariant Walk(flags, 0, ids, pool) == missing + Walk(flags, index, ids[k..], pool)
    {
      var at := index;
      while at < |flags| && flags[at]
        invariant Skip(flags, at) == Skip(flags, index)
      {
        at := at + 1;
      }
      WalkStep(flags, index, ids, k, pool, missing);
      if ids[k] !in pool {
        missing := missing + [at];
      }
      index := at + 1;
    }
  }

  lemma WalkStep(flags: seq<bool>, index: nat, ids: seq<ShortId>, k: nat, pool: TxPool, before: seq<nat>)
    requires k < |ids|
    ensures var at := Skip(flags, index);
            before + Walk(flags, index, ids[k..], pool) ==
              (if ids[k] in pool then before else before + [at]) + Walk(flags, at + 1, ids[k + 1..], pool)
  {
    assert ids[k..][0] == ids[k] && ids[k..][1..] == ids[k + 1..];
    var at, rest := Skip(flags, index), Walk(flags, Skip(flags, index) + 1, ids[k + 1..], pool);
    MoveHead(before, at, rest);
    assert [] + rest == rest;
  }

  ghost function KnownFlags(layout: seq<Slot>): seq<bool> {
    seq(|layout|, i requires 0 <= i < |layout| => layout[i].Known?)
  }

  lemma {:induction false} MarkLayout(layout: seq<Slot>, i: nat, last: nat, flags: seq<bool>)
    requires last <= i <= |layout| < TWO_64 - 1 && |flags| == |layout|
    requires forall k :: 0 <= k < |layout| ==> flags[k] == (k < i && layout[k].Known?)
    ensures Mark(flags, last, PrefilledFrom(layout, i, last)) == KnownFlags(layout)
    decreases |layout| - i
  {
    if i == |layout| {
      assert flags == KnownFlags(layout);
    } else if layout[i].Known? {
      var entries := PrefilledFrom(layout, i, last);
      assert entries[0] == Prefilled(i - last, layout[i].tx) && entries[1..] == PrefilledFrom(layout, i + 1, i + 1);
      NoWrap(last + (i - last));
      NoWrap(i + 1);
      MarkLayout(layout, i + 1, i + 1, flags[i := true]);
    } else {
      MarkLayout(layout, i + 1, last, flags);
    }
  }

  /** Position `k` waits for a transaction the pool does not have. */
  ghost predicate Lacks(layout: seq<Slot>, pool: TxPool, k: int) {
    0 <= k < |layout| && layout[k].Short? && layout[k].id !in pool
  }

  ghost predicate Ascending(s: seq<nat>) {
    forall i, j :: 0 <= i < j < |s| ==> s[i] < s[j]
  }

  lemma AscendingCons(i: nat, rest: seq<nat>)
    requires Ascending(rest) && forall k :: k in rest ==> i < k
    ensures Ascending([i] + rest)
  {
    forall j | 0 <= j < |rest| ensures i < rest[j] {
      assert rest[j] in rest;
    }
  }

  lemma WalkSkips(flags: seq<bool>, i: nat, ids: seq<ShortId>, pool: TxPool)
    requires i < |flags| && flags[i]
    ensures Walk(flags, i, ids, pool) == Walk(flags, i + 1, ids, pool)
  {
    assert Skip(flags, i) == Skip(flags, i + 1);
  }

  lemma WalkTakes(flags: seq<bool>, i: nat, ids: seq<ShortId>, pool: TxPool)
    requires ids != [] && (i < |flags| ==> !flags[i])
    ensures var rest := Walk(flags, i + 1, ids[1..], pool);
            Walk(flags, i, ids, pool) == if ids[0] in pool then rest else [i] + rest
  {
    var rest := Walk(flags, i + 1, ids[1..], pool);
    assert Skip(flags, i) == i && [] + rest == rest;
  }

  lemma InHead(i: nat, rest: seq<nat>, k: int)
    ensures k in [i] + rest <==> k == i || k in rest
  {}

  lemma LayoutStep(layout: seq<Slot>, pool: TxPool, i: nat, k: int)
    requires i < |layout|
    ensures var flags := KnownFlags(layout);
            k in Walk(flags, i, ShortFrom(layout, i), pool) <==>
            (k == i && Lacks(layout, pool, i)) || k in Walk(flags, i + 1, ShortFrom(layout, i + 1), pool)
  {
    var flags, ids := KnownFlags(layout), ShortFrom(layout, i);
    if layout[i].Known? {
      WalkSkips(flags, i, ids, pool);
    } else {
      assert ids[1..] == ShortFrom(layout, i + 1);
      WalkTakes(flags, i, ids, pool);
      InHead(i, Walk(flags, i + 1, ids[1..], pool), k);
    }
  }

  lemma {:induction false} LayoutLists(layout: seq<Slot>, pool: TxPool, i: nat, k: int)
    requires i <= |layout|
    ensures k in Walk(KnownFlags(layout), i, ShortFrom(layout, i), pool) <==> i <= k && Lacks(layout, pool, k)
    decreases |layout| - i
  {
    if i < |layout| {
      LayoutStep(layout, pool, i, k);
      LayoutLists(layout, pool, i + 1, k);
    }
  }

  /** For a message built from a layout those are the layout's own positions. */
  lemma MissingOfLayout(layout: seq<Slot>, pool: TxPool)
    requires |layout| <= MAX_BLOCK_TXS
    ensures Ascending(Missing(Encode(layout), pool))
    ensures forall k :: k in Missing(Encode(layout), pool) <==> Lacks(layout, pool, k)
  {
    EncodedLength(layout, 0, 0);
    MarkLayout(layout, 0, 0, Unmarked(|layout|));
    WalkAscends(KnownFlags(layout), 0, ShortFrom(layout, 0), pool);
    forall k ensures k in Missing(Encode(layout), pool) <==> Lacks(layout, pool, k) {
      LayoutLists(layout, pool, 0, k);
    }
  }

  // ---- any message -----------------------------------------------------------------------

  /** Where the prefilled transactions go, wrap-around included. */
  ghost function Positions(index: u64, prefilled: seq<Prefilled>): (s: seq<u64>)
    ensures |s| == |prefilled|
    decreases |prefilled|
  {
    if prefilled == [] then [] else
      var at := Wrap64(index + prefilled[0].index);
      [at] + Positions(Wrap64(at + 1), prefilled[1..])
  }

  ghost predicate InRange(positions: seq<u64>, total: nat) {
    forall i :: 0 <= i < |positions| ==> positions[i] < total
  }

  ghost predicate DistinctPositions(at: seq<u64>) {
    forall i, j :: 0 <= i < j < |at| ==> at[i] != at[j]
  }

  ghost predicate AllFree(slots: seq<Raw>, at: seq<u64>)
    requires InRange(at, |slots|)
  {
    forall p :: p in at ==> slots[p] == []
  }

  ghost predicate NoneEmpty(prefilled: seq<Prefilled>) {
    forall i :: 0 <= i < |prefilled| ==> prefilled[i].tx != []
  }

  /** Distinct positions that are free in `slots`, each for a nonempty transaction. */
  ghost predicate Fits(slots: seq<Raw>, index: u64, prefilled: seq<Prefilled>) {
    var at := Positions(index, prefilled);
    InRange(at, |slots|) && DistinctPositions(at) && AllFree(slots, at) && NoneEmpty(prefilled)
  }

  lemma {:induction false} EmptyCountUpdate(slots: seq<Raw>, at: nat, tx: Raw)
    requires at < |slots|
    ensures EmptyCount(slots[at := tx]) + (if slots[at] == [] then 1 else 0) == EmptyCount(slots) + if tx == [] then 1
            else 0
  {
    var more := slots[at := tx];
    if at == 0 {
      assert more[1..] == slots[1..];
    } else {
      EmptyCountUpdate(slots[1..], at - 1, tx);
      assert more[1..] == slots[1..][at - 1 := tx];
    }
  }

  lemma {:induction false} EmptyCountAll(n: nat)
    ensures EmptyCount(Empty(n)) == n
  {
    if n > 0 {
      EmptyCountAll(n - 1);
      assert Empty(n)[1..] == Empty(n - 1);
    }
  }

  lemma DistinctCons(at: u64, rest: seq<u64>)
    ensures DistinctPositions([at] + rest) <==> at !in rest && DistinctPositions(rest)
  {
    var all := [at] + rest;
    if DistinctPositions(all) {
      forall i | 0 <= i < |rest| ensures rest[i] != at {
        assert all[0] != all[i + 1];
      }
      forall i, j | 0 <= i < j < |rest| ensures rest[i] != rest[j] {
        assert all[i + 1] != all[j + 1];
      }
    }
  }

  lemma NoneEmptyCons(prefilled: seq<Prefilled>)
    requires prefilled != []
    ensures NoneEmpty(prefilled) <==> prefilled[0].tx != [] && NoneEmpty(prefilled[1..])
  {
    if NoneEmpty(prefilled[1..]) {
      forall i | 0 < i < |prefilled| ensures prefilled[i].tx != [] {
        assert prefilled[i] == prefilled[1..][i - 1];
      }
    }
  }

  lemma FreeCons(slots: seq<Raw>, at: u64, rest: seq<u64>, tx: Raw)
    requires at < |slots| && InRange(rest, |slots|) && InRange([at] + rest, |slots|) && tx != []
    ensures AllFree(slots, [at] + rest) && at !in rest <==> slots[at] == [] && AllFree(slots[at := tx], rest)
  {
    assert at in [at] + rest;
    assert forall p :: p in rest ==> p in [at] + rest;
  }

  lemma FitsHead(slots: seq<Raw>, index: u64, prefilled: seq<Prefilled>)
    requires prefilled != [] && InRange(Positions(index, prefilled), |slots|)
    ensures var at := Wrap64(index + prefilled[0].index);
            && at < |slots| && InRange(Positions(Wrap64(at + 1), prefilled[1..]), |slots|)
            && (Fits(slots, index, prefilled) <==>
                  slots[at] == [] && prefilled[0].tx != []
                    && Fits(slots[at := prefilled[0].tx], Wrap64(at + 1), prefilled[1..]))
  {
    var at: nat := Wrap64(index + prefilled[0].index);
    var rest := Positions(Wrap64(at + 1), prefilled[1..]);
    assert Positions(index, prefilled) == [at] + rest;
    InRangeCons(at, rest, |slots|);
    DistinctCons(at, rest);
    NoneEmptyCons(prefilled);
    if prefilled[0].tx != [] {
      FreeCons(slots, at, rest, prefilled[0].tx);
    }
  }

  lemma InRangeCons(at: u64, rest: seq<u64>, total: nat)
    ensures InRange([at] + rest, total) <==> at < total && InRange(rest, total)
  {
    var all := [at] + rest;
    assert all[0] == at;
    forall i | 0 <= i < |rest| ensures rest[i] == all[i + 1] {}
    if InRange(all, total) {
      forall i | 0 <= i < |rest| ensures rest[i] < total {
        assert rest[i] == all[i + 1];
      }
    }
  }

  /** Placing fails exactly on a position out of range; otherwise each transaction fills at most one empty
      slot, and all of them do exactly when they fit. */
  lemma {:induction false} PlaceCounts(slots: seq<Raw>, index: u64, prefilled: seq<Prefilled>)
    ensures Place(slots, index, prefilled) != None <==> InRange(Positions(index, prefilled), |slots|)
    ensures Place(slots, index, prefilled) != None ==>
              var out := Place(slots, index, prefilled).value;
              && |out| == |slots| && EmptyCount(out) + |prefilled| >= EmptyCount(slots)
              && (EmptyCount(out) + |prefilled| == EmptyCount(slots) <==> Fits(slots, index, prefilled))
    decreases |prefilled|
  {
    if prefilled != [] {
      var at := Wrap64(index + prefilled[0].index);
      var rest := Positions(Wrap64(at + 1), prefilled[1..]);
      assert Positions(index, prefilled) == [at] + rest;
      if at < |slots| {
        PlaceCounts(slots[at := prefilled[0].tx], Wrap64(at + 1), prefilled[1..]);
        EmptyCountUpdate(slots, at, prefilled[0].tx);
        InRangeCons(at, rest, |slots|);
        if InRange(rest, |slots|) {
          FitsHead(slots, index, prefilled);
        }
      } else {
        assert Positions(index, prefilled)[0] == at;
      }
    }
  }

  lemma {:induction false} FillCounts(slots: seq<Raw>, ids: seq<ShortId>, pool: TxPool)
    ensures Fill(slots, ids, pool) != None <==>
              EmptyCount(slots) <= |ids| && forall i :: 0 <= i < EmptyCount(slots) ==> ids[i] in pool
    decreases |slots|
  {
    if slots != [] {
      if slots[0] != [] {
        FillCounts(slots[1..], ids, pool);
      } else if ids != [] {
        FillCounts(slots[1..], ids[1..], pool);
        assert forall i :: 0 < i < |ids| ==> ids[i] == ids[1..][i - 1];
        assert forall i :: 0 <= i < |ids| - 1 ==> ids[1..][i] == ids[i + 1];
      }
    }
  }

  ghost predicate AllKnown(ids: seq<ShortId>, pool: TxPool) {
    forall i :: 0 <= i < |ids| ==> ids[i] in pool
  }

  /** For every message: an index error exactly when there are too many transactions or a position is out of
      range, success exactly when moreover the prefilled transactions are nonempty at distinct positions and
      the pool knows every short id. */
  lemma ReconstructExact(c: Compact, pool: TxPool)
    ensures var total := |c.shortIds| + |c.prefilled|;
            && (Reconstructed(c, pool).InvalidPrefilledIndex? <==>
                 total > 25_000 || !InRange(Positions(0, c.prefilled), total))
            && (Reconstructed(c, pool).Ok? <==>
                 total <= 25_000 && Fits(Empty(total), 0, c.prefilled) && AllKnown(c.shortIds, pool))
  {
    var total := |c.shortIds| + |c.prefilled|;
    PlaceCounts(Empty(total), 0, c.prefilled);
    EmptyCountAll(total);
    var placed := Place(Empty(total), 0, c.prefilled);
    if placed != None {
      FillCounts(placed.value, c.shortIds, pool);
    }
  }

  lemma {:induction false} WalkEmpty(flags: seq<bool>, index: nat, ids: seq<ShortId>, pool: TxPool)
    ensures Walk(flags, index, ids, pool) == [] <==> AllKnown(ids, pool)
    decreases |ids|
  {
    if ids != [] {
      WalkEmpty(flags, Skip(flags, index) + 1, ids[1..], pool);
      assert forall i :: 0 < i < |ids| ==> ids[i] == ids[1..][i - 1];
      assert forall i :: 0 <= i < |ids| - 1 ==> ids[1..][i] == ids[i + 1];
    }
  }

  /** For every message, rebuilding succeeds exactly when nothing is missing, the size limit is kept and the
      prefilled transactions fit. */
  lemma SucceedsIffNothingMissing(c: Compact, pool: TxPool)
    ensures var total := |c.shortIds| + |c.prefilled|;
            Reconstructed(c, pool).Ok? <==>
                Missing(c, pool) == [] && total <= 25_000 && Fits(Empty(total), 0, c.prefilled)
  {
    var total := |c.shortIds| + |c.prefilled|;
    ReconstructExact(c, pool);
    WalkEmpty(Mark(Unmarked(total), 0, c.prefilled), 0, c.shortIds, pool);
  }

  /** How many of the positions from `i` up to `k` hold no prefilled transaction. */
  ghost function Free(at: seq<u64>, i: nat, k: nat): nat
    decreases k - i
  {
    if i >= k then 0 else (if i in at then 0 else 1) + Free(at, i + 1, k)
  }

  lemma {:induction false} OneTaken(x: u64, rest: seq<u64>, i: nat, n: nat)
    ensures Free(rest, i, n) <= Free([x] + rest, i, n) + if i <= x < n then 1 else 0
    decreases n - i
  {
    if i < n {
      OneTaken(x, rest, i + 1, n);
    }
  }

  lemma {:induction false} FreeNone(i: nat, n: nat)
    requires i <= n
    ensures Free([], i, n) == n - i
    decreases n - i
  {
    if i < n {
      FreeNone(i + 1, n);
    }
  }

  /** Prefilled transactions take up no more positions than there are of them. */
  lemma {:induction false} FreeEnough(at: seq<u64>, n: nat)
    ensures Free(at, 0, n) + |at| >= n
  {
    if at == [] {
      FreeNone(0, n);
    } else {
      FreeEnough(at[1..], n);
      OneTaken(at[0], at[1..], 0, n);
      assert at == [at[0]] + at[1..];
    }
  }

  lemma {:induction false} FreeMonotone(at: seq<u64>, i: nat, k: nat, n: nat)
    requires k <= n
    ensures Free(at, i, k) <= Free(at, i, n)
    decreases k - i
  {
    if i < k {
      FreeMonotone(at, i + 1, k, n);
    }
  }

  lemma {:induction false} MarkedAt(flags: seq<bool>, index: u64, prefilled: seq<Prefilled>, k: nat)
    requires k < |flags|
    ensures Mark(flags, index, prefilled)[k] <==> flags[k] || k in Positions(index, prefilled)
    decreases |prefilled|
  {
    if prefilled != [] {
      var at := Wrap64(index + prefilled[0].index);
      MarkedAt(if at < |flags| then flags[at := true] else flags, Wrap64(at + 1), prefilled[1..], k);
    }
  }

  /** The position `k` is the one of a short id the pool does not know: the free positions from `i` on take
      the ids in order. */
  ghost predicate Awaits(at: seq<u64>, i: nat, ids: seq<ShortId>, pool: TxPool, k: int) {
    i <= k && k !in at && Free(at, i, k) < |ids| && ids[Free(at, i, k)] !in pool
  }

  lemma {:induction false} WalkExact(flags: seq<bool>, at: seq<u64>, i: nat, ids: seq<ShortId>, pool: TxPool, k: int)
    requires forall x: nat :: x < |flags| ==> (flags[x] <==> x in at)
    requires Free(at, i, |flags|) >= |ids|
    ensures k in Walk(flags, i, ids, pool) <==> k < |flags| && Awaits(at, i, ids, pool, k)
    decreases |ids|, |flags| - i
  {
    if ids != [] {
      if flags[i] {
        WalkSkips(flags, i, ids, pool);
        WalkExact(flags, at, i + 1, ids, pool, k);
        AwaitsLater(at, i, ids, pool, k);
      } else {
        WalkTakes(flags, i, ids, pool);
        WalkExact(flags, at, i + 1, ids[1..], pool, k);
        InHead(i, Walk(flags, i + 1, ids[1..], pool), k);
        AwaitsNext(at, i, ids, pool, k);
      }
    }
  }

  /** A taken position takes no id. */
  lemma AwaitsLater(at: seq<u64>, i: nat, ids: seq<ShortId>, pool: TxPool, k: int)
    requires i in at
    ensures Awaits(at, i, ids, pool, k) <==> Awaits(at, i + 1, ids, pool, k)
  {
    if i < k {
      assert Free(at, i, k) == Free(at, i + 1, k);
    }
  }

  /** The first free position takes the first id. */
  lemma AwaitsNext(at: seq<u64>, i: nat, ids: seq<ShortId>, pool: TxPool, k: int)
    requires ids != [] && i !in at
    ensures Awaits(at, i, ids, pool, k) <==> if k == i then ids[0] !in pool else Awaits(at, i + 1, ids[1..], pool, k)
  {
    if i < k {
      assert Free(at, i, k) == 1 + Free(at, i + 1, k);
    }
  }

  lemma {:induction false} SkipAhead(flags: seq<bool>, i: nat)
    ensures Skip(flags, i) >= i
    decreases |flags| - i
  {
    if i < |flags| && flags[i] {
      SkipAhead(flags, i + 1);
    }
  }

  lemma {:induction false} WalkAscends(flags: seq<bool>, i: nat, ids: seq<ShortId>, pool: TxPool)
    ensures Ascending(Walk(flags, i, ids, pool)) && forall k :: k in Walk(flags, i, ids, pool) ==> i <= k
    decreases |ids|
  {
    if ids != [] {
      var at := Skip(flags, i);
      SkipAhead(flags, i);
      WalkAscends(flags, at + 1, ids[1..], pool);
      AscendsOn(i, at, Walk(flags, at + 1, ids[1..], pool), ids[0] in pool);
    }
  }

  lemma AscendsOn(i: nat, at: nat, rest: seq<nat>, known: bool)
    requires i <= at && Ascending(rest) && forall k :: k in rest ==> at + 1 <= k
    ensures var s := (if known then [] else [at]) + rest; Ascending(s) && forall k :: k in s ==> i <= k
  {
    if known {
      assert [] + rest == rest;
    } else {
      AscendingCons(at, rest);
      forall k ensures k in [at] + rest ==> i <= k {
        InHead(at, rest, k);
      }
    }
  }

  /** The ids run out before the positions do. */
  lemma AwaitsInside(c: Compact, pool: TxPool, k: int)
    requires Awaits(Positions(0, c.prefilled), 0, c.shortIds, pool, k)
    ensures k < |c.shortIds| + |c.prefilled|
  {
    var total, at := |c.shortIds| + |c.prefilled|, Positions(0, c.prefilled);
    if k >= total {
      FreeEnough(at, total);
      FreeMonotone(at, 0, total, k);
    }
  }

  /** For every message within the size limit, the missing list is ascending and holds exactly the positions
      of the short ids the pool does not know; over the limit it is empty. */
  lemma MissingIsExact(c: Compact, pool: TxPool)
    ensures var total := |c.shortIds| + |c.prefilled|;
            && Ascending(Missing(c, pool)) && (forall k :: k in Missing(c, pool) ==> k < total)
            && forall k :: k in Missing(c, pool) <==>
                 total <= 25_000 && Awaits(Positions(0, c.prefilled), 0, c.shortIds, pool, k)
  {
    var total, at := |c.shortIds| + |c.prefilled|, Positions(0, c.prefilled);
    var flags := Mark(Unmarked(total), 0, c.prefilled);
    forall k: nat | k < total ensures flags[k] <==> k in at {
      MarkedAt(Unmarked(total), 0, c.prefilled, k);
    }
    FreeEnough(at, total);
    WalkAscends(flags, 0, c.shortIds, pool);
    forall k ensures k in Walk(flags, 0, c.shortIds, pool) <==> k < total && Awaits(at, 0, c.shortIds, pool, k) {
      WalkExact(flags, at, 0, c.shortIds, pool, k);
    }
    forall k | Awaits(at, 0, c.shortIds, pool, k) ensures k < total {
      AwaitsInside(c, pool, k);
    }
  }

  // ---- what is sent ----------------------------------------------------------------------

  /** A message for `txs`: the coinbase and the requested positions in full, at the positions their differential
      indices say, and for every other position, in order, the short id of its transaction. */
  ghost predicate SentFor(c: Compact, shortOf: Raw -> ShortId, txs: seq<Raw>, indices: seq<nat>) {
    var at := Positions(0, c.prefilled);
    && |c.shortIds| + |c.prefilled| == |txs|
    && (forall k: nat :: k in at <==> k < |txs| && (k == 0 || k in indices))
    && (forall x :: 0 <= x < |at| ==> at[x] < |txs| && c.prefilled[x].tx == txs[at[x]])
    && forall k: nat :: k < |txs| && k !in at ==>
         Free(at, 0, k) < |c.shortIds| && c.shortIds[Free(at, 0, k)] == shortOf(txs[k])
  }

  /** The positions from `i` on that are sent whole, each with its transaction. */
  ghost predicate SentFrom(layout: seq<Slot>, i: nat, at: seq<u64>, sent: seq<Prefilled>) {
    (forall k: nat :: k in at <==> i <= k < |layout| && layout[k].Known?) && Carried(layout, at, sent)
  }

  ghost predicate Carried(layout: seq<Slot>, at: seq<u64>, sent: seq<Prefilled>) {
    && |at| == |sent|
    && forall x :: 0 <= x < |at| ==> at[x] < |layout| && layout[at[x]].Known? && sent[x].tx == layout[at[x]].tx
  }

  lemma {:induction false} SentPositions(layout: seq<Slot>, i: nat, last: nat)
    requires last <= i <= |layout| < TWO_64
    ensures SentFrom(layout, i, Positions(last, PrefilledFrom(layout, i, last)), PrefilledFrom(layout, i, last))
    decreases |layout| - i
  {
    if i < |layout| {
      EncodeStep(layout, i, last);
      if layout[i].Known? {
        SentPositions(layout, i + 1, i + 1);
        SentWhole(layout, i, last);
      } else {
        SentPositions(layout, i + 1, last);
        SentShort(layout, i, Positions(last, PrefilledFrom(layout, i, last)), PrefilledFrom(layout, i, last));
      }
    }
  }

  lemma SentWhole(layout: seq<Slot>, i: nat, last: nat)
    requires last <= i < |layout| < TWO_64 && layout[i].Known?
    requires var rest := PrefilledFrom(layout, i + 1, i + 1); SentFrom(layout, i + 1, Positions(i + 1, rest), rest)
    ensures SentFrom(layout, i, Positions(last, PrefilledFrom(layout, i, last)), PrefilledFrom(layout, i, last))
  {
    EncodeStep(layout, i, last);
    SentHead(layout, i, last);
    var rest := PrefilledFrom(layout, i + 1, i + 1);
    SentCons(layout, i, Positions(i + 1, rest), rest, Prefilled(i - last, layout[i].tx));
  }

  lemma SentShort(layout: seq<Slot>, i: nat, at: seq<u64>, sent: seq<Prefilled>)
    requires i < |layout| && !layout[i].Known? && SentFrom(layout, i + 1, at, sent)
    ensures SentFrom(layout, i, at, sent)
  {}

  lemma SentCons(layout: seq<Slot>, i: nat, at: seq<u64>, sent: seq<Prefilled>, p: Prefilled)
    requires i < |layout| < TWO_64 && layout[i].Known? && p.tx == layout[i].tx && SentFrom(layout, i + 1, at, sent)
    ensures SentFrom(layout, i, [i] + at, [p] + sent)
  {
    CarriedCons(layout, i, at, sent, p);
    forall k: nat
      ensures k in [i] + at <==> i <= k < |layout| && layout[k].Known?
    {
      assert k in [i] + at <==> k == i || k in at;
    }
  }

  lemma CarriedCons(layout: seq<Slot>, i: nat, at: seq<u64>, sent: seq<Prefilled>, p: Prefilled)
    requires i < |layout| < TWO_64 && layout[i].Known? && p.tx == layout[i].tx && Carried(layout, at, sent)
    ensures Carried(layout, [i] + at, [p] + sent)
  {
    forall x | 0 <= x < |at| + 1
      ensures ([i] + at)[x] == if x == 0 then i else at[x - 1]
      ensures ([p] + sent)[x] == if x == 0 then p else sent[x - 1]
    {
    }
  }

  lemma SentHead(layout: seq<Slot>, i: nat, last: nat)
    requires last <= i < |layout| < TWO_64 && layout[i].Known?
    ensures Positions(last, PrefilledFrom(layout, i, last)) ==
            [i] + Positions(i + 1, PrefilledFrom(layout, i + 1, i + 1))
  {
    EncodeStep(layout, i, last);
    NoWrap(i);
    NoWrap(i + 1);
    var rest := PrefilledFrom(layout, i + 1, i + 1);
    assert ([Prefilled(i - last, layout[i].tx)] + rest)[1..] == rest;
  }

  lemma {:induction false} SentIds(layout: seq<Slot>, at: seq<u64>, i: nat, k: nat)
    requires i <= k < |layout| && layout[k].Short?
    requires forall x: nat :: x in at <==> x < |layout| && layout[x].Known?
    ensures Free(at, i, k) < |ShortFrom(layout, i)| && ShortFrom(layout, i)[Free(at, i, k)] == layout[k].id
    decreases k - i
  {
    if i < k {
      SentIds(layout, at, i + 1, k);
    }
  }

  lemma EncodedIsSent(shortOf: Raw -> ShortId, txs: seq<Raw>, indices: seq<nat>)
    requires |txs| < TWO_64
    ensures SentFor(Encode(LayoutOf(shortOf, txs, (set k | k in indices) + {0})), shortOf, txs, indices)
  {
    var layout := LayoutOf(shortOf, txs, (set k | k in indices) + {0});
    var at := Positions(0, PrefilledFrom(layout, 0, 0));
    EncodedLength(layout, 0, 0);
    SentPositions(layout, 0, 0);
    forall k: nat | k < |txs| && k !in at
      ensures Free(at, 0, k) < |ShortFrom(layout, 0)| && ShortFrom(layout, 0)[Free(at, 0, k)] == shortOf(txs[k])
    {
      SentIds(layout, at, 0, k);
    }
  }
}
