/** What the node's state means: the stored tree, the active chain and the ledger it defines. */
module ActiveChain {
  import opened BigEndian
  import opened Primitives
  import opened Difficulty
  import opened Emission
  import opened Ledger
  import opened Value
  import opened Validator
  import opened Acceptance
  import opened ChainTree
  import opened Schedule
  import opened ChainLedger

  // ---- checkpoints -----------------------------------------------------------------------

  datatype Checkpoint = Checkpoint(height: nat, hash: Hash)

  /** The first checkpoint at a height decides. */
  predicate CheckpointOk(cps: seq<Checkpoint>, height: nat, hash: Hash) {
    cps == [] || (if cps[0].height == height then cps[0].hash == hash else CheckpointOk(cps[1..], height, hash))
  }

  predicate ReorgAllowed(cps: seq<Checkpoint>, target: nat) {
    cps == [] || target >= cps[|cps| - 1].height
  }

  // ---- the network -----------------------------------------------------------------------

  /** `mtp` is median-time-past by height, computed from the headers of a chain. */
  datatype Network = Network(rules: Rules, params: NetworkParams, genesis: Block, checkpoints: seq<Checkpoint>,
    mtp: seq<Header> -> (u64 -> u64))

  function HashOf(net: Network, b: Block): Hash {
    net.rules.hashing.headerHash(b.header)
  }

  function Root0(net: Network): Hash {
    HashOf(net, net.genesis)
  }

  /** The genesis block the node builds: one coinbase paying the first subsidy, applied unvalidated. */
  predicate GenesisOk(genesis: Block, params: NetworkParams) {
    && genesis.header.height == 0 && genesis.header.prevHash == ZERO_HASH && genesis.header.bits == params.genesisBits
    && |genesis.txs| == 1 && IsCoinbase(genesis.txs[0])
    && |genesis.txs[0].outputs| == 1 && genesis.txs[0].outputs[0].value == INITIAL_BLOCK_REWARD
  }

  /** Hashes do not collide, parameters are in range, genesis is the height-0 checkpoint. */
  ghost predicate NetworkOk(net: Network) {
    && HeaderHashInjective(net.rules.hashing.headerHash) && TxidInjective(net.rules.hashing.txid)
    && ParamsOk(net.params) && GenesisOk(net.genesis, net.params)
    && forall h :: CheckpointOk(net.checkpoints, 0, h) <==> h == Root0(net)
  }

  // ---- the stored tree -------------------------------------------------------------------

  ghost function HeadersOf(storage: map<Hash, Block>): (hs: Headers)
    ensures hs.Keys == storage.Keys
  {
    map h | h in storage :: storage[h].header
  }

  /** Stored blocks form a tree named by their hashes. */
  ghost predicate TreeShape(net: Network, storage: map<Hash, Block>) {
    var hs, g := HeadersOf(storage), Root0(net);
    && Tree(hs, g) && hs[g] == net.genesis.header
    && (forall h :: h in storage ==> HashOf(net, storage[h]) == h)
    && (forall h :: h in storage ==> CheckpointOk(net.checkpoints, storage[h].header.height, h))
  }

  ghost predicate RightWork(f: u32 -> nat, hs: Headers, g: Hash, h: Hash, w: Bytes32)
    requires Tree(hs, g) && h in hs
  {
    Val(w) == Wrap(PathWork(f, hs, g, h))
  }

  /** `block_work` holds the cumulative work of every path, modulo 2^256. */
  ghost predicate WorkState(f: u32 -> nat, hs: Headers, g: Hash, work: map<Hash, Bytes32>)
    requires Tree(hs, g)
  {
    work.Keys == hs.Keys && forall h :: h in hs ==> RightWork(f, hs, g, h, work[h])
  }

  ghost predicate TreeState(net: Network, f: u32 -> nat, storage: map<Hash, Block>, work: map<Hash, Bytes32>)
    requires NetworkOk(net)
  {
    && TreeShape(net, storage)
    && WorkState(f, HeadersOf(storage), Root0(net), work)
    && FollowsSchedule(net.params, HeadersOf(storage), Root0(net))
  }

  /** The checks a block passes before it is stored: it is genesis again, or it extends a stored
      parent by one height with the demanded bits. */
  ghost predicate Connects(net: Network, storage: map<Hash, Block>, b: Block)
    requires NetworkOk(net)
  {
    var hs, g := HeadersOf(storage), Root0(net);
    && Tree(hs, g)
    && CheckpointOk(net.checkpoints, b.header.height, HashOf(net, b))
    && if b.header.prevHash == ZERO_HASH then b.header.height == 0
       else && b.header.prevHash in hs && b.header.height == hs[b.header.prevHash].height + 1
            && b.header.bits == NextBits(net.params, hs, g, b.header.prevHash, b.header.timestamp)
  }

  function ParentWork(work: map<Hash, Bytes32>, prev: Hash): Bytes32 {
    if prev in work then work[prev] else Zeros(32)
  }

  /** The part of `Connects` that places a block in the tree. */
  ghost predicate Placed(net: Network, hs: Headers, b: Block) {
    && Tree(hs, Root0(net))
    && CheckpointOk(net.checkpoints, b.header.height, HashOf(net, b))
    && if b.header.prevHash == ZERO_HASH then b.header.height == 0
       else b.header.prevHash in hs && b.header.height == hs[b.header.prevHash].height + 1
  }

  ghost predicate HashesOk(net: Network) {
    && HeaderHashInjective(net.rules.hashing.headerHash)
    && forall h :: CheckpointOk(net.checkpoints, 0, h) <==> h == Root0(net)
  }

  /** Under one hash there is one header, so overwriting a body leaves the headers alone. */
  lemma StoreHeaders(net: Network, storage: map<Hash, Block>, b: Block)
    requires HashesOk(net) && TreeShape(net, storage) && Placed(net, HeadersOf(storage), b)
    ensures HeadersOf(storage[HashOf(net, b) := b]) == HeadersOf(storage)[HashOf(net, b) := b.header]
    ensures HashOf(net, b) in storage ==> HeadersOf(storage)[HashOf(net, b)] == b.header
    ensures b.header.prevHash == ZERO_HASH ==> HashOf(net, b) in storage
  {
    var h, hs := HashOf(net, b), HeadersOf(storage);
    assert HeadersOf(storage[h := b]) == hs[h := b.header];
    if h in storage {
      assert HashOf(net, storage[h]) == h;
    }
  }

  lemma StoreShape(net: Network, storage: map<Hash, Block>, b: Block)
    requires HashesOk(net) && TreeShape(net, storage) && Placed(net, HeadersOf(storage), b)
    ensures TreeShape(net, storage[HashOf(net, b) := b])
  {
    var h, hs := HashOf(net, b), HeadersOf(storage);
    StoreHeaders(net, storage, b);
    if h in storage {
      assert hs[h := b.header] == hs;
    } else {
      Grow(_ => 0, hs, Root0(net), h, b.header);
    }
  }

  lemma WrapAdd(a: nat, b: nat)
    ensures AddWrap(Wrap(a), b) == Wrap(a + b)
  {}

  lemma OwnWork(f: u32 -> nat, hs: Headers, g: Hash, h: Hash, before: Bytes32, w: Bytes32)
    requires Tree(hs, g) && h in hs
    requires if h == g then before == Zeros(32) else RightWork(f, hs, g, Parent(hs, g, h), before)
    requires Val(w) == AddWrap(Val(before), f(hs[h].bits))
    ensures RightWork(f, hs, g, h, w)
  {
    if h == g {
      ValZeros(32);
    } else {
      WrapAdd(PathWork(f, hs, g, Parent(hs, g, h)), f(hs[h].bits));
    }
  }

  lemma SameWork(f: u32 -> nat, hs: Headers, more: Headers, g: Hash, k: Hash, w: Bytes32)
    requires Tree(hs, g) && Tree(more, g) && Extends(hs, more) && k in hs && RightWork(f, hs, g, k, w)
    ensures RightWork(f, more, g, k, w)
  {
    GrowAt(f, hs, more, g, k);
  }

  /** Where a stored header goes: it is there already, or it is a new child of a stored one. */
  ghost predicate Joins(hs: Headers, h: Hash, header: Header) {
    if h in hs then hs[h] == header
    else h != ZERO_HASH && header.prevHash in hs && header.height == hs[header.prevHash].height + 1
  }

  lemma StoreGrows(f: u32 -> nat, hs: Headers, g: Hash, h: Hash, header: Header)
    requires Tree(hs, g) && Joins(hs, h, header)
    ensures Tree(hs[h := header], g) && Extends(hs, hs[h := header])
    ensures h != g ==> header.prevHash in hs && Parent(hs[h := header], g, h) == header.prevHash
  {
    if h in hs {
      assert hs[h := header] == hs;
      assert h != g ==> HasParent(hs, h);
    } else {
      Grow(f, hs, g, h, header);
    }
  }

  /** The recorded work of the stored block itself. */
  lemma StoredWork(f: u32 -> nat, hs: Headers, g: Hash, work: map<Hash, Bytes32>, h: Hash, header: Header, w: Bytes32)
    requires Tree(hs, g) && WorkState(f, hs, g, work) && Joins(hs, h, header)
    requires Val(w) == AddWrap(Val(ParentWork(work, header.prevHash)), f(header.bits))
    ensures Tree(hs[h := header], g) && RightWork(f, hs[h := header], g, h, w)
  {
    var more := hs[h := header];
    StoreGrows(f, hs, g, h, header);
    if h != g {
      SameWork(f, hs, more, g, header.prevHash, work[header.prevHash]);
    }
    OwnWork(f, more, g, h, ParentWork(work, header.prevHash), w);
  }

  lemma StoreWork(f: u32 -> nat, hs: Headers, g: Hash, work: map<Hash, Bytes32>, h: Hash, header: Header, w: Bytes32)
    requires Tree(hs, g) && WorkState(f, hs, g, work) && Joins(hs, h, header)
    requires Val(w) == AddWrap(Val(ParentWork(work, header.prevHash)), f(header.bits))
    ensures Tree(hs[h := header], g) && WorkState(f, hs[h := header], g, work[h := w])
  {
    var more, work' := hs[h := header], work[h := w];
    StoreGrows(f, hs, g, h, header);
    StoredWork(f, hs, g, work, h, header, w);
    forall k | k in more ensures RightWork(f, more, g, k, work'[k]) {
      KeptWork(f, hs, g, work, h, header, w, k);
    }
  }

  lemma KeptWork(f: u32 -> nat, hs: Headers, g: Hash, work: map<Hash, Bytes32>, h: Hash, header: Header, w: Bytes32,
                 k: Hash)
    requires Tree(hs, g) && WorkState(f, hs, g, work) && Tree(hs[h := header], g) && Extends(hs, hs[h := header])
    requires RightWork(f, hs[h := header], g, h, w) && k in hs[h := header]
    ensures RightWork(f, hs[h := header], g, k, work[h := w][k])
  {
    if k != h {
      SameWork(f, hs, hs[h := header], g, k, work[k]);
    }
  }

  /** Storing a connecting block keeps the tree, whatever was stored under its hash before. */
  lemma StoreBlock(net: Network, f: u32 -> nat, storage: map<Hash, Block>, work: map<Hash, Bytes32>, b: Block,
                   w: Bytes32)
    requires NetworkOk(net) && TreeState(net, f, storage, work) && Connects(net, storage, b)
    requires Val(w) == AddWrap(Val(ParentWork(work, b.header.prevHash)), f(b.header.bits))
    ensures TreeState(net, f, storage[HashOf(net, b) := b], work[HashOf(net, b) := w])
    ensures HeadersOf(storage[HashOf(net, b) := b]) == HeadersOf(storage)[HashOf(net, b) := b.header]
    ensures Extends(HeadersOf(storage), HeadersOf(storage[HashOf(net, b) := b]))
  {
    StoreHeaders(net, storage, b);
    StoreShape(net, storage, b);
    StoreWork(f, HeadersOf(storage), Root0(net), work, HashOf(net, b), b.header, w);
    StoreSchedule(net, HeadersOf(storage), HashOf(net, b), b.header);
  }

  lemma StoreSchedule(net: Network, hs: Headers, h: Hash, header: Header)
    requires ParamsOk(net.params) && Tree(hs, Root0(net)) && FollowsSchedule(net.params, hs, Root0(net))
    requires if h in hs then hs[h] == header
             else && h != ZERO_HASH && header.prevHash in hs && header.height == hs[header.prevHash].height + 1
                  && header.bits == NextBits(net.params, hs, Root0(net), header.prevHash, header.timestamp)
    ensures Tree(hs[h := header], Root0(net)) && FollowsSchedule(net.params, hs[h := header], Root0(net))
    ensures Extends(hs, hs[h := header])
  {
    if h in hs {
      assert hs[h := header] == hs;
    } else {
      Grow(_ => 0, hs, Root0(net), h, header);
      ScheduleGrows(net.params, hs, Root0(net), h, header);
    }
  }

  // ---- the node's ledger -----------------------------------------------------------------

  /** A marker: the meaning of `ops` at `(m, b)` is wanted. */
  predicate At(m: UtxoMap, b: Block) { true }
  predicate AtBlock(headers: seq<Header>, m: UtxoMap, b: Block) { true }
  predicate AtBits(bits: u32) { true }

  /** `ops` are the node's own validation, application and hashing. */
  ghost predicate Implements(net: Network, ops: Ops) {
    && ops.genesis == net.genesis
    && (forall b: Block :: ops.hash(b) == HashOf(net, b))
    && (forall headers: seq<Header>, m: UtxoMap, b: Block {:trigger AtBlock(headers, m, b)} ::
         AtBlock(headers, m, b) ==>
          (ops.accept(headers, m, b) <==> BlockAcceptable(net.rules, b, m, net.mtp(headers))))
    && (forall m: UtxoMap, b: Block {:trigger At(m, b)} :: At(m, b) ==>
         ops.apply(m, b) == ApplyBlock(net.rules.hashing.txid, m, b))
    && forall bits: u32 {:trigger AtBits(bits)} :: AtBits(bits) ==> ops.work(bits) == WorkOf(bits)
  }

  ghost function OpsOf(net: Network): (ops: Ops) {
    Ops(net.genesis, b => HashOf(net, b), (headers, m, b) => BlockAcceptable(net.rules, b, m, net.mtp(headers)),
        (m, b) => ApplyBlock(net.rules.hashing.txid, m, b), bits => WorkOf(bits))
  }

  lemma OpsImplement(net: Network)
    ensures Implements(net, OpsOf(net))
  {}

  lemma OpsReversible(net: Network, ops: Ops)
    requires NetworkOk(net) && Implements(net, ops)
    ensures Reversible(ops) && HashNamesHeader(ops)
  {
    forall m: UtxoMap, b: Block | ops.apply(m, b).ok
      ensures Disconnect(ops.apply(m, b).utxos, ops.apply(m, b).undo) == m
    {
      assert At(m, b);
      DisconnectUndoesApply(net.rules.hashing.txid, m, b);
    }
  }

  lemma GenesisChain(net: Network, ops: Ops)
    requires NetworkOk(net) && Implements(net, ops)
    ensures ValidChain(ops, [net.genesis])
    ensures ReplayChain(ops, [net.genesis]) == ApplyBlock(net.rules.hashing.txid, map[], net.genesis)
    ensures TotalValue(ReplayChain(ops, [net.genesis]).utxos) == BlockSubsidy(0)
  {
    var txid, tx := net.rules.hashing.txid, net.genesis.txs[0];
    assert [net.genesis][..0] == [];
    assert At(map[], net.genesis);
    assert net.genesis.txs == [tx];
    GenesisApplies(txid, tx);
  }

  lemma GenesisApplies(txid: Tx -> Hash, tx: Tx)
    requires IsCoinbase(tx) && |tx.outputs| == 1 && tx.outputs[0].value == INITIAL_BLOCK_REWARD
    ensures ApplyTxs(txid, map[], [tx], 0).ok
    ensures TotalValue(ApplyTxs(txid, map[], [tx], 0).utxos) == BlockSubsidy(0)
  {
    assert [tx][..0] == [] && tx.outputs[..0] == [];
    ApplyTxValue(txid, map[], tx, 0);
  }

  /** Supply: the value of the UTXO set of any valid chain is at most the subsidies of its heights,
      and those never exceed 21 million coins. */
  lemma {:induction false} SupplyBounded(net: Network, ops: Ops, chain: seq<Block>)
    requires NetworkOk(net) && Implements(net, ops) && ValidChain(ops, chain)
    ensures TotalValue(ReplayChain(ops, chain).utxos) <= SubsidySum(|chain|) <= MAX_SUPPLY
  {
    SupplyCap(|chain|);
    var n := |chain| - 1;
    if n == 0 {
      GenesisChain(net, ops);
      assert chain == [net.genesis];
    } else {
      ValidPrefix(ops, chain, n);
      ReplayPrefixOk(ops, chain, n);
      SupplyBounded(net, ops, chain[..n]);
      AcceptedBlockMints(net, ops, ChainHeaders(chain[..n]), ReplayChain(ops, chain[..n]).utxos, chain[n]);
    }
  }

  lemma AcceptedBlockMints(net: Network, ops: Ops, headers: seq<Header>, m: UtxoMap, b: Block)
    requires Implements(net, ops) && ops.accept(headers, m, b) && ops.apply(m, b).ok
    ensures TotalValue(ops.apply(m, b).utxos) <= TotalValue(m) + BlockSubsidy(b.header.height)
  {
    assert At(m, b) && AtBlock(headers, m, b);
    BlockValue(net.rules, b, m, net.mtp(headers));
  }

  /** `height_map` is exactly the given path. */
  ghost predicate MapsPath(heightMap: map<nat, Hash>, path: seq<Hash>) {
    && (forall i :: i in heightMap <==> 0 <= i < |path|)
    && forall i :: 0 <= i < |path| ==> heightMap[i] == path[i]
  }

  // ---- a run's progress ------------------------------------------------------------------

  ghost predicate NoOverflow(f: u32 -> nat, hs: Headers, g: Hash)
    requires Tree(hs, g)
  {
    forall h :: h in hs ==> PathWork(f, hs, g, h) < TWO_256
  }

  ghost predicate EveryBlockWorks(f: u32 -> nat, hs: Headers) {
    forall h :: h in hs ==> f(hs[h].bits) > 0
  }

  /** No stored block has more cumulative work than `tip`. */
  ghost predicate MostWork(f: u32 -> nat, hs: Headers, g: Hash, tip: Hash)
    requires Tree(hs, g) && tip in hs
  {
    forall h :: h in hs ==> PathWork(f, hs, g, h) <= PathWork(f, hs, g, tip)
  }

  datatype Snapshot = Snapshot(hs: Headers, tip: Hash)

  /** What holds between an earlier and a later state: headers are only added, and the tip's work grows,
      strictly at every change of tip if every block has some work (a nonzero target). */
  ghost predicate Later(f: u32 -> nat, g: Hash, a: Snapshot, b: Snapshot) {
    && Tree(a.hs, g) && Tree(b.hs, g) && Extends(a.hs, b.hs) && a.tip in a.hs && b.tip in b.hs
    && (NoOverflow(f, b.hs, g) ==>
          && PathWork(f, a.hs, g, a.tip) <= PathWork(f, b.hs, g, b.tip)
          && (a.tip != b.tip && EveryBlockWorks(f, b.hs) ==> PathWork(f, a.hs, g, a.tip) < PathWork(f, b.hs, g, b.tip)))
  }

  lemma LaterTrans(f: u32 -> nat, g: Hash, a: Snapshot, b: Snapshot, c: Snapshot)
    requires Later(f, g, a, b) && Later(f, g, b, c)
    ensures Later(f, g, a, c)
  {
    if NoOverflow(f, c.hs, g) {
      forall h | h in b.hs ensures PathWork(f, b.hs, g, h) < TWO_256 {
        GrowAt(f, b.hs, c.hs, g, h);
      }
    }
  }
}
