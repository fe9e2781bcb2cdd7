/** Consensus parameters, the subsidy schedule and the supply it can ever mint. */
module Emission {
  import opened BigEndian
  import opened Arithmetic256

  const MAX_SUPPLY: nat := 2_100_000_000_000_000
  const INITIAL_BLOCK_REWARD: nat := 5_000_000_000
  const HALVING_INTERVAL: nat := 210_000

  datatype NetworkParams = NetworkParams(
    maxSupply: u64,
    initialBlockReward: u64,
    halvingInterval: u64,
    targetBlockTime: u64,
    difficultyInterval: u64,
    adjustmentFactor: u32,
    genesisBits: u32,
    allowMinDifficulty: bool
  )

  const MAINNET := NetworkParams(MAX_SUPPLY, INITIAL_BLOCK_REWARD, HALVING_INTERVAL, 600, 2016, 4, 0x1d00_ffff, false)
  const TESTNET := NetworkParams(MAX_SUPPLY, INITIAL_BLOCK_REWARD, HALVING_INTERVAL, 600, 2016, 4, 0x1e0f_ffff, true)
  const REGTEST := NetworkParams(MAX_SUPPLY, INITIAL_BLOCK_REWARD, HALVING_INTERVAL, 1, 1, 4, 0x207f_ffff, true)

  function BlockSubsidy(height: nat): nat {
    var halvings := height / HALVING_INTERVAL;
    if halvings >= 64 then 0 else Shr(INITIAL_BLOCK_REWARD, halvings)
  }

  function BlockReward(p: NetworkParams, height: nat): nat
    requires p.halvingInterval > 0
  {
    var halvings := Era(p, height);
    if halvings >= 64 then 0 else Shr(p.initialBlockReward, halvings)
  }

  function Era(p: NetworkParams, height: nat): nat
    requires p.halvingInterval > 0
  {
    height / p.halvingInterval
  }

  /** Everything minted below a height. */
  function Minted(p: NetworkParams, n: nat): nat
    requires p.halvingInterval > 0
  {
    if n == 0 then 0 else Minted(p, n - 1) + BlockReward(p, n - 1)
  }

  function SubsidySum(n: nat): nat {
    if n == 0 then 0 else SubsidySum(n - 1) + BlockSubsidy(n - 1)
  }

  // ---- halving ---------------------------------------------------------------------------

  lemma {:induction false} ShrMono(x: nat, k: nat)
    ensures 2 * Shr(x, k + 1) <= Shr(x, k) <= x
  {
    ShrStep(x, k);
    if k > 0 {
      ShrMono(x, k - 1);
    }
  }

  lemma {:induction false} ShrStaysZero(x: nat, k: nat, n: nat)
    requires Shr(x, k) == 0 && k <= n
    ensures Shr(x, n) == 0
    decreases n - k
  {
    if k < n {
      ShrMono(x, k);
      ShrStaysZero(x, k + 1, n);
    }
  }

  lemma ShrU64(x: u64, k: nat)
    requires k >= 64
    ensures Shr(x, k) == 0
  {
    var n := 8;
    Pow2OfBytes(n);
    Pow256Values();
    ShrZero(x, 8 * n);
    ShrStaysZero(x, 64, k);
  }

  lemma RewardIsShift(p: NetworkParams, h: nat)
    requires p.halvingInterval > 0
    ensures BlockReward(p, h) == Shr(p.initialBlockReward, Era(p, h))
  {
    if Era(p, h) >= 64 {
      ShrU64(p.initialBlockReward, Era(p, h));
    }
  }

  lemma EraRange(p: NetworkParams, e: nat)
    requires p.halvingInterval > 0
    ensures forall h: nat :: e * p.halvingInterval <= h < e * p.halvingInterval + p.halvingInterval ==> Era(p, h) == e
  {
    forall h: nat | e * p.halvingInterval <= h < e * p.halvingInterval + p.halvingInterval
      ensures Era(p, h) == e
    {
      DivUnique(h, p.halvingInterval, e, h - e * p.halvingInterval);
    }
  }

  lemma MulStep(n: nat, r: nat)
    ensures (n + 1) * r == n * r + r
  {}

  lemma {:induction false} MintedConstant(p: NetworkParams, r: nat, a: nat, b: nat)
    requires p.halvingInterval > 0 && a <= b
    requires forall h :: a <= h < b ==> BlockReward(p, h) == r
    ensures Minted(p, b) == Minted(p, a) + (b - a) * r
    decreases b
  {
    if a < b {
      MintedConstant(p, r, a, b - 1);
      MulStep(b - 1 - a, r);
      assert (b - a) * r == (b - 1 - a) * r + r;
    }
  }

  /** Within one era the reward is constant. */
  lemma MintedInEra(p: NetworkParams, e: nat, a: nat, b: nat)
    requires p.halvingInterval > 0 && a <= b
    requires forall h :: a <= h < b ==> Era(p, h) == e
    ensures Minted(p, b) == Minted(p, a) + (b - a) * Shr(p.initialBlockReward, e)
  {
    forall h | a <= h < b ensures BlockReward(p, h) == Shr(p.initialBlockReward, e) {
      RewardIsShift(p, h);
      assert Era(p, h) == e;
    }
    MintedConstant(p, Shr(p.initialBlockReward, e), a, b);
  }

  /** What is minted before era `e`, plus twice a full era at its reward, never exceeds twice the
      first era: the geometric bound. */
  lemma {:induction false} MintedByEra(p: NetworkParams, e: nat)
    requires p.halvingInterval > 0
    ensures Minted(p, e * p.halvingInterval) + 2 * (p.halvingInterval * Shr(p.initialBlockReward, e))
            <= 2 * (p.halvingInterval * p.initialBlockReward)
  {
    if e == 0 {
      assert e * p.halvingInterval == 0;
    } else {
      MintedByEra(p, e - 1);
      var i, r, r' := p.halvingInterval, Shr(p.initialBlockReward, e - 1), Shr(p.initialBlockReward, e);
      EraEnds(e - 1, i);
      EraRange(p, e - 1);
      MintedInEra(p, e - 1, (e - 1) * i, e * i);
      ShrMono(p.initialBlockReward, e - 1);
      HalfEra(i, r, r');
    }
  }

  lemma EraEnds(e: nat, i: nat)
    ensures (e + 1) * i == e * i + i && (e + 1) * i - e * i == i
  {}

  lemma HalfEra(i: nat, r: nat, r': nat)
    requires 2 * r' <= r
    ensures 2 * (i * r') <= i * r
  {
    MulMono(2 * r', r, i);
    assert (2 * r') * i == 2 * (i * r') && r * i == i * r;
  }

  lemma {:induction false} MintedMono(p: NetworkParams, a: nat, b: nat)
    requires p.halvingInterval > 0 && a <= b
    ensures Minted(p, a) <= Minted(p, b)
  {
    if a < b {
      MintedMono(p, a, b - 1);
    }
  }

  /** At no height has more than twice the first era been minted. */
  lemma MintedBound(p: NetworkParams, n: nat)
    requires p.halvingInterval > 0
    ensures Minted(p, n) <= 2 * (p.halvingInterval * p.initialBlockReward)
  {
    var i, e := p.halvingInterval, Era(p, n);
    assert n < (e + 1) * i by {
      assert n == e * i + n % i;
      EraEnds(e, i);
    }
    MintedMono(p, n, (e + 1) * i);
    MintedByEra(p, e + 1);
    MulMono(0, i, Shr(p.initialBlockReward, e + 1));
  }

  lemma {:induction false} SubsidySumIsMinted(n: nat)
    ensures SubsidySum(n) == Minted(MAINNET, n)
  {
    if n > 0 {
      SubsidySumIsMinted(n - 1);
    }
  }

  /** The subsidies of all blocks below any height sum to at most 21 million coins. */
  lemma SupplyCap(n: nat)
    ensures SubsidySum(n) <= 2_100_000_000_000_000 == MAX_SUPPLY
  {
    SubsidySumIsMinted(n);
    MintedBound(MAINNET, n);
  }

  // ---- supply_at_height ------------------------------------------------------------------

  function SatU64(x: nat): u64 {
    if x < TWO_64 then x else TWO_64 - 1
  }

  function MinNat(a: nat, b: nat): nat {
    if a < b then a else b
  }

  lemma {:induction false} PastTheLastEra(p: NetworkParams, e: nat, n: nat)
    requires p.halvingInterval > 0 && Shr(p.initialBlockReward, e) == 0 && e * p.halvingInterval <= n
    ensures Minted(p, n) == Minted(p, e * p.halvingInterval)
    decreases n
  {
    if e * p.halvingInterval < n {
      PastTheLastEra(p, e, n - 1);
      RewardIsShift(p, n - 1);
      assert e <= Era(p, n - 1) by {
        EraAtLeast(n - 1, p.halvingInterval, e);
      }
      ShrStaysZero(p.initialBlockReward, e, Era(p, n - 1));
    }
  }

  lemma EraAtLeast(h: nat, i: nat, e: nat)
    requires i > 0 && e * i <= h
    ensures e <= h / i
  {
    if h / i < e {
      MulMono(h / i + 1, e, i);
    }
  }

  /** A live era starts below 2^63: its index is at most the number of halvings the reward took. */
  lemma {:induction false} LiveEra(x: nat, e: nat)
    requires Shr(x, e) > 0
    ensures e + 1 <= x
  {
    if e > 0 {
      ShrMono(x, e - 1);
      LiveEra(x, e - 1);
      if x < e + 1 {
        HalvingsCost(x, e);
      }
    }
  }

  lemma {:induction false} HalvingsCost(x: nat, e: nat)
    requires Shr(x, e) > 0
    ensures Pow2(e) <= x && e + 1 <= Pow2(e)
  {
    if e > 0 {
      HalvingsCost(x / 2, e - 1);
    }
  }

  /** `(current / interval + 1) * interval`, saturating. */
  function NextHalving(current: nat, interval: nat): u64
    requires interval > 0
  {
    SatU64(SatU64(current / interval + 1) * interval)
  }

  /** `blocks * reward`, or the cap if that overflows. */
  function EraSupply(blocks: nat, reward: nat, cap: u64): u64 {
    var s := blocks * reward;
    if s < TWO_64 then s else cap
  }

  function Minus(a: nat, b: nat): nat {
    if a >= b then a - b else 0
  }

  /** Two full first eras fit under the cap, as they do on all three networks. */
  predicate CapCovers(p: NetworkParams) {
    2 * (p.halvingInterval * p.initialBlockReward) <= p.maxSupply
  }

  /** The era-jumping loop returns the exact block-by-block sum for every height. */
  method SupplyAtHeight(p: NetworkParams, height: u64) returns (supply: u64)
    ensures p.halvingInterval == 0 ==> supply == 0
    ensures p.halvingInterval > 0 && CapCovers(p) ==> supply == Minted(p, height + 1)
  {
    if p.halvingInterval == 0 {
      return 0;
    }
    supply := 0;
    ghost var fits := CapCovers(p);
    var current: nat, reward: nat := 0, p.initialBlockReward;
    ghost var e := 0;
    while current <= height && reward > 0
      invariant reward == Shr(p.initialBlockReward, e)
      invariant fits ==> EraBegins(p, e, current) && supply == Minted(p, MinNat(current, height + 1))
      decreases reward
    {
      var nextHalving := NextHalving(current, p.halvingInterval);
      var end := MinNat(nextHalving, SatU64(height + 1));
      var eraSupply := EraSupply(Minus(end, current), reward, p.maxSupply);
      if fits {
        EraCounted(p, e, current, height);
      }
      supply := SatU64(supply + eraSupply);
      current := nextHalving;
      ShrMono(p.initialBlockReward, e);
      ShrStep(p.initialBlockReward, e);
      reward := reward / 2;
      e := e + 1;
    }
    if fits {
      if current <= height {
        PastTheLastEra(p, e, height + 1);
      }
      MintedBound(p, height + 1);
    }
    supply := if supply < p.maxSupply then supply else p.maxSupply;
  }

  ghost predicate EraBegins(p: NetworkParams, e: nat, h: nat) {
    h == e * p.halvingInterval
  }

  lemma EraCounted(p: NetworkParams, e: nat, current: nat, height: u64)
    requires p.halvingInterval > 0 && CapCovers(p)
    requires Shr(p.initialBlockReward, e) > 0 && EraBegins(p, e, current) && current <= height
    ensures EraBegins(p, e + 1, NextHalving(current, p.halvingInterval))
    ensures var next := NextHalving(current, p.halvingInterval);
            var end := MinNat(next, SatU64(height + 1));
            && end == MinNat(next, height + 1)
            && Minted(p, end) == Minted(p, current)
                 + EraSupply(Minus(end, current), Shr(p.initialBlockReward, e), p.maxSupply) < TWO_64
  {
    NextHalvingExact(p, e, current);
    var next := NextHalving(current, p.halvingInterval);
    var end := MinNat(next, height + 1);
    EraRange(p, e);
    assert next == e * p.halvingInterval + p.halvingInterval by { EraEnds(e, p.halvingInterval); }
    MintedInEra(p, e, current, end);
    MintedBound(p, end);
  }

  lemma NextHalvingExact(p: NetworkParams, e: nat, current: nat)
    requires p.halvingInterval > 0 && CapCovers(p)
    requires Shr(p.initialBlockReward, e) > 0 && EraBegins(p, e, current)
    ensures NextHalving(current, p.halvingInterval) == (e + 1) * p.halvingInterval < TWO_64 - 1
  {
    var i := p.halvingInterval;
    EraFits(i, p.initialBlockReward, e);
    DivUnique(current, i, e, 0);
    assert 2 * (i * p.initialBlockReward) < TWO_64;
  }

  lemma EraFits(i: nat, x: nat, e: nat)
    requires i > 0 && Shr(x, e) > 0
    ensures e + 1 <= (e + 1) * i <= i * x
  {
    LiveEra(x, e);
    MulMono(e + 1, x, i);
    MulMono(1, i, e + 1);
  }
}
