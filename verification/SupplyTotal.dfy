/** The exact number of units the subsidies ever pay. */
module SupplyTotal {
  import opened Arithmetic256
  import opened Emission

  lemma InEra(e: nat, a: nat, h: nat)
    requires a == 210_000 * e && a <= h < a + 210_000
    ensures BlockReward(MAINNET, h) == Shr(5_000_000_000, e)
  {
    DivUnique(h, 210_000, e, h - a);
    RewardIsShift(MAINNET, h);
  }

  lemma EraMinted(e: nat, a: nat, b: nat, r: nat)
    requires a == 210_000 * e && b == a + 210_000 && r == Shr(5_000_000_000, e)
    ensures Minted(MAINNET, b) == Minted(MAINNET, a) + 210_000 * r
  {
    forall h | a <= h < b ensures BlockReward(MAINNET, h) == r {
      InEra(e, a, h);
    }
    MintedConstant(MAINNET, r, a, b);
    assert b - a == 210_000;
  }

  /** A full era of 210,000 blocks. */
  lemma EraSum(e: nat)
    ensures SubsidySum(210_000 * (e + 1)) == SubsidySum(210_000 * e) + 210_000 * Shr(5_000_000_000, e)
  {
    var a, b := 210_000 * e, 210_000 * (e + 1);
    SubsidySumIsMinted(b);
    SubsidySumIsMinted(a);
    EraMinted(e, a, b, Shr(5_000_000_000, e));
  }

  /** What all eras below `e` pay. */
  function ErasPay(e: nat): nat {
    if e == 0 then 0 else ErasPay(e - 1) + 210_000 * Shr(5_000_000_000, e - 1)
  }

  lemma {:induction false} ErasSum(e: nat)
    ensures SubsidySum(210_000 * e) == ErasPay(e)
  {
    if e > 0 {
      ErasSum(e - 1);
      EraSum(e - 1);
    }
  }

  predicate OpenPaid(k: int) { true }

  /** Sealed: eras below `e` pay `paid`, and era `e` pays `r` a block. */
  ghost predicate Paid(e: nat, paid: nat, r: nat) {
    forall k: int {:trigger OpenPaid(k)} :: OpenPaid(k) ==> ErasPay(e) == paid && Shr(5_000_000_000, e) == r
  }

  /** One more era: the reward is halved, rounding down. */
  lemma EraNext(e: nat, paid: nat, r: nat, half: nat)
    requires Paid(e, paid, r) && 2 * half <= r <= 2 * half + 1
    ensures Paid(e + 1, paid + 210_000 * r, half)
  {
    assert OpenPaid(0);
    ShrStep(5_000_000_000, e);
  }

  lemma AllEras()
    ensures Paid(33, 2_099_999_997_690_000, 0)
  {
    assert Paid(0, 0, 5_000_000_000);
    EraNext(0, 0, 5_000_000_000, 2_500_000_000);
    EraNext(1, 1_050_000_000_000_000, 2_500_000_000, 1_250_000_000);
    EraNext(2, 1_575_000_000_000_000, 1_250_000_000, 625_000_000);
    EraNext(3, 1_837_500_000_000_000, 625_000_000, 312_500_000);
    EraNext(4, 1_968_750_000_000_000, 312_500_000, 156_250_000);
    EraNext(5, 2_034_375_000_000_000, 156_250_000, 78_125_000);
    EraNext(6, 2_067_187_500_000_000, 78_125_000, 39_062_500);
    EraNext(7, 2_083_593_750_000_000, 39_062_500, 19_531_250);
    EraNext(8, 2_091_796_875_000_000, 19_531_250, 9_765_625);
    EraNext(9, 2_095_898_437_500_000, 9_765_625, 4_882_812);
    EraNext(10, 2_097_949_218_750_000, 4_882_812, 2_441_406);
    EraNext(11, 2_098_974_609_270_000, 2_441_406, 1_220_703);
    EraNext(12, 2_099_487_304_530_000, 1_220_703, 610_351);
    EraNext(13, 2_099_743_652_160_000, 610_351, 305_175);
    EraNext(14, 2_099_871_825_870_000, 305_175, 152_587);
    EraNext(15, 2_099_935_912_620_000, 152_587, 76_293);
    EraNext(16, 2_099_967_955_890_000, 76_293, 38_146);
    EraNext(17, 2_099_983_977_420_000, 38_146, 19_073);
    EraNext(18, 2_099_991_988_080_000, 19_073, 9_536);
    EraNext(19, 2_099_995_993_410_000, 9_536, 4_768);
    EraNext(20, 2_099_997_995_970_000, 4_768, 2_384);
    EraNext(21, 2_099_998_997_250_000, 2_384, 1_192);
    EraNext(22, 2_099_999_497_890_000, 1_192, 596);
    EraNext(23, 2_099_999_748_210_000, 596, 298);
    EraNext(24, 2_099_999_873_370_000, 298, 149);
    EraNext(25, 2_099_999_935_950_000, 149, 74);
    EraNext(26, 2_099_999_967_240_000, 74, 37);
    EraNext(27, 2_099_999_982_780_000, 37, 18);
    EraNext(28, 2_099_999_990_550_000, 18, 9);
    EraNext(29, 2_099_999_994_330_000, 9, 4);
    EraNext(30, 2_099_999_996_220_000, 4, 2);
    EraNext(31, 2_099_999_997_060_000, 2, 1);
    EraNext(32, 2_099_999_997_480_000, 1, 0);
  }

  /** From height 6,930,000 on the subsidies are spent: 20,999,999.9769 coins, to the last unit. */
  lemma ExactSupply(n: nat)
    requires n >= 6_930_000
    ensures SubsidySum(n) == 2_099_999_997_690_000
  {
    var eras := 33;
    AllEras();
    ErasSum(eras);
    assert OpenPaid(0);
    SubsidySumIsMinted(n);
    SubsidySumIsMinted(6_930_000);
    forall h | 6_930_000 <= h < n ensures BlockReward(MAINNET, h) == 0 {
      RewardIsShift(MAINNET, h);
      ShrStaysZero(5_000_000_000, 33, Era(MAINNET, h));
    }
    MintedConstant(MAINNET, 0, 6_930_000, n);
  }
}
