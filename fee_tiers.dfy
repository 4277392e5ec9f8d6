/**
 * Fee tiers: the discount level a user earns from the discount tokens held in
 * one token account, and the taker-fee and maker-rebate amounts of each tier.
 */
module FeeTiers {
  import opened Bytes
  import opened Errors
  import opened FixedPoint

  /** Ordered by increasing discount. */
  datatype FeeTier = Base | Srm2 | Srm3 | Srm4 | Srm5 | Srm6 | MSrm

  /** The position of a tier in the discount order. */
  function Rank(t: FeeTier): (k: nat)
    ensures k <= 6
  {
    match t
    case Base => 0
    case Srm2 => 1
    case Srm3 => 2
    case Srm4 => 3
    case Srm5 => 4
    case Srm6 => 5
    case MSrm => 6
  }

  /** Base units in one whole SRM token. */
  const OneSrm: int := 1_000_000

  /**
   * The SRM balance from which an SRM tier starts (Base starts at zero). MSrm is
   * earned by MSRM, not by SRM, so it has no SRM threshold.
   */
  function MinSrmBalance(t: FeeTier): nat
    requires t != MSrm
  {
    match t
    case Base => 0
    case Srm2 => OneSrm * 100
    case Srm3 => OneSrm * 1_000
    case Srm4 => OneSrm * 10_000
    case Srm5 => OneSrm * 100_000
    case Srm6 => OneSrm * 1_000_000
  }

  /** The tier earned by the given raw SRM and MSRM balances. */
  function FromSrmAndMsrmBalances(srmHeld: u64, msrmHeld: u64): (t: FeeTier)
    ensures t == MSrm <==> msrmHeld >= 1
  {
    if msrmHeld >= 1 then MSrm
    else if srmHeld >= OneSrm * 1_000_000 then Srm6
    else if srmHeld >= OneSrm * 100_000 then Srm5
    else if srmHeld >= OneSrm * 10_000 then Srm4
    else if srmHeld >= OneSrm * 1_000 then Srm3
    else if srmHeld >= OneSrm * 100 then Srm2
    else Base
  }

  /**
   * Without MSRM, the ladder reaches a tier exactly when the SRM balance is at
   * least that tier's threshold (a balance on a threshold gets the higher tier).
   */
  lemma LadderThreshold(srmHeld: u64, u: FeeTier)
    requires u != MSrm
    ensures Rank(FromSrmAndMsrmBalances(srmHeld, 0)) >= Rank(u) <==> srmHeld >= MinSrmBalance(u)
  {
  }

  /** Hence the tier of an SRM balance is the highest one whose threshold it meets. */
  lemma LadderPicksHighestMet(srmHeld: u64)
    ensures var t := FromSrmAndMsrmBalances(srmHeld, 0);
      t != MSrm && srmHeld >= MinSrmBalance(t) &&
      forall u :: u != MSrm && Rank(u) > Rank(t) ==> srmHeld < MinSrmBalance(u)
  {
    var t := FromSrmAndMsrmBalances(srmHeld, 0);
    LadderThreshold(srmHeld, t);
    forall u | u != MSrm && Rank(u) > Rank(t)
      ensures srmHeld < MinSrmBalance(u)
    {
      LadderThreshold(srmHeld, u);
    }
  }

  /** Holding more of either token never lowers the tier. */
  lemma TierMonotone(srm1: u64, msrm1: u64, srm2: u64, msrm2: u64)
    requires srm1 <= srm2 && msrm1 <= msrm2
    ensures Rank(FromSrmAndMsrmBalances(srm1, msrm1)) <= Rank(FromSrmAndMsrmBalances(srm2, msrm2))
  {
  }

  /** Any MSRM dominates every SRM balance. */
  lemma MsrmDominates(srmHeld: u64, msrmHeld: u64, otherSrm: u64)
    requires msrmHeld >= 1
    ensures Rank(FromSrmAndMsrmBalances(otherSrm, 0)) < Rank(FromSrmAndMsrmBalances(srmHeld, msrmHeld))
  {
  }

  /** Mint addresses of the two discount tokens; only their being distinct matters here. */
  const SrmMint: Pubkey := [1, 1, 1, 1, 1, 1, 1, 1, 1, 1, 1, 1, 1, 1, 1, 1, 1, 1, 1, 1, 1, 1, 1, 1, 1, 1, 1, 1, 1, 1, 1, 1]
  const MsrmMint: Pubkey := [2, 2, 2, 2, 2, 2, 2, 2, 2, 2, 2, 2, 2, 2, 2, 2, 2, 2, 2, 2, 2, 2, 2, 2, 2, 2, 2, 2, 2, 2, 2, 2]

  /** The fields of a token account that the resolver reads. */
  datatype TokenAccount = TokenAccount(owner: Pubkey, mint: Pubkey, amount: u64)

  /**
   * The tier of a discount-token account, given the outcome of parsing it: the
   * account must belong to `expectedOwner` and hold one of the two discount tokens.
   */
  function Get(parsed: Result<TokenAccount, ProgramError>, expectedOwner: Pubkey): (r: Result<FeeTier, ProgramError>)
    ensures parsed.Err? ==> r == Err(parsed.error)
    ensures parsed.Ok? ==>
      (r.Ok? <==> parsed.value.owner == expectedOwner && parsed.value.mint in {SrmMint, MsrmMint})
    ensures parsed.Ok? && r.Err? ==> r.error == InvalidArgument
    ensures r.Ok? && parsed.value.mint == MsrmMint ==> r.value == FromSrmAndMsrmBalances(0, parsed.value.amount)
    ensures r.Ok? && parsed.value.mint == SrmMint ==> r.value == FromSrmAndMsrmBalances(parsed.value.amount, 0)
  {
    match parsed
    case Err(e) => Err(e)
    case Ok(account) =>
      if account.owner != expectedOwner then Err(InvalidArgument)
      else if account.mint == MsrmMint then Ok(FromSrmAndMsrmBalances(0, account.amount))
      else if account.mint == SrmMint then Ok(FromSrmAndMsrmBalances(account.amount, 0))
      else Err(InvalidArgument)
  }

  /** An SRM account never earns the MSRM tier, however large its balance. */
  lemma SrmAccountNeverMsrm(account: TokenAccount, expectedOwner: Pubkey)
    requires account.mint == SrmMint
    ensures Get(Ok(account), expectedOwner) != Ok(MSrm)
  {
  }

  /** An MSRM account earns MSrm with a positive balance and Base when empty. */
  lemma MsrmAccountTier(account: TokenAccount)
    requires account.mint == MsrmMint
    ensures Get(Ok(account), account.owner) == Ok(if account.amount >= 1 then MSrm else Base)
  {
  }

  /** The taker rate of a tier in basis points: 22 for Base, 2 fewer per tier. */
  function TakerBasisPoints(t: FeeTier): nat
  {
    22 - 2 * Rank(t)
  }

  /** The taker fee rate in 32.32 fixed point. */
  function TakerRate(t: FeeTier): (r: u64)
    ensures r < FpOne
  {
    // `bp << 32` is bp * 2^32; the division truncates.
    match t
    case Base => 22 * FpOne / 10_000
    case Srm2 => 20 * FpOne / 10_000
    case Srm3 => 18 * FpOne / 10_000
    case Srm4 => 16 * FpOne / 10_000
    case Srm5 => 14 * FpOne / 10_000
    case Srm6 => 12 * FpOne / 10_000
    case MSrm => 10 * FpOne / 10_000
  }

  /** Each table entry is its basis-point rate converted to fixed point. */
  lemma TakerRateIsBasisPoints(t: FeeTier)
    ensures TakerRate(t) == TakerBasisPoints(t) * FpOne / 10_000
  {
  }

  /** A higher tier has a strictly lower taker rate. */
  lemma TakerRateStrictlyDecreasing(a: FeeTier, b: FeeTier)
    requires Rank(a) < Rank(b)
    ensures TakerRate(b) < TakerRate(a)
  {
  }

  /** The maker rebate rate: 5 basis points for MSrm, 3 for every other tier. */
  function MakerRebateRate(t: FeeTier): (r: u64)
    ensures r == (if t == MSrm then 5 else 3) * FpOne / 10_000
    ensures 0 < r && forall u :: r < TakerRate(u)
  {
    match t
    case MSrm => 5 * FpOne / 10_000
    case _ => 3 * FpOne / 10_000
  }

  /** The maker rebate on a quote quantity. */
  function MakerRebate(t: FeeTier, pcQty: u64): (rebate: u64)
    ensures rebate <= pcQty
    ensures rebate * FpOne <= pcQty * MakerRebateRate(t) < (rebate + 1) * FpOne
  {
    MulBelowOne(pcQty, MakerRebateRate(t));
    Fp32Mul(pcQty, MakerRebateRate(t))
  }

  /** The taker fee on a quote quantity. */
  function TakerFee(t: FeeTier, pcQty: u64): (fee: u64)
    ensures fee <= pcQty
    ensures fee * FpOne <= pcQty * TakerRate(t) < (fee + 1) * FpOne
  {
    MulBelowOne(pcQty, TakerRate(t));
    Fp32Mul(pcQty, TakerRate(t))
  }

  /**
   * The pre-fee quantity of a fee-inclusive quote quantity: the largest n with
   * n * (1 + rate) <= grossQty, in fixed point.
   */
  function RemoveTakerFee(t: FeeTier, pcQty: u64): (net: u64)
    ensures net <= pcQty
    ensures net * (FpOne + TakerRate(t)) <= pcQty * FpOne < (net + 1) * (FpOne + TakerRate(t))
  {
    // The divisor is at least FpOne, so never zero.
    DivAtLeastOne(pcQty, FpOne + TakerRate(t));
    Fp32Div(pcQty, FpOne + TakerRate(t))
  }

  /** Adding the taker fee back to the pre-fee quantity never exceeds the gross quantity. */
  lemma RemoveThenChargeWithinGross(t: FeeTier, grossQty: u64)
    ensures RemoveTakerFee(t, grossQty) + TakerFee(t, RemoveTakerFee(t, grossQty)) <= grossQty
  {
    var n := RemoveTakerFee(t, grossQty);
    var rate := TakerRate(t);
    var fee := TakerFee(t, n);
    assert fee * FpOne <= n * rate;
    assert n * (FpOne + rate) == n * FpOne + n * rate;
    assert (n + fee) * FpOne == n * FpOne + fee * FpOne;
    assert (n + fee) * FpOne <= grossQty * FpOne;
    MulRightCancelLe(n + fee, grossQty, FpOne);
  }

  /** A higher tier never pays a larger taker fee on the same quantity. */
  lemma TakerFeeMonotone(a: FeeTier, b: FeeTier, pcQty: u64)
    requires Rank(a) <= Rank(b)
    ensures TakerFee(b, pcQty) <= TakerFee(a, pcQty)
  {
    if Rank(a) < Rank(b) {
      TakerRateStrictlyDecreasing(a, b);
    }
    MulMonotoneInRate(pcQty, TakerRate(b), TakerRate(a));
  }

  /**
   * The rebate paid to any maker never exceeds the fee charged to any taker on
   * the same quantity: the lowest taker rate (10 bp) is above the highest rebate rate (5 bp).
   */
  lemma RebateCoveredByFee(maker: FeeTier, taker: FeeTier, pcQty: u64)
    ensures MakerRebate(maker, pcQty) <= TakerFee(taker, pcQty)
  {
    assert MakerRebateRate(maker) <= TakerRate(taker);
    MulMonotoneInRate(pcQty, MakerRebateRate(maker), TakerRate(taker));
  }

  /**
   * 150 whole SRM earn Srm2, and the truncated 20 bp rate charges 1999 (not 2000)
   * on a quantity of 1,000,000.
   */
  lemma Srm2Example()
    ensures FromSrmAndMsrmBalances(150 * OneSrm, 0) == Srm2
    ensures TakerRate(Srm2) == 8_589_934
    ensures TakerFee(Srm2, 1_000_000) == 1999
  {
  }
}
