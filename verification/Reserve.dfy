/** Interest, fees, supply, exchange rate and utilisation of a reserve (src/classes/reserve.ts). */
module Reserve {
  import opened Wrappers
  import opened RealArithmetic
  import opened RateCurve
  import opened CompoundInterest

  const U32_MAX: nat := 4294967295
  const U16_MAX: nat := 65535

  /** What compoundInterest returns. */
  datatype Accrual = Accrual(
    newDebt: real,
    netNewDebt: real,
    variableProtocolFee: real,
    fixedHostFee: real,
    absoluteReferralFee: real,
    maxReferralFees: real,
    newAccProtocolFees: real,
    pendingReferralFees: real)

  /** The stored fields the interest engine reads; it never changes them. */
  datatype KaminoReserve = KaminoReserve(
    lastUpdateSlot: nat,
    availableAmount: real,
    borrowedAmount: real,
    accumulatedProtocolFees: real,
    accumulatedReferrerFees: real,
    pendingReferrerFees: real,
    mintTotalSupply: nat,
    protocolTakeRatePct: nat,
    hostFixedInterestRateBps: nat,
    borrowRateCurve: seq<CurvePoint>,
    recentSlotDurationMs: real)
  {
    function FixedHostInterestRate(): real { hostFixedInterestRateBps as real / 10000.0 }

    function ProtocolTakeRate(): real { protocolTakeRatePct as real / 100.0 }

    function SlotAdjustmentFactor(): real
      requires recentSlotDurationMs > 0.0
    {
      1000.0 / 2.0 / recentSlotDurationMs
    }

    /** Available plus lent out, less every fee that is already owed. */
    function TotalSupply(): real {
      availableAmount + borrowedAmount - accumulatedProtocolFees - accumulatedReferrerFees - pendingReferrerFees
    }

    function UtilizationRatio(): real {
      if TotalSupply() == 0.0 then 0.0 else borrowedAmount / TotalSupply()
    }

    /** What TruncateBorrowCurve returns for the stored points. */
    function Curve(): seq<Knot> { Scaled(borrowRateCurve[..KeptFrom(borrowRateCurve, 0)]) }

    /** The yearly rate at a given utilisation, without the host's part. */
    function RateAt(utilization: real): Result<real, CurveError>
      requires recentSlotDurationMs > 0.0
    {
      match BorrowRate(utilization, Curve())
      case Ok(rate) => Ok(Times(rate, SlotAdjustmentFactor()))
      case Err(e) => Err(e)
    }

    function CalculateBorrowRate(): Result<real, CurveError>
      requires recentSlotDurationMs > 0.0
    {
      RateAt(UtilizationRatio())
    }

    function SlotsElapsed(slot: nat): nat {
      if slot > lastUpdateSlot then slot - lastUpdateSlot else 0
    }

    function CompoundInterest(slotsElapsed: nat, referralFeeBps: real): Result<Accrual, CurveError>
      requires recentSlotDurationMs > 0.0
    {
      match CalculateBorrowRate()
      case Err(e) => Err(e)
      case Ok(currentBorrowRate) =>
        var referralRate := referralFeeBps / 10000.0;
        var compoundedInterestRate :=
          ApproximateCompoundedInterest(currentBorrowRate + FixedHostInterestRate(), slotsElapsed);
        var compoundedFixedRate := ApproximateCompoundedInterest(FixedHostInterestRate(), slotsElapsed);
        var newDebt := Times(borrowedAmount, compoundedInterestRate);
        var fixedHostFee := Times(borrowedAmount, compoundedFixedRate) - borrowedAmount;
        var netNewDebt := newDebt - borrowedAmount - fixedHostFee;
        var variableProtocolFee := Times(netNewDebt, ProtocolTakeRate());
        var absoluteReferralFee := Times(ProtocolTakeRate(), referralRate);
        var maxReferralFees := Times(netNewDebt, absoluteReferralFee);
        Ok(Accrual(newDebt, netNewDebt, variableProtocolFee, fixedHostFee, absoluteReferralFee, maxReferralFees,
                   variableProtocolFee + fixedHostFee - maxReferralFees + accumulatedProtocolFees,
                   pendingReferrerFees + maxReferralFees))
    }

    function SupplyAfter(a: Accrual): real {
      availableAmount + a.newDebt - a.newAccProtocolFees - accumulatedReferrerFees - a.pendingReferralFees
    }

    /** (total borrow, total supply) */
    function EstimatedDebtAndSupply(slot: nat, referralFeeBps: real): Result<(real, real), CurveError>
      requires recentSlotDurationMs > 0.0
    {
      if SlotsElapsed(slot) == 0 then Ok((borrowedAmount, TotalSupply()))
      else
        match CompoundInterest(SlotsElapsed(slot), referralFeeBps)
        case Err(e) => Err(e)
        case Ok(a) =>
          Ok((a.newDebt, SupplyAfter(a)))
    }

    function EstimatedCollateralExchangeRate(slot: nat, referralFeeBps: real): Result<real, CurveError>
      requires recentSlotDurationMs > 0.0
    {
      match EstimatedDebtAndSupply(slot, referralFeeBps)
      case Err(e) => Err(e)
      case Ok((_, totalSupply)) =>
        if mintTotalSupply == 0 || totalSupply == 0.0 then Ok(1.0) else Ok(mintTotalSupply as real / totalSupply)
    }

    function EstimatedUtilizationRatio(slot: nat, referralFeeBps: real): Result<real, CurveError>
      requires recentSlotDurationMs > 0.0
    {
      match EstimatedDebtAndSupply(slot, referralFeeBps)
      case Err(e) => Err(e)
      case Ok((totalBorrow, totalSupply)) =>
        if totalSupply == 0.0 then Ok(0.0) else Ok(totalBorrow / totalSupply)
    }

    function BorrowAPR(slot: nat, referralFeeBps: real): Result<real, CurveError>
      requires recentSlotDurationMs > 0.0
    {
      match EstimatedUtilizationRatio(slot, referralFeeBps)
      case Err(e) => Err(e)
      case Ok(utilization) =>
        match RateAt(utilization)
        case Err(e) => Err(e)
        case Ok(rate) => Ok(rate + FixedHostInterestRate())
    }

    /** The reserve's cumulative rate carried forward at the estimated APR. */
    function EstimatedCumulativeBorrowRate(cumulativeBorrowRate: real, slot: nat, referralFeeBps: real)
      : Result<real, CurveError>
      requires recentSlotDurationMs > 0.0
    {
      match BorrowAPR(slot, referralFeeBps)
      case Err(e) => Err(e)
      case Ok(apr) => Ok(Times(cumulativeBorrowRate, ApproximateCompoundedInterest(apr, SlotsElapsed(slot))))
    }

    // -------------------------------------------------------------- specification

    /** A decoded account: amounts are non-negative, the take rate is a percentage and the curve
        is a configured one padded to its fixed length. */
    ghost predicate Valid() {
      && 0.0 <= availableAmount && 0.0 <= borrowedAmount && 0.0 <= TotalSupply()
      && 0.0 <= accumulatedProtocolFees && 0.0 <= accumulatedReferrerFees && 0.0 <= pendingReferrerFees
      && protocolTakeRatePct <= 100
      && 0.0 < recentSlotDurationMs
      && exists points :: ValidPoints(points) && PadPoints(points) == Ok(borrowRateCurve)
    }

    /** The per-slot rate of the host's fixed part. */
    function HostRate(): real { FixedHostInterestRate() / SLOTS_PER_YEAR }

    /** The per-slot rate the debt compounds at. */
    ghost function DebtRate(): real
      requires recentSlotDurationMs > 0.0 && CalculateBorrowRate().Ok?
    {
      (CalculateBorrowRate().value + FixedHostInterestRate()) / SLOTS_PER_YEAR
    }

    /** The share of the net interest that reaches depositors. */
    function DepositorShare(): real { 1.0 - ProtocolTakeRate() }
  }

  // ---------------------------------------------------------------- rates

  lemma {:induction false} CurveIsValid(r: KaminoReserve)
    requires r.Valid()
    ensures ValidCurve(r.Curve())
  {
    var points :| ValidPoints(points) && PadPoints(points) == Ok(r.borrowRateCurve);
    PadThenTruncate(points);
    ScaledIsValid(points);
  }

  lemma {:induction false} RateAtValue(r: KaminoReserve, u: real)
    requires r.Valid() && 0.0 <= u
    ensures BorrowRate(u, r.Curve()).Ok? && 0.0 <= BorrowRate(u, r.Curve()).value
    ensures r.RateAt(u) == Ok(Times(BorrowRate(u, r.Curve()).value, r.SlotAdjustmentFactor()))
  {
    CurveIsValid(r);
    RateBetween(r.Curve(), u);
  }

  lemma SlotFactorPositive(ms: real)
    requires ms > 0.0
    ensures 1000.0 / 2.0 / ms > 0.0
  {}

  lemma {:induction false} RateAtNonNeg(r: KaminoReserve, u: real)
    requires r.Valid() && 0.0 <= u
    ensures r.RateAt(u).Ok? && 0.0 <= r.RateAt(u).value
  {
    RateAtValue(r, u);
    SlotFactorPositive(r.recentSlotDurationMs);
    TimesNonNeg(BorrowRate(u, r.Curve()).value, r.SlotAdjustmentFactor());
  }

  lemma {:induction false} RateAtMonotone(r: KaminoReserve, u: real, v: real)
    requires r.Valid() && 0.0 <= u <= v
    ensures r.RateAt(u).Ok? && r.RateAt(v).Ok? && r.RateAt(u).value <= r.RateAt(v).value
  {
    RateAtValue(r, u);
    RateAtValue(r, v);
    CurveIsValid(r);
    RateMonotone(r.Curve(), u, v);
    SlotFactorPositive(r.recentSlotDurationMs);
    TimesMono(BorrowRate(u, r.Curve()).value, BorrowRate(v, r.Curve()).value, r.SlotAdjustmentFactor(),
              r.SlotAdjustmentFactor());
  }

  lemma {:induction false} UtilizationNonNeg(r: KaminoReserve)
    requires r.Valid()
    ensures 0.0 <= r.UtilizationRatio()
  {
    if r.TotalSupply() != 0.0 {
      QuotientNonNeg(r.borrowedAmount, r.TotalSupply());
    }
  }

  /** The debt compounds at least at the host's rate. */
  lemma {:induction false} RatesOrdered(r: KaminoReserve)
    requires r.Valid()
    ensures r.CalculateBorrowRate().Ok? && 0.0 <= r.HostRate() <= r.DebtRate()
  {
    UtilizationNonNeg(r);
    RateAtNonNeg(r, r.UtilizationRatio());
  }

  /** A u32 rate cannot reach one whole debt per slot when a slot lasts at least 4 ms, so the
      awkward step is safe for every account the program can store. */
  lemma {:induction false} StoredRatesAreSafe(r: KaminoReserve)
    requires r.Valid() && r.recentSlotDurationMs >= 4.0
    requires r.hostFixedInterestRateBps <= U16_MAX
    requires forall i :: 0 <= i < |r.borrowRateCurve| ==> r.borrowRateCurve[i].borrowRateBps <= U32_MAX
    ensures r.CalculateBorrowRate().Ok? && StepSafe(r.HostRate(), r.DebtRate())
  {
    RatesOrdered(r);
    UtilizationNonNeg(r);
    RateAtValue(r, r.UtilizationRatio());
    var rate, factor := BorrowRate(r.UtilizationRatio(), r.Curve()).value, r.SlotAdjustmentFactor();
    StoredRateBound(r, r.UtilizationRatio());
    SlotFactorBound(r.recentSlotDurationMs);
    TimesMono(rate, 429497.0, factor, 125.0);
    SmallRatesAreSafe(r.HostRate(), r.DebtRate());
  }

  lemma {:induction false} StoredRateBound(r: KaminoReserve, u: real)
    requires r.Valid() && 0.0 <= u
    requires forall i :: 0 <= i < |r.borrowRateCurve| ==> r.borrowRateCurve[i].borrowRateBps <= U32_MAX
    ensures BorrowRate(u, r.Curve()).Ok? && BorrowRate(u, r.Curve()).value <= 429497.0
  {
    CurveIsValid(r);
    RateBetween(r.Curve(), u);
    var last := |r.Curve()| - 1;
    assert r.Curve()[last] == Scale(r.borrowRateCurve[last]);
  }

  lemma SlotFactorBound(ms: real)
    requires ms >= 4.0
    ensures 0.0 <= 1000.0 / 2.0 / ms <= 125.0
  {}

  // ---------------------------------------------------------------- fees and supply

  lemma {:induction false} AccrualShape(r: KaminoReserve, n: nat, referralFeeBps: real)
    requires r.Valid()
    ensures r.CalculateBorrowRate().Ok? && r.CompoundInterest(n, referralFeeBps).Ok?
    ensures var a := r.CompoundInterest(n, referralFeeBps).value;
            && a.newDebt == Times(r.borrowedAmount, Compound(r.DebtRate(), n))
            && a.fixedHostFee == Times(r.borrowedAmount, Compound(r.HostRate(), n)) - r.borrowedAmount
            && a.netNewDebt
               == Times(r.borrowedAmount, Compound(r.DebtRate(), n))
                  - Times(r.borrowedAmount, Compound(r.HostRate(), n))
  {
    RatesOrdered(r);
  }

  /** Every fee and every token of interest is accounted for, whatever the referral rate: the debt
      grows by the net interest plus the host's fee, the owed fees grow by exactly the two fees
      charged, and depositors get the rest. */
  lemma {:induction false} FeesConserved(r: KaminoReserve, n: nat, referralFeeBps: real)
    requires r.Valid()
    ensures r.CompoundInterest(n, referralFeeBps).Ok?
    ensures var a := r.CompoundInterest(n, referralFeeBps).value;
            && 0.0 <= a.netNewDebt && 0.0 <= a.fixedHostFee && 0.0 <= a.variableProtocolFee
            && a.newDebt - r.borrowedAmount == a.netNewDebt + a.fixedHostFee
            && (a.newAccProtocolFees - r.accumulatedProtocolFees) + (a.pendingReferralFees - r.pendingReferrerFees)
               == a.variableProtocolFee + a.fixedHostFee
            && a.variableProtocolFee <= a.netNewDebt
  {
    AccrualShape(r, n, referralFeeBps);
    RatesOrdered(r);
    CompoundMonoRate(r.HostRate(), r.DebtRate(), n);
    CompoundBetween(r.HostRate(), n);
    var a := r.CompoundInterest(n, referralFeeBps).value;
    TimesMono(r.borrowedAmount, r.borrowedAmount, Compound(r.HostRate(), n), Compound(r.DebtRate(), n));
    TimesMono(r.borrowedAmount, r.borrowedAmount, 1.0, Compound(r.HostRate(), n));
    TimesNonNeg(a.netNewDebt, r.ProtocolTakeRate());
    TimesMono(a.netNewDebt, a.netNewDebt, r.ProtocolTakeRate(), 1.0);
  }

  /** With a referral rate between 0 and 100% neither account of owed fees ever shrinks. */
  lemma {:induction false} FeeAccountsGrow(r: KaminoReserve, n: nat, referralFeeBps: real)
    requires r.Valid() && 0.0 <= referralFeeBps <= 10000.0
    ensures r.CompoundInterest(n, referralFeeBps).Ok?
    ensures var a := r.CompoundInterest(n, referralFeeBps).value;
            && r.accumulatedProtocolFees <= a.newAccProtocolFees
            && r.pendingReferrerFees <= a.pendingReferralFees
            && a.maxReferralFees <= a.variableProtocolFee
  {
    FeesConserved(r, n, referralFeeBps);
    var a := r.CompoundInterest(n, referralFeeBps).value;
    var t := r.ProtocolTakeRate();
    TimesNonNeg(t, referralFeeBps / 10000.0);
    TimesMono(t, t, referralFeeBps / 10000.0, 1.0);
    TimesNonNeg(a.netNewDebt, a.absoluteReferralFee);
    TimesMono(a.netNewDebt, a.netNewDebt, a.absoluteReferralFee, t);
  }

  /** How the fees are split, in the stored percentages: referrers get their share of the protocol's take of
      the net interest, the protocol the rest of that take and the whole host fee. */
  lemma {:induction false} FeeSplit(r: KaminoReserve, n: nat, referralFeeBps: real)
    requires r.recentSlotDurationMs > 0.0 && r.CompoundInterest(n, referralFeeBps).Ok?
    ensures var a := r.CompoundInterest(n, referralFeeBps).value;
            var take, share := Times(a.netNewDebt, r.protocolTakeRatePct as real / 100.0), referralFeeBps / 10000.0;
            && a.variableProtocolFee == take
            && a.maxReferralFees == Times(take, share)
            && a.pendingReferralFees - r.pendingReferrerFees == Times(take, share)
            && a.newAccProtocolFees - r.accumulatedProtocolFees == a.fixedHostFee + Times(take, 1.0 - share)
  {
    var a := r.CompoundInterest(n, referralFeeBps).value;
    TakeTwice(a.netNewDebt, r.protocolTakeRatePct as real / 100.0, referralFeeBps / 10000.0);
  }

  lemma TakeTwice(net: real, t: real, share: real)
    ensures Times(net, Times(t, share)) == Times(Times(net, t), share)
    ensures Times(net, t) - Times(net, Times(t, share)) == Times(Times(net, t), 1.0 - share)
  {}

  /** At 0 bps referrers get nothing, at 10000 bps the whole take, and in between their part of it in
      proportion; what borrowers pay does not depend on it. */
  lemma {:induction false} ReferralShareLinear(r: KaminoReserve, n: nat, referralFeeBps: real)
    requires r.Valid()
    ensures r.CompoundInterest(n, 0.0).Ok? && r.CompoundInterest(n, 10000.0).Ok?
    ensures r.CompoundInterest(n, referralFeeBps).Ok?
    ensures var none, all, some := r.CompoundInterest(n, 0.0).value, r.CompoundInterest(n, 10000.0).value,
                                   r.CompoundInterest(n, referralFeeBps).value;
            && none.newDebt == some.newDebt == all.newDebt
            && none.pendingReferralFees == r.pendingReferrerFees
            && all.pendingReferralFees == r.pendingReferrerFees + all.variableProtocolFee
            && all.newAccProtocolFees == r.accumulatedProtocolFees + all.fixedHostFee
            && some.pendingReferralFees - none.pendingReferralFees
               == Times(all.pendingReferralFees - none.pendingReferralFees, referralFeeBps / 10000.0)
            && some.newAccProtocolFees - none.newAccProtocolFees
               == Times(all.newAccProtocolFees - none.newAccProtocolFees, referralFeeBps / 10000.0)
  {
    RatesOrdered(r);
    SameInterest(r, n, referralFeeBps, 0.0);
    SameInterest(r, n, referralFeeBps, 10000.0);
    FeeSplit(r, n, 0.0);
    FeeSplit(r, n, 10000.0);
    FeeSplit(r, n, referralFeeBps);
    var some := r.CompoundInterest(n, referralFeeBps).value;
    ShareEnds(some.variableProtocolFee, referralFeeBps / 10000.0);
  }

  lemma {:induction false} SameInterest(r: KaminoReserve, n: nat, bps: real, bps': real)
    requires r.recentSlotDurationMs > 0.0 && r.CalculateBorrowRate().Ok?
    ensures r.CompoundInterest(n, bps).Ok? && r.CompoundInterest(n, bps').Ok?
    ensures var a, a' := r.CompoundInterest(n, bps).value, r.CompoundInterest(n, bps').value;
            && a.newDebt == a'.newDebt && a.netNewDebt == a'.netNewDebt && a.fixedHostFee == a'.fixedHostFee
            && a.variableProtocolFee == a'.variableProtocolFee
  {
  }

  lemma ShareEnds(take: real, share: real)
    ensures 0.0 / 10000.0 == 0.0 && 10000.0 / 10000.0 == 1.0
    ensures Times(take, 0.0) == 0.0 && Times(take, 1.0 - 0.0) == take && Times(take, 1.0) == take
            && Times(take, 1.0 - 1.0) == 0.0
    ensures Times(take, 1.0 - share) - take == Times(-take, share)
  {}

  /** What the reserve holds and is owed is what depositors, the protocol and referrers are owed, in the
      stored account and after any accrual. */
  lemma {:induction false} BalanceSheet(r: KaminoReserve, a: Accrual)
    ensures r.availableAmount + r.borrowedAmount
         == r.TotalSupply() + r.accumulatedProtocolFees + r.accumulatedReferrerFees + r.pendingReferrerFees
    ensures r.availableAmount + a.newDebt
         == r.SupplyAfter(a) + a.newAccProtocolFees + r.accumulatedReferrerFees + a.pendingReferralFees
  {
  }

  /** The yearly rate in stored fields: the curve's rate at today's utilisation, adjusted to the length of a
      slot. */
  lemma {:induction false} CurrentRateInStoredFields(r: KaminoReserve)
    requires r.Valid()
    ensures var supply := r.availableAmount + r.borrowedAmount - r.accumulatedProtocolFees - r.accumulatedReferrerFees
                          - r.pendingReferrerFees;
            var u := if supply == 0.0 then 0.0 else r.borrowedAmount / supply;
            && BorrowRate(u, r.Curve()).Ok?
            && r.CalculateBorrowRate() == Ok(Times(BorrowRate(u, r.Curve()).value, 500.0 / r.recentSlotDurationMs))
  {
    UtilizationNonNeg(r);
    RateAtValue(r, r.UtilizationRatio());
  }

  /** The two per-slot rates: the debt compounds at the host's fixed rate and the current rate together. */
  lemma {:induction false} RatesInStoredFields(r: KaminoReserve)
    requires r.recentSlotDurationMs > 0.0 && r.CalculateBorrowRate().Ok?
    ensures r.HostRate() == r.hostFixedInterestRateBps as real / 10000.0 / 63072000.0
    ensures r.DebtRate() == r.CalculateBorrowRate().value / 63072000.0 + r.HostRate()
  {
    SumOfQuotients(r.CalculateBorrowRate().value, r.FixedHostInterestRate(), SLOTS_PER_YEAR);
  }

  lemma SumOfQuotients(x: real, y: real, k: real)
    requires k != 0.0
    ensures (x + y) / k == x / k + y / k
  {}

  lemma NetShare(p: real, t: real, x: real, h: real, net: real)
    requires net == Times(p, x) - Times(p, h)
    ensures net - Times(net, t) == Times(Times(p, 1.0 - t), x - h)
  {}

  /** The weight with which the spread of the two growth factors reaches the supply. */
  function SupplyWeight(r: KaminoReserve): real { Times(r.borrowedAmount, r.DepositorShare()) }

  /** The supply after n slots. */
  ghost function GrownSupply(r: KaminoReserve, n: nat): real
    requires r.Valid() && r.CalculateBorrowRate().Ok?
  {
    r.TotalSupply() + Times(SupplyWeight(r), Spread(r.HostRate(), r.DebtRate(), n))
  }

  /** Accrual raises the supply by the depositors' share of the net interest, and by nothing else. */
  lemma {:induction false} AccrualSupply(r: KaminoReserve, n: nat, referralFeeBps: real)
    requires r.Valid()
    ensures r.CalculateBorrowRate().Ok? && r.CompoundInterest(n, referralFeeBps).Ok?
    ensures var a := r.CompoundInterest(n, referralFeeBps).value;
            r.SupplyAfter(a) - r.TotalSupply() == a.netNewDebt - Times(a.netNewDebt, r.ProtocolTakeRate())
                                               == GrownSupply(r, n) - r.TotalSupply()
  {
    AccrualShape(r, n, referralFeeBps);
    var a := r.CompoundInterest(n, referralFeeBps).value;
    NetShare(r.borrowedAmount, r.ProtocolTakeRate(), Compound(r.DebtRate(), n), Compound(r.HostRate(), n),
             a.netNewDebt);
  }

  lemma {:induction false} SupplyGrowth(r: KaminoReserve, slot: nat, referralFeeBps: real)
    requires r.Valid()
    ensures r.CalculateBorrowRate().Ok?
    ensures r.EstimatedDebtAndSupply(slot, referralFeeBps)
         == Ok((Times(r.borrowedAmount, Compound(r.DebtRate(), r.SlotsElapsed(slot))),
                GrownSupply(r, r.SlotsElapsed(slot))))
  {
    var n := r.SlotsElapsed(slot);
    AccrualShape(r, n, referralFeeBps);
    if n > 0 {
      AccrualSupply(r, n, referralFeeBps);
    }
  }

  lemma {:induction false} SupplyNeverBelowStored(r: KaminoReserve, n: nat)
    requires r.Valid()
    ensures r.CalculateBorrowRate().Ok? && GrownSupply(r, n) >= r.TotalSupply()
  {
    RatesOrdered(r);
    CompoundMonoRate(r.HostRate(), r.DebtRate(), n);
    TimesNonNeg(r.borrowedAmount, r.DepositorShare());
    TimesNonNeg(SupplyWeight(r), Spread(r.HostRate(), r.DebtRate(), n));
  }

  // ---------------------------------------------------------------- exchange rate

  /** The conditions under which waiting cannot shrink the supply. All four can be read off the
      stored account; with a slot of at least 4 ms the last always holds (StoredRatesAreSafe). */
  ghost predicate NeverShrinks(r: KaminoReserve)
    requires r.Valid() && r.CalculateBorrowRate().Ok?
  {
    r.mintTotalSupply == 0 || SupplyWeight(r) == 0.0 || r.HostRate() == r.DebtRate()
      || StepSafe(r.HostRate(), r.DebtRate())
  }

  lemma {:induction false} ExchangeRateShape(r: KaminoReserve, slot: nat, referralFeeBps: real)
    requires r.Valid() && r.TotalSupply() > 0.0
    ensures r.CalculateBorrowRate().Ok? && GrownSupply(r, r.SlotsElapsed(slot)) > 0.0
    ensures r.EstimatedCollateralExchangeRate(slot, referralFeeBps)
         == Ok(if r.mintTotalSupply == 0 then 1.0 else r.mintTotalSupply as real / GrownSupply(r, r.SlotsElapsed(slot)))
  {
    SupplyGrowth(r, slot, referralFeeBps);
    SupplyNeverBelowStored(r, r.SlotsElapsed(slot));
  }

  lemma {:induction false} ExchangeRateOrder(r: KaminoReserve, s1: nat, s2: nat, referralFeeBps: real)
    requires r.Valid() && r.TotalSupply() > 0.0
    ensures r.CalculateBorrowRate().Ok?
    ensures r.EstimatedCollateralExchangeRate(s1, referralFeeBps).Ok?
            && r.EstimatedCollateralExchangeRate(s2, referralFeeBps).Ok?
    ensures (r.EstimatedCollateralExchangeRate(s2, referralFeeBps).value
             <= r.EstimatedCollateralExchangeRate(s1, referralFeeBps).value)
       <==> (r.mintTotalSupply == 0 || SupplyWeight(r) == 0.0
             || Spread(r.HostRate(), r.DebtRate(), r.SlotsElapsed(s1))
                <= Spread(r.HostRate(), r.DebtRate(), r.SlotsElapsed(s2)))
  {
    ExchangeRateShape(r, s1, referralFeeBps);
    ExchangeRateShape(r, s2, referralFeeBps);
    TimesNonNeg(r.borrowedAmount, r.DepositorShare());
    var w := SupplyWeight(r);
    if r.mintTotalSupply > 0 {
      QuotientAntitone(r.mintTotalSupply as real, GrownSupply(r, r.SlotsElapsed(s1)),
                       GrownSupply(r, r.SlotsElapsed(s2)));
      if w > 0.0 {
        TimesOrder(w, Spread(r.HostRate(), r.DebtRate(), r.SlotsElapsed(s1)),
                   Spread(r.HostRate(), r.DebtRate(), r.SlotsElapsed(s2)));
      }
    }
  }

  /** A cToken never redeems for less later on, for every pair of slots, exactly when the supply
      cannot shrink at the step from four exact slots to five truncated ones. */
  lemma {:induction false} ExchangeRateNeverRisesIff(r: KaminoReserve, referralFeeBps: real)
    requires r.Valid() && r.TotalSupply() > 0.0
    ensures r.CalculateBorrowRate().Ok? && forall s: nat :: r.EstimatedCollateralExchangeRate(s, referralFeeBps).Ok?
    ensures (forall s1: nat, s2: nat | s1 <= s2 ::
               r.EstimatedCollateralExchangeRate(s2, referralFeeBps).value
                 <= r.EstimatedCollateralExchangeRate(s1, referralFeeBps).value)
       <==> NeverShrinks(r)
  {
    RatesOrdered(r);
    forall s: nat ensures r.EstimatedCollateralExchangeRate(s, referralFeeBps).Ok? {
      ExchangeRateShape(r, s, referralFeeBps);
    }
    var h, a := r.HostRate(), r.DebtRate();
    if NeverShrinks(r) {
      forall s1: nat, s2: nat | s1 <= s2
        ensures r.EstimatedCollateralExchangeRate(s2, referralFeeBps).value
                <= r.EstimatedCollateralExchangeRate(s1, referralFeeBps).value
      {
        ExchangeRateOrder(r, s1, s2, referralFeeBps);
        if h == a || StepSafe(h, a) {
          SpreadMonotone(h, a, r.SlotsElapsed(s1), r.SlotsElapsed(s2));
        }
      }
    } else {
      SpreadMonotoneIff(h, a);
      var n: nat :| Spread(h, a, n) > Spread(h, a, n + 1);
      ExchangeRateOrder(r, r.lastUpdateSlot + n, r.lastUpdateSlot + n + 1, referralFeeBps);
    }
  }

  /** So no account within the stored integer widths, with slots of at least 4 ms, ever redeems a cToken
      for less later on. */
  lemma {:induction false} ExchangeRateNeverRises(r: KaminoReserve, s1: nat, s2: nat, referralFeeBps: real)
    requires r.Valid() && r.TotalSupply() > 0.0 && s1 <= s2
    requires r.recentSlotDurationMs >= 4.0 && r.hostFixedInterestRateBps <= U16_MAX
    requires forall i :: 0 <= i < |r.borrowRateCurve| ==> r.borrowRateCurve[i].borrowRateBps <= U32_MAX
    ensures r.EstimatedCollateralExchangeRate(s1, referralFeeBps).Ok?
            && r.EstimatedCollateralExchangeRate(s2, referralFeeBps).Ok?
    ensures r.EstimatedCollateralExchangeRate(s2, referralFeeBps).value
            <= r.EstimatedCollateralExchangeRate(s1, referralFeeBps).value
  {
    StoredRatesAreSafe(r);
    ExchangeRateNeverRisesIff(r, referralFeeBps);
  }

  const TENFOLD_CURVE: seq<CurvePoint> := [CurvePoint(0, 6307200000000), CurvePoint(10000, 6307200000000)]

  /** Half lent out, no fees, and a flat curve at ten times the debt per slot. */
  function TenfoldAccount(): KaminoReserve {
    KaminoReserve(0, 50.0, 50.0, 0.0, 0.0, 0.0, 100, 0, 0, PadPoints(TENFOLD_CURVE).value, 500.0)
  }

  /** Debt grows tenfold per slot, nothing goes to the host, and depositors earn on it. */
  ghost predicate Tenfold(r: KaminoReserve) {
    && r.Valid() && r.TotalSupply() > 0.0 && r.mintTotalSupply > 0 && SupplyWeight(r) > 0.0
    && r.CalculateBorrowRate().Ok? && r.HostRate() == 0.0 && r.DebtRate() == 10.0
  }

  lemma {:induction false} TenfoldAccountIsValid()
    ensures TenfoldAccount().Valid()
  {
    assert ValidPoints(TENFOLD_CURVE) && PadPoints(TENFOLD_CURVE) == Ok(TenfoldAccount().borrowRateCurve);
  }

  lemma {:induction false} TenfoldKnots()
    ensures var curve := TenfoldAccount().Curve();
            |curve| == 2 && curve[0].1 == 630720000.0 && curve[1].1 == 630720000.0
  {
    assert ValidPoints(TENFOLD_CURVE);
    PadThenTruncate(TENFOLD_CURVE);
  }

  /** On a flat curve the rate is its one value. */
  lemma {:induction false} FlatRate(r: KaminoReserve, rate: real)
    requires r.Valid() && r.Curve() != [] && r.Curve()[0].1 == rate && r.Curve()[|r.Curve()| - 1].1 == rate
    ensures r.CalculateBorrowRate() == Ok(Times(rate, r.SlotAdjustmentFactor()))
  {
    UtilizationNonNeg(r);
    FlatCurve(r, r.UtilizationRatio());
    RateAtValue(r, r.UtilizationRatio());
  }

  lemma {:induction false} FlatCurve(r: KaminoReserve, u: real)
    requires r.Valid() && 0.0 <= u && r.Curve() != [] && r.Curve()[0].1 == r.Curve()[|r.Curve()| - 1].1
    ensures BorrowRate(u, r.Curve()) == Ok(r.Curve()[0].1)
  {
    CurveIsValid(r);
    RateRange(r.Curve(), u);
  }

  lemma {:induction false} FlatIsTenfold(r: KaminoReserve)
    requires r.Valid() && r.TotalSupply() > 0.0 && r.mintTotalSupply > 0 && r.borrowedAmount > 0.0
    requires r.protocolTakeRatePct == 0 && r.hostFixedInterestRateBps == 0 && r.recentSlotDurationMs == 500.0
    requires r.Curve() != [] && r.Curve()[0].1 == 630720000.0 && r.Curve()[|r.Curve()| - 1].1 == 630720000.0
    ensures Tenfold(r)
  {
    FlatRate(r, 630720000.0);
    assert r.SlotAdjustmentFactor() == 1.0;
    assert SupplyWeight(r) == r.borrowedAmount;
  }

  lemma {:induction false} TenfoldAccountIsTenfold()
    ensures Tenfold(TenfoldAccount())
  {
    TenfoldAccountIsValid();
    TenfoldKnots();
    FlatIsTenfold(TenfoldAccount());
  }

  ghost predicate RateRises(r: KaminoReserve, referralFeeBps: real)
    requires r.recentSlotDurationMs > 0.0
  {
    exists s1: nat, s2: nat :: s1 <= s2
      && r.EstimatedCollateralExchangeRate(s1, referralFeeBps).Ok?
      && r.EstimatedCollateralExchangeRate(s2, referralFeeBps).Ok?
      && r.EstimatedCollateralExchangeRate(s2, referralFeeBps).value
         > r.EstimatedCollateralExchangeRate(s1, referralFeeBps).value
  }

  lemma {:induction false} TenfoldRises(r: KaminoReserve, referralFeeBps: real)
    requires Tenfold(r)
    ensures RateRises(r, referralFeeBps)
  {
    TenPerSlotIsUnsafe();
    ExchangeRateNeverRisesIff(r, referralFeeBps);
  }

  /** There is an account for which some later slot gives a cToken less than an earlier one. */
  lemma {:induction false} ExchangeRateCanRise(referralFeeBps: real)
    ensures TenfoldAccount().Valid() && RateRises(TenfoldAccount(), referralFeeBps)
  {
    TenfoldAccountIsTenfold();
    TenfoldRises(TenfoldAccount(), referralFeeBps);
  }

  lemma TenPerSlotIsUnsafe()
    ensures !StepSafe(0.0, 10.0)
  {}

  // ---------------------------------------------------------------- utilisation and borrow APR

  /** The estimated utilisation at any slot: the grown debt over the grown supply. */
  lemma {:induction false} UtilizationInClosedForm(r: KaminoReserve, slot: nat, referralFeeBps: real)
    requires r.Valid()
    ensures r.CalculateBorrowRate().Ok?
    ensures var n := if slot <= r.lastUpdateSlot then 0 else slot - r.lastUpdateSlot;
            var debt, supply := Times(r.borrowedAmount, Compound(r.DebtRate(), n)), GrownSupply(r, n);
            && 0.0 <= debt && 0.0 <= supply
            && r.EstimatedUtilizationRatio(slot, referralFeeBps) == Ok(if supply == 0.0 then 0.0 else debt / supply)
            && r.EstimatedCollateralExchangeRate(slot, referralFeeBps)
               == Ok(if r.mintTotalSupply == 0 || supply == 0.0 then 1.0 else r.mintTotalSupply as real / supply)
  {
    var n := r.SlotsElapsed(slot);
    SupplyGrowth(r, slot, referralFeeBps);
    SupplyNeverBelowStored(r, n);
    RatesOrdered(r);
    CompoundBetween(r.DebtRate(), n);
    TimesNonNeg(r.borrowedAmount, Compound(r.DebtRate(), n));
  }

  /** The estimated APR is the curve's rate at that utilisation, adjusted to the length of a slot, plus the
      host's fixed rate; and the cumulative rate is carried forward at it. */
  lemma {:induction false} APRInClosedForm(r: KaminoReserve, cumulative: real, slot: nat, referralFeeBps: real)
    requires r.Valid()
    ensures r.EstimatedUtilizationRatio(slot, referralFeeBps).Ok?
    ensures var u := r.EstimatedUtilizationRatio(slot, referralFeeBps).value;
            && 0.0 <= u && BorrowRate(u, r.Curve()).Ok?
            && var apr := Times(BorrowRate(u, r.Curve()).value, 500.0 / r.recentSlotDurationMs)
                          + r.hostFixedInterestRateBps as real / 10000.0;
            && r.BorrowAPR(slot, referralFeeBps) == Ok(apr)
            && r.EstimatedCumulativeBorrowRate(cumulative, slot, referralFeeBps)
               == Ok(Times(cumulative,
                           Compound(apr / 63072000.0,
                                    if slot <= r.lastUpdateSlot then 0 else slot - r.lastUpdateSlot)))
  {
    UtilizationInClosedForm(r, slot, referralFeeBps);
    var u := r.EstimatedUtilizationRatio(slot, referralFeeBps).value;
    var n := r.SlotsElapsed(slot);
    if GrownSupply(r, n) != 0.0 {
      QuotientNonNeg(Times(r.borrowedAmount, Compound(r.DebtRate(), n)), GrownSupply(r, n));
    }
    RateAtValue(r, u);
  }

  lemma UtilizationCross(p: real, s: real, w: real, x: real, h: real)
    requires 0.0 <= p <= s && 0.0 <= w <= p && 1.0 <= h <= x
    ensures Times(p, s + Times(w, x - h)) <= Times(Times(p, x), s)
  {
    // p * x * s - p * (s + w * (x - h)) == p * (s * (x - 1) - w * (x - h))
    TimesMono(w, s, x - h, x - 1.0);
    var gap := s * (x - 1.0) - w * (x - h);
    TimesNonNeg(p, gap);
    assert p * gap == p * x * s - p * (s + w * (x - h));
  }

  lemma QuotientCompare(p: real, s: real, p': real, s': real)
    requires 0.0 < s && 0.0 < s'
    requires Times(p, s') <= Times(p', s)
    ensures p / s <= p' / s'
  {
    QuotientTimes(p, s);
    QuotientTimes(p', s');
    var x, y := p / s, p' / s';
    assert x * s * s' <= y * s' * s;
    assert x > y ==> x * (s * s') > y * (s * s');
  }

  /** With stored utilisation at most 1, interest alone never lowers utilisation. */
  lemma {:induction false} UtilizationNeverFalls(r: KaminoReserve, slot: nat, referralFeeBps: real)
    requires r.Valid() && 0.0 < r.TotalSupply() && r.borrowedAmount <= r.TotalSupply()
    ensures r.EstimatedUtilizationRatio(slot, referralFeeBps).Ok?
    ensures 0.0 <= r.UtilizationRatio() <= r.EstimatedUtilizationRatio(slot, referralFeeBps).value
  {
    var n := r.SlotsElapsed(slot);
    RatesOrdered(r);
    UtilizationNonNeg(r);
    SupplyGrowth(r, slot, referralFeeBps);
    SupplyNeverBelowStored(r, n);
    var x, h := Compound(r.DebtRate(), n), Compound(r.HostRate(), n);
    CompoundBetween(r.HostRate(), n);
    CompoundMonoRate(r.HostRate(), r.DebtRate(), n);
    TimesNonNeg(r.borrowedAmount, r.DepositorShare());
    TimesMono(r.borrowedAmount, r.borrowedAmount, r.DepositorShare(), 1.0);
    UtilizationCross(r.borrowedAmount, r.TotalSupply(), SupplyWeight(r), x, h);
    QuotientCompare(r.borrowedAmount, r.TotalSupply(), Times(r.borrowedAmount, x), GrownSupply(r, n));
  }

  /** So the estimated borrow APR is never below the rate the account was last charged at. */
  lemma {:induction false} BorrowAPRNeverBelowStored(r: KaminoReserve, slot: nat, referralFeeBps: real)
    requires r.Valid() && 0.0 < r.TotalSupply() && r.borrowedAmount <= r.TotalSupply()
    ensures r.BorrowAPR(slot, referralFeeBps).Ok? && r.CalculateBorrowRate().Ok?
    ensures r.BorrowAPR(slot, referralFeeBps).value >= r.CalculateBorrowRate().value + r.FixedHostInterestRate()
  {
    UtilizationNeverFalls(r, slot, referralFeeBps);
    RateAtMonotone(r, r.UtilizationRatio(), r.EstimatedUtilizationRatio(slot, referralFeeBps).value);
  }

  /** The two estimates of a debt agree on direction: carrying a debt forward with the cumulative
      rate gives at least what compoundInterest adds to the reserve's own total. */
  lemma {:induction false} CumulativeRateCoversDebt(r: KaminoReserve, cumulative: real, slot: nat, referralFeeBps: real)
    requires r.Valid() && 0.0 < r.TotalSupply() && r.borrowedAmount <= r.TotalSupply() && 0.0 <= cumulative
    ensures r.EstimatedCumulativeBorrowRate(cumulative, slot, referralFeeBps).Ok?
    ensures r.EstimatedDebtAndSupply(slot, referralFeeBps).Ok?
    ensures Times(r.EstimatedCumulativeBorrowRate(cumulative, slot, referralFeeBps).value, r.borrowedAmount)
         >= Times(cumulative, r.EstimatedDebtAndSupply(slot, referralFeeBps).value.0)
  {
    var n := r.SlotsElapsed(slot);
    RatesOrdered(r);
    BorrowAPRNeverBelowStored(r, slot, referralFeeBps);
    SupplyGrowth(r, slot, referralFeeBps);
    var e := r.BorrowAPR(slot, referralFeeBps).value / SLOTS_PER_YEAR;
    CompoundMonoRate(r.DebtRate(), e, n);
    CompoundBetween(r.DebtRate(), n);
    var x, y := Compound(r.DebtRate(), n), Compound(e, n);
    TimesMono(cumulative, cumulative, x, y);
    TimesNonNeg(cumulative, x);
    TimesMono(Times(cumulative, x), Times(cumulative, y), r.borrowedAmount, r.borrowedAmount);
    TimesRotate(cumulative, x, r.borrowedAmount);
  }

  lemma TimesRotate(x: real, y: real, z: real)
    ensures Times(Times(x, y), z) == Times(x, Times(z, y))
  {}
}
