/** Health of an obligation (src/classes/obligation.ts): the loops that add up deposits and borrows,
    and the closed formulas for how much more can be borrowed or withdrawn. */
module Obligation {
  import opened Wrappers
  import opened RealArithmetic
  import opened PublicKeys
  import opened Market

  /** A deposit slot: collateral tokens of a reserve. */
  datatype ObligationCollateral = ObligationCollateral(depositReserve: PublicKey, depositedAmount: real)

  /** A borrow slot: the amount owed when the cumulative rate was `cumulativeBorrowRate`. */
  datatype BorrowSlot = ObligationLiquidity(borrowReserve: PublicKey, borrowedAmount: real, cumulativeBorrowRate: real)
  type ObligationLiquidity = b: BorrowSlot | b.cumulativeBorrowRate > 0.0 witness ObligationLiquidity(DEFAULT, 0.0, 1.0)

  datatype Position = Position(reserveAddress: PublicKey, mintAddress: PublicKey, amount: real,
                               marketValueRefreshed: real)

  datatype DepositStats = DepositStats(
    deposits: map<PublicKey, Position>,
    userTotalDeposit: real,
    userTotalCollateralDeposit: real,
    borrowLimit: real,
    liquidationLtv: real,
    borrowLiquidationLimit: real)

  datatype BorrowStats = BorrowStats(
    borrows: map<PublicKey, Position>,
    userTotalBorrow: real,
    userTotalBorrowBorrowFactorAdjusted: real,
    positions: nat)

  datatype ObligationError = ReserveNotFound | RateNotFound | NoSuchElevationGroup | DepositNotFound | Unresolved

  /** Everything the two loops read besides the slots: the market, the elevation group, and the
      exchange and cumulative rates by reserve. */
  datatype ValuationContext = Context(
    market: KaminoMarket,
    elevationGroup: nat,
    collateralExchangeRates: map<PublicKey, real>,
    cumulativeBorrowRates: map<PublicKey, real>)
  {
    predicate Valid() {
      && market.Valid()
      && (forall r :: r in market.reserves ==> SoundReserve(r))
      && (forall k :: k in collateralExchangeRates ==> 0.0 < collateralExchangeRates[k])
      && (forall k :: k in cumulativeBorrowRates ==> 0.0 < cumulativeBorrowRates[k])
    }
  }

  /** Prices and factors are positive, percentages are not negative. */
  predicate SoundReserve(r: MarketReserve) {
    && 0.0 < r.oraclePrice && 0.0 < r.mintFactor && 0.0 < r.borrowFactorPct
    && 0.0 <= r.loanToValue && 0.0 <= r.liquidationThreshold && 0.0 <= r.borrowFee
  }

  type Context = c: ValuationContext | c.Valid() witness Context(KaminoMarket([], []), 0, map[], map[])

  /** (maxLtv, liquidationLtv) */
  function LtvForReserve(c: Context, reserve: MarketReserve): Result<(real, real), ObligationError> {
    if c.elevationGroup != 0 && c.elevationGroup in reserve.elevationGroups then
      if c.elevationGroup <= |c.market.elevationGroups| then
        var group := c.market.elevationGroups[c.elevationGroup - 1];
        Ok((group.ltvPct as real / 100.0, group.liquidationThresholdPct as real / 100.0))
      else Err(NoSuchElevationGroup)
    else Ok((reserve.loanToValue, reserve.liquidationThreshold))
  }

  function BorrowFactorForReserve(c: Context, reserve: MarketReserve): real {
    if c.elevationGroup in reserve.elevationGroups && c.elevationGroup != 0 then 1.0
    else reserve.borrowFactorPct / 100.0
  }

  // ---------------------------------------------------------------- one slot

  datatype ValuedDeposit = ValuedDeposit(reserve: MarketReserve, amount: real, value: real, maxLtv: real,
                                         liquidationLtv: real)

  function ValueOf(amount: real, reserve: MarketReserve): real
    requires SoundReserve(reserve)
  {
    Times(amount, reserve.oraclePrice) / reserve.mintFactor
  }

  function ValueDeposit(c: Context, d: ObligationCollateral): Result<ValuedDeposit, ObligationError> {
    match c.market.ReserveByAddress(d.depositReserve)
    case None => Err(ReserveNotFound)
    case Some(reserve) =>
      match LtvForReserve(c, reserve)
      case Err(e) => Err(e)
      case Ok((maxLtv, liquidationLtv)) =>
        if reserve.address !in c.collateralExchangeRates then Err(RateNotFound) else
        var amount := d.depositedAmount / c.collateralExchangeRates[reserve.address];
        Ok(ValuedDeposit(reserve, amount, ValueOf(amount, reserve), maxLtv, liquidationLtv))
  }

  datatype ValuedBorrow = ValuedBorrow(reserve: MarketReserve, amount: real, value: real, adjusted: real)

  function ValueBorrow(c: Context, b: ObligationLiquidity): Result<ValuedBorrow, ObligationError> {
    match c.market.ReserveByAddress(b.borrowReserve)
    case None => Err(ReserveNotFound)
    case Some(reserve) =>
      if reserve.address !in c.cumulativeBorrowRates then Err(RateNotFound) else
      var amount := Times(b.borrowedAmount, c.cumulativeBorrowRates[reserve.address]) / b.cumulativeBorrowRate;
      var value := ValueOf(amount, reserve);
      Ok(ValuedBorrow(reserve, amount, value, Times(value, BorrowFactorForReserve(c, reserve))))
  }

  // ---------------------------------------------------------------- sums over the slots

  /** The totals of the deposit loop. */
  datatype DepositMeasure = DepositValue | CollateralValue | Limit | LiquidationLimit

  function Measured(m: DepositMeasure, v: ValuedDeposit): real {
    match m
    case DepositValue => v.value
    case CollateralValue => if v.maxLtv == 0.0 then 0.0 else v.value
    case Limit => Times(v.value, v.maxLtv)
    case LiquidationLimit => Times(v.value, v.liquidationLtv)
  }

  /** What one slot adds to a total; an unused slot adds nothing. */
  function DepositPart(c: Context, m: DepositMeasure, d: ObligationCollateral): real {
    if IsNotNullPubkey(d.depositReserve) && ValueDeposit(c, d).Ok? then Measured(m, ValueDeposit(c, d).value) else 0.0
  }

  function DepositSum(c: Context, m: DepositMeasure, ds: seq<ObligationCollateral>): real {
    if ds == [] then 0.0 else DepositSum(c, m, ds[..|ds| - 1]) + DepositPart(c, m, ds[|ds| - 1])
  }

  datatype BorrowMeasure = BorrowValue | AdjustedValue

  function BorrowPart(c: Context, m: BorrowMeasure, b: ObligationLiquidity): real {
    if IsNotNullPubkey(b.borrowReserve) && ValueBorrow(c, b).Ok? then
      var v := ValueBorrow(c, b).value;
      match m case BorrowValue => v.value case AdjustedValue => v.adjusted
    else 0.0
  }

  function BorrowSum(c: Context, m: BorrowMeasure, bs: seq<ObligationLiquidity>): real {
    if bs == [] then 0.0 else BorrowSum(c, m, bs[..|bs| - 1]) + BorrowPart(c, m, bs[|bs| - 1])
  }

  /** How many borrow slots still owe something. */
  function OpenBorrows(c: Context, bs: seq<ObligationLiquidity>): nat {
    if bs == [] then 0 else
    var b := bs[|bs| - 1];
    OpenBorrows(c, bs[..|bs| - 1])
    + if IsNotNullPubkey(b.borrowReserve) && ValueBorrow(c, b).Ok? && ValueBorrow(c, b).value.amount != 0.0
      then 1 else 0
  }

  lemma {:induction false} DepositSumUpdate(c: Context, m: DepositMeasure, ds: seq<ObligationCollateral>, i: nat,
                                            d: ObligationCollateral)
    requires i < |ds|
    ensures DepositSum(c, m, ds[i := d]) == DepositSum(c, m, ds) - DepositPart(c, m, ds[i]) + DepositPart(c, m, d)
  {
    var last := |ds| - 1;
    if i < last {
      DepositSumUpdate(c, m, ds[..last], i, d);
      assert ds[i := d][..last] == ds[..last][i := d];
    } else {
      assert ds[i := d][..last] == ds[..last];
    }
  }

  lemma {:induction false} BorrowSumUpdate(c: Context, m: BorrowMeasure, bs: seq<ObligationLiquidity>, i: nat,
                                           b: ObligationLiquidity)
    requires i < |bs|
    ensures BorrowSum(c, m, bs[i := b]) == BorrowSum(c, m, bs) - BorrowPart(c, m, bs[i]) + BorrowPart(c, m, b)
  {
    var last := |bs| - 1;
    if i < last {
      BorrowSumUpdate(c, m, bs[..last], i, b);
      assert bs[i := b][..last] == bs[..last][i := b];
    } else {
      assert bs[i := b][..last] == bs[..last];
    }
  }

  lemma {:induction false} BorrowSumAppend(c: Context, m: BorrowMeasure, bs: seq<ObligationLiquidity>,
                                           b: ObligationLiquidity)
    ensures BorrowSum(c, m, bs + [b]) == BorrowSum(c, m, bs) + BorrowPart(c, m, b)
  {
    assert (bs + [b])[..|bs|] == bs;
  }

  /** Where the position of a reserve comes from: the last slot that names it, since later slots
      overwrite earlier ones in the map; the length if there is none. */
  function LastDeposit(ds: seq<ObligationCollateral>, key: PublicKey): (i: nat)
    ensures i <= |ds|
    ensures i < |ds| ==> ds[i].depositReserve == key
    ensures forall j :: i < j < |ds| ==> ds[j].depositReserve != key
    ensures i == |ds| ==> forall j :: 0 <= j < |ds| ==> ds[j].depositReserve != key
  {
    if ds == [] then 0
    else if ds[|ds| - 1].depositReserve == key then |ds| - 1
    else var i := LastDeposit(ds[..|ds| - 1], key); if i == |ds| - 1 then |ds| else i
  }

  function DepositPosition(v: ValuedDeposit): Position {
    Position(v.reserve.address, v.reserve.liquidityMint, v.amount, v.value)
  }

  function BorrowPosition(v: ValuedBorrow): Position {
    Position(v.reserve.address, v.reserve.liquidityMint, v.amount, v.value)
  }

  predicate DepositsResolve(c: Context, ds: seq<ObligationCollateral>) {
    forall i :: 0 <= i < |ds| && IsNotNullPubkey(ds[i].depositReserve) ==> ValueDeposit(c, ds[i]).Ok?
  }

  predicate BorrowsResolve(c: Context, bs: seq<ObligationLiquidity>) {
    forall i :: 0 <= i < |bs| && IsNotNullPubkey(bs[i].borrowReserve) ==> ValueBorrow(c, bs[i]).Ok?
  }

  /** The position map after the slots ds. */
  function DepositPositions(c: Context, ds: seq<ObligationCollateral>): map<PublicKey, Position> {
    if ds == [] then map[] else
    var before, d := DepositPositions(c, ds[..|ds| - 1]), ds[|ds| - 1];
    if IsNotNullPubkey(d.depositReserve) && ValueDeposit(c, d).Ok?
    then before[ValueDeposit(c, d).value.reserve.address := DepositPosition(ValueDeposit(c, d).value)]
    else before
  }

  function BorrowPositions(c: Context, bs: seq<ObligationLiquidity>): map<PublicKey, Position> {
    if bs == [] then map[] else
    var before, b := BorrowPositions(c, bs[..|bs| - 1]), bs[|bs| - 1];
    if IsNotNullPubkey(b.borrowReserve) && ValueBorrow(c, b).Ok?
    then before[ValueBorrow(c, b).value.reserve.address := BorrowPosition(ValueBorrow(c, b).value)]
    else before
  }

  /** What the deposit loop returns. */
  function DepositTotals(c: Context, ds: seq<ObligationCollateral>): DepositStats {
    var total, liquidation := DepositSum(c, DepositValue, ds), DepositSum(c, LiquidationLimit, ds);
    DepositStats(DepositPositions(c, ds), total, DepositSum(c, CollateralValue, ds), DepositSum(c, Limit, ds),
                 if total == 0.0 then 0.0 else liquidation / total, liquidation)
  }

  function BorrowTotals(c: Context, bs: seq<ObligationLiquidity>): BorrowStats {
    BorrowStats(BorrowPositions(c, bs), BorrowSum(c, BorrowValue, bs), BorrowSum(c, AdjustedValue, bs),
                OpenBorrows(c, bs))
  }

  // ---------------------------------------------------------------- the totals in stored fields

  /** A used deposit slot can be valued exactly when its reserve and rate are known and, inside a group the
      reserve lists, the market has that group. */
  lemma {:induction false} DepositResolvesIff(c: Context, d: ObligationCollateral)
    ensures ValueDeposit(c, d).Ok? <==>
            (&& c.market.ReserveByAddress(d.depositReserve).Some? && d.depositReserve in c.collateralExchangeRates
             && (c.elevationGroup != 0
                 && c.elevationGroup in c.market.ReserveByAddress(d.depositReserve).value.elevationGroups ==>
                   c.elevationGroup <= |c.market.elevationGroups|))
  {
  }

  lemma {:induction false} BorrowResolvesIff(c: Context, b: ObligationLiquidity)
    ensures ValueBorrow(c, b).Ok? <==>
            c.market.ReserveByAddress(b.borrowReserve).Some? && b.borrowReserve in c.cumulativeBorrowRates
  {
  }

  /** What one more deposit adds: its value to the totals, the max LTV's share of it to the borrow limit and
      the liquidation threshold's to the liquidation limit. Both come from the elevation group when the
      reserve lists it and from the reserve otherwise. */
  lemma {:induction false} OneMoreDeposit(c: Context, ds: seq<ObligationCollateral>, d: ObligationCollateral)
    requires IsNotNullPubkey(d.depositReserve) && ValueDeposit(c, d).Ok?
    ensures c.market.ReserveByAddress(d.depositReserve).Some? && d.depositReserve in c.collateralExchangeRates
    ensures c.elevationGroup != 0
            && c.elevationGroup in c.market.ReserveByAddress(d.depositReserve).value.elevationGroups ==>
              c.elevationGroup <= |c.market.elevationGroups|
    ensures var r := c.market.ReserveByAddress(d.depositReserve).value;
            var amount := d.depositedAmount / c.collateralExchangeRates[d.depositReserve];
            var value := amount * r.oraclePrice / r.mintFactor;
            var inGroup := c.elevationGroup != 0 && c.elevationGroup in r.elevationGroups;
            var ltv := if inGroup then c.market.elevationGroups[c.elevationGroup - 1].ltvPct as real / 100.0
                       else r.loanToValue;
            var threshold :=
              if inGroup then c.market.elevationGroups[c.elevationGroup - 1].liquidationThresholdPct as real / 100.0
              else r.liquidationThreshold;
            var before, after := DepositTotals(c, ds), DepositTotals(c, ds + [d]);
            && after.userTotalDeposit == before.userTotalDeposit + value
            && after.userTotalCollateralDeposit
               == before.userTotalCollateralDeposit + (if ltv == 0.0 then 0.0 else value)
            && after.borrowLimit == before.borrowLimit + value * ltv
            && after.borrowLiquidationLimit == before.borrowLiquidationLimit + value * threshold
            && after.deposits
               == before.deposits[d.depositReserve := Position(d.depositReserve, r.liquidityMint, amount, value)]
  {
    assert (ds + [d])[..|ds|] == ds;
  }

  /** A borrow slot's debt, grown from the slot's cumulative rate to the reserve's, and its value. */
  lemma {:induction false} BorrowInStoredFields(c: Context, b: ObligationLiquidity)
    requires ValueBorrow(c, b).Ok?
    ensures c.market.ReserveByAddress(b.borrowReserve).Some? && b.borrowReserve in c.cumulativeBorrowRates
    ensures var r, v := c.market.ReserveByAddress(b.borrowReserve).value, ValueBorrow(c, b).value;
            var amount := b.borrowedAmount * c.cumulativeBorrowRates[b.borrowReserve] / b.cumulativeBorrowRate;
            var inGroup := c.elevationGroup != 0 && c.elevationGroup in r.elevationGroups;
            && v.reserve == r && r.address == b.borrowReserve && v.amount == amount
            && v.value == amount * r.oraclePrice / r.mintFactor
            && v.adjusted == v.value * (if inGroup then 1.0 else r.borrowFactorPct / 100.0)
  {
    var r, v := c.market.ReserveByAddress(b.borrowReserve).value, ValueBorrow(c, b).value;
    ProductIs(b.borrowedAmount, c.cumulativeBorrowRates[b.borrowReserve]);
    ProductIs(v.amount, r.oraclePrice);
    ProductIs(v.value, BorrowFactorForReserve(c, r));
  }

  lemma ProductIs(x: real, y: real)
    ensures Times(x, y) == x * y
  {}

  /** What one more borrow adds: inside the group its value counts once, outside by the borrow factor. */
  lemma {:induction false} OneMoreBorrow(c: Context, bs: seq<ObligationLiquidity>, b: ObligationLiquidity)
    requires IsNotNullPubkey(b.borrowReserve) && ValueBorrow(c, b).Ok?
    ensures c.market.ReserveByAddress(b.borrowReserve).Some? && b.borrowReserve in c.cumulativeBorrowRates
    ensures var r := c.market.ReserveByAddress(b.borrowReserve).value;
            var amount := b.borrowedAmount * c.cumulativeBorrowRates[b.borrowReserve] / b.cumulativeBorrowRate;
            var value := amount * r.oraclePrice / r.mintFactor;
            var inGroup := c.elevationGroup != 0 && c.elevationGroup in r.elevationGroups;
            var before, after := BorrowTotals(c, bs), BorrowTotals(c, bs + [b]);
            && after.userTotalBorrow == before.userTotalBorrow + value
            && after.userTotalBorrowBorrowFactorAdjusted
               == before.userTotalBorrowBorrowFactorAdjusted
                  + value * (if inGroup then 1.0 else r.borrowFactorPct / 100.0)
            && after.positions == before.positions + (if amount == 0.0 then 0 else 1)
            && after.borrows
               == before.borrows[b.borrowReserve := Position(b.borrowReserve, r.liquidityMint, amount, value)]
  {
    BorrowInStoredFields(c, b);
    assert (bs + [b])[..|bs|] == bs;
  }

  /** An unused slot adds nothing, and no slots add up to nothing. */
  lemma {:induction false} UnusedSlots(c: Context, ds: seq<ObligationCollateral>, d: ObligationCollateral,
                                       bs: seq<ObligationLiquidity>, b: ObligationLiquidity)
    requires !IsNotNullPubkey(d.depositReserve) && !IsNotNullPubkey(b.borrowReserve)
    ensures DepositTotals(c, ds + [d]) == DepositTotals(c, ds) && BorrowTotals(c, bs + [b]) == BorrowTotals(c, bs)
    ensures DepositTotals(c, []) == DepositStats(map[], 0.0, 0.0, 0.0, 0.0, 0.0)
    ensures BorrowTotals(c, []) == BorrowStats(map[], 0.0, 0.0, 0)
  {
    assert (ds + [d])[..|ds|] == ds && (bs + [b])[..|bs|] == bs;
  }

  ghost predicate NonNegativeDeposits(ds: seq<ObligationCollateral>) {
    forall i :: 0 <= i < |ds| ==> ds[i].depositedAmount >= 0.0
  }

  lemma {:induction false} ValueNonNeg(c: Context, d: ObligationCollateral)
    requires ValueDeposit(c, d).Ok? && d.depositedAmount >= 0.0
    ensures ValueDeposit(c, d).value.value >= 0.0
  {
    var v := ValueDeposit(c, d).value;
    assert v.reserve in c.market.reserves && SoundReserve(v.reserve);
    QuotientNonNeg(d.depositedAmount, c.collateralExchangeRates[v.reserve.address]);
    TimesNonNeg(v.amount, v.reserve.oraclePrice);
    QuotientNonNeg(Times(v.amount, v.reserve.oraclePrice), v.reserve.mintFactor);
  }

  /** Where no max LTV is above its liquidation threshold, the borrow limit is never above the liquidation
      limit; and the average liquidation LTV gives the liquidation limit back. */
  lemma {:induction false} LimitsOrdered(c: Context, ds: seq<ObligationCollateral>)
    requires NonNegativeDeposits(ds)
    requires forall g :: g in c.market.elevationGroups ==> g.ltvPct <= g.liquidationThresholdPct
    requires forall r :: r in c.market.reserves ==> r.loanToValue <= r.liquidationThreshold
    ensures var totals := DepositTotals(c, ds);
            && 0.0 <= totals.borrowLimit <= totals.borrowLiquidationLimit && 0.0 <= totals.userTotalDeposit
            && totals.liquidationLtv * totals.userTotalDeposit == totals.borrowLiquidationLimit
            && (totals.userTotalDeposit == 0.0 ==> totals.borrowLimit == 0.0)
  {
    SumsOrdered(c, ds);
    var totals := DepositTotals(c, ds);
    if totals.userTotalDeposit != 0.0 {
      QuotientTimes(totals.borrowLiquidationLimit, totals.userTotalDeposit);
    }
  }

  lemma {:induction false} SumsOrdered(c: Context, ds: seq<ObligationCollateral>)
    requires NonNegativeDeposits(ds)
    requires forall g :: g in c.market.elevationGroups ==> g.ltvPct <= g.liquidationThresholdPct
    requires forall r :: r in c.market.reserves ==> r.loanToValue <= r.liquidationThreshold
    ensures 0.0 <= DepositSum(c, Limit, ds) <= DepositSum(c, LiquidationLimit, ds)
    ensures 0.0 <= DepositSum(c, DepositValue, ds)
    ensures DepositSum(c, DepositValue, ds) == 0.0 ==> DepositSum(c, LiquidationLimit, ds) == 0.0
  {
    if ds != [] {
      var last := ds[|ds| - 1];
      SumsOrdered(c, ds[..|ds| - 1]);
      if IsNotNullPubkey(last.depositReserve) && ValueDeposit(c, last).Ok? {
        var v := ValueDeposit(c, last).value;
        ValueNonNeg(c, last);
        LtvOrdered(c, v.reserve);
        TimesNonNeg(v.value, v.maxLtv);
        TimesMono(v.value, v.value, v.maxLtv, v.liquidationLtv);
        assert v.value == 0.0 ==> Times(v.value, v.liquidationLtv) == 0.0;
      }
    }
  }

  lemma {:induction false} LtvOrdered(c: Context, reserve: MarketReserve)
    requires reserve in c.market.reserves && LtvForReserve(c, reserve).Ok?
    requires forall g :: g in c.market.elevationGroups ==> g.ltvPct <= g.liquidationThresholdPct
    requires forall r :: r in c.market.reserves ==> r.loanToValue <= r.liquidationThreshold
    ensures 0.0 <= LtvForReserve(c, reserve).value.0 <= LtvForReserve(c, reserve).value.1
  {
    assert SoundReserve(reserve);
    if c.elevationGroup != 0 && c.elevationGroup in reserve.elevationGroups {
      assert c.market.elevationGroups[c.elevationGroup - 1] in c.market.elevationGroups;
    }
  }

  /** The position of a reserve is that of the last slot naming it. */
  lemma {:induction false} PositionIsLast(c: Context, ds: seq<ObligationCollateral>, key: PublicKey)
    requires DepositsResolve(c, ds)
    ensures key in DepositPositions(c, ds) <==> IsNotNullPubkey(key) && LastDeposit(ds, key) < |ds|
    ensures key in DepositPositions(c, ds) ==>
              && ValueDeposit(c, ds[LastDeposit(ds, key)]).Ok?
              && c.market.ReserveByAddress(key).Some? && key in c.collateralExchangeRates
    ensures key in DepositPositions(c, ds) ==>
              var r := c.market.ReserveByAddress(key).value;
              var amount := ds[LastDeposit(ds, key)].depositedAmount / c.collateralExchangeRates[key];
              DepositPositions(c, ds)[key]
              == Position(key, r.liquidityMint, amount, amount * r.oraclePrice / r.mintFactor)
  {
    LastDepositWins(c, ds, key);
  }

  lemma {:induction false} LastDepositWins(c: Context, ds: seq<ObligationCollateral>, key: PublicKey)
    requires DepositsResolve(c, ds)
    ensures key in DepositPositions(c, ds) <==> IsNotNullPubkey(key) && LastDeposit(ds, key) < |ds|
    ensures key in DepositPositions(c, ds) ==>
              && ValueDeposit(c, ds[LastDeposit(ds, key)]).Ok?
              && DepositPositions(c, ds)[key] == DepositPosition(ValueDeposit(c, ds[LastDeposit(ds, key)]).value)
  {
    if ds != [] {
      LastDepositWins(c, ds[..|ds| - 1], key);
    }
  }

  function LastBorrow(bs: seq<ObligationLiquidity>, key: PublicKey): (i: nat)
    ensures i <= |bs|
    ensures i < |bs| ==> bs[i].borrowReserve == key
    ensures forall j :: i < j < |bs| ==> bs[j].borrowReserve != key
    ensures i == |bs| ==> forall j :: 0 <= j < |bs| ==> bs[j].borrowReserve != key
  {
    if bs == [] then 0
    else if bs[|bs| - 1].borrowReserve == key then |bs| - 1
    else var i := LastBorrow(bs[..|bs| - 1], key); if i == |bs| - 1 then |bs| else i
  }

  /** And so is what is owed to it, grown from the slot's cumulative rate to the reserve's. */
  lemma {:induction false} BorrowPositionIsLast(c: Context, bs: seq<ObligationLiquidity>, key: PublicKey)
    requires BorrowsResolve(c, bs)
    ensures key in BorrowPositions(c, bs) <==> IsNotNullPubkey(key) && LastBorrow(bs, key) < |bs|
    ensures key in BorrowPositions(c, bs) ==>
              c.market.ReserveByAddress(key).Some? && key in c.cumulativeBorrowRates
    ensures key in BorrowPositions(c, bs) ==>
              var r, b := c.market.ReserveByAddress(key).value, bs[LastBorrow(bs, key)];
              var amount := b.borrowedAmount * c.cumulativeBorrowRates[key] / b.cumulativeBorrowRate;
              BorrowPositions(c, bs)[key]
              == Position(key, r.liquidityMint, amount, amount * r.oraclePrice / r.mintFactor)
  {
    LastBorrowWins(c, bs, key);
    if key in BorrowPositions(c, bs) {
      BorrowInStoredFields(c, bs[LastBorrow(bs, key)]);
    }
  }

  lemma {:induction false} LastBorrowWins(c: Context, bs: seq<ObligationLiquidity>, key: PublicKey)
    requires BorrowsResolve(c, bs)
    ensures key in BorrowPositions(c, bs) <==> IsNotNullPubkey(key) && LastBorrow(bs, key) < |bs|
    ensures key in BorrowPositions(c, bs) ==>
              && ValueBorrow(c, bs[LastBorrow(bs, key)]).Ok?
              && BorrowPositions(c, bs)[key] == BorrowPosition(ValueBorrow(c, bs[LastBorrow(bs, key)]).value)
  {
    if bs != [] {
      LastBorrowWins(c, bs[..|bs| - 1], key);
    }
  }

  // ---------------------------------------------------------------- the loops

  method CalculateObligationDeposits(c: Context, obligationDeposits: seq<ObligationCollateral>)
      returns (r: Result<DepositStats, ObligationError>)
    ensures r.Ok? <==> DepositsResolve(c, obligationDeposits)
    ensures r.Ok? ==> r.value == DepositTotals(c, obligationDeposits)
  {
    var deposits: map<PublicKey, Position> := map[];
    var userTotalDeposit, userTotalCollateralDeposit, borrowLimit, borrowLiquidationLimit := 0.0, 0.0, 0.0, 0.0;
    for i := 0 to |obligationDeposits|
      invariant DepositsResolve(c, obligationDeposits[..i])
      invariant deposits == DepositPositions(c, obligationDeposits[..i])
      invariant userTotalDeposit == DepositSum(c, DepositValue, obligationDeposits[..i])
      invariant userTotalCollateralDeposit == DepositSum(c, CollateralValue, obligationDeposits[..i])
      invariant borrowLimit == DepositSum(c, Limit, obligationDeposits[..i])
      invariant borrowLiquidationLimit == DepositSum(c, LiquidationLimit, obligationDeposits[..i])
    {
      var deposit := obligationDeposits[i];
      assert obligationDeposits[..i + 1][..i] == obligationDeposits[..i];
      if !IsNotNullPubkey(deposit.depositReserve) {
        continue;
      }
      match ValueDeposit(c, deposit) {
        case Err(e) => return Err(e);
        case Ok(v) =>
          userTotalDeposit := userTotalDeposit + v.value;
          if v.maxLtv != 0.0 {
            userTotalCollateralDeposit := userTotalCollateralDeposit + v.value;
          }
          borrowLimit := borrowLimit + Times(v.value, v.maxLtv);
          borrowLiquidationLimit := borrowLiquidationLimit + Times(v.value, v.liquidationLtv);
          deposits := deposits[v.reserve.address := DepositPosition(v)];
      }
    }
    assert obligationDeposits[..|obligationDeposits|] == obligationDeposits;
    var liquidationLtv := if userTotalDeposit == 0.0 then 0.0 else borrowLiquidationLimit / userTotalDeposit;
    return Ok(DepositStats(deposits, userTotalDeposit, userTotalCollateralDeposit, borrowLimit, liquidationLtv,
                           borrowLiquidationLimit));
  }

  method CalculateObligationBorrows(c: Context, obligationBorrows: seq<ObligationLiquidity>)
      returns (r: Result<BorrowStats, ObligationError>)
    ensures r.Ok? <==> BorrowsResolve(c, obligationBorrows)
    ensures r.Ok? ==> r.value == BorrowTotals(c, obligationBorrows)
  {
    var borrows: map<PublicKey, Position> := map[];
    var userTotalBorrow, userTotalBorrowBorrowFactorAdjusted, positions := 0.0, 0.0, 0;
    for i := 0 to |obligationBorrows|
      invariant BorrowsResolve(c, obligationBorrows[..i])
      invariant borrows == BorrowPositions(c, obligationBorrows[..i])
      invariant userTotalBorrow == BorrowSum(c, BorrowValue, obligationBorrows[..i])
      invariant userTotalBorrowBorrowFactorAdjusted == BorrowSum(c, AdjustedValue, obligationBorrows[..i])
      invariant positions == OpenBorrows(c, obligationBorrows[..i])
    {
      var borrow := obligationBorrows[i];
      assert obligationBorrows[..i + 1][..i] == obligationBorrows[..i];
      if !IsNotNullPubkey(borrow.borrowReserve) {
        continue;
      }
      match ValueBorrow(c, borrow) {
        case Err(e) => return Err(e);
        case Ok(v) =>
          if v.amount != 0.0 {
            positions := positions + 1;
          }
          userTotalBorrow := userTotalBorrow + v.value;
          userTotalBorrowBorrowFactorAdjusted := userTotalBorrowBorrowFactorAdjusted + v.adjusted;
          borrows := borrows[v.reserve.address := BorrowPosition(v)];
      }
    }
    assert obligationBorrows[..|obligationBorrows|] == obligationBorrows;
    return Ok(BorrowStats(borrows, userTotalBorrow, userTotalBorrowBorrowFactorAdjusted, positions));
  }

  // ---------------------------------------------------------------- withdrawing

  function Min(a: real, b: real): real { if a <= b then a else b }

  function Max(a: real, b: real): real { if a >= b then a else b }

  /** The most of a reserve's deposit that can leave; `availableLiquidity` and `withdrawalCapRemained`
      come from the reserve and may be anything. */
  function MaxWithdrawAmount(c: Context, ds: seq<ObligationCollateral>, bs: seq<ObligationLiquidity>,
                             reserve: MarketReserve,
                             availableLiquidity: real, withdrawalCapRemained: real): Result<real, ObligationError>
    requires reserve in c.market.reserves
  {
    var deposits := DepositTotals(c, ds);
    var debt := BorrowTotals(c, bs).userTotalBorrowBorrowFactorAdjusted;
    if reserve.address !in deposits.deposits then Err(DepositNotFound) else
    var amount := deposits.deposits[reserve.address].amount;
    if debt == 0.0 then Ok(amount) else
    match LtvForReserve(c, reserve)
    case Err(e) => Err(e)
    case Ok((maxLtv, _)) =>
      if debt >= deposits.borrowLimit then Ok(0.0)
      else Ok(WithdrawalWithin(deposits.borrowLimit - debt, amount, maxLtv, reserve, availableLiquidity,
                               withdrawalCapRemained))
  }

  /** The formula when there is a gap between the limit and the debt. */
  function WithdrawalWithin(gap: real, amount: real, maxLtv: real, reserve: MarketReserve,
                            availableLiquidity: real, withdrawalCapRemained: real): real
    requires SoundReserve(reserve)
  {
    var maxWithdrawAmount := TokensWithin(gap, amount, maxLtv, reserve);
    Max(0.0, Min(Min(amount, maxWithdrawAmount), Min(availableLiquidity, withdrawalCapRemained)))
  }

  /** As many tokens as the gap allows at the collateral's LTV. */
  function TokensWithin(gap: real, amount: real, maxLtv: real, reserve: MarketReserve): real
    requires SoundReserve(reserve)
  {
    var maxWithdrawValue := if maxLtv == 0.0 then amount else gap / maxLtv * 0.999;
    maxWithdrawValue / reserve.oraclePrice * reserve.mintFactor
  }

  /** The same slots with w tokens' worth of collateral taken from slot i. */
  function WithdrawFrom(c: Context, ds: seq<ObligationCollateral>, i: nat, w: real): seq<ObligationCollateral>
    requires i < |ds| && ds[i].depositReserve in c.collateralExchangeRates
  {
    var d := ds[i];
    ds[i := d.(depositedAmount := d.depositedAmount - Times(w, c.collateralExchangeRates[d.depositReserve]))]
  }

  lemma {:induction false} ValueLinear(a: real, w: real, reserve: MarketReserve)
    requires SoundReserve(reserve)
    ensures ValueOf(a - w, reserve) == ValueOf(a, reserve) - ValueOf(w, reserve)
  {
    assert Times(a - w, reserve.oraclePrice) == Times(a, reserve.oraclePrice) - Times(w, reserve.oraclePrice);
    QuotientLinear(Times(a, reserve.oraclePrice), Times(w, reserve.oraclePrice), reserve.mintFactor);
  }

  lemma QuotientLinear(x: real, y: real, m: real)
    requires m != 0.0
    ensures (x - y) / m == x / m - y / m
  {}

  lemma RemainingAmount(deposited: real, w: real, rate: real)
    requires rate > 0.0
    ensures (deposited - Times(w, rate)) / rate == deposited / rate - w
  {
    QuotientLinear(deposited, Times(w, rate), rate);
  }

  lemma TimesLinear(x: real, y: real, z: real)
    ensures Times(x - y, z) == Times(x, z) - Times(y, z)
  {}

  /** Taking w tokens from a slot lowers the borrow limit by their value times the slot's max LTV. */
  lemma {:induction false} LimitAfterWithdraw(c: Context, ds: seq<ObligationCollateral>, i: nat, w: real)
    requires i < |ds| && IsNotNullPubkey(ds[i].depositReserve) && ValueDeposit(c, ds[i]).Ok?
    ensures ds[i].depositReserve in c.collateralExchangeRates
    ensures var v := ValueDeposit(c, ds[i]).value;
            && SoundReserve(v.reserve)
            && DepositSum(c, Limit, WithdrawFrom(c, ds, i, w))
               == DepositSum(c, Limit, ds) - Times(ValueOf(w, v.reserve), v.maxLtv)
  {
    var v := ValueDeposit(c, ds[i]).value;
    var d' := WithdrawFrom(c, ds, i, w)[i];
    assert v.reserve in c.market.reserves;
    RemainingAmount(ds[i].depositedAmount, w, c.collateralExchangeRates[v.reserve.address]);
    ValueLinear(v.amount, w, v.reserve);
    TimesLinear(v.value, ValueOf(w, v.reserve), v.maxLtv);
    assert ValueDeposit(c, d').Ok? && ValueDeposit(c, d').value.value == v.value - ValueOf(w, v.reserve);
    DepositSumUpdate(c, Limit, ds, i, d');
  }

  lemma DivideBack(w: real, x: real, price: real, mintFactor: real)
    requires price > 0.0 && mintFactor > 0.0 && w <= x / price * mintFactor
    ensures Times(w, price) / mintFactor <= x
  {
    var q := x / price;
    QuotientTimes(x, price);
    assert w * price <= q * mintFactor * price by { ScaleInequality(w, q * mintFactor, price); }
    assert q * mintFactor * price == (q * price) * mintFactor;
    DivideInequality(w * price, x, mintFactor);
  }

  lemma ScaleInequality(x: real, y: real, k: real)
    requires x <= y && k >= 0.0
    ensures x * k <= y * k
  {}

  lemma DivideInequality(x: real, y: real, k: real)
    requires k > 0.0 && x <= y * k
    ensures x / k <= y
  {
    QuotientTimes(x, k);
    var q := x / k;
    assert q > y ==> q * k > y * k;
  }

  /** A withdrawal within the closed formula uses up at most 99.9% of the gap to the limit. */
  lemma {:induction false} WithdrawWithinGap(gap: real, ltv: real, reserve: MarketReserve, w: real)
    requires SoundReserve(reserve) && gap >= 0.0 && ltv > 0.0
    requires w <= gap / ltv * 0.999 / reserve.oraclePrice * reserve.mintFactor
    ensures Times(ValueOf(w, reserve), ltv) <= 0.999 * gap
  {
    DivideBack(w, gap / ltv * 0.999, reserve.oraclePrice, reserve.mintFactor);
    ScaleInequality(ValueOf(w, reserve), gap / ltv * 0.999, ltv);
    QuotientTimes(gap, ltv);
    assert gap / ltv * 0.999 * ltv == (gap / ltv * ltv) * 0.999;
  }

  lemma {:induction false} LimitPartNonNeg(c: Context, d: ObligationCollateral)
    requires d.depositedAmount >= 0.0
    ensures DepositPart(c, Limit, d) >= 0.0
  {
    if IsNotNullPubkey(d.depositReserve) && ValueDeposit(c, d).Ok? {
      var v := ValueDeposit(c, d).value;
      ValueNonNeg(c, d);
      assert v.reserve in c.market.reserves && SoundReserve(v.reserve);
      TimesNonNeg(v.value, v.maxLtv);
    }
  }

  lemma {:induction false} LimitNonNeg(c: Context, ds: seq<ObligationCollateral>)
    requires NonNegativeDeposits(ds)
    ensures DepositSum(c, Limit, ds) >= 0.0
  {
    if ds != [] {
      LimitNonNeg(c, ds[..|ds| - 1]);
      LimitPartNonNeg(c, ds[|ds| - 1]);
    }
  }

  /** Withdrawing what getMaxWithdrawAmount allows keeps a healthy loan healthy: the result is between
      zero and the deposit, and running the deposit loop again on the lowered deposit still covers
      the debt. */
  lemma {:induction false} MaxWithdrawKeepsHealth(c: Context, ds: seq<ObligationCollateral>,
                                                  bs: seq<ObligationLiquidity>, reserve: MarketReserve,
                               availableLiquidity: real, withdrawalCapRemained: real)
    requires reserve in c.market.reserves && DepositsResolve(c, ds) && NonNegativeDeposits(ds)
    requires MaxWithdrawAmount(c, ds, bs, reserve, availableLiquidity, withdrawalCapRemained).Ok?
    requires BorrowSum(c, AdjustedValue, bs) <= DepositSum(c, Limit, ds)
    ensures var i := LastDeposit(ds, reserve.address);
            && i < |ds| && ds[i].depositReserve in c.collateralExchangeRates && ValueDeposit(c, ds[i]).Ok?
            && var w := MaxWithdrawAmount(c, ds, bs, reserve, availableLiquidity, withdrawalCapRemained).value;
            && 0.0 <= w <= ValueDeposit(c, ds[i]).value.amount
            && BorrowSum(c, AdjustedValue, bs) <= DepositSum(c, Limit, WithdrawFrom(c, ds, i, w))
  {
    var i := LastDeposit(ds, reserve.address);
    PositionIsLast(c, ds, reserve.address);
    ReserveByItsAddress(c.market, reserve);
    AmountNonNeg(c, ds[i]);
    LtvNonNeg(c, reserve);
    var v := ValueDeposit(c, ds[i]).value;
    var limit, debt := DepositSum(c, Limit, ds), BorrowSum(c, AdjustedValue, bs);
    if debt == 0.0 {
      FullWithdrawal(c, ds, i);
    } else if debt >= limit {
      NothingWithdrawn(reserve, v.maxLtv);
      LimitAfterWithdraw(c, ds, i, 0.0);
    } else {
      WithdrawalWithinGap(limit - debt, v.amount, v.maxLtv, reserve, availableLiquidity, withdrawalCapRemained);
      LimitAfterWithdraw(c, ds, i,
                         WithdrawalWithin(limit - debt, v.amount, v.maxLtv, reserve, availableLiquidity,
                                          withdrawalCapRemained));
    }
  }

  lemma {:induction false} WithdrawalWithinGap(gap: real, amount: real, maxLtv: real, reserve: MarketReserve,
                                               availableLiquidity: real, withdrawalCapRemained: real)
    requires SoundReserve(reserve) && 0.0 < gap && 0.0 <= amount && 0.0 <= maxLtv
    ensures var w := WithdrawalWithin(gap, amount, maxLtv, reserve, availableLiquidity, withdrawalCapRemained);
            0.0 <= w <= amount && Times(ValueOf(w, reserve), maxLtv) <= gap
  {
    var w := WithdrawalWithin(gap, amount, maxLtv, reserve, availableLiquidity, withdrawalCapRemained);
    if maxLtv > 0.0 {
      if w > 0.0 {
        WithdrawWithinGap(gap, maxLtv, reserve, w);
      } else {
        NothingWithdrawn(reserve, maxLtv);
      }
    }
  }

  lemma {:induction false} NothingWithdrawn(reserve: MarketReserve, ltv: real)
    requires SoundReserve(reserve)
    ensures Times(ValueOf(0.0, reserve), ltv) == 0.0
  {
    assert Times(0.0, reserve.oraclePrice) == 0.0;
    assert ValueOf(0.0, reserve) == 0.0;
  }

  lemma {:induction false} LtvNonNeg(c: Context, reserve: MarketReserve)
    requires reserve in c.market.reserves && LtvForReserve(c, reserve).Ok?
    ensures LtvForReserve(c, reserve).value.0 >= 0.0
  {
    assert SoundReserve(reserve);
  }

  lemma {:induction false} FullWithdrawal(c: Context, ds: seq<ObligationCollateral>, i: nat)
    requires i < |ds| && NonNegativeDeposits(ds) && ValueDeposit(c, ds[i]).Ok?
    ensures ds[i].depositReserve in c.collateralExchangeRates
    ensures DepositSum(c, Limit, WithdrawFrom(c, ds, i, ValueDeposit(c, ds[i]).value.amount)) >= 0.0
  {
    QuotientTimes(ds[i].depositedAmount, c.collateralExchangeRates[ds[i].depositReserve]);
    LimitNonNeg(c, WithdrawFrom(c, ds, i, ValueDeposit(c, ds[i]).value.amount));
  }

  lemma {:induction false} AmountNonNeg(c: Context, d: ObligationCollateral)
    requires ValueDeposit(c, d).Ok? && d.depositedAmount >= 0.0
    ensures ValueDeposit(c, d).value.amount >= 0.0
  {
    QuotientNonNeg(d.depositedAmount, c.collateralExchangeRates[ValueDeposit(c, d).value.reserve.address]);
  }

  /** What a collateral with zero LTV should allow: it backs no debt, so only the deposit, the liquidity
      and the withdrawal cap bound it. */
  function FreeWithdrawal(amount: real, availableLiquidity: real, withdrawalCapRemained: real): real {
    Max(0.0, Min(amount, Min(availableLiquidity, withdrawalCapRemained)))
  }

  lemma {:induction false} ZeroLtvFormula(gap: real, amount: real, reserve: MarketReserve)
    requires SoundReserve(reserve) && 0.0 < amount
    ensures (forall liquidity: real, cap: real ::
               WithdrawalWithin(gap, amount, 0.0, reserve, liquidity, cap) == FreeWithdrawal(amount, liquidity, cap))
       <==> reserve.oraclePrice <= reserve.mintFactor
  {
    var w := amount / reserve.oraclePrice * reserve.mintFactor;
    RatioOrder(amount, reserve.oraclePrice, reserve.mintFactor);
    if w < amount {
      assert WithdrawalWithin(gap, amount, 0.0, reserve, amount, amount) != FreeWithdrawal(amount, amount, amount);
    }
  }

  lemma RatioOrder(x: real, price: real, factor: real)
    requires 0.0 < x && 0.0 < price
    ensures x <= x / price * factor <==> price <= factor
  {
    var q := x / price;
    QuotientTimes(x, price);
    assert q > 0.0;
    ProductOrder(price, factor, q);
  }

  /** A healthy loan with debt, and a deposit of zero LTV. */
  ghost predicate ZeroLtvDeposit(c: Context, ds: seq<ObligationCollateral>, bs: seq<ObligationLiquidity>,
                                 reserve: MarketReserve) {
    && reserve in c.market.reserves
    && reserve.address in DepositPositions(c, ds) && 0.0 < DepositPositions(c, ds)[reserve.address].amount
    && LtvForReserve(c, reserve).Ok? && LtvForReserve(c, reserve).value.0 == 0.0
    && 0.0 != BorrowSum(c, AdjustedValue, bs) < DepositSum(c, Limit, ds)
  }

  /** getMaxWithdrawAmount divides the deposit by the price as if it were a value. So it lets the whole
      deposit go, whatever the liquidity and the cap, exactly when the price is at most the mint factor. */
  lemma {:induction false} ZeroLtvWithdrawIff(c: Context, ds: seq<ObligationCollateral>, bs: seq<ObligationLiquidity>,
                                              reserve: MarketReserve)
    requires ZeroLtvDeposit(c, ds, bs, reserve)
    ensures (forall liquidity: real, cap: real ::
               MaxWithdrawAmount(c, ds, bs, reserve, liquidity, cap)
               == Ok(FreeWithdrawal(DepositPositions(c, ds)[reserve.address].amount, liquidity, cap)))
       <==> reserve.oraclePrice <= reserve.mintFactor
  {
    var amount := DepositPositions(c, ds)[reserve.address].amount;
    var gap := DepositSum(c, Limit, ds) - BorrowSum(c, AdjustedValue, bs);
    ZeroLtvFormula(gap, amount, reserve);
    forall liquidity: real, cap: real
      ensures MaxWithdrawAmount(c, ds, bs, reserve, liquidity, cap)
              == Ok(WithdrawalWithin(gap, amount, 0.0, reserve, liquidity, cap))
    {}
  }

  /** Ten tokens without LTV at a price of 2 and mint factor 1, beside an ample collateral: only five may
      leave, though liquidity and cap allow a hundred. */
  lemma ZeroLtvWithdrawTooLittle()
    ensures var a := MarketReserve(PublicKey(1), PublicKey(1), [], 0.5, 0.6, 100.0, 1.0, 1.0, 0.0, false, [], []);
            var z := MarketReserve(PublicKey(2), PublicKey(2), [], 0.0, 0.0, 100.0, 2.0, 1.0, 0.0, false, [], []);
            var rates := map[PublicKey(1) := 1.0, PublicKey(2) := 1.0];
            var c := Context(KaminoMarket([], [a, z]), 0, rates, rates);
            var ds := [ObligationCollateral(PublicKey(1), 100.0), ObligationCollateral(PublicKey(2), 10.0)];
            var bs := [ObligationLiquidity(PublicKey(1), 10.0, 1.0)];
            && c.Valid() && ZeroLtvDeposit(c, ds, bs, z) && DepositPositions(c, ds)[z.address].amount == 10.0
            && MaxWithdrawAmount(c, ds, bs, z, 100.0, 100.0) == Ok(5.0)
  {
    var a := MarketReserve(PublicKey(1), PublicKey(1), [], 0.5, 0.6, 100.0, 1.0, 1.0, 0.0, false, [], []);
    var z := MarketReserve(PublicKey(2), PublicKey(2), [], 0.0, 0.0, 100.0, 2.0, 1.0, 0.0, false, [], []);
    var rates := map[PublicKey(1) := 1.0, PublicKey(2) := 1.0];
    var c: Context := Context(KaminoMarket([], [a, z]), 0, rates, rates);
    var ds := [ObligationCollateral(PublicKey(1), 100.0), ObligationCollateral(PublicKey(2), 10.0)];
    var bs := [ObligationLiquidity(PublicKey(1), 10.0, 1.0)];
    ReserveByItsAddress(c.market, a);
    ReserveByItsAddress(c.market, z);
    assert ds[..1] == [ds[0]] && ds[..1][..0] == [] && bs[..0] == [];
    assert DepositSum(c, Limit, ds[..1]) == 50.0;
    assert BorrowSum(c, AdjustedValue, bs) == 10.0;
  }

  /** simulateDepositChange: every slot of the reserve moves by the change, never below zero. */
  function SimulateDepositChange(ds: seq<ObligationCollateral>, change: real, reserve: PublicKey,
                                 exchangeRate: real): (r: seq<ObligationCollateral>)
    ensures |r| == |ds|
  {
    seq(|ds|, i requires 0 <= i < |ds| =>
      if ds[i].depositReserve == reserve
      then ds[i].(depositedAmount := Max(ds[i].depositedAmount + Times(change, exchangeRate), 0.0)) else ds[i])
  }

  /** With one slot per reserve, simulating the withdrawal is the reduction the theorem speaks of. */
  lemma {:induction false} SimulatedWithdrawal(c: Context, ds: seq<ObligationCollateral>, i: nat, w: real)
    requires i < |ds| && ValueDeposit(c, ds[i]).Ok? && 0.0 <= w <= ValueDeposit(c, ds[i]).value.amount
    requires forall j :: 0 <= j < |ds| && j != i ==> ds[j].depositReserve != ds[i].depositReserve
    ensures ds[i].depositReserve in c.collateralExchangeRates
    ensures SimulateDepositChange(ds, -w, ds[i].depositReserve, c.collateralExchangeRates[ds[i].depositReserve])
            == WithdrawFrom(c, ds, i, w)
  {
    var rate := c.collateralExchangeRates[ds[i].depositReserve];
    QuotientTimes(ds[i].depositedAmount, rate);
    ScaleInequality(w, ValueDeposit(c, ds[i]).value.amount, rate);
    assert Times(-w, rate) == -Times(w, rate);
  }

  /** A simulated change never makes a slot negative and touches no other reserve; taking more than a slot
      holds leaves it empty, and putting the same back into one that held enough restores it. */
  lemma {:induction false} SimulationBounds(ds: seq<ObligationCollateral>, change: real, reserve: PublicKey,
                                            exchangeRate: real, i: nat)
    requires i < |ds| && NonNegativeDeposits(ds) && exchangeRate > 0.0
    ensures var after := SimulateDepositChange(ds, change, reserve, exchangeRate);
            && NonNegativeDeposits(after)
            && after[i].depositReserve == ds[i].depositReserve
            && (ds[i].depositReserve != reserve ==> after[i] == ds[i])
            && (ds[i].depositReserve == reserve && ds[i].depositedAmount <= -change * exchangeRate ==>
                  after[i].depositedAmount == 0.0)
            && (ds[i].depositReserve == reserve && -change * exchangeRate <= ds[i].depositedAmount ==>
                  SimulateDepositChange(after, -change, reserve, exchangeRate)[i] == ds[i])
  {
    assert Times(-change, exchangeRate) == -Times(change, exchangeRate);
  }

  // ---------------------------------------------------------------- borrowing

  predicate ElevationGroupActivated(c: Context, reserve: MarketReserve) {
    c.elevationGroup in reserve.elevationGroups && c.elevationGroup != 0
  }

  /** Some deposit counts as collateral only inside an elevation group, and the debt is outside. */
  predicate ForcedToZero(c: Context, ds: seq<ObligationCollateral>, reserve: MarketReserve) {
    exists i :: 0 <= i < |ds| && IsNotNullPubkey(ds[i].depositReserve)
      && c.market.ReserveByAddress(ds[i].depositReserve).Some?
      && c.market.ReserveByAddress(ds[i].depositReserve).value.disableUsageAsCollOutsideEmode
      && !ElevationGroupActivated(c, reserve)
  }

  /** The borrow that would bring the adjusted debt exactly to the limit, fee included. */
  function PowerWithFee(gap: real, reserve: MarketReserve, borrowFactor: real): real
    requires SoundReserve(reserve) && borrowFactor > 0.0
  {
    gap / borrowFactor / reserve.oraclePrice * reserve.mintFactor
  }

  function WithoutFee(power: real, reserve: MarketReserve): real
    requires SoundReserve(reserve)
  {
    var originationFeeRate := reserve.borrowFee / (reserve.borrowFee + 1.0);
    power - Times(power, originationFeeRate)
  }

  function BorrowPower(c: Context, ds: seq<ObligationCollateral>, bs: seq<ObligationLiquidity>,
                       reserve: MarketReserve): Result<real, ObligationError>
    requires reserve in c.market.reserves
  {
    if !DepositsResolve(c, ds) || !BorrowsResolve(c, bs) then Err(Unresolved) else
    var gap := DepositTotals(c, ds).borrowLimit - BorrowTotals(c, bs).userTotalBorrowBorrowFactorAdjusted;
    var maxObligationBorrowPower := PowerWithFee(gap, reserve, BorrowFactorForReserve(c, reserve));
    if ForcedToZero(c, ds, reserve) then Ok(0.0)
    else Ok(Max(0.0, WithoutFee(maxObligationBorrowPower, reserve)))
  }

  /** A new borrow slot holding x tokens at today's rate. */
  function FreshBorrow(c: Context, reserve: MarketReserve, x: real): ObligationLiquidity
    requires reserve.address in c.cumulativeBorrowRates
  {
    ObligationLiquidity(reserve.address, x, c.cumulativeBorrowRates[reserve.address])
  }

  /** The same slots with x more tokens owed at slot i, written at that slot's own rate. */
  function BorrowMore(c: Context, bs: seq<ObligationLiquidity>, i: nat, x: real): seq<ObligationLiquidity>
    requires i < |bs| && bs[i].borrowReserve in c.cumulativeBorrowRates
  {
    var b := bs[i];
    bs[i := ObligationLiquidity(b.borrowReserve,
                                b.borrowedAmount
                                  + Times(x, b.cumulativeBorrowRate) / c.cumulativeBorrowRates[b.borrowReserve],
                                b.cumulativeBorrowRate)]
  }

  /** What x more tokens of the reserve add to the adjusted debt. */
  function AdjustedCost(c: Context, reserve: MarketReserve, x: real): real
    requires reserve in c.market.reserves
  {
    Times(ValueOf(x, reserve), BorrowFactorForReserve(c, reserve))
  }

  lemma {:induction false} CostOfFreshBorrow(c: Context, bs: seq<ObligationLiquidity>, reserve: MarketReserve, x: real)
    requires reserve in c.market.reserves && IsNotNullPubkey(reserve.address)
             && reserve.address in c.cumulativeBorrowRates
    ensures BorrowSum(c, AdjustedValue, bs + [FreshBorrow(c, reserve, x)])
            == BorrowSum(c, AdjustedValue, bs) + AdjustedCost(c, reserve, x)
  {
    ReserveByItsAddress(c.market, reserve);
    CancelRate(x, c.cumulativeBorrowRates[reserve.address]);
    BorrowSumAppend(c, AdjustedValue, bs, FreshBorrow(c, reserve, x));
  }

  lemma CancelRate(x: real, rate: real)
    requires rate > 0.0
    ensures Times(x, rate) / rate == x
  {}

  lemma GrownAmount(stored: real, x: real, rate: real, own: real)
    requires rate > 0.0 && own > 0.0
    ensures Times(stored + Times(x, own) / rate, rate) / own == Times(stored, rate) / own + x
  {
    QuotientTimes(Times(x, own), rate);
    assert Times(stored + Times(x, own) / rate, rate) == Times(stored, rate) + Times(x, own);
    SumQuotient(Times(stored, rate), x, own);
  }

  lemma SumQuotient(y: real, x: real, own: real)
    requires own > 0.0
    ensures (y + Times(x, own)) / own == y / own + x
  {}

  lemma {:induction false} CostOfBorrowMore(c: Context, bs: seq<ObligationLiquidity>, i: nat, reserve: MarketReserve,
                                            x: real)
    requires reserve in c.market.reserves && IsNotNullPubkey(reserve.address)
             && reserve.address in c.cumulativeBorrowRates
    requires i < |bs| && bs[i].borrowReserve == reserve.address
    ensures BorrowSum(c, AdjustedValue, BorrowMore(c, bs, i, x))
            == BorrowSum(c, AdjustedValue, bs) + AdjustedCost(c, reserve, x)
  {
    ReserveByItsAddress(c.market, reserve);
    GrownAmount(bs[i].borrowedAmount, x, c.cumulativeBorrowRates[reserve.address], bs[i].cumulativeBorrowRate);
    var v, v' := ValueBorrow(c, bs[i]).value, ValueBorrow(c, BorrowMore(c, bs, i, x)[i]).value;
    assert v'.amount == v.amount + x;
    ValueLinear(v'.amount, x, reserve);
    TimesLinear(v'.value, ValueOf(x, reserve), BorrowFactorForReserve(c, reserve));
    BorrowSumUpdate(c, AdjustedValue, bs, i, BorrowMore(c, bs, i, x)[i]);
  }

  lemma {:induction false} PowerCost(gap: real, reserve: MarketReserve, borrowFactor: real)
    requires SoundReserve(reserve) && borrowFactor > 0.0
    ensures Times(ValueOf(PowerWithFee(gap, reserve, borrowFactor), reserve), borrowFactor) == gap
  {
    var y := gap / borrowFactor;
    var z := y / reserve.oraclePrice;
    QuotientTimes(gap, borrowFactor);
    QuotientTimes(y, reserve.oraclePrice);
    assert Times(z * reserve.mintFactor, reserve.oraclePrice) == Times(z * reserve.oraclePrice, reserve.mintFactor);
    CancelRate(y, reserve.mintFactor);
  }

  /** Adding the origination fee back to what is left without it gives the whole power. */
  lemma {:induction false} FeeInverse(power: real, reserve: MarketReserve)
    requires SoundReserve(reserve)
    ensures Times(WithoutFee(power, reserve), 1.0 + reserve.borrowFee) == power
  {
    var f := reserve.borrowFee;
    QuotientTimes(f, f + 1.0);
    var q := f / (f + 1.0);
    assert (power - power * q) * (1.0 + f) == power * (1.0 + f) - power * (q * (f + 1.0));
  }

  lemma {:induction false} CostMonotone(reserve: MarketReserve, borrowFactor: real, x: real, y: real)
    requires SoundReserve(reserve) && borrowFactor > 0.0
    ensures Times(ValueOf(x, reserve), borrowFactor) <= Times(ValueOf(y, reserve), borrowFactor) <==> x <= y
  {
    ProductOrder(x, y, reserve.oraclePrice);
    QuotientOrder(Times(x, reserve.oraclePrice), Times(y, reserve.oraclePrice), reserve.mintFactor);
    ProductOrder(ValueOf(x, reserve), ValueOf(y, reserve), borrowFactor);
  }

  lemma ProductOrder(x: real, y: real, k: real)
    requires k > 0.0
    ensures Times(x, k) <= Times(y, k) <==> x <= y
  {}

  lemma QuotientOrder(x: real, y: real, k: real)
    requires k > 0.0
    ensures x / k <= y / k <==> x <= y
  {
    QuotientTimes(x, k);
    QuotientTimes(y, k);
    ProductOrder(x / k, y / k, k);
  }

  /** x tokens and the origination fee on them. */
  function WithFee(x: real, reserve: MarketReserve): real { Times(x, 1.0 + reserve.borrowFee) }

  /** The formula's sign and meaning: never negative after the maximum, and with its fee it is the
      whole power when there is a gap. */
  lemma {:induction false} PowerMeaning(gap: real, reserve: MarketReserve, borrowFactor: real)
    requires SoundReserve(reserve) && borrowFactor > 0.0
    ensures var r := Max(0.0, WithoutFee(PowerWithFee(gap, reserve, borrowFactor), reserve));
            && 0.0 <= r
            && (gap <= 0.0 ==> r == 0.0)
            && (gap >= 0.0 ==> WithFee(r, reserve) == PowerWithFee(gap, reserve, borrowFactor))
  {
    var p := PowerWithFee(gap, reserve, borrowFactor);
    var k := 1.0 + reserve.borrowFee;
    var u := WithoutFee(p, reserve);
    PowerCost(gap, reserve, borrowFactor);
    NothingWithdrawn(reserve, borrowFactor);
    CostMonotone(reserve, borrowFactor, 0.0, p);
    CostMonotone(reserve, borrowFactor, p, 0.0);
    FeeInverse(p, reserve);
    ProductOrder(0.0, u, k);
    ProductOrder(u, 0.0, k);
  }

  /** The loan is within its limit and no deposit bars borrowing. */
  ghost predicate CanBorrow(c: Context, ds: seq<ObligationCollateral>, bs: seq<ObligationLiquidity>,
                            reserve: MarketReserve) {
    !ForcedToZero(c, ds, reserve) && BorrowSum(c, AdjustedValue, bs) <= DepositSum(c, Limit, ds)
  }

  lemma {:induction false} PowerFillsGap(c: Context, ds: seq<ObligationCollateral>, bs: seq<ObligationLiquidity>,
                                         reserve: MarketReserve)
    requires reserve in c.market.reserves && BorrowPower(c, ds, bs, reserve).Ok?
    ensures 0.0 <= BorrowPower(c, ds, bs, reserve).value
    ensures ForcedToZero(c, ds, reserve) || DepositSum(c, Limit, ds) <= BorrowSum(c, AdjustedValue, bs) ==>
              BorrowPower(c, ds, bs, reserve).value == 0.0
    ensures CanBorrow(c, ds, bs, reserve) ==>
              AdjustedCost(c, reserve, WithFee(BorrowPower(c, ds, bs, reserve).value, reserve))
              == DepositSum(c, Limit, ds) - BorrowSum(c, AdjustedValue, bs)
  {
    var gap, factor := DepositSum(c, Limit, ds) - BorrowSum(c, AdjustedValue, bs), BorrowFactorForReserve(c, reserve);
    assert SoundReserve(reserve);
    PowerMeaning(gap, reserve, factor);
    PowerCost(gap, reserve, factor);
  }

  /** getBorrowPower is sound and tight: zero when the loan is at its limit or is barred, and otherwise
      borrowing it with its origination fee brings the adjusted debt exactly to the limit, whether the
      borrow opens a slot or adds to slot i. */
  lemma {:induction false} BorrowPowerReachesLimit(c: Context, ds: seq<ObligationCollateral>,
                                                   bs: seq<ObligationLiquidity>, reserve: MarketReserve, i: nat)
    requires reserve in c.market.reserves && IsNotNullPubkey(reserve.address)
             && reserve.address in c.cumulativeBorrowRates
    requires BorrowPower(c, ds, bs, reserve).Ok?
    ensures var power := BorrowPower(c, ds, bs, reserve).value;
            && 0.0 <= power
            && (ForcedToZero(c, ds, reserve) || DepositSum(c, Limit, ds) <= BorrowSum(c, AdjustedValue, bs) ==>
                  power == 0.0)
            && (CanBorrow(c, ds, bs, reserve) ==>
                  && BorrowSum(c, AdjustedValue, bs + [FreshBorrow(c, reserve, WithFee(power, reserve))])
                     == DepositSum(c, Limit, ds)
                  && (i < |bs| && bs[i].borrowReserve == reserve.address ==>
                        BorrowSum(c, AdjustedValue, BorrowMore(c, bs, i, WithFee(power, reserve)))
                          == DepositSum(c, Limit, ds)))
  {
    var owed := WithFee(BorrowPower(c, ds, bs, reserve).value, reserve);
    PowerFillsGap(c, ds, bs, reserve);
    CostOfFreshBorrow(c, bs, reserve, owed);
    if i < |bs| && bs[i].borrowReserve == reserve.address {
      CostOfBorrowMore(c, bs, i, reserve, owed);
    }
  }

  /** No borrow beyond it fits: x tokens with their fee stay within the limit exactly up to the power. */
  lemma {:induction false} BorrowPowerIsTheMost(c: Context, ds: seq<ObligationCollateral>, bs: seq<ObligationLiquidity>,
                                                reserve: MarketReserve, x: real)
    requires reserve in c.market.reserves && IsNotNullPubkey(reserve.address)
             && reserve.address in c.cumulativeBorrowRates
    requires BorrowPower(c, ds, bs, reserve).Ok? && CanBorrow(c, ds, bs, reserve)
    ensures BorrowSum(c, AdjustedValue, bs + [FreshBorrow(c, reserve, WithFee(x, reserve))]) <= DepositSum(c, Limit, ds)
       <==> x <= BorrowPower(c, ds, bs, reserve).value
  {
    var power := BorrowPower(c, ds, bs, reserve).value;
    PowerFillsGap(c, ds, bs, reserve);
    CostOfFreshBorrow(c, bs, reserve, WithFee(x, reserve));
    CostOrder(c, reserve, x, power);
  }

  lemma {:induction false} CostOrder(c: Context, reserve: MarketReserve, x: real, y: real)
    requires reserve in c.market.reserves
    ensures AdjustedCost(c, reserve, WithFee(x, reserve)) <= AdjustedCost(c, reserve, WithFee(y, reserve)) <==> x <= y
  {
    assert SoundReserve(reserve);
    CostMonotone(reserve, BorrowFactorForReserve(c, reserve), WithFee(x, reserve), WithFee(y, reserve));
    ProductOrder(x, y, 1.0 + reserve.borrowFee);
  }

  /** A loan can borrow at all exactly when there is a gap and, outside its group, no deposit is barred
      from counting as collateral. */
  lemma {:induction false} CanBorrowAtAllIff(c: Context, ds: seq<ObligationCollateral>, bs: seq<ObligationLiquidity>,
                                             reserve: MarketReserve)
    requires reserve in c.market.reserves && BorrowPower(c, ds, bs, reserve).Ok?
    ensures BorrowPower(c, ds, bs, reserve).value > 0.0 <==>
            (&& BorrowTotals(c, bs).userTotalBorrowBorrowFactorAdjusted < DepositTotals(c, ds).borrowLimit
             && ((c.elevationGroup != 0 && c.elevationGroup in reserve.elevationGroups)
                 || forall d, r | d in ds && IsNotNullPubkey(d.depositReserve) && r in c.market.reserves
                                  && r.address == d.depositReserve :: !r.disableUsageAsCollOutsideEmode))
  {
    var power, gap := BorrowPower(c, ds, bs, reserve).value, DepositSum(c, Limit, ds) - BorrowSum(c, AdjustedValue, bs);
    assert SoundReserve(reserve);
    PowerFillsGap(c, ds, bs, reserve);
    BarredIff(c, ds, reserve);
    if gap > 0.0 && power == 0.0 {
      NothingWithdrawn(reserve, BorrowFactorForReserve(c, reserve));
      assert WithFee(0.0, reserve) == 0.0;
    }
  }

  lemma {:induction false} BarredIff(c: Context, ds: seq<ObligationCollateral>, reserve: MarketReserve)
    requires reserve in c.market.reserves
    ensures ForcedToZero(c, ds, reserve) <==>
            (&& !(c.elevationGroup != 0 && c.elevationGroup in reserve.elevationGroups)
             && exists d, r :: d in ds && IsNotNullPubkey(d.depositReserve) && r in c.market.reserves
                               && r.address == d.depositReserve && r.disableUsageAsCollOutsideEmode)
  {
    if ForcedToZero(c, ds, reserve) {
      var i :| 0 <= i < |ds| && IsNotNullPubkey(ds[i].depositReserve)
        && c.market.ReserveByAddress(ds[i].depositReserve).Some?
        && c.market.ReserveByAddress(ds[i].depositReserve).value.disableUsageAsCollOutsideEmode;
      assert ds[i] in ds && c.market.ReserveByAddress(ds[i].depositReserve).value in c.market.reserves;
    }
    if d, r :| d in ds && IsNotNullPubkey(d.depositReserve) && r in c.market.reserves
               && r.address == d.depositReserve && r.disableUsageAsCollOutsideEmode {
      ReserveByItsAddress(c.market, r);
      var i :| 0 <= i < |ds| && ds[i] == d;
    }
  }

  // ---------------------------------------------------------------- the most that can leave

  /** The formula for a positive LTV is tight: x tokens cost at most 99.9% of the gap exactly up to it. */
  lemma {:induction false} WithdrawalIsExact(gap: real, amount: real, ltv: real, reserve: MarketReserve,
                                             availableLiquidity: real, withdrawalCapRemained: real, x: real)
    requires SoundReserve(reserve) && 0.0 < ltv && 0.0 < x
    ensures x <= WithdrawalWithin(gap, amount, ltv, reserve, availableLiquidity, withdrawalCapRemained) <==>
            (&& x <= amount && x <= availableLiquidity && x <= withdrawalCapRemained
             && Times(ValueOf(x, reserve), ltv) <= 0.999 * gap)
  {
    TokensAreExact(gap, amount, ltv, reserve, x);
    LeastOfFour(x, amount, TokensWithin(gap, amount, ltv, reserve), availableLiquidity, withdrawalCapRemained);
  }

  lemma {:induction false} TokensAreExact(gap: real, amount: real, ltv: real, reserve: MarketReserve, x: real)
    requires SoundReserve(reserve) && 0.0 < ltv
    ensures x <= TokensWithin(gap, amount, ltv, reserve) <==> Times(ValueOf(x, reserve), ltv) <= 0.999 * gap
  {
    ScaledQuotient(gap, ltv);
    PowerCost(0.999 * gap, reserve, ltv);
    CostMonotone(reserve, ltv, x, PowerWithFee(0.999 * gap, reserve, ltv));
  }

  lemma ScaledQuotient(gap: real, ltv: real)
    requires ltv > 0.0
    ensures gap / ltv * 0.999 == 0.999 * gap / ltv
  {}

  /** Without LTV x tokens are within it exactly when their value is at most the number of tokens deposited. */
  lemma {:induction false} FreeWithdrawalIsExact(gap: real, amount: real, reserve: MarketReserve,
                                                 availableLiquidity: real, withdrawalCapRemained: real, x: real)
    requires SoundReserve(reserve) && 0.0 < x
    ensures x <= WithdrawalWithin(gap, amount, 0.0, reserve, availableLiquidity, withdrawalCapRemained) <==>
            (&& x <= amount && x <= availableLiquidity && x <= withdrawalCapRemained
             && ValueOf(x, reserve) <= amount)
  {
    ValueWithin(x, amount, reserve.oraclePrice, reserve.mintFactor);
    LeastOfFour(x, amount, TokensWithin(gap, amount, 0.0, reserve), availableLiquidity, withdrawalCapRemained);
  }

  lemma LeastOfFour(x: real, a: real, b: real, c: real, d: real)
    requires 0.0 < x
    ensures x <= Max(0.0, Min(Min(a, b), Min(c, d))) <==> x <= a && x <= b && x <= c && x <= d
  {}

  lemma ValueWithin(x: real, amount: real, price: real, mintFactor: real)
    requires price > 0.0 && mintFactor > 0.0
    ensures x <= amount / price * mintFactor <==> Times(x, price) / mintFactor <= amount
  {
    var q := amount / price;
    QuotientTimes(amount, price);
    ProductOrder(x, q * mintFactor, price);
    assert Times(q * mintFactor, price) == Times(amount, mintFactor);
    CancelRate(amount, mintFactor);
    QuotientOrder(Times(x, price), Times(amount, mintFactor), mintFactor);
  }

  /** getMaxWithdrawAmount is exact. Without debt it is the whole deposit of the last slot that names the
      reserve; at or over the limit it is nothing; and below the limit, with a positive LTV, x tokens are
      within it exactly when they are within deposit, liquidity and cap and the deposit loop, run again
      without them, gives up at most 99.9% of the gap to the limit. */
  lemma {:induction false} MaxWithdrawIsExact(c: Context, ds: seq<ObligationCollateral>, bs: seq<ObligationLiquidity>,
                                              reserve: MarketReserve, availableLiquidity: real,
                                              withdrawalCapRemained: real)
    requires reserve in c.market.reserves && DepositsResolve(c, ds)
    requires MaxWithdrawAmount(c, ds, bs, reserve, availableLiquidity, withdrawalCapRemained).Ok?
    ensures var i := LastDeposit(ds, reserve.address);
            && i < |ds| && ds[i].depositReserve == reserve.address && reserve.address in c.collateralExchangeRates
            && var w := MaxWithdrawAmount(c, ds, bs, reserve, availableLiquidity, withdrawalCapRemained).value;
            var debt := BorrowTotals(c, bs).userTotalBorrowBorrowFactorAdjusted;
            var limit := DepositTotals(c, ds).borrowLimit;
            var deposit := ds[i].depositedAmount / c.collateralExchangeRates[reserve.address];
            && (debt == 0.0 ==> w == deposit)
            && (debt != 0.0 && limit <= debt ==> w == 0.0)
            && (debt != 0.0 && debt < limit && LtvForReserve(c, reserve).Ok?
                && 0.0 < LtvForReserve(c, reserve).value.0 ==>
                  forall x: real | 0.0 < x ::
                    x <= w <==>
                    (&& x <= deposit && x <= availableLiquidity && x <= withdrawalCapRemained
                     && limit - DepositTotals(c, WithdrawFrom(c, ds, i, x)).borrowLimit <= 0.999 * (limit - debt)))
  {
    var i := LastDeposit(ds, reserve.address);
    PositionIsLast(c, ds, reserve.address);
    ReserveByItsAddress(c.market, reserve);
    var v := ValueDeposit(c, ds[i]).value;
    var debt, limit := BorrowSum(c, AdjustedValue, bs), DepositSum(c, Limit, ds);
    if debt != 0.0 && debt < limit && 0.0 < v.maxLtv {
      forall x: real | 0.0 < x
        ensures x <= MaxWithdrawAmount(c, ds, bs, reserve, availableLiquidity, withdrawalCapRemained).value <==>
                (&& x <= v.amount && x <= availableLiquidity && x <= withdrawalCapRemained
                 && limit - DepositSum(c, Limit, WithdrawFrom(c, ds, i, x)) <= 0.999 * (limit - debt))
      {
        WithdrawalIsExact(limit - debt, v.amount, v.maxLtv, reserve, availableLiquidity, withdrawalCapRemained, x);
        LimitAfterWithdraw(c, ds, i, x);
      }
    }
  }

  /** It fails exactly when no deposit slot names the reserve. */
  lemma {:induction false} MaxWithdrawFailsIff(c: Context, ds: seq<ObligationCollateral>, bs: seq<ObligationLiquidity>,
                                               reserve: MarketReserve, availableLiquidity: real,
                                               withdrawalCapRemained: real)
    requires reserve in c.market.reserves && IsNotNullPubkey(reserve.address) && DepositsResolve(c, ds)
    ensures MaxWithdrawAmount(c, ds, bs, reserve, availableLiquidity, withdrawalCapRemained).Err? <==>
            forall d :: d in ds ==> d.depositReserve != reserve.address
  {
    var i := LastDeposit(ds, reserve.address);
    PositionIsLast(c, ds, reserve.address);
    ReserveByItsAddress(c.market, reserve);
    if i < |ds| {
      assert ds[i] in ds;
    }
  }
}
