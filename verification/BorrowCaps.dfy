/** The caps on borrowing from a reserve (src/classes/reserve.ts) and the amount an obligation can
    borrow within both its health and the caps (src/classes/obligation.ts). */
module BorrowCaps {
  import opened Wrappers
  import opened RealArithmetic
  import opened PublicKeys
  import opened Market
  import opened Obligation
  import Reserve

  const U64_MAX: real := 18446744073709551615.0

  /** The stored cap settings and counters of the debt reserve. */
  datatype CapSettings = CapSettings(
    utilizationLimitBlockBorrowingAbove: nat,
    debtWithdrawalCapCapacity: real,
    debtWithdrawalCapCurrentTotal: real,
    debtWithdrawalCapIntervalSeconds: nat,
    borrowLimit: real,
    borrowLimitOutsideElevationGroup: real,
    borrowedAmountOutsideElevationGroup: real)

  datatype CollateralCap = CollateralCap(collateralReserve: PublicKey, elevationGroup: nat, maxDebt: real,
                                         currentValue: real)

  datatype BorrowCapsAndCounters = BorrowCapsAndCounters(
    utilizationCap: real,
    utilizationCurrentValue: real,
    netWithdrawalCap: real,
    netWithdrawalCurrentValue: real,
    netWithdrawalIntervalDurationSeconds: nat,
    globalDebtCap: real,
    globalTotalBorrowed: real,
    debtOutsideEmodeCap: real,
    borrowedOutsideEmode: real,
    debtAgainstCollateralReserveCaps: seq<CollateralCap>)

  datatype CapsError = NoCollateralCap(elevationGroup: nat) | InvalidElevationGroup

  // ---------------------------------------------------------------- collecting the caps

  /** The account layout: group ids from 1 up to the length of the per-group arrays. */
  ghost predicate StoredPerGroup(market: KaminoMarket, ds: seq<ElevationGroupDescription>) {
    && (forall d, a :: d in ds && a in d.collateralReserves ==>
          market.ReserveByAddress(a).Some? && HasGroupSlots(market.ReserveByAddress(a).value, d.elevationGroup))
  }

  ghost predicate HasGroupSlots(r: MarketReserve, group: nat) {
    && 0 < group <= |r.borrowLimitAgainstThisCollateralInElevationGroup|
    && group <= |r.borrowedAmountsAgainstThisReserveInElevationGroups|
  }

  function CapAgainst(market: KaminoMarket, a: PublicKey, group: nat): CollateralCap
    requires market.ReserveByAddress(a).Some? && HasGroupSlots(market.ReserveByAddress(a).value, group)
  {
    var r := market.ReserveByAddress(a).value;
    CollateralCap(r.address, group, r.borrowLimitAgainstThisCollateralInElevationGroup[group - 1],
                  r.borrowedAmountsAgainstThisReserveInElevationGroups[group - 1])
  }

  function CapsOfGroup(market: KaminoMarket, d: ElevationGroupDescription): seq<CollateralCap>
    requires StoredPerGroup(market, [d])
  {
    assert d in [d];
    seq(|d.collateralReserves|, i requires 0 <= i < |d.collateralReserves| =>
      CapAgainst(market, d.collateralReserves[i], d.elevationGroup))
  }

  function CollateralCaps(market: KaminoMarket, ds: seq<ElevationGroupDescription>,
                          debtReserve: PublicKey): seq<CollateralCap>
    requires StoredPerGroup(market, ds)
  {
    if ds == [] then []
    else (if ds[0].debtReserve == debtReserve then CapsOfGroup(market, ds[0]) else [])
         + CollateralCaps(market, ds[1..], debtReserve)
  }

  /** The cap of the i-th collateral of the p-th group. */
  ghost predicate IsCapOf(market: KaminoMarket, ds: seq<ElevationGroupDescription>, debtReserve: PublicKey,
                          cap: CollateralCap, p: int, i: int)
    requires StoredPerGroup(market, ds)
  {
    && 0 <= p < |ds| && 0 <= i < |ds[p].collateralReserves|
    && ds[p].debtReserve == debtReserve
    && ds[p].collateralReserves[i] in ds[p].collateralReserves
    && cap == CapAgainst(market, ds[p].collateralReserves[i], ds[p].elevationGroup)
  }

  /** The collected caps are those of the groups whose debt reserve this is, one per collateral. */
  lemma {:induction false} CollateralCapsMembers(market: KaminoMarket, ds: seq<ElevationGroupDescription>,
                                                 debtReserve: PublicKey, cap: CollateralCap)
    requires StoredPerGroup(market, ds)
    ensures cap in CollateralCaps(market, ds, debtReserve)
            <==> exists p, i :: IsCapOf(market, ds, debtReserve, cap, p, i)
  {
    if cap in CollateralCaps(market, ds, debtReserve) {
      CollectedIsCap(market, ds, debtReserve, cap);
    }
    if p, i :| IsCapOf(market, ds, debtReserve, cap, p, i) {
      CapIsCollected(market, ds, debtReserve, cap, p, i);
    }
  }

  lemma {:induction false} StoredParts(market: KaminoMarket, ds: seq<ElevationGroupDescription>)
    requires StoredPerGroup(market, ds) && ds != []
    ensures StoredPerGroup(market, ds[1..]) && StoredPerGroup(market, [ds[0]])
  {
    assert ds[0] in ds;
  }

  lemma {:induction false} CollectedIsCap(market: KaminoMarket, ds: seq<ElevationGroupDescription>,
                                          debtReserve: PublicKey, cap: CollateralCap)
    requires StoredPerGroup(market, ds)
    requires cap in CollateralCaps(market, ds, debtReserve)
    ensures exists p, i :: IsCapOf(market, ds, debtReserve, cap, p, i)
  {
    StoredParts(market, ds);
    var head := if ds[0].debtReserve == debtReserve then CapsOfGroup(market, ds[0]) else [];
    assert CollateralCaps(market, ds, debtReserve) == head + CollateralCaps(market, ds[1..], debtReserve);
    if cap in head {
      var i :| 0 <= i < |head| && head[i] == cap;
      assert IsCapOf(market, ds, debtReserve, cap, 0, i);
    } else {
      CollectedIsCap(market, ds[1..], debtReserve, cap);
      var p, i :| IsCapOf(market, ds[1..], debtReserve, cap, p, i);
      assert IsCapOf(market, ds, debtReserve, cap, p + 1, i);
    }
  }

  lemma {:induction false} CapIsCollected(market: KaminoMarket, ds: seq<ElevationGroupDescription>,
                                          debtReserve: PublicKey, cap: CollateralCap, p: int, i: int)
    requires StoredPerGroup(market, ds)
    requires IsCapOf(market, ds, debtReserve, cap, p, i)
    ensures cap in CollateralCaps(market, ds, debtReserve)
  {
    assert ds[0] in ds;
    if p == 0 {
      assert CapsOfGroup(market, ds[0])[i] == cap;
    } else {
      assert IsCapOf(market, ds[1..], debtReserve, cap, p - 1, i);
      CapIsCollected(market, ds[1..], debtReserve, cap, p - 1, i);
    }
  }

  function BorrowCapForReserve(r: Reserve.KaminoReserve, settings: CapSettings,
                               collateralCaps: seq<CollateralCap>): BorrowCapsAndCounters {
    BorrowCapsAndCounters(
      if settings.utilizationLimitBlockBorrowingAbove > 0
        then settings.utilizationLimitBlockBorrowingAbove as real / 100.0 else 1.0,
      r.UtilizationRatio(),
      settings.debtWithdrawalCapCapacity,
      settings.debtWithdrawalCapCurrentTotal,
      settings.debtWithdrawalCapIntervalSeconds,
      settings.borrowLimit,
      r.borrowedAmount,
      settings.borrowLimitOutsideElevationGroup,
      settings.borrowedAmountOutsideElevationGroup,
      collateralCaps)
  }

  // ---------------------------------------------------------------- available liquidity

  function PositiveOrZero(x: real): real { Max(x, 0.0) }

  function Min5(a: real, b: real, c: real, d: real, e: real): real {
    Min(a, Min(b, Min(c, Min(d, e))))
  }

  /** The room left under the caps of one group; there is at least one. */
  function LeastRoom(caps: seq<CollateralCap>, group: nat): Option<real> {
    if caps == [] then None else
    var rest := LeastRoom(caps[1..], group);
    if caps[0].elevationGroup != group then rest
    else
      var room := caps[0].maxDebt - caps[0].currentValue;
      match rest
      case None => Some(room)
      case Some(least) => Some(Min(room, least))
  }

  function AvailableFor(r: Reserve.KaminoReserve, caps: BorrowCapsAndCounters, group: nat): Result<real, CapsError> {
    var liquidityGivenUtilizationCap := Times(r.TotalSupply(), caps.utilizationCap - r.UtilizationRatio());
    var remainingDailyCap :=
      if caps.netWithdrawalIntervalDurationSeconds == 0 then U64_MAX
        else caps.netWithdrawalCap - caps.netWithdrawalCurrentValue;
    var remainingGlobalCap := caps.globalDebtCap - caps.globalTotalBorrowed;
    var remainingInGroup :=
      if group == 0 then Some(caps.debtOutsideEmodeCap - caps.borrowedOutsideEmode)
      else LeastRoom(caps.debtAgainstCollateralReserveCaps, group);
    match remainingInGroup
    case None => Err(NoCollateralCap(group))
    case Some(remaining) =>
      Ok(Min5(PositiveOrZero(r.availableAmount), PositiveOrZero(remaining), PositiveOrZero(remainingDailyCap),
              PositiveOrZero(remainingGlobalCap), PositiveOrZero(liquidityGivenUtilizationCap)))
  }

  /** The amount for one group, under the caps the market has for the debt reserve at `address`. */
  function LiquidityFor(market: KaminoMarket, r: Reserve.KaminoReserve, address: PublicKey, settings: CapSettings,
                        group: nat): Result<real, CapsError>
    requires StoredPerGroup(market, Descriptions(market))
  {
    AvailableFor(r, BorrowCapForReserve(r, settings, CollateralCaps(market, Descriptions(market), address)), group)
  }

  /** One amount per group; throws when the descriptions do or on a group without a collateral cap. */
  method GetLiquidityAvailableForDebtReserveGivenCaps(market: KaminoMarket, r: Reserve.KaminoReserve,
                                                      address: PublicKey, settings: CapSettings,
                                                      elevationGroups: seq<nat>)
      returns (result: Result<seq<real>, CapsError>)
    requires StoredPerGroup(market, Descriptions(market))
    ensures result.Ok? <==>
              && ListsOnlyUpTo(market.reserves, |Descriptions(market)|)
              && forall i :: 0 <= i < |elevationGroups| ==>
                   LiquidityFor(market, r, address, settings, elevationGroups[i]).Ok?
    ensures result.Ok? ==> |result.value| == |elevationGroups|
    ensures result.Ok? ==>
              forall i :: 0 <= i < |elevationGroups| ==>
                Ok(result.value[i]) == LiquidityFor(market, r, address, settings, elevationGroups[i])
  {
    var descriptions := GetMarketElevationGroupDescriptions(market);
    if descriptions.Err? {
      return Err(InvalidElevationGroup);
    }
    var caps := BorrowCapForReserve(r, settings, CollateralCaps(market, descriptions.value, address));
    var available := [];
    for i := 0 to |elevationGroups|
      invariant |available| == i
      invariant forall k :: 0 <= k < i ==> Ok(available[k]) == AvailableFor(r, caps, elevationGroups[k])
    {
      match AvailableFor(r, caps, elevationGroups[i]) {
        case Err(e) => return Err(e);
        case Ok(amount) => available := available + [amount];
      }
    }
    return Ok(available);
  }

  // ---------------------------------------------------------------- soundness and tightness

  /** After borrowing x more, every limit that applies to the group still holds. */
  ghost predicate WithinCaps(r: Reserve.KaminoReserve, caps: BorrowCapsAndCounters, group: nat, x: real) {
    && x <= r.availableAmount
    && caps.globalTotalBorrowed + x <= caps.globalDebtCap
    && (if caps.netWithdrawalIntervalDurationSeconds == 0 then x <= U64_MAX
        else caps.netWithdrawalCurrentValue + x <= caps.netWithdrawalCap)
    && WithinGroupCaps(caps, group, x)
    && r.borrowedAmount + x <= Times(caps.utilizationCap, r.TotalSupply())
  }

  ghost predicate WithinGroupCaps(caps: BorrowCapsAndCounters, group: nat, x: real) {
    if group == 0 then caps.borrowedOutsideEmode + x <= caps.debtOutsideEmodeCap
    else
      var cs := caps.debtAgainstCollateralReserveCaps;
      forall i :: 0 <= i < |cs| && cs[i].elevationGroup == group ==> cs[i].currentValue + x <= cs[i].maxDebt
  }

  lemma {:induction false} LeastRoomIsTheLeast(caps: seq<CollateralCap>, group: nat, x: real)
    ensures LeastRoom(caps, group).None? <==> forall i :: 0 <= i < |caps| ==> caps[i].elevationGroup != group
    ensures LeastRoom(caps, group).Some? ==>
              (x <= LeastRoom(caps, group).value <==>
               forall i :: 0 <= i < |caps| && caps[i].elevationGroup == group ==>
                 caps[i].currentValue + x <= caps[i].maxDebt)
  {
    if caps != [] {
      LeastRoomIsTheLeast(caps[1..], group, x);
      assert caps == [caps[0]] + caps[1..];
    }
  }

  lemma {:induction false} UtilizationRoom(r: Reserve.KaminoReserve, cap: real, x: real)
    requires 0.0 <= r.borrowedAmount && 0.0 < x && 0.0 <= cap
    ensures x <= PositiveOrZero(Times(r.TotalSupply(), cap - r.UtilizationRatio()))
            <==> r.borrowedAmount + x <= Times(cap, r.TotalSupply())
  {
    var s := r.TotalSupply();
    if s != 0.0 {
      QuotientTimes(r.borrowedAmount, s);
      RoomExpanded(s, cap, r.UtilizationRatio());
    }
  }

  lemma RoomExpanded(s: real, cap: real, u: real)
    ensures Times(s, cap - u) == Times(cap, s) - u * s
  {}

  /** For every amount x > 0: it is at most the available liquidity exactly when borrowing it keeps
      every limit. So the result is safe, and anything larger breaks a limit. */
  lemma {:induction false} AvailableIsExact(r: Reserve.KaminoReserve, caps: BorrowCapsAndCounters, group: nat, x: real)
    requires 0.0 <= r.borrowedAmount && 0.0 < x && 0.0 <= caps.utilizationCap
    requires AvailableFor(r, caps, group).Ok?
    ensures x <= AvailableFor(r, caps, group).value <==> WithinCaps(r, caps, group, x)
  {
    UtilizationRoom(r, caps.utilizationCap, x);
    LeastRoomIsTheLeast(caps.debtAgainstCollateralReserveCaps, group, x);
  }

  /** It fails exactly for a non-zero group without any collateral cap. */
  lemma {:induction false} AvailableFailsIff(r: Reserve.KaminoReserve, caps: BorrowCapsAndCounters, group: nat)
    ensures AvailableFor(r, caps, group).Err? <==>
              group != 0 && forall i :: 0 <= i < |caps.debtAgainstCollateralReserveCaps| ==>
                              caps.debtAgainstCollateralReserveCaps[i].elevationGroup != group
    ensures AvailableFor(r, caps, group).Ok? ==> AvailableFor(r, caps, group).value >= 0.0
  {
    LeastRoomIsTheLeast(caps.debtAgainstCollateralReserveCaps, group, 0.0);
  }

  // ---------------------------------------------------------------- on a market

  /** What the account layout and the group configuration promise. */
  ghost predicate WellConfigured(market: KaminoMarket) {
    && market.Valid() && IdsInOrder(market)
    && (forall r :: r in market.reserves ==> NoDuplicateGroups(r))
    && StoredPerGroup(market, Descriptions(market))
  }

  /** The group is configured for this debt reserve. */
  ghost predicate GroupOf(market: KaminoMarket, address: PublicKey, group: nat) {
    0 < group <= |Descriptions(market)| && Descriptions(market)[group - 1].debtReserve == address
  }

  /** r is a collateral of the group: it lists it and is not the debt reserve. */
  ghost predicate CollateralOf(market: KaminoMarket, address: PublicKey, group: nat, r: MarketReserve) {
    r in market.reserves && r.address != address && group in r.elevationGroups
  }

  ghost predicate RoomAgainst(r: MarketReserve, group: nat, x: real) {
    HasGroupSlots(r, group)
    && r.borrowedAmountsAgainstThisReserveInElevationGroups[group - 1] + x
       <= r.borrowLimitAgainstThisCollateralInElevationGroup[group - 1]
  }

  /** Every collateral of a group of this debt reserve has a cap among the collected ones. */
  lemma {:induction false} CollateralHasCap(market: KaminoMarket, address: PublicKey, group: nat, r: MarketReserve)
    requires WellConfigured(market) && GroupOf(market, address, group) && CollateralOf(market, address, group, r)
    ensures market.ReserveByAddress(r.address) == Some(r) && HasGroupSlots(r, group)
    ensures CapAgainst(market, r.address, group) in CollateralCaps(market, Descriptions(market), address)
  {
    var ds := Descriptions(market);
    ReserveByItsAddress(market, r);
    DescriptionsExact(market, group - 1, r.address);
    DescriptionsOfGroups(market, group - 1, r.address);
    assert ds[group - 1] in ds;
    var i :| 0 <= i < |ds[group - 1].collateralReserves| && ds[group - 1].collateralReserves[i] == r.address;
    var cap := CapAgainst(market, r.address, group);
    assert IsCapOf(market, ds, address, cap, group - 1, i);
    CapIsCollected(market, ds, address, cap, group - 1, i);
  }

  /** And every collected cap of a group is that of such a collateral. */
  lemma {:induction false} CapHasCollateral(market: KaminoMarket, address: PublicKey, cap: CollateralCap)
    requires WellConfigured(market) && cap in CollateralCaps(market, Descriptions(market), address)
    ensures GroupOf(market, address, cap.elevationGroup)
    ensures market.ReserveByAddress(cap.collateralReserve).Some?
    ensures var r := market.ReserveByAddress(cap.collateralReserve).value;
            && CollateralOf(market, address, cap.elevationGroup, r) && HasGroupSlots(r, cap.elevationGroup)
            && cap == CapAgainst(market, cap.collateralReserve, cap.elevationGroup)
  {
    var ds := Descriptions(market);
    CollectedIsCap(market, ds, address, cap);
    var p, i :| IsCapOf(market, ds, address, cap, p, i);
    assert ds[p] in ds;
    DescriptionsExact(market, p, ds[p].collateralReserves[i]);
    DescriptionsOfGroups(market, p, ds[p].collateralReserves[i]);
  }

  /** The collected caps of a group leave room for x exactly when every collateral of the group does. */
  lemma {:induction false} GroupRoomIff(market: KaminoMarket, r: Reserve.KaminoReserve, address: PublicKey,
                                        settings: CapSettings, group: nat, x: real)
    requires WellConfigured(market) && GroupOf(market, address, group)
    ensures WithinGroupCaps(BorrowCapForReserve(r, settings, CollateralCaps(market, Descriptions(market), address)),
                            group, x)
       <==> forall c :: CollateralOf(market, address, group, c) ==> RoomAgainst(c, group, x)
  {
    var caps := CollateralCaps(market, Descriptions(market), address);
    if WithinGroupCaps(BorrowCapForReserve(r, settings, caps), group, x) {
      forall c | CollateralOf(market, address, group, c) ensures RoomAgainst(c, group, x) {
        CollateralHasCap(market, address, group, c);
        var k :| 0 <= k < |caps| && caps[k] == CapAgainst(market, c.address, group);
      }
    }
    if forall c :: CollateralOf(market, address, group, c) ==> RoomAgainst(c, group, x) {
      forall k | 0 <= k < |caps| && caps[k].elevationGroup == group
        ensures caps[k].currentValue + x <= caps[k].maxDebt
      {
        CapHasCollateral(market, address, caps[k]);
        assert RoomAgainst(market.ReserveByAddress(caps[k].collateralReserve).value, group, x);
      }
    }
  }

  /** The limits of the program itself on borrowing x more from the debt reserve at `address`. */
  ghost predicate WithinLimits(market: KaminoMarket, r: Reserve.KaminoReserve, address: PublicKey,
                               settings: CapSettings, group: nat, x: real) {
    && x <= r.availableAmount
    && r.borrowedAmount + x <= settings.borrowLimit
    && (if settings.debtWithdrawalCapIntervalSeconds == 0 then x <= 18446744073709551615.0
        else settings.debtWithdrawalCapCurrentTotal + x <= settings.debtWithdrawalCapCapacity)
    && (if group == 0 then settings.borrowedAmountOutsideElevationGroup + x <= settings.borrowLimitOutsideElevationGroup
        else forall c :: CollateralOf(market, address, group, c) ==> RoomAgainst(c, group, x))
    && (settings.utilizationLimitBlockBorrowingAbove == 0 ==> r.borrowedAmount + x <= r.TotalSupply())
    && (settings.utilizationLimitBlockBorrowingAbove > 0 ==>
          r.borrowedAmount + x <= Times(settings.utilizationLimitBlockBorrowingAbove as real / 100.0, r.TotalSupply()))
  }

  /** For a configured market and every amount x > 0: it is at most the available liquidity exactly when
      borrowing it keeps every limit stored in the reserve and in the collaterals of the group. */
  lemma {:induction false} LiquidityIsExact(market: KaminoMarket, r: Reserve.KaminoReserve, address: PublicKey,
                                            settings: CapSettings, group: nat, x: real)
    requires WellConfigured(market) && 0.0 <= r.borrowedAmount && 0.0 < x
    requires LiquidityFor(market, r, address, settings, group).Ok?
    ensures x <= LiquidityFor(market, r, address, settings, group).value
            <==> WithinLimits(market, r, address, settings, group, x)
  {
    var caps := BorrowCapForReserve(r, settings, CollateralCaps(market, Descriptions(market), address));
    AvailableIsExact(r, caps, group, x);
    if group != 0 {
      LiquidityFailsIff(market, r, address, settings, group);
      GroupRoomIff(market, r, address, settings, group, x);
    }
    assert Times(1.0, r.TotalSupply()) == r.TotalSupply();
  }

  /** It fails exactly for a non-zero group that is not configured for the debt reserve or that no other
      reserve lists. */
  lemma {:induction false} LiquidityFailsIff(market: KaminoMarket, r: Reserve.KaminoReserve, address: PublicKey,
                                             settings: CapSettings, group: nat)
    requires WellConfigured(market)
    ensures LiquidityFor(market, r, address, settings, group).Err? <==>
              group != 0 && !(GroupOf(market, address, group) && exists c :: CollateralOf(market, address, group, c))
  {
    var caps := CollateralCaps(market, Descriptions(market), address);
    AvailableFailsIff(r, BorrowCapForReserve(r, settings, caps), group);
    if i :| 0 <= i < |caps| && caps[i].elevationGroup == group {
      CapHasCollateral(market, address, caps[i]);
    }
    if c :| GroupOf(market, address, group) && CollateralOf(market, address, group, c) {
      CollateralHasCap(market, address, group, c);
      var k :| 0 <= k < |caps| && caps[k] == CapAgainst(market, c.address, group);
    }
  }

  // ---------------------------------------------------------------- an obligation's maximum borrow

  /** What the obligation already owes the reserve. */
  function DebtIn(c: Context, bs: seq<ObligationLiquidity>, reserve: MarketReserve): real {
    var borrows := BorrowTotals(c, bs).borrows;
    if reserve.address in borrows then borrows[reserve.address].amount else 0.0
  }

  /** It is the last slot naming the reserve, grown from the slot's cumulative rate to the reserve's. */
  lemma {:induction false} DebtIsLastSlot(c: Context, bs: seq<ObligationLiquidity>, reserve: MarketReserve)
    requires reserve in c.market.reserves && IsNotNullPubkey(reserve.address) && BorrowsResolve(c, bs)
    ensures var i := LastBorrow(bs, reserve.address);
            && (i == |bs| ==> DebtIn(c, bs, reserve) == 0.0)
            && (i < |bs| ==>
                  && reserve.address in c.cumulativeBorrowRates
                  && DebtIn(c, bs, reserve)
                     == bs[i].borrowedAmount * c.cumulativeBorrowRates[reserve.address] / bs[i].cumulativeBorrowRate)
  {
    BorrowPositionIsLast(c, bs, reserve.address);
  }

  /** getMaxBorrowAmountV2, from the borrow power and the liquidity under the caps; `ownGroup` is the
      obligation's current elevation group. */
  function MaxBorrowAmountV2(c: Context, ownGroup: nat, bs: seq<ObligationLiquidity>, reserve: MarketReserve,
                             power: real, liquidity: real): real {
    if c.elevationGroup == ownGroup then Min(power, liquidity)
    else Min(power, Max(0.0, liquidity - DebtIn(c, bs, reserve)))
  }

  /** What the reserve lends when the obligation borrows x: the debt it brings into another group counts. */
  function Lent(c: Context, ownGroup: nat, bs: seq<ObligationLiquidity>, reserve: MarketReserve, x: real): real {
    if c.elevationGroup == ownGroup then x else x + DebtIn(c, bs, reserve)
  }

  /** A healthy loan may borrow x > 0, with its fee, within its limit and within every limit of the market,
      exactly up to getMaxBorrowAmountV2; the result itself is never negative and stays within the limit. */
  lemma {:induction false} MaxBorrowIsExact(c: Context, ownGroup: nat, ds: seq<ObligationCollateral>,
                                            bs: seq<ObligationLiquidity>, reserve: MarketReserve,
                                            r: Reserve.KaminoReserve, settings: CapSettings, x: real)
    requires reserve in c.market.reserves && IsNotNullPubkey(reserve.address)
             && reserve.address in c.cumulativeBorrowRates
    requires BorrowPower(c, ds, bs, reserve).Ok? && CanBorrow(c, ds, bs, reserve)
    requires WellConfigured(c.market) && LiquidityFor(c.market, r, reserve.address, settings, c.elevationGroup).Ok?
    requires 0.0 <= r.borrowedAmount && 0.0 <= DebtIn(c, bs, reserve) && 0.0 < x
    ensures var m := MaxBorrowAmountV2(c, ownGroup, bs, reserve, BorrowPower(c, ds, bs, reserve).value,
                                       LiquidityFor(c.market, r, reserve.address, settings, c.elevationGroup).value);
            && 0.0 <= m
            && BorrowSum(c, AdjustedValue, bs + [FreshBorrow(c, reserve, WithFee(m, reserve))])
               <= DepositSum(c, Limit, ds)
            && (x <= m <==>
                  && BorrowSum(c, AdjustedValue, bs + [FreshBorrow(c, reserve, WithFee(x, reserve))])
                     <= DepositSum(c, Limit, ds)
                  && WithinLimits(c.market, r, reserve.address, settings, c.elevationGroup,
                                  Lent(c, ownGroup, bs, reserve, x)))
  {
    var power := BorrowPower(c, ds, bs, reserve).value;
    var liquidity := LiquidityFor(c.market, r, reserve.address, settings, c.elevationGroup).value;
    var m := MaxBorrowAmountV2(c, ownGroup, bs, reserve, power, liquidity);
    PowerFillsGap(c, ds, bs, reserve);
    var caps := BorrowCapForReserve(r, settings, CollateralCaps(c.market, Descriptions(c.market), reserve.address));
    AvailableFailsIff(r, caps, c.elevationGroup);
    BorrowPowerIsTheMost(c, ds, bs, reserve, m);
    BorrowPowerIsTheMost(c, ds, bs, reserve, x);
    LiquidityIsExact(c.market, r, reserve.address, settings, c.elevationGroup, Lent(c, ownGroup, bs, reserve, x));
  }
}
