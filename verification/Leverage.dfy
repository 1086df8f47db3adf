/** The leverage solvers: depositLeverageCalcs (src/leverage/operations.ts) and the amounts for
    withdrawing and adjusting (src/leverage/calcs.ts). */
module Leverage {
  import opened RealArithmetic

  // ---------------------------------------------------------------- depositing

  /** The inputs; `priceDebtToColl` is the worth of one debt token in collateral tokens. */
  datatype DepositRequest = DepositRequest(
    depositAmount: real,
    depositTokenIsCollToken: bool,
    depositTokenIsSol: bool,
    priceDebtToColl: real,
    targetLeverage: real,
    slippagePct: real,
    flashLoanFee: real)
  {
    function Slippage(): real { slippagePct / 100.0 }

    /** Debt tokens needed per collateral token, fee and worst slippage included. */
    function X(): real
      requires priceDebtToColl != 0.0
    {
      Times(flashLoanFee + 1.0, Slippage() + 1.0) / priceDebtToColl
    }

    function Y(): real { Times(targetLeverage, priceDebtToColl) }

    function Denominator(): real
      requires priceDebtToColl != 0.0 && Y() != 0.0
    {
      X() - (targetLeverage - 1.0) / Y()
    }

    /** The inputs the form accepts. */
    predicate Sensible() {
      && 0.0 <= depositAmount && 0.0 < priceDebtToColl && 1.0 <= targetLeverage
      && 0.0 <= slippagePct && 0.0 <= flashLoanFee
    }
  }

  datatype DepositPlan = DepositPlan(
    flashBorrowInCollToken: real,
    initDepositInSol: real,
    debtTokenToBorrow: real,
    collTokenToDeposit: real,
    swapDebtTokenIn: real,
    swapCollTokenExpectedOut: real)

  function DepositLeverageCalcs(q: DepositRequest): DepositPlan
    requires q.priceDebtToColl != 0.0 && q.Y() != 0.0 && q.Denominator() != 0.0
  {
    var initDepositInSol := if q.depositTokenIsSol then q.depositAmount else 0.0;
    if q.depositTokenIsCollToken then
      var finalColl := Times(q.depositAmount, q.X()) / q.Denominator();
      var debt := Times(finalColl - q.depositAmount, q.X());
      var flashBorrowColl := Times(finalColl - q.depositAmount, q.flashLoanFee + 1.0);
      DepositPlan(flashBorrowColl, initDepositInSol, debt, finalColl, debt, finalColl - q.depositAmount)
    else
      var finalColl := q.depositAmount / q.Denominator();
      var flashBorrowColl := Times(finalColl, q.flashLoanFee + 1.0);
      var debt := Times(q.targetLeverage - 1.0, finalColl) / q.Y();
      DepositPlan(flashBorrowColl, initDepositInSol, debt, finalColl, debt + q.depositAmount, finalColl)
  }

  /** The denominator is positive for every sensible request, so the solver never divides by zero. */
  lemma {:induction false} DenominatorPositive(q: DepositRequest)
    requires q.Sensible()
    ensures q.Y() > 0.0 && q.X() > 0.0 && q.Denominator() > 0.0
    ensures Times(q.X(), q.priceDebtToColl) == Times(q.flashLoanFee + 1.0, q.Slippage() + 1.0)
  {
    var p, l := q.priceDebtToColl, q.targetLeverage;
    var a := Times(q.flashLoanFee + 1.0, q.Slippage() + 1.0);
    TimesMono(1.0, q.flashLoanFee + 1.0, 1.0, q.Slippage() + 1.0);
    YPositive(l, p);
    QuotientTimes(a, p);
    QuotientTimes(l - 1.0, q.Y());
    CompareQuotients(q.X(), (l - 1.0) / q.Y(), p, l, a);
  }

  lemma YPositive(l: real, p: real)
    requires l >= 1.0 && p > 0.0
    ensures Times(l, p) > 0.0
  {}

  lemma CompareQuotients(x: real, r: real, p: real, l: real, a: real)
    requires p > 0.0 && l >= 1.0 && a >= 1.0
    requires x * p == a && r * Times(l, p) == l - 1.0
    ensures x > r && x > 0.0
  {
    assert r * Times(l, p) == (r * p) * l;
    var u := r * p;
    assert u >= 1.0 ==> u * l >= l;
    assert x <= r ==> x * p <= r * p;
    assert x <= 0.0 ==> x * p <= 0.0;
  }

  /** The two equations of a plan: the debt is the share (L - 1) / (L * p) of the collateral, and what
      is swapped is the X-multiple of the collateral to be bought. */
  ghost predicate Solves(q: DepositRequest, coll: real, debt: real)
    requires q.priceDebtToColl != 0.0
  {
    && Times(debt, q.Y()) == Times(coll, q.targetLeverage - 1.0)
    && if q.depositTokenIsCollToken then debt == Times(coll - q.depositAmount, q.X())
       else debt + q.depositAmount == Times(coll, q.X())
  }

  /** The plan solves its equations in both branches. */
  lemma {:induction false} PlanEquations(q: DepositRequest)
    requires q.Sensible()
    ensures q.Y() > 0.0 && q.Denominator() > 0.0
    ensures var plan := DepositLeverageCalcs(q);
            && Solves(q, plan.collTokenToDeposit, plan.debtTokenToBorrow)
            && plan.swapDebtTokenIn == Times(plan.swapCollTokenExpectedOut, q.X())
            && plan.flashBorrowInCollToken == Times(plan.swapCollTokenExpectedOut, q.flashLoanFee + 1.0)
  {
    DenominatorPositive(q);
    if q.depositTokenIsCollToken {
      PlanFromCollateral(q);
    } else {
      PlanFromDebt(q);
    }
  }

  lemma {:induction false} PlanFromCollateral(q: DepositRequest)
    requires q.Sensible() && q.depositTokenIsCollToken && q.Y() > 0.0 && q.Denominator() > 0.0
    ensures Solves(q, DepositLeverageCalcs(q).collTokenToDeposit, DepositLeverageCalcs(q).debtTokenToBorrow)
  {
    var d, x, y, l := q.depositAmount, q.X(), q.Y(), q.targetLeverage;
    QuotientTimes(l - 1.0, y);
    QuotientTimes(Times(d, x), q.Denominator());
    CollateralBranch(d, x, y, l, (l - 1.0) / y, DepositLeverageCalcs(q).collTokenToDeposit,
                     DepositLeverageCalcs(q).debtTokenToBorrow);
  }

  lemma {:induction false} PlanFromDebt(q: DepositRequest)
    requires q.Sensible() && !q.depositTokenIsCollToken && q.Y() > 0.0 && q.Denominator() > 0.0
    ensures Solves(q, DepositLeverageCalcs(q).collTokenToDeposit, DepositLeverageCalcs(q).debtTokenToBorrow)
  {
    var d, x, y, l := q.depositAmount, q.X(), q.Y(), q.targetLeverage;
    var f := DepositLeverageCalcs(q).collTokenToDeposit;
    QuotientTimes(l - 1.0, y);
    QuotientTimes(d, q.Denominator());
    QuotientTimes(Times(l - 1.0, f), y);
    DebtBranch(d, x, y, l, (l - 1.0) / y, f, DepositLeverageCalcs(q).debtTokenToBorrow);
  }

  lemma CollateralBranch(d: real, x: real, y: real, l: real, r: real, f: real, debt: real)
    requires r * y == l - 1.0 && f * (x - r) == Times(d, x) && debt == Times(f - d, x)
    ensures Times(debt, y) == Times(f, l - 1.0)
  {
    assert debt == f * r;
    assert (f * r) * y == f * (r * y);
  }

  lemma DebtBranch(d: real, x: real, y: real, l: real, r: real, f: real, debt: real)
    requires y != 0.0 && r * y == l - 1.0 && f * (x - r) == d && debt * y == Times(l - 1.0, f)
    ensures Times(debt, y) == Times(f, l - 1.0)
    ensures debt + d == Times(f, x)
  {
    assert (f * r) * y == f * (r * y);
    assert (debt - f * r) * y == 0.0;
    assert debt == f * r;
  }

  /** The plan lands exactly on the target leverage, and the swap, at its worst slippage, buys exactly
      the flash-borrowed collateral with its fee. */
  lemma {:induction false} DepositHitsTarget(q: DepositRequest)
    requires q.Sensible()
    ensures q.Y() > 0.0 && q.Denominator() > 0.0
    ensures var plan := DepositLeverageCalcs(q);
            var net := plan.collTokenToDeposit - Times(plan.debtTokenToBorrow, q.priceDebtToColl);
            && Times(net, q.targetLeverage) == plan.collTokenToDeposit
            && (q.depositAmount > 0.0 ==> net > 0.0 && plan.collTokenToDeposit / net == q.targetLeverage)
            && Times(plan.swapDebtTokenIn, q.priceDebtToColl) / (1.0 + q.slippagePct / 100.0)
               == plan.flashBorrowInCollToken
            && plan.flashBorrowInCollToken == Times(plan.swapCollTokenExpectedOut, 1.0 + q.flashLoanFee)
            && plan.swapDebtTokenIn
               == plan.debtTokenToBorrow + (if q.depositTokenIsCollToken then 0.0 else q.depositAmount)
            && plan.collTokenToDeposit == plan.swapCollTokenExpectedOut
                                           + if q.depositTokenIsCollToken then q.depositAmount else 0.0
  {
    PlanEquations(q);
    DenominatorPositive(q);
    var plan := DepositLeverageCalcs(q);
    var p, l := q.priceDebtToColl, q.targetLeverage;
    NetTimesLeverage(plan.collTokenToDeposit, plan.debtTokenToBorrow, p, l);
    WorstSwap(plan.swapCollTokenExpectedOut, q.X(), p, q.flashLoanFee, q.Slippage());
    if q.depositAmount > 0.0 {
      FinalCollateralPositive(q);
      PositiveNet(plan.collTokenToDeposit - Times(plan.debtTokenToBorrow, p), l, plan.collTokenToDeposit);
    }
  }

  /** The deposit is in SOL or none of it is. */
  lemma {:induction false} InitialSol(q: DepositRequest)
    requires q.Sensible()
    ensures q.Y() > 0.0 && q.Denominator() > 0.0
    ensures q.depositTokenIsSol ==> DepositLeverageCalcs(q).initDepositInSol == q.depositAmount
    ensures !q.depositTokenIsSol ==> DepositLeverageCalcs(q).initDepositInSol == 0.0
  {
    DenominatorPositive(q);
  }

  lemma NetTimesLeverage(f: real, debt: real, p: real, l: real)
    requires Times(debt, Times(l, p)) == Times(f, l - 1.0)
    ensures Times(f - Times(debt, p), l) == f
  {
    assert (debt * p) * l == debt * (l * p);
  }

  lemma PositiveNet(net: real, l: real, f: real)
    requires Times(net, l) == f && f > 0.0 && l >= 1.0
    ensures net > 0.0 && f / net == l
  {
    assert net <= 0.0 ==> net * l <= 0.0;
    QuotientTimes(f, net);
    CancelFactor(f / net, l, net);
  }

  lemma CancelFactor(x: real, y: real, k: real)
    requires k != 0.0 && x * k == y * k
    ensures x == y
  {
    assert (x - y) * k == 0.0;
  }

  lemma WorstSwap(out: real, x: real, p: real, fee: real, slippage: real)
    requires slippage >= 0.0 && Times(x, p) == Times(fee + 1.0, slippage + 1.0)
    ensures Times(Times(out, x), p) / (1.0 + slippage) == Times(out, fee + 1.0)
  {
    var k := 1.0 + slippage;
    assert Times(Times(out, x), p) == out * (x * p);
    assert out * (x * p) == Times(out, fee + 1.0) * k;
    QuotientTimes(Times(Times(out, x), p), k);
    CancelFactor(Times(Times(out, x), p) / k, Times(out, fee + 1.0), k);
  }

  lemma {:induction false} FinalCollateralPositive(q: DepositRequest)
    requires q.Sensible() && q.depositAmount > 0.0
    ensures q.Y() > 0.0 && q.Denominator() > 0.0 && DepositLeverageCalcs(q).collTokenToDeposit > 0.0
  {
    DenominatorPositive(q);
    PositiveQuotient(q.depositAmount, q.Denominator());
    assert Times(q.depositAmount, q.X()) > 0.0;
    PositiveQuotient(Times(q.depositAmount, q.X()), q.Denominator());
  }

  lemma PositiveQuotient(a: real, b: real)
    requires a > 0.0 && b > 0.0
    ensures a / b > 0.0
  {}

  /** The plan is the only answer: any collateral and debt that meet the leverage and the swap
      equations are the plan's. */
  lemma {:induction false} DepositPlanUnique(q: DepositRequest, coll: real, debt: real)
    requires q.Sensible() && Solves(q, coll, debt)
    ensures q.Y() > 0.0 && q.Denominator() > 0.0
    ensures coll == DepositLeverageCalcs(q).collTokenToDeposit && debt == DepositLeverageCalcs(q).debtTokenToBorrow
  {
    DenominatorPositive(q);
    PlanEquations(q);
    SolutionsEqual(q, coll, debt, DepositLeverageCalcs(q).collTokenToDeposit,
                   DepositLeverageCalcs(q).debtTokenToBorrow);
  }

  lemma {:induction false} SolutionsEqual(q: DepositRequest, coll: real, debt: real, coll': real, debt': real)
    requires q.Sensible() && q.Y() > 0.0 && q.Denominator() > 0.0
    requires Solves(q, coll, debt) && Solves(q, coll', debt')
    ensures coll == coll' && debt == debt'
  {
    var x, y, l := q.X(), q.Y(), q.targetLeverage;
    var r := (l - 1.0) / y;
    QuotientTimes(l - 1.0, y);
    ShareOf(debt, coll, y, l, r);
    ShareOf(debt', coll', y, l, r);
    if q.depositTokenIsCollToken {
      TimesDifference(coll, coll', q.depositAmount, x);
    } else {
      TimesDifference(coll, coll', 0.0, x);
    }
    SameCollateral(coll, coll', x, r, debt, debt');
  }

  lemma TimesDifference(coll: real, coll': real, d: real, x: real)
    ensures Times(coll - d, x) - Times(coll' - d, x) == Times(coll, x) - Times(coll', x)
  {}

  lemma SameCollateral(coll: real, coll': real, x: real, r: real, debt: real, debt': real)
    requires x - r > 0.0 && debt == coll * r && debt' == coll' * r
    requires debt - debt' == Times(coll, x) - Times(coll', x)
    ensures coll == coll' && debt == debt'
  {
    assert (coll - coll') * (x - r) == 0.0;
  }

  lemma ShareOf(debt: real, coll: real, y: real, l: real, r: real)
    requires y > 0.0 && r * y == l - 1.0 && Times(debt, y) == Times(coll, l - 1.0)
    ensures debt == coll * r
  {
    assert (coll * r) * y == coll * (r * y);
    CancelFactor(debt, coll * r, y);
  }

  // ---------------------------------------------------------------- withdrawing and adjusting

  /** Collateral and debt, each in its own token. */
  datatype LeveragedPosition = LeveragedPosition(deposit: real, borrow: real)

  /** The position's own value in collateral tokens. */
  function Net(pos: LeveragedPosition, priceCollToDebt: real): real
    requires priceCollToDebt != 0.0
  {
    pos.deposit - pos.borrow / priceCollToDebt
  }

  function CalcBorrowAmount(depositTokenAmount: real, targetLeverage: real, priceCollToDebt: real,
                            flashBorrowFee: real): real {
    var finalDebtInCollToken := Times(depositTokenAmount, targetLeverage) - depositTokenAmount;
    Times(Times(finalDebtInCollToken, priceCollToDebt), 1.0 + flashBorrowFee)
  }

  function InCollateral(amount: real, isCollToken: bool, priceCollToDebt: real): real
    requires priceCollToDebt != 0.0
  {
    if isCollToken then amount else amount / priceCollToDebt
  }

  /** The two adjustments: (deposit to take out, debt to repay). */
  function CalcWithdrawAmounts(pos: LeveragedPosition, priceCollToDebt: real, withdrawAmount: real,
                               isCollToken: bool): (real, real)
    requires priceCollToDebt != 0.0 && Net(pos, priceCollToDebt) != 0.0
  {
    var net := Net(pos, priceCollToDebt);
    var targetLeverage := pos.deposit / net;
    var rest := net - InCollateral(withdrawAmount, isCollToken, priceCollToDebt);
    (pos.deposit - Times(rest, targetLeverage),
     pos.borrow - CalcBorrowAmount(rest, targetLeverage, priceCollToDebt, 0.0))
  }

  function AfterWithdraw(pos: LeveragedPosition, priceCollToDebt: real, withdrawAmount: real,
                         isCollToken: bool): LeveragedPosition
    requires priceCollToDebt != 0.0 && Net(pos, priceCollToDebt) != 0.0
  {
    var (adjustDeposit, adjustBorrow) := CalcWithdrawAmounts(pos, priceCollToDebt, withdrawAmount, isCollToken);
    LeveragedPosition(pos.deposit - adjustDeposit, pos.borrow - adjustBorrow)
  }

  /** A position is fixed by its net value and its leverage. */
  function PositionWith(net: real, leverage: real, priceCollToDebt: real): LeveragedPosition {
    LeveragedPosition(Times(net, leverage), Times(Times(net, leverage - 1.0), priceCollToDebt))
  }

  lemma {:induction false} NetOfPositionWith(net: real, leverage: real, p: real)
    requires p != 0.0
    ensures Net(PositionWith(net, leverage, p), p) == net
  {
    var b := Times(net, leverage - 1.0);
    QuotientTimes(Times(b, p), p);
    CancelFactor(Times(b, p) / p, b, p);
  }

  lemma BorrowIsPosition(rest: real, l: real, p: real)
    ensures CalcBorrowAmount(rest, l, p, 0.0) == Times(Times(rest, l - 1.0), p)
  {
    assert Times(rest, l) - rest == Times(rest, l - 1.0);
  }

  lemma {:induction false} PositionFromNet(pos: LeveragedPosition, p: real)
    requires p != 0.0 && Net(pos, p) != 0.0
    ensures pos == PositionWith(Net(pos, p), pos.deposit / Net(pos, p), p)
  {
    var net := Net(pos, p);
    var l := pos.deposit / net;
    QuotientTimes(pos.deposit, net);
    QuotientTimes(pos.borrow, p);
    assert Times(net, l - 1.0) == Times(net, l) - net;
    assert Times(net, l - 1.0) == pos.borrow / p;
  }

  /** Withdrawing keeps the leverage and takes exactly the amount off the net value; withdrawing the
      whole net value leaves nothing on either side. */
  lemma {:induction false} WithdrawKeepsLeverage(pos: LeveragedPosition, p: real, amount: real, isCollToken: bool)
    requires p != 0.0 && Net(pos, p) != 0.0
    ensures var after := AfterWithdraw(pos, p, amount, isCollToken);
            var rest := Net(pos, p) - if isCollToken then amount else amount / p;
            && after == PositionWith(rest, pos.deposit / Net(pos, p), p)
            && Net(after, p) == rest
            && (rest != 0.0 ==> after.deposit / Net(after, p) == pos.deposit / Net(pos, p))
            && (rest == 0.0 ==> after == LeveragedPosition(0.0, 0.0))
  {
    var l, rest := pos.deposit / Net(pos, p), Net(pos, p) - InCollateral(amount, isCollToken, p);
    BorrowIsPosition(rest, l, p);
    NetOfPositionWith(rest, l, p);
    if rest != 0.0 {
      QuotientTimes(Times(rest, l), rest);
      CancelFactor(Times(rest, l) / rest, l, rest);
    }
  }

  /** A withdrawal in a sequence: how much, and in which token. */
  datatype Withdrawal = Withdrawal(amount: real, isCollToken: bool)

  function TotalInCollateral(ws: seq<Withdrawal>, p: real): real
    requires p != 0.0
  {
    if ws == [] then 0.0 else InCollateral(ws[0].amount, ws[0].isCollToken, p) + TotalInCollateral(ws[1..], p)
  }

  /** No withdrawal starts from an emptied position. */
  predicate NeverEmptied(pos: LeveragedPosition, ws: seq<Withdrawal>, p: real)
    requires p != 0.0
    decreases ws
  {
    ws == [] || (Net(pos, p) != 0.0 && NeverEmptied(AfterWithdraw(pos, p, ws[0].amount, ws[0].isCollToken), ws[1..], p))
  }

  function AfterAll(pos: LeveragedPosition, ws: seq<Withdrawal>, p: real): LeveragedPosition
    requires p != 0.0 && NeverEmptied(pos, ws, p)
    decreases ws
  {
    if ws == [] then pos else AfterAll(AfterWithdraw(pos, p, ws[0].amount, ws[0].isCollToken), ws[1..], p)
  }

  /** Any sequence of withdrawals, in either token, ends where one withdrawal of their sum ends. */
  lemma {:induction false} WithdrawalsCompose(pos: LeveragedPosition, ws: seq<Withdrawal>, p: real)
    requires p != 0.0 && Net(pos, p) != 0.0 && NeverEmptied(pos, ws, p)
    ensures AfterAll(pos, ws, p) == AfterWithdraw(pos, p, TotalInCollateral(ws, p), true)
    decreases ws
  {
    var l := pos.deposit / Net(pos, p);
    WithdrawKeepsLeverage(pos, p, TotalInCollateral(ws, p), true);
    if ws == [] {
      PositionFromNet(pos, p);
    } else {
      var next := AfterWithdraw(pos, p, ws[0].amount, ws[0].isCollToken);
      WithdrawKeepsLeverage(pos, p, ws[0].amount, ws[0].isCollToken);
      if ws[1..] == [] {
      } else {
        WithdrawalsCompose(next, ws[1..], p);
        WithdrawKeepsLeverage(next, p, TotalInCollateral(ws[1..], p), true);
      }
    }
  }

  /** (deposit to add, debt to add) */
  function CalcAdjustAmounts(pos: LeveragedPosition, targetLeverage: real, priceCollToDebt: real,
                             flashLoanFee: real): (real, real)
    requires priceCollToDebt != 0.0
  {
    var net := Net(pos, priceCollToDebt);
    (Times(net, targetLeverage) - pos.deposit,
     CalcBorrowAmount(net, targetLeverage, priceCollToDebt, flashLoanFee) - pos.borrow)
  }

  function AfterAdjust(pos: LeveragedPosition, targetLeverage: real, priceCollToDebt: real,
                       flashLoanFee: real): LeveragedPosition
    requires priceCollToDebt != 0.0
  {
    var (addDeposit, addBorrow) := CalcAdjustAmounts(pos, targetLeverage, priceCollToDebt, flashLoanFee);
    LeveragedPosition(pos.deposit + addDeposit, pos.borrow + addBorrow)
  }

  /** The adjusted position has the target leverage exactly when there is no flash loan fee or no
      leverage is asked for: the fee is added to the debt and not to the collateral. */
  lemma {:induction false} AdjustHitsTargetIff(pos: LeveragedPosition, l: real, p: real, fee: real)
    requires p != 0.0 && Net(pos, p) != 0.0 && l >= 1.0 && fee >= 0.0
    ensures var after := AfterAdjust(pos, l, p, fee);
            after.deposit == Times(Net(after, p), l) <==> fee == 0.0 || l == 1.0
  {
    var net, after := Net(pos, p), AfterAdjust(pos, l, p, fee);
    var b := Times(net, l) - net;
    QuotientTimes(Times(Times(b, p), 1.0 + fee), p);
    assert Times(Times(b, p), 1.0 + fee) == (b * (1.0 + fee)) * p;
    CancelFactor(after.borrow / p, b * (1.0 + fee), p);
    AdjustGap(net, l, fee, after.borrow / p);
  }

  lemma AdjustGap(net: real, l: real, fee: real, debt: real)
    requires net != 0.0 && l >= 1.0 && debt == (Times(net, l) - net) * (1.0 + fee)
    ensures Times(net, l) == Times(Times(net, l) - debt, l) <==> fee == 0.0 || l == 1.0
  {
    assert Times(net, l) - Times(Times(net, l) - debt, l) == net * (l * ((l - 1.0) * fee));
  }

  /** The debt taken on covers what is flash-borrowed and its fee, and the position's own value pays that
      fee and nothing else. */
  lemma {:induction false} AdjustPaysFee(pos: LeveragedPosition, l: real, p: real, fee: real)
    requires p != 0.0
    ensures var net, after := pos.deposit - pos.borrow / p, AfterAdjust(pos, l, p, fee);
            && after.deposit == Times(net, l)
            && after.borrow == Times(Times(Times(net, l - 1.0), p), 1.0 + fee)
            && after.borrow / p == Times(after.deposit - net, 1.0 + fee)
            && after.deposit - after.borrow / p == net - Times(Times(net, l - 1.0), fee)
  {
    var net, after := Net(pos, p), AfterAdjust(pos, l, p, fee);
    var b := Times(net, l - 1.0);
    assert Times(net, l) - net == b;
    QuotientTimes(after.borrow, p);
    assert Times(Times(b, p), 1.0 + fee) == Times(b, 1.0 + fee) * p;
    CancelFactor(after.borrow / p, Times(b, 1.0 + fee), p);
  }

  /** Without a fee, adjusting is path-independent and keeps the net value: going through any other
      leverage first changes nothing, so adjusting there and back is the identity. */
  lemma {:induction false} AdjustPathIndependent(pos: LeveragedPosition, l1: real, l2: real, p: real)
    requires p != 0.0
    ensures Net(AfterAdjust(pos, l1, p, 0.0), p) == Net(pos, p)
    ensures AfterAdjust(AfterAdjust(pos, l1, p, 0.0), l2, p, 0.0) == AfterAdjust(pos, l2, p, 0.0)
    ensures Net(pos, p) != 0.0 ==> AfterAdjust(pos, pos.deposit / Net(pos, p), p, 0.0) == pos
  {
    var net := Net(pos, p);
    BorrowIsPosition(net, l1, p);
    NetOfPositionWith(net, l1, p);
    if net != 0.0 {
      PositionFromNet(pos, p);
      BorrowIsPosition(net, pos.deposit / net, p);
    }
  }
}
