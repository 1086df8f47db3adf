/** The instructions an action assembles, and the two ordering rules on lists of them. */
module Instructions {
  import opened PublicKeys
  import opened PubkeyMaps

  datatype FarmKind = Collateral | Debt

  datatype LendingKind =
    | DepositReserveLiquidityAndObligationCollateral
    | DepositReserveLiquidity
    | RedeemReserveCollateral
    | DepositObligationCollateral
    | BorrowObligationLiquidity
    | RepayObligationLiquidity
    | WithdrawObligationCollateralAndRedeemReserveCollateral
    | LiquidateObligationAndRedeemReserveCollateral

  /** An instruction with the accounts that matter here. `Wallet` stands for every instruction on the
      user's token accounts. */
  datatype Ix =
    | ComputeBudget(units: int)
    | RefreshReserve(reserve: PublicKey)
    | RefreshObligation(deposits: seq<PublicKey>, borrows: seq<PublicKey>, referrerStates: seq<PublicKey>)
    | RequestElevationGroup(group: int, deposits: seq<PublicKey>, borrows: seq<PublicKey>,
                            referrerStates: seq<PublicKey>)
    | RefreshObligationFarm(mode: FarmKind, reserve: PublicKey, farm: PublicKey, crank: PublicKey)
    | InitObligationFarm(mode: FarmKind, reserve: PublicKey, farm: PublicKey)
    | InitReferrerTokenState(reserve: PublicKey)
    | CreateLookupTable
    | InitUserMetadata
    | InitObligation
    | Wallet(step: nat)
    | Lend(kind: LendingKind, reserve: PublicKey, remaining: seq<PublicKey>)

  function RefreshAll(reserves: seq<PublicKey>): (ixs: seq<Ix>)
    ensures |ixs| == |reserves| && forall i :: 0 <= i < |ixs| ==> ixs[i] == RefreshReserve(reserves[i])
  {
    seq(|reserves|, i requires 0 <= i < |reserves| => RefreshReserve(reserves[i]))
  }

  /** The instructions when a condition holds. */
  function When(condition: bool, ixs: seq<Ix>): seq<Ix> {
    if condition then ixs else []
  }

  lemma {:induction false} WhenSnoc(before: seq<Ix>, condition: bool, ixs: seq<Ix>, i: nat)
    requires i < |ixs|
    ensures before + When(condition, ixs[..i + 1]) == before + When(condition, ixs[..i]) + When(condition, [ixs[i]])
  {
    assert ixs[..i + 1] == ixs[..i] + [ixs[i]];
  }

  // ---------------------------------------------------------------- refresh before use

  /** Every key has been refreshed somewhere in the list. */
  predicate Refreshed(ixs: seq<Ix>, keys: seq<PublicKey>) {
    forall k :: k in keys ==> RefreshReserve(k) in ixs
  }

  /** Every deposit and borrow reserve an obligation refresh names. */
  predicate RefreshedFor(ixs: seq<Ix>, refresh: Ix)
    requires refresh.RefreshObligation?
  {
    Refreshed(ixs, refresh.deposits) && Refreshed(ixs, refresh.borrows)
  }

  /** After these the reserves have to be refreshed again. */
  predicate Outdates(ix: Ix) {
    ix.RequestElevationGroup? || ix.Lend?
  }

  /** Each obligation refresh comes after a refresh of every reserve it names, since the last elevation
      group request or lending instruction. */
  ghost predicate RefreshedBeforeUse(ixs: seq<Ix>) {
    && (forall i :: 0 <= i < |ixs| ==> RefreshedAt(ixs, i))
    && (forall r, i :: 0 <= r < i < |ixs| ==> RefreshedSince(ixs, r, i))
  }

  /** The obligation refresh at i, if it is one, comes after refreshes of everything it names. */
  predicate RefreshedAt(ixs: seq<Ix>, i: nat)
    requires i < |ixs|
  {
    ixs[i].RefreshObligation? ==> RefreshedFor(ixs[..i], ixs[i])
  }

  /** The obligation refresh at i, if it is one, comes after those refreshes since position r, if that calls
      for them. */
  predicate RefreshedSince(ixs: seq<Ix>, r: nat, i: nat)
    requires r < i < |ixs|
  {
    Outdates(ixs[r]) && ixs[i].RefreshObligation? ==> RefreshedFor(ixs[r + 1..i], ixs[i])
  }

  predicate NoObligationRefresh(ixs: seq<Ix>) {
    forall i :: 0 <= i < |ixs| ==> !ixs[i].RefreshObligation?
  }

  predicate NothingOutdated(ixs: seq<Ix>) {
    forall i :: 0 <= i < |ixs| ==> !Outdates(ixs[i])
  }

  lemma {:induction false} RefreshedLonger(xs: seq<Ix>, ys: seq<Ix>, zs: seq<Ix>, refresh: Ix)
    requires refresh.RefreshObligation? && RefreshedFor(ys, refresh)
    ensures RefreshedFor(xs + ys + zs, refresh)
  {
  }

  lemma {:induction false} OrderKeptByAppend(xs: seq<Ix>, ys: seq<Ix>)
    requires RefreshedBeforeUse(xs) && RefreshedBeforeUse(ys)
    ensures RefreshedBeforeUse(xs + ys)
  {
    var all := xs + ys;
    forall i | 0 <= i < |all| ensures RefreshedAt(all, i) {
      if i < |xs| {
        assert RefreshedAt(xs, i) && all[..i] == xs[..i];
      } else if all[i].RefreshObligation? {
        assert RefreshedAt(ys, i - |xs|) && all[..i] == xs + ys[..i - |xs|] + [];
        RefreshedLonger(xs, ys[..i - |xs|], [], all[i]);
      }
    }
    forall r, i | 0 <= r < i < |all| ensures RefreshedSince(all, r, i) {
      if i < |xs| {
        assert RefreshedSince(xs, r, i) && all[r + 1..i] == xs[r + 1..i];
      } else if r < |xs| {
        if all[i].RefreshObligation? {
          assert RefreshedAt(ys, i - |xs|);
          assert all[r + 1..i] == xs[r + 1..] + ys[..i - |xs|] + [];
          RefreshedLonger(xs[r + 1..], ys[..i - |xs|], [], all[i]);
        }
      } else {
        assert RefreshedSince(ys, r - |xs|, i - |xs|) && all[r + 1..i] == ys[r - |xs| + 1..i - |xs|];
      }
    }
  }

  /** One obligation refresh, behind everything it needs. */
  lemma {:induction false} OrderOfOneRefresh(front: seq<Ix>, needed: seq<Ix>, refresh: Ix)
    requires NoObligationRefresh(front) && NoObligationRefresh(needed) && NothingOutdated(needed)
    requires refresh.RefreshObligation? && RefreshedFor(needed, refresh)
    ensures RefreshedBeforeUse(front + needed + [refresh])
  {
    var all, n := front + needed + [refresh], |front + needed|;
    assert all[..n] == front + needed + [];
    RefreshedLonger(front, needed, [], refresh);
    forall r, i | 0 <= r < i < |all| ensures RefreshedSince(all, r, i) {
      if Outdates(all[r]) && all[i].RefreshObligation? {
        assert i == n && r < |front|;
        assert all[r + 1..n] == front[r + 1..] + needed + [];
        RefreshedLonger(front[r + 1..], needed, [], refresh);
      }
    }
  }

  // ---------------------------------------------------------------- farm refreshes

  /** The farm refreshes of a list, in order. */
  function FarmRefreshes(ixs: seq<Ix>): seq<Ix> {
    if ixs == [] then []
    else FarmRefreshes(ixs[..|ixs| - 1]) + if ixs[|ixs| - 1].RefreshObligationFarm? then [ixs[|ixs| - 1]] else []
  }

  predicate NoFarmRefresh(ixs: seq<Ix>) {
    forall i :: 0 <= i < |ixs| ==> !ixs[i].RefreshObligationFarm?
  }

  predicate OnlyFarmRefreshes(ixs: seq<Ix>) {
    forall i :: 0 <= i < |ixs| ==> ixs[i].RefreshObligationFarm?
  }

  lemma {:induction false} FarmRefreshesAppend(xs: seq<Ix>, ys: seq<Ix>)
    ensures FarmRefreshes(xs + ys) == FarmRefreshes(xs) + FarmRefreshes(ys)
  {
    if ys == [] {
      assert xs + ys == xs;
    } else {
      FarmRefreshesAppend(xs, ys[..|ys| - 1]);
      assert (xs + ys)[..|xs + ys| - 1] == xs + ys[..|ys| - 1];
    }
  }

  lemma {:induction false} FarmRefreshesNone(ixs: seq<Ix>)
    requires NoFarmRefresh(ixs)
    ensures FarmRefreshes(ixs) == []
  {
    if ixs != [] {
      FarmRefreshesNone(ixs[..|ixs| - 1]);
    }
  }

  lemma {:induction false} FarmRefreshesAll(ixs: seq<Ix>)
    requires OnlyFarmRefreshes(ixs)
    ensures FarmRefreshes(ixs) == ixs
  {
    if ixs != [] {
      FarmRefreshesAll(ixs[..|ixs| - 1]);
      assert ixs == ixs[..|ixs| - 1] + [ixs[|ixs| - 1]];
    }
  }

  lemma {:induction false} FarmRefreshesIdempotent(ixs: seq<Ix>)
    ensures FarmRefreshes(FarmRefreshes(ixs)) == FarmRefreshes(ixs)
  {
    FarmRefreshesOnly(ixs);
    FarmRefreshesAll(FarmRefreshes(ixs));
  }

  lemma {:induction false} FarmRefreshesOnly(ixs: seq<Ix>)
    ensures OnlyFarmRefreshes(FarmRefreshes(ixs))
  {
    if ixs != [] {
      FarmRefreshesOnly(ixs[..|ixs| - 1]);
    }
  }

  /** Farm refreshes at the end of what is appended come after those already there. */
  lemma {:induction false} FarmRefreshesFollow(before: seq<Ix>, block: seq<Ix>, extra: seq<Ix>, farms: seq<Ix>)
    requires NoFarmRefresh(block) && NoFarmRefresh(extra) && OnlyFarmRefreshes(farms)
    ensures FarmRefreshes(before + block + extra + farms) == FarmRefreshes(before) + farms
  {
    FarmRefreshesAtEnd(block + extra, farms);
    FarmRefreshesAppend(before, block + extra + farms);
    assert before + block + extra + farms == before + (block + extra + farms);
  }

  /** In a list that ends with its only farm refreshes, they are what FarmRefreshes finds. */
  lemma {:induction false} FarmRefreshesAtEnd(xs: seq<Ix>, farms: seq<Ix>)
    requires NoFarmRefresh(xs) && OnlyFarmRefreshes(farms)
    ensures FarmRefreshes(xs + farms) == farms
  {
    FarmRefreshesAppend(xs, farms);
    FarmRefreshesNone(xs);
    FarmRefreshesAll(farms);
  }

  /** None of the instructions the two rules are about. */
  predicate Neutral(ixs: seq<Ix>) {
    NoObligationRefresh(ixs) && NoFarmRefresh(ixs) && NothingOutdated(ixs)
  }

  lemma {:induction false} NeutralAppend(xs: seq<Ix>, ys: seq<Ix>)
    requires Neutral(xs) && Neutral(ys)
    ensures Neutral(xs + ys)
  {
  }

  lemma {:induction false} RefreshAllNeutral(reserves: seq<PublicKey>)
    ensures Neutral(RefreshAll(reserves)) && Refreshed(RefreshAll(reserves), reserves)
  {
    forall k | k in reserves ensures RefreshReserve(k) in RefreshAll(reserves) {
      var i :| 0 <= i < |reserves| && reserves[i] == k;
      assert RefreshAll(reserves)[i] == RefreshReserve(k);
    }
  }

  // ---------------------------------------------------------------- which reserves are refreshed

  /** Array.filter: the keys not in the other list. */
  function Without(keys: seq<PublicKey>, others: seq<PublicKey>): (r: seq<PublicKey>)
    ensures forall k :: k in r <==> k in keys && k !in others
  {
    if keys == [] then []
    else (if keys[0] in others then [] else [keys[0]]) + Without(keys[1..], others)
  }

  /** The reserves of the obligation that the action itself does not touch. */
  function Excluding(deposits: seq<PublicKey>, borrows: seq<PublicKey>, current: seq<PublicKey>): (r: seq<PublicKey>)
    ensures forall k :: k in r <==> (k in deposits || k in borrows) && k !in current
  {
    UniqueLaws(deposits + borrows);
    Without(Unique(deposits + borrows), current)
  }

  /** Refreshing the untouched and the current reserves in front of an obligation refresh keeps the
      order, whatever else stands in front and between. */
  lemma {:induction false} BlockKeepsOrder(before: seq<Ix>, front: seq<Ix>, excluded: seq<PublicKey>, between: seq<Ix>,
                                           current: seq<PublicKey>, refresh: Ix)
    requires RefreshedBeforeUse(before) && NoObligationRefresh(front)
    requires NoObligationRefresh(between) && NothingOutdated(between) && refresh.RefreshObligation?
    requires forall k :: k in refresh.deposits || k in refresh.borrows ==> k in excluded || k in current
    ensures RefreshedBeforeUse(before + (front + RefreshAll(excluded) + between + RefreshAll(current) + [refresh]))
  {
    var needed := RefreshAll(excluded) + between + RefreshAll(current);
    RefreshAllNeutral(excluded);
    RefreshAllNeutral(current);
    forall k | k in excluded || k in current ensures RefreshReserve(k) in needed {
      assert RefreshReserve(k) in RefreshAll(excluded) || RefreshReserve(k) in RefreshAll(current);
    }
    OrderOfOneRefresh(front, needed, refresh);
    assert front + needed + [refresh]
        == front + RefreshAll(excluded) + between + RefreshAll(current) + [refresh];
    OrderKeptByAppend(before, front + needed + [refresh]);
  }

  lemma {:induction false} RefreshAllKeepsOrder(before: seq<Ix>, reserves: seq<PublicKey>, farms: seq<Ix>, refresh: Ix)
    requires RefreshedBeforeUse(before) && NoObligationRefresh(farms) && NothingOutdated(farms)
    requires refresh.RefreshObligation?
    requires forall k :: k in refresh.deposits || k in refresh.borrows ==> k in reserves
    ensures RefreshedBeforeUse(before + RefreshAll(reserves) + farms + [refresh])
  {
    BlockKeepsOrder(before, [], reserves, farms, [], refresh);
    assert before + RefreshAll(reserves) + farms + [refresh]
           == before + ([] + RefreshAll(reserves) + farms + RefreshAll([]) + [refresh]);
  }

  lemma {:induction false} BlockWithoutFarms(front: seq<Ix>, excluded: seq<PublicKey>, between: seq<Ix>,
                                             current: seq<PublicKey>, refresh: Ix)
    requires NoFarmRefresh(front) && NoFarmRefresh(between) && refresh.RefreshObligation?
    ensures NoFarmRefresh(front + RefreshAll(excluded) + between + RefreshAll(current) + [refresh])
  {
    RefreshAllNeutral(excluded);
    RefreshAllNeutral(current);
  }

  lemma {:induction false} WithoutNone(keys: seq<PublicKey>)
    ensures Without(keys, []) == keys
  {
    if keys != [] {
      WithoutNone(keys[1..]);
    }
  }

  /** Inserting again changes nothing. */
  lemma {:induction false} InsertAllIdempotent(items: seq<PublicKey>, more: seq<PublicKey>)
    requires forall k :: k in more ==> k in items
    ensures InsertAll(items, more) == items
    decreases more
  {
    if more != [] {
      InsertAllIdempotent(items, more[1..]);
    }
  }

  /** The farm refreshes of the setup come first in between, and the further ones in between come first in
      the cleanup. */
  ghost predicate FarmsInOrder(setup: seq<Ix>, inBetween: seq<Ix>, cleanup: seq<Ix>) {
    var first, second := FarmRefreshes(setup), FarmRefreshes(inBetween);
    first <= inBetween && first <= second && second[|first|..] <= cleanup
  }

  lemma {:induction false} OrderOfFarms(setup: seq<Ix>, inBetween: seq<Ix>, farms: seq<Ix>, cleanup: seq<Ix>)
    requires FarmRefreshes(setup) <= inBetween && FarmRefreshes(inBetween) == FarmRefreshes(setup) + farms
    ensures FarmsInOrder(setup, inBetween, farms + cleanup)
  {
    assert (FarmRefreshes(setup) + farms)[|FarmRefreshes(setup)|..] == farms;
  }

  // ---------------------------------------------------------------- the stages of a setup

  /** Accounts are created before they are used: token accounts, referrer states, budget, lookup table, user
      metadata and obligation, then the refreshes with the farm accounts and requests, then the farms. */
  function Stage(ix: Ix): nat {
    match ix
    case Wallet(_) => 0
    case InitReferrerTokenState(_) => 1
    case ComputeBudget(_) => 2
    case CreateLookupTable => 3
    case InitUserMetadata => 4
    case InitObligation => 5
    case RefreshReserve(_) => 6
    case InitObligationFarm(_, _, _) => 6
    case RefreshObligation(_, _, _) => 6
    case RequestElevationGroup(_, _, _, _) => 6
    case RefreshObligationFarm(_, _, _, _) => 7
    case Lend(_, _, _) => 8
  }

  /** Nothing is created twice. */
  predicate MayFollow(x: Ix, y: Ix) {
    || Stage(x) < Stage(y)
    || (Stage(x) == Stage(y) && (x.Wallet? || (x.InitReferrerTokenState? && x != y) || 6 <= Stage(x)))
  }

  ghost predicate InStages(ixs: seq<Ix>) {
    forall i, j :: 0 <= i < j < |ixs| ==> InTurn(ixs, i, j)
  }

  predicate InTurn(ixs: seq<Ix>, i: nat, j: nat)
    requires i < j < |ixs|
  {
    MayFollow(ixs[i], ixs[j])
  }

  lemma {:induction false} InStagesAppend(xs: seq<Ix>, ys: seq<Ix>)
    requires InStages(xs) && InStages(ys)
    requires forall x, y :: x in xs && y in ys ==> MayFollow(x, y)
    ensures InStages(xs + ys)
  {
    forall i, j | 0 <= i < j < |xs + ys| ensures InTurn(xs + ys, i, j) {
      if j < |xs| {
        assert InTurn(xs, i, j);
      } else if i < |xs| {
        assert xs[i] in xs && ys[j - |xs|] in ys;
      } else {
        assert InTurn(ys, i - |xs|, j - |xs|);
      }
    }
  }

  /** All within some stages. */
  predicate Within(low: nat, high: nat, ixs: seq<Ix>) {
    forall ix :: ix in ixs ==> low <= Stage(ix) <= high
  }

  lemma {:induction false} StagesAppend(xs: seq<Ix>, ys: seq<Ix>, low: nat, mid: nat, next: nat, high: nat)
    requires InStages(xs) && InStages(ys) && Within(low, mid, xs) && Within(next, high, ys)
    requires low <= mid <= next <= high && (mid == next ==> mid == 6)
    ensures InStages(xs + ys) && Within(low, high, xs + ys)
  {
    forall x, y | x in xs && y in ys ensures MayFollow(x, y) {
      assert Stage(x) <= mid && next <= Stage(y);
    }
    InStagesAppend(xs, ys);
  }

  lemma {:induction false} OneStage(stage: nat, ixs: seq<Ix>)
    requires (stage == 0 || 6 <= stage) && Within(stage, stage, ixs)
    ensures InStages(ixs)
  {
    forall i, j | 0 <= i < j < |ixs| ensures InTurn(ixs, i, j) {
      assert ixs[i] in ixs && ixs[j] in ixs;
    }
  }

  /** What an action creates in front of its refreshes: referrer states, budget, metadata, obligation. */
  function Creations(inits: seq<Ix>, units: int, metadata: bool, creation: bool): seq<Ix> {
    inits + (When(units > 0, [ComputeBudget(units)]) + When(metadata, [CreateLookupTable, InitUserMetadata]))
    + When(creation, [InitObligation])
  }

  lemma {:induction false} CreationsInStages(inits: seq<Ix>, units: int, metadata: bool, creation: bool)
    requires InStages(inits) && Within(1, 1, inits)
    ensures InStages(Creations(inits, units, metadata, creation))
    ensures Within(1, 5, Creations(inits, units, metadata, creation))
  {
    var budget, table := When(units > 0, [ComputeBudget(units)]), When(metadata, [CreateLookupTable, InitUserMetadata]);
    StagesAppend(budget, table, 2, 2, 3, 4);
    StagesAppend(inits, budget + table, 1, 1, 2, 4);
    StagesAppend(inits + (budget + table), When(creation, [InitObligation]), 1, 4, 5, 5);
  }

  lemma {:induction false} CreationMembers(inits: seq<Ix>, units: int, metadata: bool, creation: bool, ix: Ix)
    ensures ix in Creations(inits, units, metadata, creation) <==>
              || ix in inits || (units > 0 && ix == ComputeBudget(units))
              || (metadata && (ix == CreateLookupTable || ix == InitUserMetadata))
              || (creation && ix == InitObligation)
  {
  }

  /** A setup in its parts: what creates accounts, what refreshes, and the farms. */
  lemma {:induction false} SetupInStages(head: seq<Ix>, block: seq<Ix>, request: seq<Ix>, farms: seq<Ix>)
    requires InStages(head) && Within(0, 5, head) && Within(6, 6, block) && Within(6, 6, request)
             && Within(7, 7, farms)
    ensures InStages(head + block + request + farms)
  {
    OneStage(6, block);
    OneStage(6, request);
    OneStage(7, farms);
    StagesAppend(head, block, 0, 5, 6, 6);
    StagesAppend(head + block, request, 0, 6, 6, 6);
    StagesAppend(head + block + request, farms, 0, 6, 7, 7);
  }

  // ---------------------------------------------------------------- nothing after the last refresh

  predicate EndsWith(ixs: seq<Ix>, tail: seq<Ix>) {
    |tail| <= |ixs| && ixs[|ixs| - |tail|..] == tail
  }

  /** Only farm refreshes stand between position p and the last obligation refresh in front of it. */
  ghost predicate FreshAt(ixs: seq<Ix>, p: nat) {
    p <= |ixs| && exists n :: 0 <= n < p && ixs[n].RefreshObligation? && OnlyFarmRefreshes(ixs[n + 1..p])
  }

  lemma {:induction false} EndsFresh(ixs: seq<Ix>, refresh: Ix, farms: seq<Ix>)
    requires refresh.RefreshObligation? && OnlyFarmRefreshes(farms) && EndsWith(ixs, [refresh] + farms)
    ensures FreshAt(ixs, |ixs|) && refresh in ixs
  {
    var n := |ixs| - |farms| - 1;
    assert ixs[n..][0] == refresh && ixs[n..][1..] == farms;
    assert ixs[n + 1..|ixs|] == farms;
  }

  lemma {:induction false} EndsWithSuffix(ixs: seq<Ix>, front: seq<Ix>, tail: seq<Ix>)
    requires EndsWith(ixs, front + tail)
    ensures EndsWith(ixs, tail)
  {
    assert ixs[|ixs| - |tail|..] == ixs[|ixs| - |front + tail|..][|front|..];
  }

  lemma {:induction false} FreshInside(front: seq<Ix>, ixs: seq<Ix>, rest: seq<Ix>)
    requires FreshAt(ixs, |ixs|)
    ensures FreshAt(front + ixs + rest, |front| + |ixs|)
  {
    var n :| 0 <= n < |ixs| && ixs[n].RefreshObligation? && OnlyFarmRefreshes(ixs[n + 1..|ixs|]);
    var all := front + ixs + rest;
    assert all[|front| + n] == ixs[n] && all[|front| + n + 1..|front| + |ixs|] == ixs[n + 1..|ixs|];
  }

  // ---------------------------------------------------------------- the assembled transaction

  /** The lending transaction; the in-between list is used only when there are two lending instructions. */
  function LendingTxn(setup: seq<Ix>, lending: seq<Ix>, inBetween: seq<Ix>, cleanup: seq<Ix>): seq<Ix> {
    if |lending| == 2 then setup + [lending[0]] + inBetween + [lending[1]] + cleanup
    else setup + lending + cleanup
  }

  /** Nothing is lost exactly when there are two lending instructions or nothing to go between them. */
  lemma {:induction false} NothingLost(setup: seq<Ix>, lending: seq<Ix>, inBetween: seq<Ix>, cleanup: seq<Ix>)
    ensures multiset(LendingTxn(setup, lending, inBetween, cleanup))
            == multiset(setup) + multiset(lending) + multiset(inBetween) + multiset(cleanup)
       <==> |lending| == 2 || inBetween == []
  {
    var txn := LendingTxn(setup, lending, inBetween, cleanup);
    if |lending| == 2 {
      assert lending == [lending[0]] + [lending[1]];
    } else {
      assert |multiset(txn)| == |setup| + |lending| + |cleanup|;
      assert |multiset(setup) + multiset(lending) + multiset(inBetween) + multiset(cleanup)|
             == |setup| + |lending| + |inBetween| + |cleanup|;
    }
  }

  /** The farm refreshes between two places come again right behind the instruction at the second. */
  ghost predicate RepeatedBehind(txn: seq<Ix>, from: nat, p: nat) {
    from <= p < |txn| && FarmRefreshes(txn[from..p]) <= txn[p + 1..]
  }

  /** In front of the lending instruction at p every obligation refresh comes after the refreshes it
      needs, and behind it the farm refreshes between `from` and p are repeated. */
  ghost predicate SafeStep(txn: seq<Ix>, from: nat, p: nat) {
    RepeatedBehind(txn, from, p) && RefreshedBeforeUse(txn[..p])
  }

  lemma {:induction false} OneStepTransaction(setup: seq<Ix>, lending: seq<Ix>, cleanup: seq<Ix>)
    requires RefreshedBeforeUse(setup) && FarmRefreshes(setup) <= cleanup && |lending| == 1
    ensures SafeStep(LendingTxn(setup, lending, [], cleanup), 0, |setup|)
  {
    var txn := LendingTxn(setup, lending, [], cleanup);
    assert txn[..|setup|] == txn[0..|setup|] == setup && txn[|setup| + 1..] == cleanup;
  }

  lemma {:induction false} TwoStepTransaction(setup: seq<Ix>, lending: seq<Ix>, inBetween: seq<Ix>, cleanup: seq<Ix>)
    requires RefreshedBeforeUse(setup) && RefreshedBeforeUse(inBetween) && |lending| == 2 && lending[0].Lend?
    requires FarmsInOrder(setup, inBetween, cleanup)
    ensures var txn, p := LendingTxn(setup, lending, inBetween, cleanup), |setup|;
            SafeStep(txn, 0, p) && SafeStep(txn, p + 1 + |FarmRefreshes(setup)|, p + 1 + |inBetween|)
  {
    var txn, p, q := LendingTxn(setup, lending, inBetween, cleanup), |setup|, |setup| + 1 + |inBetween|;
    var farms := FarmRefreshes(setup);
    TwoStepSlices(setup, lending[0], inBetween, lending[1], cleanup, |farms|);
    assert lending == [lending[0], lending[1]];
    OrderKeptByAppend(setup, [lending[0]]);
    OrderKeptByAppend(setup + [lending[0]], inBetween);
    FarmRefreshesBehind(setup, inBetween);
    assert farms <= inBetween + [lending[1]] + cleanup;
    assert FarmRefreshes(inBetween)[|farms|..] == FarmRefreshes(inBetween[|farms|..]);
  }

  lemma {:induction false} TwoStepSlices(setup: seq<Ix>, first: Ix, inBetween: seq<Ix>, second: Ix, cleanup: seq<Ix>,
                                         n: nat)
    requires n <= |inBetween|
    ensures var txn, p, q := LendingTxn(setup, [first, second], inBetween, cleanup), |setup|, |setup| + 1 + |inBetween|;
            && q < |txn| && txn[p] == first && txn[q] == second
            && txn[0..p] == txn[..p] == setup && txn[..q] == setup + [first] + inBetween
            && txn[p + 1..] == inBetween + [second] + cleanup && txn[p + 1 + n..q] == inBetween[n..]
               && txn[q + 1..] == cleanup
  {
  }

  /** When the in-between list starts with the farm refreshes of the setup, the others follow them. */
  lemma {:induction false} FarmRefreshesBehind(setup: seq<Ix>, inBetween: seq<Ix>)
    requires FarmRefreshes(setup) <= inBetween
    ensures FarmRefreshes(inBetween) == FarmRefreshes(setup) + FarmRefreshes(inBetween[|FarmRefreshes(setup)|..])
  {
    var farms := FarmRefreshes(setup);
    FarmRefreshesIdempotent(setup);
    FarmRefreshesAppend(farms, inBetween[|farms|..]);
    assert inBetween == farms + inBetween[|farms|..];
  }

  /** Each lending instruction follows the obligation refresh that its list ends with, farm refreshes aside. */
  lemma {:induction false} FreshTransaction(setup: seq<Ix>, lending: seq<Ix>, inBetween: seq<Ix>, cleanup: seq<Ix>)
    requires 1 <= |lending| <= 2 && FreshAt(setup, |setup|)
    ensures var txn := LendingTxn(setup, lending, inBetween, cleanup);
            && FreshAt(txn, |setup|)
            && (|lending| == 2 && FreshAt(inBetween, |inBetween|) ==> FreshAt(txn, |setup| + 1 + |inBetween|))
  {
    var txn := LendingTxn(setup, lending, inBetween, cleanup);
    FreshInside([], setup, txn[|setup|..]);
    assert txn == [] + setup + txn[|setup|..];
    if |lending| == 2 && FreshAt(inBetween, |inBetween|) {
      FreshInside(setup + [lending[0]], inBetween, [lending[1]] + cleanup);
      assert txn == setup + [lending[0]] + inBetween + ([lending[1]] + cleanup);
    }
  }
}
