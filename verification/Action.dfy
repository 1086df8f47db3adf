/** The instruction assembler (src/classes/action.ts): one object whose lists the builder methods
    push to, put in front of and splice. */
module Action {
  import opened Wrappers
  import opened PublicKeys
  import opened PubkeyMaps
  import opened Instructions
  import opened RealArithmetic
  import Market
  import Obligation

  datatype ActionType =
    | Deposit | Borrow | Withdraw | Repay | Mint | Redeem | DepositCollateral | Liquidate
    | DepositAndBorrow | RepayAndWithdraw | RefreshObligationOnly | RequestElevationGroupOnly

  datatype AuxiliaryIx = Setup | InBetween | Cleanup

  datatype ActionError =
    | ReserveNotFound(key: PublicKey)
    | OutflowReserveUndefined
    | AdditionalTokenAccountNotSet
    | OutflowAmountNotSet
    | BorrowNotFound
    | NoObligation
    | NoDeposit
    | UnknownElevationGroup
    | NoFarmDecision
    | WalletError

  datatype ActionReserve = ActionReserve(
    address: PublicKey,
    farmCollateral: PublicKey,
    farmDebt: PublicKey,
    elevationGroups: seq<nat>)
  {
    function Farm(mode: FarmKind): PublicKey { if mode.Collateral? then farmCollateral else farmDebt }
  }

  datatype ActionMarket = ActionMarket(
    reserves: map<PublicKey, ActionReserve>,
    elevationGroups: seq<Market.ElevationGroup>)
  {
    function ReserveByAddress(address: PublicKey): Option<ActionReserve> {
      if address in reserves then Some(reserves[address]) else None
    }

    predicate Knows(keys: seq<PublicKey>) {
      forall k :: k in keys ==> k in reserves
    }
  }

  /** The loaded obligation: the reserves in its slots, unused ones included, its group, and its borrow
      positions with what they owe. */
  datatype ObligationInfo = ObligationInfo(
    depositSlots: seq<PublicKey>,
    borrowSlots: seq<Obligation.ObligationLiquidity>,
    elevationGroup: nat,
    borrows: map<PublicKey, real>)

  /** The i-th slot is the first of the reserve. */
  ghost predicate IsFirstBorrow(slots: seq<Obligation.ObligationLiquidity>, key: PublicKey, i: int) {
    0 <= i < |slots| && slots[i].borrowReserve == key && forall j :: 0 <= j < i ==> slots[j].borrowReserve != key
  }

  function FindBorrow(slots: seq<Obligation.ObligationLiquidity>, key: PublicKey)
    : (b: Option<Obligation.ObligationLiquidity>)
    ensures b.Some? ==> exists i :: IsFirstBorrow(slots, key, i)
    ensures forall i :: IsFirstBorrow(slots, key, i) ==> b == Some(slots[i])
    ensures b.None? ==> forall s :: s in slots ==> s.borrowReserve != key
  {
    if slots == [] then None
    else if slots[0].borrowReserve == key then
      assert IsFirstBorrow(slots, key, 0);
      Some(slots[0])
    else
      assert forall i :: IsFirstBorrow(slots, key, i) ==> IsFirstBorrow(slots[1..], key, i - 1);
      assert forall i :: IsFirstBorrow(slots[1..], key, i) ==> IsFirstBorrow(slots, key, i + 1);
      FindBorrow(slots[1..], key)
  }

  /** The token-account instructions of an action: in front of the setup and at the end of the cleanup. */
  datatype WalletPlan = WalletPlan(front: seq<nat>, back: seq<nat>, fails: bool)

  /** What the assembler asks the network, and the amounts it is given; any answers are possible. */
  datatype World = World(
    wallet: ActionType -> WalletPlan,
    userMetadataExists: bool,
    referrerStateExists: PublicKey -> bool,
    farmAccountExists: PublicKey -> bool,
    amount: real,
    estimatedCumulativeBorrowRate: real,
    additionalTokenAccountSet: bool,
    outflowAmountSet: bool)

  /** The reserves that take up or give up a slot in the same transaction. */
  datatype Preloaded = Preloaded(deposits: seq<PublicKey>, borrows: seq<PublicKey>)

  /** Everything the support instructions change, as one value. */
  datatype State = State(lists: Lists, kept: seq<Ix>, pre: Preloaded, deposits: seq<PublicKey>)

  /** The options every lending builder takes. */
  datatype BuildOptions = BuildOptions(
    extraComputeBudget: int,
    includeAtaIxns: bool,
    requestElevationGroup: bool,
    includeUserMetadata: bool)

  /** The options of the support instructions. */
  datatype SupportOptions = SupportOptions(
    includeAtaIxns: bool,
    requestElevationGroup: bool,
    addInitObligationForFarm: bool,
    isClosingPosition: bool,
    twoTokenAction: bool,
    overrideElevationGroupRequest: Option<int>)

  /** A list that several variables can refer to. */
  class KeyList {
    var items: seq<PublicKey>

    constructor (items: seq<PublicKey>)
      ensures this.items == items
    {
      this.items := items;
    }

    method Push(key: PublicKey)
      modifies this
      ensures items == old(items) + [key]
    {
      items := items + [key];
    }
  }

  // ---------------------------------------------------------------- the three lists

  datatype Lists = Lists(setup: seq<Ix>, inBetween: seq<Ix>, cleanup: seq<Ix>)
  {
    function Of(kind: AuxiliaryIx): seq<Ix> {
      match kind case Setup => setup case InBetween => inBetween case Cleanup => cleanup
    }

    function Append(kind: AuxiliaryIx, ixs: seq<Ix>): Lists {
      match kind
      case Setup => this.(setup := setup + ixs)
      case InBetween => this.(inBetween := inBetween + ixs)
      case Cleanup => this.(cleanup := cleanup + ixs)
    }

    function Plus(more: Lists): Lists {
      Lists(setup + more.setup, inBetween + more.inBetween, cleanup + more.cleanup)
    }

    /** With what supports an action: a refresh block, the elevation group request, the farm refreshes,
        and those of them that are put in between ahead of time. */
    function Supported(kind: AuxiliaryIx, block: seq<Ix>, request: Lists, farms: seq<Ix>, ahead: seq<Ix>): Lists {
      Append(kind, block).Plus(request).Append(kind, farms).Append(InBetween, ahead)
    }
  }

  /** One list, the others empty. */
  function Only(kind: AuxiliaryIx, ixs: seq<Ix>): Lists { Lists([], [], []).Append(kind, ixs) }

  lemma {:induction false} PlusOnly(l: Lists, kind: AuxiliaryIx, ixs: seq<Ix>)
    ensures l.Plus(Only(kind, ixs)) == l.Append(kind, ixs)
  {
    assert l.setup + [] == l.setup && l.inBetween + [] == l.inBetween && l.cleanup + [] == l.cleanup;
    assert [] + ixs == ixs;
  }

  lemma {:induction false} PlusNothing(l: Lists)
    ensures l.Plus(Only(Setup, [])) == l
  {
    PlusOnly(l, Setup, []);
    assert l.setup + [] == l.setup;
  }

  ghost predicate NoFarms(l: Lists) {
    NoFarmRefresh(l.setup) && NoFarmRefresh(l.inBetween) && NoFarmRefresh(l.cleanup)
  }

  lemma {:induction false} AppendTwice(l: Lists, kind: AuxiliaryIx, xs: seq<Ix>, ys: seq<Ix>)
    ensures l.Append(kind, xs).Append(kind, ys) == l.Append(kind, xs + ys)
  {
    assert l.Of(kind) + xs + ys == l.Of(kind) + (xs + ys);
  }

  // ---------------------------------------------------------------- instructions of several reserves

  /** The farm refreshes of some reserves on one side; a reserve without a farm has none. */
  function FarmIxs(reserves: seq<ActionReserve>, mode: FarmKind, crank: PublicKey): seq<Ix> {
    if reserves == [] then []
    else (if reserves[0].Farm(mode) == DEFAULT then []
          else [RefreshObligationFarm(mode, reserves[0].address, reserves[0].Farm(mode), crank)])
         + FarmIxs(reserves[1..], mode, crank)
  }

  lemma {:induction false} FarmIxsOnly(reserves: seq<ActionReserve>, mode: FarmKind, crank: PublicKey)
    ensures OnlyFarmRefreshes(FarmIxs(reserves, mode, crank))
  {
    if reserves != [] {
      FarmIxsOnly(reserves[1..], mode, crank);
    }
  }

  lemma {:induction false} FarmIxsSnoc(reserves: seq<ActionReserve>, r: ActionReserve, mode: FarmKind, crank: PublicKey)
    ensures FarmIxs(reserves + [r], mode, crank)
         == FarmIxs(reserves, mode, crank)
            + if r.Farm(mode) == DEFAULT then [] else [RefreshObligationFarm(mode, r.address, r.Farm(mode), crank)]
  {
    if reserves == [] {
      assert [r][1..] == [];
    } else {
      FarmIxsSnoc(reserves[1..], r, mode, crank);
      assert (reserves + [r])[1..] == reserves[1..] + [r];
    }
  }

  function Addresses(reserves: seq<ActionReserve>): (keys: seq<PublicKey>)
    ensures |keys| == |reserves| && forall i :: 0 <= i < |keys| ==> keys[i] == reserves[i].address
  {
    seq(|reserves|, i requires 0 <= i < |reserves| => reserves[i].address)
  }

  function WalletIxs(steps: seq<nat>): (ixs: seq<Ix>)
    ensures |ixs| == |steps| && forall i :: 0 <= i < |ixs| ==> ixs[i] == Wallet(steps[i])
  {
    seq(|steps|, i requires 0 <= i < |steps| => Wallet(steps[i]))
  }

  // ---------------------------------------------------------------- elevation groups

  /** The i-th group is the first with this id. */
  ghost predicate IsFirstGroup(groups: seq<Market.ElevationGroup>, id: nat, i: int) {
    0 <= i < |groups| && groups[i].id == id && forall j :: 0 <= j < i ==> groups[j].id != id
  }

  function GroupById(groups: seq<Market.ElevationGroup>, id: nat): (g: Option<Market.ElevationGroup>)
    ensures g.Some? ==> g.value.id == id && g.value in groups
    ensures g.None? ==> forall x :: x in groups ==> x.id != id
    ensures forall i :: IsFirstGroup(groups, id, i) ==> g == Some(groups[i])
  {
    if groups == [] then None
    else if groups[0].id == id then Some(groups[0])
    else
      assert forall i :: IsFirstGroup(groups, id, i) ==> IsFirstGroup(groups[1..], id, i - 1);
      GroupById(groups[1..], id)
  }

  lemma {:induction false} FirstGroupExists(groups: seq<Market.ElevationGroup>, id: nat)
    ensures GroupById(groups, id).Some? <==> exists i :: IsFirstGroup(groups, id, i)
  {
    if groups != [] && groups[0].id != id {
      FirstGroupExists(groups[1..], id);
      if i :| IsFirstGroup(groups[1..], id, i) {
        assert IsFirstGroup(groups, id, i + 1);
      }
      if i :| IsFirstGroup(groups, id, i) {
        assert IsFirstGroup(groups[1..], id, i - 1);
      }
    } else if groups != [] {
      assert IsFirstGroup(groups, id, 0);
    }
  }

  /** What a request has to go by: the groups of the collateral reserve, those of the debt reserve, and
      the debt reserve. */
  datatype ElevationSides = ElevationSides(coll: seq<nat>, debt: seq<nat>, debtReserve: PublicKey)

  /** The debt side lists the group too, so the filter looks it up by its number. */
  predicate LooksUp(sides: ElevationSides, item: nat) {
    item in sides.debt && item != 0
  }

  predicate Common(groups: seq<Market.ElevationGroup>, sides: ElevationSides, item: nat) {
    LooksUp(sides, item) && item <= |groups| && groups[item - 1].debtReserve == sides.debtReserve
  }

  /** The common groups among the first listings of the collateral side, in their order. */
  function CommonAmong(groups: seq<Market.ElevationGroup>, sides: ElevationSides, coll: seq<nat>): (common: seq<nat>)
    ensures forall item :: item in common <==> item in coll && Common(groups, sides, item)
  {
    if coll == [] then []
    else
      var last := coll[|coll| - 1];
      CommonAmong(groups, sides, coll[..|coll| - 1]) + if Common(groups, sides, last) then [last] else []
  }

  predicate LookUpsExist(groups: seq<Market.ElevationGroup>, sides: ElevationSides) {
    forall item :: item in sides.coll && LooksUp(sides, item) ==> item <= |groups|
  }

  /** The filter; it throws exactly when a group both sides list is beyond the configured ones. */
  method CommonElevationGroups(groups: seq<Market.ElevationGroup>, sides: ElevationSides)
      returns (r: Result<seq<nat>, ActionError>)
    ensures r.Ok? <==> LookUpsExist(groups, sides)
    ensures r.Ok? ==> r.value == CommonAmong(groups, sides, sides.coll)
  {
    var common: seq<nat> := [];
    for i := 0 to |sides.coll|
      invariant common == CommonAmong(groups, sides, sides.coll[..i])
      invariant forall k :: 0 <= k < i && LooksUp(sides, sides.coll[k]) ==> sides.coll[k] <= |groups|
    {
      var item := sides.coll[i];
      assert sides.coll[..i + 1][..i] == sides.coll[..i];
      if item in sides.debt && item != 0 {
        if item > |groups| {
          assert item in sides.coll;
          return Err(UnknownElevationGroup);
        }
        if groups[item - 1].debtReserve == sides.debtReserve {
          common := common + [item];
        }
      }
    }
    assert sides.coll[..|sides.coll|] == sides.coll;
    return Ok(common);
  }

  /** A common group with the highest loan-to-value, the last one on a tie. */
  method GroupWithMaxLtv(groups: seq<Market.ElevationGroup>, common: seq<nat>) returns (r: Result<nat, ActionError>)
    requires common != []
    ensures r.Ok? <==> forall id :: id in common ==> GroupById(groups, id).Some?
    ensures r.Ok? ==> r.value in common
    ensures r.Ok? ==>
              forall id :: id in common ==>
                GroupById(groups, id).value.ltvPct <= GroupById(groups, r.value).value.ltvPct
  {
    var best := common[0];
    assert best in common;
    if GroupById(groups, best).None? {
      return Err(UnknownElevationGroup);
    }
    for i := 1 to |common|
      invariant best in common && GroupById(groups, best).Some?
      invariant forall id :: id in common[..i] ==>
                  && GroupById(groups, id).Some?
                  && GroupById(groups, id).value.ltvPct <= GroupById(groups, best).value.ltvPct
    {
      assert common[..i + 1] == common[..i] + [common[i]];
      var prevGroup, currGroup := GroupById(groups, best), GroupById(groups, common[i]);
      if currGroup.None? {
        assert common[i] in common;
        return Err(UnknownElevationGroup);
      }
      best := if prevGroup.value.ltvPct > currGroup.value.ltvPct then best else common[i];
    }
    assert common[..|common|] == common;
    return Ok(best);
  }

  class KaminoAction {
    const market: ActionMarket
    const reserve: ActionReserve
    const outflowReserve: Option<ActionReserve>
    const obligation: Option<ObligationInfo>
    const payer: PublicKey
    const referrer: PublicKey
    const world: World

    const depositReserves: KeyList
    const borrowReserves: seq<PublicKey>

    var preLoadedDepositReservesSameTx: seq<PublicKey>
    var preLoadedBorrowReservesSameTx: seq<PublicKey>
    var potentialElevationGroupUpdate: int

    var setupIxs: seq<Ix>
    var inBetweenIxs: seq<Ix>
    var lendingIxs: seq<Ix>
    var cleanupIxs: seq<Ix>
    var refreshFarmsCleanupTxnIxs: seq<Ix>

    constructor (market: ActionMarket, reserve: ActionReserve, outflowReserve: Option<ActionReserve>,
                 obligation: Option<ObligationInfo>, payer: PublicKey, referrer: PublicKey, world: World,
                 depositReserves: KeyList, borrowReserves: seq<PublicKey>)
      ensures this.market == market && this.reserve == reserve && this.outflowReserve == outflowReserve
      ensures this.obligation == obligation && this.payer == payer && this.referrer == referrer && this.world == world
      ensures this.depositReserves == depositReserves && this.borrowReserves == borrowReserves
      ensures Untouched()
    {
      this.market, this.reserve, this.outflowReserve, this.obligation := market, reserve, outflowReserve, obligation;
      this.payer, this.referrer, this.world := payer, referrer, world;
      this.depositReserves, this.borrowReserves := depositReserves, borrowReserves;
      preLoadedDepositReservesSameTx, preLoadedBorrowReservesSameTx, potentialElevationGroupUpdate := [], [], 0;
      setupIxs, inBetweenIxs, lendingIxs, cleanupIxs, refreshFarmsCleanupTxnIxs := [], [], [], [], [];
    }

    // -------------------------------------------------------------- invariants

    /** As the constructor leaves it. */
    ghost predicate Untouched()
      reads this
    {
      && preLoadedDepositReservesSameTx == [] && preLoadedBorrowReservesSameTx == []
      && setupIxs == [] && inBetweenIxs == [] && lendingIxs == [] && cleanupIxs == []
      && refreshFarmsCleanupTxnIxs == []
    }

    /** What every method keeps: only the action's own reserve is ever preloaded, and both lists refresh
        before use. */
    ghost predicate Valid()
      reads this
    {
      && (forall k :: k in preLoadedDepositReservesSameTx ==> k == reserve.address)
      && RefreshedBeforeUse(setupIxs) && RefreshedBeforeUse(inBetweenIxs)
    }

    /** The deposit list already holds every preloaded reserve. */
    ghost predicate Loaded()
      reads this, depositReserves
    {
      forall k :: k in preLoadedDepositReservesSameTx ==> k in depositReserves.items
    }

    /** Every reserve of the obligation is in one of the two lists. */
    ghost predicate Covering(excluded: seq<PublicKey>, current: seq<PublicKey>)
      reads this, depositReserves
    {
      && (forall k :: k in depositReserves.items ==> k in excluded || k in current)
      && (forall k :: k in borrowReserves ==> k in excluded || k in current)
    }

    ghost function Assembled(): Lists
      reads this
    {
      Lists(setupIxs, inBetweenIxs, cleanupIxs)
    }

    ghost function Now(): State
      reads this, depositReserves
    {
      State(Assembled(), refreshFarmsCleanupTxnIxs, Pre(), depositReserves.items)
    }

    method Push(kind: AuxiliaryIx, ix: Ix)
      modifies this`setupIxs, this`inBetweenIxs, this`cleanupIxs
      ensures Assembled() == old(Assembled()).Append(kind, [ix])
    {
      match kind
      case Setup => setupIxs := setupIxs + [ix];
      case InBetween => inBetweenIxs := inBetweenIxs + [ix];
      case Cleanup => cleanupIxs := cleanupIxs + [ix];
    }

    // -------------------------------------------------------------- refreshes

    method AddRefreshReserveIxs(reserves: seq<PublicKey>, kind: AuxiliaryIx) returns (o: Outcome<ActionError>)
      modifies this`setupIxs, this`inBetweenIxs, this`cleanupIxs
      ensures o.Pass? <==> market.Knows(reserves)
      ensures o.Pass? ==> Assembled() == old(Assembled()).Append(kind, RefreshAll(reserves))
    {
      for i := 0 to |reserves|
        invariant Assembled() == old(Assembled()).Append(kind, RefreshAll(reserves[..i]))
        invariant market.Knows(reserves[..i])
      {
        if market.ReserveByAddress(reserves[i]).None? {
          return Fail(ReserveNotFound(reserves[i]));
        }
        Push(kind, RefreshReserve(reserves[i]));
        assert RefreshAll(reserves[..i + 1]) == RefreshAll(reserves[..i]) + [RefreshReserve(reserves[i])];
      }
      assert reserves[..|reserves|] == reserves;
      return Pass;
    }

    /** The returned list is the object's own: what a caller pushes onto it, the object has. */
    method GetAdditionalDepositReservesList() returns (depositReservesList: KeyList)
      modifies depositReserves
      ensures depositReservesList == depositReserves
      ensures depositReserves.items == InsertAll(old(depositReserves.items), preLoadedDepositReservesSameTx)
    {
      depositReservesList := depositReserves;
      var preloaded := preLoadedDepositReservesSameTx;
      for i := 0 to |preloaded|
        invariant depositReserves.items == InsertAll(old(depositReserves.items), preloaded[..i])
      {
        var found := preloaded[i] in depositReserves.items;
        if !found {
          depositReservesList.Push(preloaded[i]);
        }
        InsertAllSnoc(old(depositReserves.items), preloaded[..i], preloaded[i]);
        assert preloaded[..i + 1] == preloaded[..i] + [preloaded[i]];
      }
      assert preloaded[..|preloaded|] == preloaded;
    }

    function Pre(): Preloaded
      reads this`preLoadedDepositReservesSameTx, this`preLoadedBorrowReservesSameTx
    {
      Preloaded(preLoadedDepositReservesSameTx, preLoadedBorrowReservesSameTx)
    }

    /** The borrow reserves that an obligation refresh names. */
    function OpenBorrowReserves(pre: Preloaded, skipBorrows: bool): seq<PublicKey>
    {
      if skipBorrows then [] else Without(borrowReserves, pre.borrows)
    }

    /** The reserves whose referrer token states it names. */
    function ReferrerStates(pre: Preloaded, skipBorrows: bool): seq<PublicKey>
    {
      if referrer == DEFAULT then [] else OpenBorrowReserves(pre, skipBorrows)
    }

    /** The obligation refresh that names these deposits. */
    function RefreshNaming(pre: Preloaded, deposits: seq<PublicKey>, skipBorrows: bool): Ix
    {
      RefreshObligation(deposits, OpenBorrowReserves(pre, skipBorrows), ReferrerStates(pre, skipBorrows))
    }

    /** The elevation group request that names these deposits. */
    function RequestNaming(pre: Preloaded, group: int, deposits: seq<PublicKey>, skipBorrows: bool): Ix
    {
      RequestElevationGroup(group, deposits, OpenBorrowReserves(pre, skipBorrows), ReferrerStates(pre, skipBorrows))
    }

    method AddRefreshObligationIx(kind: AuxiliaryIx, skipBorrows: bool)
      modifies this`setupIxs, this`inBetweenIxs, this`cleanupIxs, depositReserves
      ensures depositReserves.items == InsertAll(old(depositReserves.items), preLoadedDepositReservesSameTx)
      ensures Assembled() == old(Assembled()).Append(kind, [RefreshNaming(Pre(), depositReserves.items, skipBorrows)])
    {
      var depositReservesList := GetAdditionalDepositReservesList();
      Push(kind, RefreshNaming(Pre(), depositReservesList.items, skipBorrows));
    }

    method AddRequestElevationIx(elevationGroup: int, kind: AuxiliaryIx, skipBorrows: bool)
      modifies this`setupIxs, this`inBetweenIxs, this`cleanupIxs, depositReserves
      ensures depositReserves.items == InsertAll(old(depositReserves.items), preLoadedDepositReservesSameTx)
      ensures Assembled()
           == old(Assembled()).Append(kind, [RequestNaming(Pre(), elevationGroup, depositReserves.items, skipBorrows)])
    {
      var depositReservesList := GetAdditionalDepositReservesList();
      Push(kind, RequestNaming(Pre(), elevationGroup, depositReservesList.items, skipBorrows));
    }

    // -------------------------------------------------------------- farm refreshes

    method CollectFarms(reserves: seq<ActionReserve>, mode: FarmKind, crank: PublicKey) returns (farms: seq<Ix>)
      ensures farms == FarmIxs(reserves, mode, crank)
    {
      farms := [];
      for i := 0 to |reserves|
        invariant farms == FarmIxs(reserves[..i], mode, crank)
      {
        if reserves[i].Farm(mode) != DEFAULT {
          farms := farms + [RefreshObligationFarm(mode, reserves[i].address, reserves[i].Farm(mode), crank)];
        }
        FarmIxsSnoc(reserves[..i], reserves[i], mode, crank);
        assert reserves[..i + 1] == reserves[..i] + [reserves[i]];
      }
      assert reserves[..|reserves|] == reserves;
    }

    /** Where farm refreshes go besides their own list: in between, ahead of time, for the setup of a
        two-token action, and otherwise to the cleanup. */
    predicate GoesInBetween(kind: AuxiliaryIx, twoTokenAction: bool) {
      kind.InBetween? || (kind.Setup? && twoTokenAction)
    }

    predicate GoesToCleanup(kind: AuxiliaryIx, twoTokenAction: bool) {
      kind.InBetween? || (kind.Setup? && !twoTokenAction)
    }

    method PushFarm(ix: Ix, kind: AuxiliaryIx, twoTokenAction: bool)
      modifies this`setupIxs, this`inBetweenIxs, this`refreshFarmsCleanupTxnIxs
      ensures setupIxs == old(setupIxs) + When(kind.Setup?, [ix])
      ensures inBetweenIxs == old(inBetweenIxs) + When(GoesInBetween(kind, twoTokenAction), [ix])
      ensures refreshFarmsCleanupTxnIxs
              == old(refreshFarmsCleanupTxnIxs) + When(GoesToCleanup(kind, twoTokenAction), [ix])
    {
      if kind.Setup? {
        setupIxs := setupIxs + [ix];
        if twoTokenAction {
          inBetweenIxs := inBetweenIxs + [ix];
        } else {
          refreshFarmsCleanupTxnIxs := refreshFarmsCleanupTxnIxs + [ix];
        }
      } else if kind.InBetween? {
        inBetweenIxs := inBetweenIxs + [ix];
        refreshFarmsCleanupTxnIxs := refreshFarmsCleanupTxnIxs + [ix];
      }
    }

    method AddRefreshFarmsForReserve(reserves: seq<ActionReserve>, kind: AuxiliaryIx, mode: FarmKind, crank: PublicKey,
                                     twoTokenAction: bool)
      modifies this`setupIxs, this`inBetweenIxs, this`refreshFarmsCleanupTxnIxs
      ensures setupIxs == old(setupIxs) + When(kind.Setup?, FarmIxs(reserves, mode, crank))
      ensures inBetweenIxs
           == old(inBetweenIxs) + When(GoesInBetween(kind, twoTokenAction), FarmIxs(reserves, mode, crank))
      ensures refreshFarmsCleanupTxnIxs
           == old(refreshFarmsCleanupTxnIxs) + When(GoesToCleanup(kind, twoTokenAction), FarmIxs(reserves, mode, crank))
    {
      var farms := CollectFarms(reserves, mode, crank);
      ghost var s, b, r := setupIxs, inBetweenIxs, refreshFarmsCleanupTxnIxs;
      for i := 0 to |farms|
        invariant setupIxs == s + When(kind.Setup?, farms[..i])
        invariant inBetweenIxs == b + When(GoesInBetween(kind, twoTokenAction), farms[..i])
        invariant refreshFarmsCleanupTxnIxs == r + When(GoesToCleanup(kind, twoTokenAction), farms[..i])
      {
        PushFarm(farms[i], kind, twoTokenAction);
        WhenSnoc(s, kind.Setup?, farms, i);
        WhenSnoc(b, GoesInBetween(kind, twoTokenAction), farms, i);
        WhenSnoc(r, GoesToCleanup(kind, twoTokenAction), farms, i);
      }
      assert farms[..|farms|] == farms;
    }

    method AddRefreshFarmsCleanupTxnIxsToCleanupIxs()
      modifies this`cleanupIxs
      ensures cleanupIxs == refreshFarmsCleanupTxnIxs + old(cleanupIxs)
    {
      cleanupIxs := refreshFarmsCleanupTxnIxs + cleanupIxs;
    }

    // -------------------------------------------------------------- set-up instructions

    method AddComputeBudgetIxn(units: int)
      modifies this`setupIxs
      ensures setupIxs == old(setupIxs) + [ComputeBudget(units)]
    {
      setupIxs := setupIxs + [ComputeBudget(units)];
    }

    predicate NeedsFarmAccount(r: ActionReserve, mode: FarmKind) {
      IsNotNullPubkey(r.Farm(mode)) && !world.farmAccountExists(r.Farm(mode))
    }

    function InitFarmIx(r: ActionReserve, mode: FarmKind): seq<Ix> {
      When(NeedsFarmAccount(r, mode), [InitObligationFarm(mode, r.address, r.Farm(mode))])
    }

    method AddInitObligationForFarm(r: ActionReserve, mode: FarmKind, kind: AuxiliaryIx)
      requires !kind.Cleanup?
      modifies this`setupIxs, this`inBetweenIxs, this`cleanupIxs
      ensures Assembled() == old(Assembled()).Append(kind, InitFarmIx(r, mode))
    {
      assert Assembled() == Assembled().Append(kind, []);
      if IsNotNullPubkey(r.Farm(mode)) && !world.farmAccountExists(r.Farm(mode)) {
        Push(kind, InitObligationFarm(mode, r.address, r.Farm(mode)));
      }
    }

    /** The sides on which the own and the outflow reserve may need a farm account. */
    function FarmSides(action: ActionType): ((FarmKind, Option<FarmKind>), (FarmKind, Option<FarmKind>)) {
      match action
      case Liquidate | RepayAndWithdraw | Borrow | Repay => ((Debt, None), (Collateral, None))
      case DepositAndBorrow | DepositCollateral | Withdraw | Deposit => ((Collateral, None), (Debt, None))
      case _ => ((Collateral, Some(Debt)), (Collateral, Some(Debt)))
    }

    function SideIxs(r: ActionReserve, sides: (FarmKind, Option<FarmKind>)): seq<Ix> {
      InitFarmIx(r, sides.0) + if sides.1.Some? then InitFarmIx(r, sides.1.value) else []
    }

    /** The farm accounts an action may have to create for one of its reserves. */
    method AddInitObligationForFarms(r: ActionReserve, sides: (FarmKind, Option<FarmKind>), kind: AuxiliaryIx)
      requires !kind.Cleanup?
      modifies this`setupIxs, this`inBetweenIxs, this`cleanupIxs
      ensures Assembled() == old(Assembled()).Append(kind, SideIxs(r, sides))
    {
      ghost var before := Assembled();
      AddInitObligationForFarm(r, sides.0, kind);
      if sides.1.Some? {
        AddInitObligationForFarm(r, sides.1.value, kind);
        AppendTwice(before, kind, InitFarmIx(r, sides.0), InitFarmIx(r, sides.1.value));
      }
    }

    function InitFarmsOf(action: ActionType): seq<Ix> {
      SideIxs(reserve, FarmSides(action).0)
      + if outflowReserve.Some? then SideIxs(outflowReserve.value, FarmSides(action).1) else []
    }

    lemma {:induction false} InitFarmsNeutral(action: ActionType)
      ensures Neutral(InitFarmsOf(action))
    {
      var (own, outflow) := FarmSides(action);
      SidesNeutral(reserve, own);
      if outflowReserve.Some? {
        SidesNeutral(outflowReserve.value, outflow);
        NeutralAppend(SideIxs(reserve, own), SideIxs(outflowReserve.value, outflow));
      }
    }

    lemma {:induction false} SidesNeutral(r: ActionReserve, sides: (FarmKind, Option<FarmKind>))
      ensures Neutral(SideIxs(r, sides))
    {
    }

    method AddInitObligationsForFarms(action: ActionType, kind: AuxiliaryIx)
      requires !kind.Cleanup?
      modifies this`setupIxs, this`inBetweenIxs, this`cleanupIxs
      ensures Assembled() == old(Assembled()).Append(kind, InitFarmsOf(action))
    {
      ghost var before := Assembled();
      var (own, outflow) := FarmSides(action);
      AddInitObligationForFarms(reserve, own, kind);
      if outflowReserve.Some? {
        AddInitObligationForFarms(outflowReserve.value, outflow, kind);
        AppendTwice(before, kind, SideIxs(reserve, own), SideIxs(outflowReserve.value, outflow));
      }
    }

    /** Wallet instructions go in front of the setup and at the end of the cleanup. */
    method AddAtaIxs(action: ActionType) returns (o: Outcome<ActionError>)
      modifies this`setupIxs, this`cleanupIxs
      ensures o.Pass? <==> !world.wallet(action).fails
      ensures o.Pass? ==> setupIxs == WalletIxs(world.wallet(action).front) + old(setupIxs)
      ensures o.Pass? ==> cleanupIxs == old(cleanupIxs) + WalletIxs(world.wallet(action).back)
    {
      var plan := world.wallet(action);
      if plan.fails {
        return Fail(WalletError);
      }
      setupIxs := WalletIxs(plan.front) + setupIxs;
      cleanupIxs := cleanupIxs + WalletIxs(plan.back);
      return Pass;
    }

    /** The referrer's missing token states, each put in front of those before it. */
    function ReferrerInits(reserves: seq<PublicKey>): seq<Ix> {
      if reserves == [] then []
      else
        var last := reserves[|reserves| - 1];
        When(!world.referrerStateExists(last), [InitReferrerTokenState(last)])
          + ReferrerInits(reserves[..|reserves| - 1])
    }

    lemma {:induction false} ReferrerInitsNeutral(reserves: seq<PublicKey>)
      ensures Neutral(ReferrerInits(reserves))
    {
      if reserves != [] {
        ReferrerInitsNeutral(reserves[..|reserves| - 1]);
      }
    }

    lemma {:induction false} ReferrerInitsSnoc(reserves: seq<PublicKey>, i: nat, rest: seq<Ix>)
      requires i < |reserves|
      ensures var added := if world.referrerStateExists(reserves[i]) then [] else [InitReferrerTokenState(reserves[i])];
              ReferrerInits(reserves[..i + 1]) + rest == added + (ReferrerInits(reserves[..i]) + rest)
    {
      var added := if world.referrerStateExists(reserves[i]) then [] else [InitReferrerTokenState(reserves[i])];
      assert reserves[..i + 1][..i] == reserves[..i];
      assert added + ReferrerInits(reserves[..i]) + rest == added + (ReferrerInits(reserves[..i]) + rest);
    }

    function ReferrerReserves(): seq<PublicKey> {
      if referrer == DEFAULT then []
      else Unique([reserve.address] + if outflowReserve.Some? then [outflowReserve.value.address] else [])
    }

    method AddInitReferrerTokenStateIxs()
      modifies this`setupIxs
      ensures setupIxs == ReferrerInits(ReferrerReserves()) + old(setupIxs)
    {
      if referrer == DEFAULT {
        return;
      }
      var reserves := ReferrerReserves();
      for i := 0 to |reserves|
        invariant setupIxs == ReferrerInits(reserves[..i]) + old(setupIxs)
      {
        ReferrerInitsSnoc(reserves, i, old(setupIxs));
        if !world.referrerStateExists(reserves[i]) {
          setupIxs := [InitReferrerTokenState(reserves[i])] + setupIxs;
        } else {
          assert [] + setupIxs == setupIxs;
        }
      }
      assert reserves[..|reserves|] == reserves;
    }

    function MetadataIxs(includeUserMetadata: bool): seq<Ix> {
      When(!world.userMetadataExists && includeUserMetadata, [CreateLookupTable, InitUserMetadata])
    }

    /** The setup list before the wallet and the refreshes are added. */
    function Prelude(before: seq<Ix>, action: ActionType, includeUserMetadata: bool): seq<Ix> {
      if action.Mint? || action.Redeem? then before
      else ReferrerInits(ReferrerReserves()) + (before + MetadataIxs(includeUserMetadata))
           + When(obligation.None?, [InitObligation])
    }

    function WithPrelude(before: Lists, action: ActionType, includeUserMetadata: bool): Lists {
      before.(setup := Prelude(before.setup, action, includeUserMetadata))
    }

    lemma {:induction false} PreludeNeutral(before: Lists, action: ActionType, includeUserMetadata: bool,
                                            includeAtaIxns: bool)
      requires Neutral(before.setup)
      ensures Neutral(Prelude(before.setup, action, includeUserMetadata))
      ensures Neutral(WithWallet(WithPrelude(before, action, includeUserMetadata), action, includeAtaIxns).setup)
    {
      var inits, metadata := ReferrerInits(ReferrerReserves()), MetadataIxs(includeUserMetadata);
      ReferrerInitsNeutral(ReferrerReserves());
      NeutralAppend(before.setup, metadata);
      NeutralAppend(inits, before.setup + metadata);
      NeutralAppend(inits + (before.setup + metadata), When(obligation.None?, [InitObligation]));
      NeutralAppend(WalletIxs(world.wallet(action).front), Prelude(before.setup, action, includeUserMetadata));
    }

    method AddInitUserMetadataIxs()
      modifies this`setupIxs
      ensures setupIxs == old(setupIxs) + [CreateLookupTable, InitUserMetadata]
    {
      setupIxs := setupIxs + [CreateLookupTable];
      setupIxs := setupIxs + [InitUserMetadata];
    }

    method AddInitObligationIxs()
      modifies this`setupIxs
      ensures setupIxs == old(setupIxs) + When(obligation.None?, [InitObligation])
    {
      if obligation.None? {
        setupIxs := setupIxs + [InitObligation];
      }
    }

    method AddPrelude(action: ActionType, includeUserMetadata: bool)
      modifies this`setupIxs
      ensures setupIxs == Prelude(old(setupIxs), action, includeUserMetadata)
    {
      if !action.Mint? && !action.Redeem? {
        assert setupIxs + [] == setupIxs;
        if !world.userMetadataExists && includeUserMetadata {
          AddInitUserMetadataIxs();
        }
        AddInitReferrerTokenStateIxs();
        AddInitObligationIxs();
      }
    }

    // -------------------------------------------------------------- the current reserves

    /** The actions that refresh the obligation. */
    predicate Refreshes(action: ActionType) {
      !action.Mint? && !action.Redeem? && !action.RequestElevationGroupOnly?
    }

    predicate TwoReserves(action: ActionType) {
      action.Liquidate? || action.DepositAndBorrow? || action.RepayAndWithdraw?
    }

    /** The second reserve is there when the action has one. */
    predicate HasReserves(action: ActionType) {
      TwoReserves(action) ==> outflowReserve.Some?
    }

    function Outflow(): seq<ActionReserve> {
      if outflowReserve.Some? then [outflowReserve.value] else []
    }

    /** The reserves an action works on. */
    function CurrentReserves(action: ActionType): seq<ActionReserve> {
      match action
      case DepositAndBorrow | RepayAndWithdraw => [reserve] + Outflow()
      case Liquidate =>
        if outflowReserve.Some? && outflowReserve.value.address != reserve.address then Outflow() + [reserve]
          else [reserve]
      case _ => [reserve]
    }

    function CurrentAddresses(action: ActionType): seq<PublicKey> {
      Unique(Addresses(CurrentReserves(action)))
    }

    lemma {:induction false} OwnIsCurrent(action: ActionType)
      ensures reserve.address in CurrentAddresses(action)
    {
      var rs := CurrentReserves(action);
      UniqueLaws(Addresses(rs));
      var i := if action.Liquidate? then |rs| - 1 else 0;
      assert rs[i] == reserve && Addresses(rs)[i] == reserve.address;
    }

    /** The deposit of the action opens a slot that the obligation account does not show yet. */
    predicate OpensSlot(action: ActionType) {
      action.DepositAndBorrow? && (obligation.None? || reserve.address !in obligation.value.depositSlots)
    }

    /** The borrow slot that a repay-and-withdraw pays into. */
    function RepaidSlot(): Option<Obligation.ObligationLiquidity> {
      if obligation.None? then None else FindBorrow(obligation.value.borrowSlots, reserve.address)
    }

    /** The amount covers the slot's debt at the reserve's estimated cumulative rate. */
    predicate RepaysInFull(slot: Obligation.ObligationLiquidity) {
      Times(slot.borrowedAmount, world.estimatedCumulativeBorrowRate) / slot.cumulativeBorrowRate <= world.amount
    }

    /** When the current reserves can be worked out. */
    predicate Selectable(action: ActionType) {
      HasReserves(action) && (action.RepayAndWithdraw? && obligation.Some? ==> RepaidSlot().Some?)
    }

    /** The preloaded reserves of an action: a deposit that opens a slot, or a repayment that closes one,
        because the obligation account does not show it yet. */
    function Selected(pre: Preloaded, action: ActionType): Preloaded {
      if OpensSlot(action) || (action.RepayAndWithdraw? && obligation.None?)
      then pre.(deposits := pre.deposits + [reserve.address])
      else if action.RepayAndWithdraw? && RepaidSlot().Some? && RepaysInFull(RepaidSlot().value)
      then pre.(borrows := pre.borrows + [reserve.address])
      else pre
    }

    /** Works out the current reserves. */
    method SelectCurrentReserves(action: ActionType) returns (o: Outcome<ActionError>)
      modifies this`preLoadedDepositReservesSameTx, this`preLoadedBorrowReservesSameTx
      ensures o.Pass? <==> Selectable(action)
      ensures o.Pass? ==> Pre() == Selected(old(Pre()), action)
    {
      if TwoReserves(action) {
        if outflowReserve.None? {
          return Fail(OutflowReserveUndefined);
        }
        if action.DepositAndBorrow? || action.RepayAndWithdraw? {
          if obligation.None? {
            preLoadedDepositReservesSameTx := preLoadedDepositReservesSameTx + [reserve.address];
          } else if action.DepositAndBorrow? {
            if reserve.address !in obligation.value.depositSlots {
              preLoadedDepositReservesSameTx := preLoadedDepositReservesSameTx + [reserve.address];
            }
          } else {
            var borrow := FindBorrow(obligation.value.borrowSlots, reserve.address);
            if borrow.None? {
              return Fail(BorrowNotFound);
            }
            if RepaysInFull(borrow.value) {
              preLoadedBorrowReservesSameTx := preLoadedBorrowReservesSameTx + [reserve.address];
            }
          }
        }
      }
      return Pass;
    }

    // -------------------------------------------------------------- requesting an elevation group

    /** The request of a group, then refreshes of everything and of the obligation. */
    function RequestBlock(pre: Preloaded, group: int, deposits: seq<PublicKey>, excluded: seq<PublicKey>,
                          current: seq<PublicKey>): seq<Ix>
    {
      [RequestNaming(pre, group, deposits, false)] + RefreshAll(excluded) + RefreshAll(current)
        + [RefreshNaming(pre, deposits, false)]
    }

    /** After the last debt is repaid: the refreshes without the borrow, then the request. */
    function LeaveBlock(pre: Preloaded, group: int, deposits: seq<PublicKey>, excluded: seq<PublicKey>): seq<Ix>
    {
      RefreshAll(excluded) + [RefreshNaming(pre, deposits, true)] + [RequestNaming(pre, group, deposits, true)]
    }

    method RequestAndRefresh(group: int, kind: AuxiliaryIx, excluded: seq<PublicKey>, current: seq<PublicKey>)
      requires Valid() && !kind.Cleanup?
      requires Loaded() && Covering(excluded, current)
      requires market.Knows(excluded) && market.Knows(current)
      modifies this`setupIxs, this`inBetweenIxs, this`cleanupIxs, depositReserves
      ensures Valid() && depositReserves.items == old(depositReserves.items)
      ensures Assembled()
              == old(Assembled()).Append(kind, RequestBlock(Pre(), group, depositReserves.items, excluded, current))
    {
      InsertAllIdempotent(depositReserves.items, preLoadedDepositReservesSameTx);
      ghost var before := Assembled();
      ghost var request, refresh := RequestNaming(Pre(), group, depositReserves.items, false),
                                RefreshNaming(Pre(), depositReserves.items, false);
      AddRequestElevationIx(group, kind, false);
      var o := AddRefreshReserveIxs(excluded, kind);
      o := AddRefreshReserveIxs(current, kind);
      AddRefreshObligationIx(kind, false);
      AppendTwice(before, kind, [request], RefreshAll(excluded));
      AppendTwice(before, kind, [request] + RefreshAll(excluded), RefreshAll(current));
      AppendTwice(before, kind, [request] + RefreshAll(excluded) + RefreshAll(current), [refresh]);
      assert RequestBlock(Pre(), group, depositReserves.items, excluded, current)
          == [request] + RefreshAll(excluded) + [] + RefreshAll(current) + [refresh];
      BlockKeepsOrder(before.Of(kind), [request], excluded, [], current, refresh);
    }

    method RequestAfterRepay(group: int, excluded: seq<PublicKey>)
      requires Valid() && Loaded() && market.Knows(excluded)
      modifies this`setupIxs, this`inBetweenIxs, this`cleanupIxs, depositReserves
      ensures Valid() && depositReserves.items == old(depositReserves.items)
      ensures Assembled() == old(Assembled()).Append(Cleanup, LeaveBlock(Pre(), group, depositReserves.items, excluded))
    {
      InsertAllIdempotent(depositReserves.items, preLoadedDepositReservesSameTx);
      ghost var before := Assembled();
      ghost var refresh, request := RefreshNaming(Pre(), depositReserves.items, true),
                                RequestNaming(Pre(), group, depositReserves.items, true);
      var o := AddRefreshReserveIxs(excluded, Cleanup);
      AddRefreshObligationIx(Cleanup, true);
      AddRequestElevationIx(group, Cleanup, true);
      AppendTwice(before, Cleanup, RefreshAll(excluded), [refresh]);
      AppendTwice(before, Cleanup, RefreshAll(excluded) + [refresh], [request]);
    }

    predicate ChangesGroup(group: int) {
      obligation.None? || group != obligation.value.elevationGroup
    }

    /** The repayment clears the only debt of an obligation that is in a group. */
    predicate LeavesGroup() {
      && obligation.Some? && reserve.address in obligation.value.borrows
      && obligation.value.borrows[reserve.address] <= world.amount
      && |obligation.value.borrows| == 1 && obligation.value.elevationGroup != 0
    }

    function SidesOf(action: ActionType): Result<ElevationSides, ActionError> {
      if action.DepositAndBorrow? then
        if outflowReserve.None? then Err(OutflowReserveUndefined)
        else Ok(ElevationSides(reserve.elevationGroups, outflowReserve.value.elevationGroups,
                               outflowReserve.value.address))
      else if obligation.None? then Err(NoObligation)
      else
        var used := Without(obligation.value.depositSlots, [DEFAULT]);
        if used == [] then Err(NoDeposit)
        else
          match market.ReserveByAddress(used[0])
          case None => Err(ReserveNotFound(used[0]))
          case Some(collReserve) => Ok(ElevationSides(collReserve.elevationGroups, reserve.elevationGroups,
                                                      reserve.address))
    }

    function Ltv(group: nat): Option<nat> {
      match GroupById(market.elevationGroups, group)
      case Some(g) => Some(g.ltvPct)
      case None => None
    }

    /** A group both sides have, with the debt reserve as its own, and none such has a higher LTV. */
    ghost predicate BestGroup(sides: ElevationSides, group: int) {
      && group in sides.coll && Common(market.elevationGroups, sides, group) && Ltv(group).Some?
      && forall id :: id in sides.coll && Common(market.elevationGroups, sides, id) ==>
           Ltv(id).Some? && Ltv(id).value <= Ltv(group).value
    }

    /** No group is asked for: the sides share none, or the obligation is already in the best. */
    ghost predicate NothingToGain(sides: ElevationSides) {
      || (forall id :: id in sides.coll ==> !Common(market.elevationGroups, sides, id))
      || (exists group: nat :: BestGroup(sides, group) && !ChangesGroup(group))
    }

    /** When a group can be chosen: both sides are known, and so are the groups they share. */
    ghost predicate Choosable(action: ActionType, override: Option<int>) {
      override.Some?
      || (SidesOf(action).Ok? && var sides := SidesOf(action).value;
          && LookUpsExist(market.elevationGroups, sides)
          && forall id :: id in sides.coll && Common(market.elevationGroups, sides, id) ==> Ltv(id).Some?)
    }

    /** The group a borrow asks for, or -1 for none, and the list the request goes to. */
    method ChooseElevationGroup(action: ActionType, override: Option<int>)
        returns (r: Result<(int, AuxiliaryIx), ActionError>)
      requires action.Borrow? || action.DepositAndBorrow?
      ensures r.Ok? <==> Choosable(action, override)
      ensures r.Ok? ==> r.value.1 == RequestList(action, override)
      ensures r.Ok? && override.Some? ==> r.value.0 == override.value
      ensures r.Ok? && override.None? ==>
                if r.value.0 == -1 then NothingToGain(SidesOf(action).value)
                else r.value.0 >= 0 && BestGroup(SidesOf(action).value, r.value.0) && ChangesGroup(r.value.0)
    {
      if override.Some? {
        return Ok((override.value, Setup));
      }
      var kind := if action.DepositAndBorrow? then InBetween else Setup;
      var sides := SidesOf(action);
      if sides.Err? {
        return Err(sides.error);
      }
      var common := CommonElevationGroups(market.elevationGroups, sides.value);
      if common.Err? {
        return Err(common.error);
      }
      if common.value == [] {
        forall id | id in sides.value.coll ensures !Common(market.elevationGroups, sides.value, id) {
          assert id !in common.value;
        }
        return Ok((-1, kind));
      }
      var best := GroupWithMaxLtv(market.elevationGroups, common.value);
      if best.Err? {
        return Err(best.error);
      }
      assert BestGroup(sides.value, best.value);
      return Ok((if ChangesGroup(best.value) then best.value else -1, kind));
    }

    /** Notes on the obligation that the group is about to change. */
    method NoteElevationGroup(group: int) returns (o: Outcome<ActionError>)
      modifies this`potentialElevationGroupUpdate
      ensures o.Pass? <==> obligation.Some?
      ensures potentialElevationGroupUpdate == if obligation.Some? then group else old(potentialElevationGroupUpdate)
    {
      if obligation.None? {
        return Fail(NoObligation);
      }
      potentialElevationGroupUpdate := group;
      return Pass;
    }

    /** The list a request goes to. */
    function RequestList(action: ActionType, override: Option<int>): AuxiliaryIx {
      if action.Repay? then Cleanup else if action.DepositAndBorrow? && override.None? then InBetween else Setup
    }

    /** The group, if any, that an action requests. Only a borrow without an override has to choose. */
    ghost predicate Decides(action: ActionType, override: Option<int>, requested: Option<int>) {
      match action
      case Repay => requested == if LeavesGroup() then Some(if override.Some? then override.value else 0) else None
      case Deposit => requested == if override.Some? && ChangesGroup(override.value) then override else None
      case Borrow | DepositAndBorrow =>
        if override.Some? then
          requested == if override.value >= 0 && ChangesGroup(override.value) then override else None
        else
          SidesOf(action).Ok?
          && if requested.None? then NothingToGain(SidesOf(action).value)
             else BestGroup(SidesOf(action).value, requested.value) && ChangesGroup(requested.value)
      case _ => requested.None?
    }

    /** The group noted on the obligation: that of a borrow's request. */
    function Noted(action: ActionType, requested: Option<int>, before: int): int {
      if action.Borrow? && requested.Some? then requested.value else before
    }

    /** What the request adds to the three lists. */
    function RequestLists(pre: Preloaded, action: ActionType, override: Option<int>, requested: Option<int>,
                          deposits: seq<PublicKey>, excluded: seq<PublicKey>, current: seq<PublicKey>): Lists
    {
      if requested.None? then Only(Setup, [])
      else if action.Repay? then Only(Cleanup, LeaveBlock(pre, requested.value, deposits, excluded))
      else Only(RequestList(action, override), RequestBlock(pre, requested.value, deposits, excluded, current))
    }

    /** When the request does not throw. */
    ghost predicate Requestable(action: ActionType, override: Option<int>) {
      match action
      case Repay => obligation.Some? && reserve.address in obligation.value.borrows
      case DepositAndBorrow => Choosable(action, override)
      case Borrow => Choosable(action, override) && (override.Some? && override.value >= 0 ==> obligation.Some?)
      case _ => true
    }

    /** The request of an elevation group, when the action calls for one. */
    method RequestElevation(action: ActionType, override: Option<int>, excluded: seq<PublicKey>,
                            current: seq<PublicKey>)
        returns (o: Outcome<ActionError>, ghost requested: Option<int>)
      requires Valid() && Loaded() && Covering(excluded, current)
      requires market.Knows(excluded) && market.Knows(current)
      modifies this`setupIxs, this`inBetweenIxs, this`cleanupIxs, this`potentialElevationGroupUpdate, depositReserves
      ensures o.Pass? <==> Requestable(action, override)
      ensures o.Fail? || Valid()
      ensures o.Pass? ==> depositReserves.items == old(depositReserves.items)
      ensures o.Pass? ==> Decides(action, override, requested)
      ensures o.Pass? ==>
                Assembled() == old(Assembled()).Plus(
                                 RequestLists(Pre(), action, override, requested, depositReserves.items, excluded,
                                              current))
      ensures o.Pass? ==> potentialElevationGroupUpdate == Noted(action, requested, old(potentialElevationGroupUpdate))
    {
      ghost var before, deposits := Assembled(), depositReserves.items;
      requested := None;
      PlusNothing(before);
      if action.Repay? {
        if obligation.None? {
          return Fail(NoObligation), None;
        }
        if reserve.address !in obligation.value.borrows {
          return Fail(BorrowNotFound), None;
        }
        if obligation.value.borrows[reserve.address] <= world.amount && |obligation.value.borrows| == 1
           && obligation.value.elevationGroup != 0 {
          var group := if override.Some? then override.value else 0;
          RequestAfterRepay(group, excluded);
          PlusOnly(before, Cleanup, LeaveBlock(Pre(), group, deposits, excluded));
          requested := Some(group);
        }
      } else if action.DepositAndBorrow? || action.Borrow? {
        o, requested := RequestForBorrow(action, override, excluded, current);
        return;
      } else if action.Deposit? && override.Some? && ChangesGroup(override.value) {
        RequestAndRefresh(override.value, Setup, excluded, current);
        PlusOnly(before, Setup, RequestBlock(Pre(), override.value, deposits, excluded, current));
        requested := override;
      }
      return Pass, requested;
    }

    /** The request of a borrow, on its own or with a deposit. */
    method RequestForBorrow(action: ActionType, override: Option<int>, excluded: seq<PublicKey>,
                            current: seq<PublicKey>)
        returns (o: Outcome<ActionError>, ghost requested: Option<int>)
      requires action.Borrow? || action.DepositAndBorrow?
      requires Valid() && Loaded() && Covering(excluded, current)
      requires market.Knows(excluded) && market.Knows(current)
      modifies this`setupIxs, this`inBetweenIxs, this`cleanupIxs, this`potentialElevationGroupUpdate, depositReserves
      ensures o.Pass? <==> Requestable(action, override)
      ensures o.Fail? || Valid()
      ensures o.Pass? ==> depositReserves.items == old(depositReserves.items)
      ensures o.Pass? ==> Decides(action, override, requested)
      ensures o.Pass? ==>
                Assembled() == old(Assembled()).Plus(
                                 RequestLists(Pre(), action, override, requested, depositReserves.items, excluded,
                                              current))
      ensures o.Pass? ==> potentialElevationGroupUpdate == Noted(action, requested, old(potentialElevationGroupUpdate))
    {
      ghost var before, deposits := Assembled(), depositReserves.items;
      PlusNothing(before);
      var choice := ChooseElevationGroup(action, override);
      if choice.Err? {
        return Fail(choice.error), None;
      }
      var (group, kind) := choice.value;
      if group < 0 || !ChangesGroup(group) {
        return Pass, None;
      }
      RequestAndRefresh(group, kind, excluded, current);
      PlusOnly(before, kind, RequestBlock(Pre(), group, deposits, excluded, current));
      o := Pass;
      if action.Borrow? {
        o := NoteElevationGroup(group);
      }
      requested := Some(group);
    }

    /** A request has no farm refresh, touches one list at most, and leaves refreshes of the current reserves
        and of the obligation at its end. */
    lemma {:induction false} RequestLaws(pre: Preloaded, action: ActionType, override: Option<int>,
                                         requested: Option<int>,
                                         deposits: seq<PublicKey>, excluded: seq<PublicKey>, current: seq<PublicKey>)
      ensures var l := RequestLists(pre, action, override, requested, deposits, excluded, current);
              && NoFarms(l)
              && (l.setup == [] || EndsWith(l.setup, RefreshAll(current) + [RefreshNaming(pre, deposits, false)]))
              && (l.inBetween == []
                  || EndsWith(l.inBetween, RefreshAll(current) + [RefreshNaming(pre, deposits, false)]))
              && (l.inBetween != [] ==> RequestList(action, override).InBetween?)
              && (l.setup != [] ==> RequestList(action, override).Setup?)
    {
      if requested.Some? {
        var refresh := RefreshNaming(pre, deposits, false);
        RefreshAllNeutral(excluded);
        RefreshAllNeutral(current);
        EndsWithCurrent([RequestNaming(pre, requested.value, deposits, false)] + RefreshAll(excluded),
                        RefreshAll(current), refresh);
      }
    }

    // -------------------------------------------------------------- the refresh block

    /** The lists with the wallet instructions of an action around them. */
    function WithWallet(before: Lists, action: ActionType, includeAtaIxns: bool): Lists {
      if !includeAtaIxns then before
      else Lists(WalletIxs(world.wallet(action).front) + before.setup, before.inBetween,
                 before.cleanup + WalletIxs(world.wallet(action).back))
    }

    /** The borrows are left out of the obligation refresh after a repayment that closes the position. */
    predicate SkipsBorrows(action: ActionType, kind: AuxiliaryIx, isClosingPosition: bool) {
      action.RepayAndWithdraw? && kind.InBetween? && isClosingPosition
    }

    /** The deposits the object knows of once the preloaded ones are on its list. */
    function KnownDeposits(pre: Preloaded, deposits: seq<PublicKey>): seq<PublicKey>
    {
      InsertAll(deposits, pre.deposits)
    }

    /** Refreshes of all reserves, with the farm accounts in the middle, and of the obligation. */
    function Block(pre: Preloaded, deposits: seq<PublicKey>, excluded: seq<PublicKey>, current: seq<PublicKey>,
                   farms: seq<Ix>, skipBorrows: bool): seq<Ix>
    {
      [] + RefreshAll(excluded) + farms + RefreshAll(current)
        + [RefreshNaming(pre, KnownDeposits(pre, deposits), skipBorrows)]
    }

    /** The refreshes of reserves, with the farm accounts in the middle. */
    method AddReserveRefreshes(action: ActionType, kind: AuxiliaryIx, excluded: seq<PublicKey>,
                               current: seq<PublicKey>, addInitObligationForFarm: bool)
        returns (o: Outcome<ActionError>)
      requires !kind.Cleanup?
      modifies this`setupIxs, this`inBetweenIxs, this`cleanupIxs
      ensures o.Pass? <==> market.Knows(excluded) && market.Knows(current)
      ensures o.Pass? ==> Assembled() == old(Assembled()).Append(kind,
                RefreshAll(excluded) + When(addInitObligationForFarm, InitFarmsOf(action)) + RefreshAll(current))
    {
      ghost var before := Assembled();
      ghost var farms := When(addInitObligationForFarm, InitFarmsOf(action));
      o := AddRefreshReserveIxs(excluded, kind);
      if o.Fail? {
        return;
      }
      assert Assembled() == Assembled().Append(kind, []);
      if addInitObligationForFarm {
        AddInitObligationsForFarms(action, kind);
      }
      assert Assembled() == before.Append(kind, RefreshAll(excluded) + farms) by {
        AppendTwice(before, kind, RefreshAll(excluded), farms);
      }
      o := AddRefreshReserveIxs(current, kind);
      if o.Fail? {
        return;
      }
      AppendTwice(before, kind, RefreshAll(excluded) + farms, RefreshAll(current));
    }

    /** Adds the block; everything the obligation refresh names has then been refreshed. */
    method AddRefreshBlock(action: ActionType, kind: AuxiliaryIx, excluded: seq<PublicKey>, current: seq<PublicKey>,
                           addInitObligationForFarm: bool, skipBorrows: bool)
        returns (o: Outcome<ActionError>)
      requires Valid() && !kind.Cleanup?
      requires Covering(excluded, current) && reserve.address in current
      modifies this`setupIxs, this`inBetweenIxs, this`cleanupIxs, depositReserves
      ensures o.Pass? <==> market.Knows(excluded) && market.Knows(current)
      ensures o.Pass? ==> depositReserves.items == KnownDeposits(Pre(), old(depositReserves.items))
      ensures o.Fail? || Valid()
      ensures o.Fail? || Loaded()
      ensures o.Fail? || Covering(excluded, current)
      ensures o.Pass? ==> Assembled() == old(Assembled()).Append(kind,
                Block(Pre(), old(depositReserves.items), excluded, current,
                      When(addInitObligationForFarm, InitFarmsOf(action)), skipBorrows))
    {
      ghost var before, deposits := Assembled(), depositReserves.items;
      ghost var farms := When(addInitObligationForFarm, InitFarmsOf(action));
      o := AddReserveRefreshes(action, kind, excluded, current, addInitObligationForFarm);
      if o.Fail? {
        return;
      }
      AddRefreshObligationIx(kind, skipBorrows);
      ghost var refresh := RefreshNaming(Pre(), depositReserves.items, skipBorrows);
      AppendTwice(before, kind, RefreshAll(excluded) + farms + RefreshAll(current), [refresh]);
      InitFarmsNeutral(action);
      InsertedMembers(deposits, preLoadedDepositReservesSameTx);
      assert [] + RefreshAll(excluded) == RefreshAll(excluded);
      BlockKeepsOrder(before.Of(kind), [], excluded, farms, current, refresh);
    }

    /** The refresh block of an action. */
    function ActionBlock(pre: Preloaded, deposits: seq<PublicKey>, action: ActionType, addInitObligationForFarm: bool,
                         skipBorrows: bool): seq<Ix>
    {
      var current := CurrentAddresses(action);
      Block(pre, deposits, Excluding(deposits, borrowReserves, current), current,
            When(addInitObligationForFarm, InitFarmsOf(action)), skipBorrows)
    }

    /** The state with the refresh block. */
    function WithBlock(s: State, action: ActionType, kind: AuxiliaryIx, options: SupportOptions): State {
      var block := ActionBlock(s.pre, s.deposits, action, options.addInitObligationForFarm,
                               SkipsBorrows(action, kind, options.isClosingPosition));
      s.(lists := s.lists.Append(kind, block), deposits := KnownDeposits(s.pre, s.deposits))
    }

    function AfterRefresh(s: State, action: ActionType, kind: AuxiliaryIx, options: SupportOptions): State {
      WithBlock(s.(pre := Selected(s.pre, action)), action, kind, options)
    }

    /** The market has every reserve an action refreshes. */
    predicate KnowsAll(deposits: seq<PublicKey>, action: ActionType)
    {
      market.Knows(deposits) && market.Knows(borrowReserves) && market.Knows(CurrentAddresses(action))
    }

    /** Refreshes everything for the current reserves. */
    method RefreshSelected(action: ActionType, kind: AuxiliaryIx, options: SupportOptions, excluded: seq<PublicKey>)
        returns (o: Outcome<ActionError>)
      requires Valid() && !kind.Cleanup?
      requires excluded == Excluding(depositReserves.items, borrowReserves, CurrentAddresses(action))
      modifies this`setupIxs, this`inBetweenIxs, this`cleanupIxs, depositReserves
      ensures o.Pass? == KnowsAll(old(depositReserves.items), action)
      ensures o.Pass? ==> market.Knows(excluded) && market.Knows(CurrentAddresses(action))
      ensures o.Fail? || Valid()
      ensures o.Fail? || Loaded()
      ensures o.Fail? || Covering(excluded, CurrentAddresses(action))
      ensures o.Pass? ==> Now() == WithBlock(old(Now()), action, kind, options)
    {
      var current := CurrentAddresses(action);
      OwnIsCurrent(action);
      KnownSplit(depositReserves.items, current);
      o := AddRefreshBlock(action, kind, excluded, current, options.addInitObligationForFarm,
                           SkipsBorrows(action, kind, options.isClosingPosition));
    }

    /** Selects the current reserves and refreshes everything for them. */
    method RefreshForAction(action: ActionType, kind: AuxiliaryIx, options: SupportOptions)
        returns (o: Outcome<ActionError>, excluded: seq<PublicKey>)
      requires Valid() && !kind.Cleanup?
      modifies this`preLoadedDepositReservesSameTx, this`preLoadedBorrowReservesSameTx,
               this`setupIxs, this`inBetweenIxs, this`cleanupIxs, depositReserves
      ensures o.Pass? == (Selectable(action) && KnowsAll(old(depositReserves.items), action))
      ensures o.Pass? ==> excluded == Excluding(old(depositReserves.items), borrowReserves, CurrentAddresses(action))
      ensures o.Pass? ==> HasReserves(action) && market.Knows(excluded) && market.Knows(CurrentAddresses(action))
      ensures o.Fail? || Valid()
      ensures o.Fail? || Loaded()
      ensures o.Fail? || Covering(excluded, CurrentAddresses(action))
      ensures o.Pass? ==> Now() == AfterRefresh(old(Now()), action, kind, options)
    {
      o := SelectCurrentReserves(action);
      if o.Fail? {
        return o, [];
      }
      excluded := Excluding(depositReserves.items, borrowReserves, CurrentAddresses(action));
      o := RefreshSelected(action, kind, options, excluded);
    }

    lemma {:induction false} KnownSplit(deposits: seq<PublicKey>, current: seq<PublicKey>)
      ensures market.Knows(Excluding(deposits, borrowReserves, current)) && market.Knows(current)
         <==> market.Knows(deposits) && market.Knows(borrowReserves) && market.Knows(current)
    {
      var excluded := Excluding(deposits, borrowReserves, current);
      if market.Knows(excluded) && market.Knows(current) {
        forall k | k in deposits || k in borrowReserves ensures k in market.reserves {
          assert k in excluded || k in current;
        }
      }
    }

    // -------------------------------------------------------------- the farms of an action

    /** Some actions have no rule for their farm refreshes. */
    predicate HasFarmRule(action: ActionType, kind: AuxiliaryIx) {
      && HasReserves(action)
      && Refreshes(action) && !action.RefreshObligationOnly?
      && (kind.Setup? || action.DepositAndBorrow? || action.RepayAndWithdraw?)
    }

    /** The side of the farms that an action refreshes in its setup. */
    function SetupSide(action: ActionType): FarmKind {
      if action.RepayAndWithdraw? || action.Borrow? || action.Repay? then Debt else Collateral
    }

    /** The farm refreshes of an action. */
    function FarmsOf(action: ActionType, kind: AuxiliaryIx): seq<Ix> {
      if !HasFarmRule(action, kind) then []
      else if kind.Setup? then
        if action.Liquidate? then FarmIxs(Outflow(), Collateral, payer) + FarmIxs([reserve], Debt, payer)
        else FarmIxs(CurrentReserves(action), SetupSide(action), payer)
      else FarmIxs(Outflow(), if action.DepositAndBorrow? then Debt else Collateral, payer)
    }

    lemma {:induction false} FarmsOfOnly(action: ActionType, kind: AuxiliaryIx)
      ensures OnlyFarmRefreshes(FarmsOf(action, kind))
    {
      FarmIxsOnly(CurrentReserves(action), SetupSide(action), payer);
      FarmIxsOnly([reserve], Debt, payer);
      FarmIxsOnly(Outflow(), Collateral, payer);
      FarmIxsOnly(Outflow(), Debt, payer);
    }

    /** Whether the farm refreshes of the setup are repeated in between. */
    predicate Ahead(action: ActionType, kind: AuxiliaryIx, twoTokenAction: bool) {
      kind.Setup? && twoTokenAction && !action.Liquidate?
    }

    /** The farm refreshes of the setup that are repeated in between. */
    function FarmsAhead(action: ActionType, kind: AuxiliaryIx, twoTokenAction: bool): seq<Ix>
    {
      When(Ahead(action, kind, twoTokenAction), FarmsOf(action, kind))
    }

    /** Those kept for the cleanup. */
    function FarmsKept(action: ActionType, kind: AuxiliaryIx, twoTokenAction: bool): seq<Ix>
    {
      When(!Ahead(action, kind, twoTokenAction), FarmsOf(action, kind))
    }

    /** A liquidation refreshes the collateral farm of what it seizes and the debt farm of what it repays. */
    method AddLiquidationFarms()
      requires outflowReserve.Some?
      modifies this`setupIxs, this`inBetweenIxs, this`refreshFarmsCleanupTxnIxs
      ensures setupIxs == old(setupIxs) + FarmsOf(Liquidate, Setup)
      ensures inBetweenIxs == old(inBetweenIxs)
      ensures refreshFarmsCleanupTxnIxs == old(refreshFarmsCleanupTxnIxs) + FarmsOf(Liquidate, Setup)
    {
      AddRefreshFarmsForReserve(Outflow(), Setup, Collateral, payer, false);
      AddRefreshFarmsForReserve([reserve], Setup, Debt, payer, false);
    }

    /** The farm refreshes of a setup are also the first thing in between for a two-token action, and go
        to the cleanup otherwise. */
    method AddSetupFarms(action: ActionType, twoTokenAction: bool) returns (o: Outcome<ActionError>)
      requires HasReserves(action)
      modifies this`setupIxs, this`inBetweenIxs, this`refreshFarmsCleanupTxnIxs
      ensures o.Pass? <==> HasFarmRule(action, Setup)
      ensures o.Pass? ==>
                && setupIxs == old(setupIxs) + FarmsOf(action, Setup)
                && inBetweenIxs == old(inBetweenIxs) + FarmsAhead(action, Setup, twoTokenAction)
                && refreshFarmsCleanupTxnIxs
                   == old(refreshFarmsCleanupTxnIxs) + FarmsKept(action, Setup, twoTokenAction)
    {
      match action
      case Liquidate =>
        AddLiquidationFarms();
        return Pass;
      case DepositAndBorrow | DepositCollateral | Withdraw | Deposit =>
        AddRefreshFarmsForReserve(CurrentReserves(action), Setup, Collateral, payer, twoTokenAction);
        return Pass;
      case RepayAndWithdraw | Borrow | Repay =>
        AddRefreshFarmsForReserve(CurrentReserves(action), Setup, Debt, payer, twoTokenAction);
        return Pass;
      case _ => return Fail(NoFarmDecision);
    }

    /** Those in between are of the outflow reserve, and go to the cleanup too. */
    method AddInBetweenFarms(action: ActionType) returns (o: Outcome<ActionError>)
      requires HasReserves(action)
      modifies this`setupIxs, this`inBetweenIxs, this`refreshFarmsCleanupTxnIxs
      ensures o.Pass? <==> HasFarmRule(action, InBetween)
      ensures o.Pass? ==> setupIxs == old(setupIxs) && inBetweenIxs == old(inBetweenIxs) + FarmsOf(action, InBetween)
      ensures o.Pass? ==> refreshFarmsCleanupTxnIxs == old(refreshFarmsCleanupTxnIxs) + FarmsOf(action, InBetween)
    {
      match action
      case DepositAndBorrow =>
        AddRefreshFarmsForReserve(Outflow(), InBetween, Debt, payer, false);
        return Pass;
      case RepayAndWithdraw =>
        AddRefreshFarmsForReserve(Outflow(), InBetween, Collateral, payer, false);
        return Pass;
      case _ => return Fail(NoFarmDecision);
    }

    method AddFarms(action: ActionType, kind: AuxiliaryIx, twoTokenAction: bool) returns (o: Outcome<ActionError>)
      requires Valid() && !kind.Cleanup? && HasReserves(action)
      modifies this`setupIxs, this`inBetweenIxs, this`refreshFarmsCleanupTxnIxs
      ensures o.Pass? <==> HasFarmRule(action, kind)
      ensures o.Fail? || Valid()
      ensures o.Pass? ==> Assembled() == old(Assembled()).Append(kind, FarmsOf(action, kind))
                                           .Append(InBetween, FarmsAhead(action, kind, twoTokenAction))
      ensures o.Pass? ==>
                refreshFarmsCleanupTxnIxs == old(refreshFarmsCleanupTxnIxs) + FarmsKept(action, kind, twoTokenAction)
    {
      if HasFarmRule(action, kind) {
        FarmsOfOnly(action, kind);
        FarmsKeepOrder(setupIxs, FarmsOf(action, kind));
        FarmsKeepOrder(inBetweenIxs, FarmsOf(action, kind));
        FarmsKeepOrder(inBetweenIxs, []);
      }
      if kind.Setup? {
        o := AddSetupFarms(action, twoTokenAction);
      } else {
        o := AddInBetweenFarms(action);
        assert inBetweenIxs + [] == inBetweenIxs;
      }
    }

    // -------------------------------------------------------------- support instructions

    /** When the wallet instructions can be added. */
    predicate WalletReady(action: ActionType, includeAtaIxns: bool) {
      includeAtaIxns ==> !world.wallet(action).fails
    }

    /** When the group request and the farm refreshes can be added. */
    ghost predicate Finishable(action: ActionType, kind: AuxiliaryIx, requestElevationGroup: bool,
                               override: Option<int>) {
      && HasFarmRule(action, kind)
      && (requestElevationGroup ==> Requestable(action, override))
    }

    /** The group requested under the options. */
    ghost predicate DecidesUnder(action: ActionType, options: SupportOptions, requested: Option<int>) {
      if options.requestElevationGroup then Decides(action, options.overrideElevationGroupRequest, requested)
        else requested.None?
    }

    /** What the request adds, as of the deposits in front of the block. */
    function ActionRequest(pre: Preloaded, deposits: seq<PublicKey>, action: ActionType, options: SupportOptions,
                           requested: Option<int>): Lists
    {
      var current := CurrentAddresses(action);
      RequestLists(pre, action, options.overrideElevationGroupRequest, requested, KnownDeposits(pre, deposits),
                   Excluding(deposits, borrowReserves, current), current)
    }

    /** The state with everything that supports a refreshing action. */
    function AfterObligationSupport(s: State, action: ActionType, kind: AuxiliaryIx, options: SupportOptions,
                                    requested: Option<int>): State
    {
      var pre := Selected(s.pre, action);
      var block := ActionBlock(pre, s.deposits, action, options.addInitObligationForFarm,
                               SkipsBorrows(action, kind, options.isClosingPosition));
      State(s.lists.Supported(kind, block, ActionRequest(pre, s.deposits, action, options, requested),
                              FarmsOf(action, kind),
                              FarmsAhead(action, kind, options.twoTokenAction)),
            s.kept + FarmsKept(action, kind, options.twoTokenAction), pre, KnownDeposits(pre, s.deposits))
    }

    /** The state with the wallet too; an action that refreshes nothing has only that. */
    function AfterSupport(s: State, action: ActionType, kind: AuxiliaryIx, options: SupportOptions,
                          requested: Option<int>): State {
      var walleted := s.(lists := WithWallet(s.lists, action, options.includeAtaIxns));
      if Refreshes(action) then AfterObligationSupport(walleted, action, kind, options, requested) else walleted
    }

    /** The request when it is asked for. */
    method RequestIfAsked(action: ActionType, options: SupportOptions, excluded: seq<PublicKey>,
                          current: seq<PublicKey>)
        returns (o: Outcome<ActionError>, ghost requested: Option<int>)
      requires Valid() && Loaded() && Covering(excluded, current)
      requires market.Knows(excluded) && market.Knows(current)
      modifies this`setupIxs, this`inBetweenIxs, this`cleanupIxs, this`potentialElevationGroupUpdate, depositReserves
      ensures o.Pass? == (options.requestElevationGroup ==> Requestable(action, options.overrideElevationGroupRequest))
      ensures o.Fail? || Valid()
      ensures o.Pass? ==> potentialElevationGroupUpdate == Noted(action, requested, old(potentialElevationGroupUpdate))
      ensures o.Fail? || DecidesUnder(action, options, requested)
      ensures o.Pass? ==>
                Now() == old(Now()).(lists := old(Assembled()).Plus(
                           RequestLists(old(Pre()), action, options.overrideElevationGroupRequest, requested,
                                        old(depositReserves.items), excluded, current)))
    {
      if options.requestElevationGroup {
        o, requested := RequestElevation(action, options.overrideElevationGroupRequest, excluded, current);
      } else {
        PlusNothing(Assembled());
        o, requested := Pass, None;
      }
    }

    /** The request and the farms, once the block is in place. */
    method RequestElevationAndAddFarms(action: ActionType, kind: AuxiliaryIx, options: SupportOptions,
                                       excluded: seq<PublicKey>,
                                       ghost s: State)
        returns (o: Outcome<ActionError>, ghost requested: Option<int>)
      requires Valid() && !kind.Cleanup? && Loaded() && Covering(excluded, CurrentAddresses(action))
               && HasReserves(action)
      requires market.Knows(excluded) && market.Knows(CurrentAddresses(action))
      requires excluded == Excluding(s.deposits, borrowReserves, CurrentAddresses(action))
      requires Now() == AfterRefresh(s, action, kind, options)
      modifies this`setupIxs, this`inBetweenIxs, this`cleanupIxs, this`refreshFarmsCleanupTxnIxs,
               this`potentialElevationGroupUpdate, depositReserves
      ensures o.Pass? == (&& HasFarmRule(action, kind)
                          && (options.requestElevationGroup ==>
                                Requestable(action, options.overrideElevationGroupRequest)))
      ensures o.Fail? || Valid()
      ensures o.Pass? ==> potentialElevationGroupUpdate == Noted(action, requested, old(potentialElevationGroupUpdate))
      ensures o.Fail? || DecidesUnder(action, options, requested)
      ensures o.Pass? ==> Now() == AfterObligationSupport(s, action, kind, options, requested)
    {
      o, requested := RequestIfAsked(action, options, excluded, CurrentAddresses(action));
      if o.Fail? {
        return;
      }
      o := AddFarms(action, kind, options.twoTokenAction);
    }

    method AddObligationSupport(action: ActionType, kind: AuxiliaryIx, options: SupportOptions)
        returns (o: Outcome<ActionError>, ghost requested: Option<int>)
      requires Valid() && !kind.Cleanup?
      modifies this`preLoadedDepositReservesSameTx, this`preLoadedBorrowReservesSameTx,
               this`potentialElevationGroupUpdate,
               this`setupIxs, this`inBetweenIxs, this`cleanupIxs, this`refreshFarmsCleanupTxnIxs, depositReserves
      ensures o.Pass? == (&& Selectable(action) && KnowsAll(old(depositReserves.items), action)
                          && Finishable(action, kind, options.requestElevationGroup,
                                        options.overrideElevationGroupRequest))
      ensures o.Fail? || Valid()
      ensures o.Pass? ==> potentialElevationGroupUpdate == Noted(action, requested, old(potentialElevationGroupUpdate))
      ensures o.Fail? || DecidesUnder(action, options, requested)
      ensures o.Pass? ==> Now() == AfterObligationSupport(old(Now()), action, kind, options, requested)
    {
      requested := None;
      var excluded;
      o, excluded := RefreshForAction(action, kind, options);
      if o.Fail? {
        return;
      }
      o, requested := RequestElevationAndAddFarms(action, kind, options, excluded, old(Now()));
    }

    /** The wallet instructions when they are asked for. */
    method AddWallet(action: ActionType, includeAtaIxns: bool) returns (o: Outcome<ActionError>)
      requires Valid()
      modifies this`setupIxs, this`cleanupIxs
      ensures o.Pass? == WalletReady(action, includeAtaIxns)
      ensures o.Fail? || Valid()
      ensures o.Pass? ==> Now() == old(Now()).(lists := WithWallet(old(Assembled()), action, includeAtaIxns))
    {
      o := Pass;
      if includeAtaIxns {
        o := AddAtaIxs(action);
        OrderKeptByAppend(WalletIxs(world.wallet(action).front), old(setupIxs));
      }
    }

    method AddSupportIxsWithoutInitObligation(action: ActionType, kind: AuxiliaryIx, options: SupportOptions)
        returns (o: Outcome<ActionError>, ghost requested: Option<int>)
      requires Valid() && !kind.Cleanup?
      modifies this`preLoadedDepositReservesSameTx, this`preLoadedBorrowReservesSameTx,
               this`potentialElevationGroupUpdate,
               this`setupIxs, this`inBetweenIxs, this`cleanupIxs, this`refreshFarmsCleanupTxnIxs, depositReserves
      ensures o.Pass? == (&& WalletReady(action, options.includeAtaIxns)
                          && (Refreshes(action) ==>
                                && Selectable(action) && KnowsAll(old(depositReserves.items), action)
                                && Finishable(action, kind, options.requestElevationGroup,
                                              options.overrideElevationGroupRequest)))
      ensures o.Fail? || Valid()
      ensures o.Pass? ==> potentialElevationGroupUpdate == Noted(action, requested, old(potentialElevationGroupUpdate))
      ensures o.Fail? || !Refreshes(action) || DecidesUnder(action, options, requested)
      ensures o.Pass? ==> Now() == AfterSupport(old(Now()), action, kind, options, requested)
    {
      requested := None;
      o := AddWallet(action, options.includeAtaIxns);
      if o.Fail? {
        return;
      }
      if Refreshes(action) {
        o, requested := AddObligationSupport(action, kind, options);
      }
    }

    method AddSupportIxs(action: ActionType, includeUserMetadata: bool, options: SupportOptions)
        returns (o: Outcome<ActionError>, ghost requested: Option<int>)
      requires Valid() && Neutral(setupIxs)
      modifies this`preLoadedDepositReservesSameTx, this`preLoadedBorrowReservesSameTx,
               this`potentialElevationGroupUpdate,
               this`setupIxs, this`inBetweenIxs, this`cleanupIxs, this`refreshFarmsCleanupTxnIxs, depositReserves
      ensures o.Pass? == (&& WalletReady(action, options.includeAtaIxns)
                          && (Refreshes(action) ==>
                                && Selectable(action) && KnowsAll(old(depositReserves.items), action)
                                && Finishable(action, Setup, options.requestElevationGroup,
                                              options.overrideElevationGroupRequest)))
      ensures o.Fail? || Valid()
      ensures o.Pass? ==> potentialElevationGroupUpdate == Noted(action, requested, old(potentialElevationGroupUpdate))
      ensures o.Fail? || !Refreshes(action) || DecidesUnder(action, options, requested)
      ensures o.Pass? ==>
                Now() == AfterSupport(old(Now()).(lists := WithPrelude(old(Assembled()), action, includeUserMetadata)),
                                      action, Setup, options, requested)
    {
      PreludeNeutral(Assembled(), action, includeUserMetadata, options.includeAtaIxns);
      AddPrelude(action, includeUserMetadata);
      o, requested := AddSupportIxsWithoutInitObligation(action, Setup, options);
    }

    method AddInBetweenIxs(action: ActionType, includeAtaIxns: bool, requestElevationGroup: bool,
                           addInitObligationForFarm: bool, isClosingPosition: bool)
        returns (o: Outcome<ActionError>, ghost requested: Option<int>)
      requires Valid() && Refreshes(action)
      modifies this`preLoadedDepositReservesSameTx, this`preLoadedBorrowReservesSameTx,
               this`potentialElevationGroupUpdate,
               this`setupIxs, this`inBetweenIxs, this`cleanupIxs, this`refreshFarmsCleanupTxnIxs, depositReserves
      ensures o.Pass?
              == (&& WalletReady(action, includeAtaIxns) && Selectable(action)
                  && KnowsAll(old(depositReserves.items), action)
                  && Finishable(action, InBetween, requestElevationGroup, None))
      ensures o.Fail? || Valid()
      ensures var options := SupportOptions(includeAtaIxns, requestElevationGroup, addInitObligationForFarm,
                                            isClosingPosition, false, None);
              o.Fail? || (DecidesUnder(action, options, requested)
                          && Now() == AfterSupport(old(Now()), action, InBetween, options, requested))
    {
      o, requested := AddSupportIxsWithoutInitObligation(action, InBetween,
        SupportOptions(includeAtaIxns, requestElevationGroup, addInitObligationForFarm, isClosingPosition, false,
                       None));
    }

    // -------------------------------------------------------------- the whole obligation

    function LookUp(keys: seq<PublicKey>): seq<ActionReserve>
      requires market.Knows(keys)
    {
      seq(|keys|, i requires 0 <= i < |keys| => market.reserves[keys[i]])
    }

    /** The farm refreshes of a whole obligation. */
    function ObligationFarms(deposits: seq<PublicKey>, crank: PublicKey): seq<Ix>
      requires market.Knows(deposits) && market.Knows(borrowReserves)
    {
      FarmIxs(LookUp(deposits), Collateral, crank) + FarmIxs(LookUp(borrowReserves), Debt, crank)
    }

    method AddObligationFarms(crank: PublicKey)
      requires market.Knows(depositReserves.items) && market.Knows(borrowReserves)
      modifies this`setupIxs, this`inBetweenIxs, this`refreshFarmsCleanupTxnIxs
      ensures setupIxs == old(setupIxs) + ObligationFarms(depositReserves.items, crank)
      ensures inBetweenIxs == old(inBetweenIxs)
    {
      var deposits, borrows := LookUp(depositReserves.items), LookUp(borrowReserves);
      AddSetupFarmsOf(deposits, Collateral, crank);
      AddSetupFarmsOf(borrows, Debt, crank);
    }

    method AddSetupFarmsOf(reserves: seq<ActionReserve>, mode: FarmKind, crank: PublicKey)
      modifies this`setupIxs, this`inBetweenIxs, this`refreshFarmsCleanupTxnIxs
      ensures setupIxs == old(setupIxs) + FarmIxs(reserves, mode, crank)
      ensures inBetweenIxs == old(inBetweenIxs)
    {
      AddRefreshFarmsForReserve(reserves, Setup, mode, crank, false);
    }

    /** The farms of the obligation, then the obligation. */
    method AddFarmsAndObligation(crank: PublicKey)
      requires preLoadedDepositReservesSameTx == []
      requires market.Knows(depositReserves.items) && market.Knows(borrowReserves)
      modifies this`setupIxs, this`inBetweenIxs, this`cleanupIxs, this`refreshFarmsCleanupTxnIxs, depositReserves
      ensures depositReserves.items == old(depositReserves.items)
      ensures inBetweenIxs == old(inBetweenIxs) && cleanupIxs == old(cleanupIxs)
      ensures setupIxs
              == old(setupIxs) + ObligationFarms(depositReserves.items, crank)
                + [RefreshNaming(Pre(), depositReserves.items, false)]
    {
      AddObligationFarms(crank);
      AddRefreshObligationIx(Setup, false);
    }

    predicate KnowsObligation(deposits: seq<PublicKey>) {
      market.Knows(deposits) && market.Knows(borrowReserves)
    }

    lemma {:induction false} KnownUnion(deposits: seq<PublicKey>)
      ensures market.Knows(Unique(deposits + borrowReserves)) <==> KnowsObligation(deposits)
    {
      UniqueLaws(deposits + borrowReserves);
      var all := Unique(deposits + borrowReserves);
      if market.Knows(all) {
        forall k | k in deposits || k in borrowReserves ensures k in market.reserves {
          assert k in deposits + borrowReserves && k in all;
        }
      }
    }

    /** Refreshes the obligation as it is, on behalf of a crank. */
    method AddRefreshObligation(crank: PublicKey) returns (o: Outcome<ActionError>)
      requires Valid() && preLoadedDepositReservesSameTx == []
      modifies this`setupIxs, this`inBetweenIxs, this`cleanupIxs, this`refreshFarmsCleanupTxnIxs, depositReserves
      ensures o.Pass? == KnowsObligation(old(depositReserves.items))
      ensures o.Fail? || Valid()
      ensures o.Pass? ==> inBetweenIxs == old(inBetweenIxs) && cleanupIxs == old(cleanupIxs)
      ensures o.Pass? ==> depositReserves.items == old(depositReserves.items)
      ensures o.Pass? ==>
                setupIxs == old(setupIxs) + RefreshAll(Unique(depositReserves.items + borrowReserves))
                            + ObligationFarms(depositReserves.items, crank)
                              + [RefreshNaming(Pre(), depositReserves.items, false)]
    {
      var allReserves := Unique(depositReserves.items + borrowReserves);
      ghost var deposits := depositReserves.items;
      KnownUnion(deposits);
      o := AddRefreshReserveIxs(allReserves, Setup);
      if o.Fail? {
        return;
      }
      assert setupIxs == old(setupIxs) + RefreshAll(allReserves);
      AddFarmsAndObligation(crank);
      WholeRefreshKeepsOrder(Pre(), old(setupIxs), deposits, crank);
    }

    lemma {:induction false} WholeRefreshKeepsOrder(pre: Preloaded, before: seq<Ix>, deposits: seq<PublicKey>,
                                                    crank: PublicKey)
      requires RefreshedBeforeUse(before) && market.Knows(deposits) && market.Knows(borrowReserves)
      ensures RefreshedBeforeUse(before + RefreshAll(Unique(deposits + borrowReserves))
                                 + ObligationFarms(deposits, crank)
                                 + [RefreshNaming(pre, deposits, false)])
    {
      FarmIxsOnly(LookUp(deposits), Collateral, crank);
      FarmIxsOnly(LookUp(borrowReserves), Debt, crank);
      UniqueLaws(deposits + borrowReserves);
      RefreshAllKeepsOrder(before, Unique(deposits + borrowReserves), ObligationFarms(deposits, crank),
                           RefreshNaming(pre, deposits, false));
    }


    // -------------------------------------------------------------- lending instructions

    /** Pushes a lending instruction that names no further reserves. */
    method PushLending(kind: LendingKind)
      modifies this`lendingIxs
      ensures lendingIxs == old(lendingIxs) + [Lend(kind, reserve.address, [])]
    {
      lendingIxs := lendingIxs + [Lend(kind, reserve.address, [])];
    }

    method AddDepositIx()
      modifies this`lendingIxs
      ensures lendingIxs
              == old(lendingIxs) + [Lend(DepositReserveLiquidityAndObligationCollateral, reserve.address, [])]
    {
      PushLending(DepositReserveLiquidityAndObligationCollateral);
    }

    method AddDepositReserveLiquidityIx()
      modifies this`lendingIxs
      ensures lendingIxs == old(lendingIxs) + [Lend(DepositReserveLiquidity, reserve.address, [])]
    {
      PushLending(DepositReserveLiquidity);
    }

    method AddRedeemReserveCollateralIx()
      modifies this`lendingIxs
      ensures lendingIxs == old(lendingIxs) + [Lend(RedeemReserveCollateral, reserve.address, [])]
    {
      PushLending(RedeemReserveCollateral);
    }

    method AddDepositObligationCollateralIx()
      modifies this`lendingIxs
      ensures lendingIxs == old(lendingIxs) + [Lend(DepositObligationCollateral, reserve.address, [])]
    {
      PushLending(DepositObligationCollateral);
    }

    method AddWithdrawIx()
      modifies this`lendingIxs
      ensures lendingIxs
              == old(lendingIxs) + [Lend(WithdrawObligationCollateralAndRedeemReserveCollateral, reserve.address, [])]
    {
      PushLending(WithdrawObligationCollateralAndRedeemReserveCollateral);
    }

    /** Pushes a lending instruction that names the deposit reserves when the obligation is in a group. */
    method PushWithDeposits(kind: LendingKind, inGroup: bool)
      modifies this`lendingIxs, depositReserves
      ensures depositReserves.items == KnownDeposits(Pre(), old(depositReserves.items))
      ensures lendingIxs
              == old(lendingIxs) + [Lend(kind, reserve.address, if inGroup then depositReserves.items else [])]
    {
      var depositReservesList := GetAdditionalDepositReservesList();
      lendingIxs := lendingIxs + [Lend(kind, reserve.address, if inGroup then depositReservesList.items else [])];
    }

    predicate InGroup() {
      obligation.Some? && obligation.value.elevationGroup > 0
    }

    method AddBorrowIx() returns (o: Outcome<ActionError>)
      modifies this`lendingIxs, depositReserves
      ensures o.Pass? <==> obligation.Some?
      ensures o.Pass? ==> depositReserves.items == KnownDeposits(Pre(), old(depositReserves.items))
      ensures o.Pass? ==>
                lendingIxs == old(lendingIxs) +
                [Lend(BorrowObligationLiquidity, reserve.address,
                      if InGroup() || potentialElevationGroupUpdate > 0 then depositReserves.items else [])]
    {
      if obligation.None? {
        return Fail(NoObligation);
      }
      PushWithDeposits(BorrowObligationLiquidity, InGroup() || potentialElevationGroupUpdate > 0);
      return Pass;
    }

    method AddRepayIx() returns (o: Outcome<ActionError>)
      modifies this`lendingIxs, depositReserves
      ensures o.Pass? <==> obligation.Some?
      ensures o.Pass? ==> depositReserves.items == KnownDeposits(Pre(), old(depositReserves.items))
      ensures o.Pass? ==>
                lendingIxs == old(lendingIxs) +
                [Lend(RepayObligationLiquidity, reserve.address, if InGroup() then depositReserves.items else [])]
    {
      if obligation.None? {
        return Fail(NoObligation);
      }
      PushWithDeposits(RepayObligationLiquidity, InGroup());
      return Pass;
    }

    method AddLiquidateIx() returns (o: Outcome<ActionError>)
      modifies this`lendingIxs, depositReserves
      ensures o.Pass? <==> outflowReserve.Some? && world.additionalTokenAccountSet && obligation.Some?
      ensures o.Pass? ==> depositReserves.items == KnownDeposits(Pre(), old(depositReserves.items))
      ensures o.Pass? ==>
                lendingIxs == old(lendingIxs) +
                [Lend(LiquidateObligationAndRedeemReserveCollateral, reserve.address,
                      if InGroup() then depositReserves.items else [])]
    {
      if outflowReserve.None? {
        return Fail(OutflowReserveUndefined);
      }
      if !world.additionalTokenAccountSet {
        return Fail(AdditionalTokenAccountNotSet);
      }
      if obligation.None? {
        return Fail(NoObligation);
      }
      PushWithDeposits(LiquidateObligationAndRedeemReserveCollateral, InGroup());
      return Pass;
    }

    /** What the second half of a two-token action needs. */
    predicate OutflowReady() {
      outflowReserve.Some? && world.additionalTokenAccountSet && world.outflowAmountSet
    }

    method CheckOutflow() returns (o: Outcome<ActionError>)
      ensures o.Pass? <==> OutflowReady()
    {
      if outflowReserve.None? {
        return Fail(OutflowReserveUndefined);
      }
      if !world.additionalTokenAccountSet {
        return Fail(AdditionalTokenAccountNotSet);
      }
      if !world.outflowAmountSet {
        return Fail(OutflowAmountNotSet);
      }
      return Pass;
    }

    /** The borrow names the deposit reserves the object knows of; only when there are none is the one
        being deposited put on the list, and so on the object's own list. */
    method AddDepositAndBorrowIx() returns (o: Outcome<ActionError>)
      modifies this`lendingIxs, depositReserves
      ensures o.Pass? <==> OutflowReady()
      ensures o.Pass? ==> var known := KnownDeposits(Pre(), old(depositReserves.items));
                depositReserves.items == if known == [] then [reserve.address] else known
      ensures o.Pass? ==>
                lendingIxs == old(lendingIxs) +
                [Lend(DepositReserveLiquidityAndObligationCollateral, reserve.address, []),
                   Lend(BorrowObligationLiquidity, outflowReserve.value.address, depositReserves.items)]
    {
      PushLending(DepositReserveLiquidityAndObligationCollateral);
      o := CheckOutflow();
      if o.Fail? {
        return;
      }
      var depositReservesList := GetAdditionalDepositReservesList();
      if |depositReservesList.items| == 0 {
        depositReservesList.Push(reserve.address);
      }
      lendingIxs := lendingIxs
        + [Lend(BorrowObligationLiquidity, outflowReserve.value.address, depositReservesList.items)];
    }

    method AddRepayAndWithdrawIxs() returns (o: Outcome<ActionError>)
      modifies this`lendingIxs, depositReserves
      ensures o.Pass? <==> OutflowReady()
      ensures o.Pass? ==> depositReserves.items == KnownDeposits(Pre(), old(depositReserves.items))
      ensures o.Pass? ==>
                lendingIxs == old(lendingIxs) +
                [Lend(RepayObligationLiquidity, reserve.address, depositReserves.items),
                   Lend(WithdrawObligationCollateralAndRedeemReserveCollateral, outflowReserve.value.address, [])]
    {
      PushWithDeposits(RepayObligationLiquidity, true);
      o := CheckOutflow();
      if o.Fail? {
        return;
      }
      lendingIxs := lendingIxs
        + [Lend(WithdrawObligationCollateralAndRedeemReserveCollateral, outflowReserve.value.address, [])];
    }

    // -------------------------------------------------------------- what an action needs, in stored fields

    /** The reserves an action works on. */
    predicate Touches(action: ActionType, k: PublicKey) {
      || k == reserve.address
      || (TwoReserves(action) && outflowReserve.Some? && k == outflowReserve.value.address)
    }

    /** The market has the reserves of the obligation and of the action. */
    predicate KnowsEverything(deposits: seq<PublicKey>, action: ActionType) {
      && (forall k :: k in deposits ==> k in market.reserves)
      && (forall k :: k in borrowReserves ==> k in market.reserves)
      && reserve.address in market.reserves
      && (TwoReserves(action) && outflowReserve.Some? ==> outflowReserve.value.address in market.reserves)
    }

    /** The addresses of the current reserves: the seized reserve first in a liquidation, and each once. */
    function CurrentKeys(action: ActionType): seq<PublicKey> {
      if !TwoReserves(action) || outflowReserve.None? || outflowReserve.value.address == reserve.address
      then [reserve.address]
      else if action.Liquidate? then [outflowReserve.value.address, reserve.address]
      else [reserve.address, outflowReserve.value.address]
    }

    lemma {:induction false} CurrentInStoredFields(action: ActionType)
      ensures CurrentAddresses(action) == CurrentKeys(action)
      ensures forall k :: k in CurrentKeys(action) <==> Touches(action, k)
    {
      var own := reserve.address;
      UniqueOfOne(own);
      if TwoReserves(action) && outflowReserve.Some? {
        var out := outflowReserve.value.address;
        UniqueOfTwo(own, out);
        UniqueOfTwo(out, own);
        if action.Liquidate? {
          assert Addresses(CurrentReserves(action)) == if out != own then [out, own] else [own];
        } else {
          assert Addresses(CurrentReserves(action)) == [own, out];
        }
      } else {
        assert Addresses(CurrentReserves(action)) == [own];
      }
    }

    lemma {:induction false} KnowsAllIff(deposits: seq<PublicKey>, action: ActionType)
      ensures KnowsAll(deposits, action) <==> KnowsEverything(deposits, action)
    {
      CurrentInStoredFields(action);
      assert market.Knows(CurrentAddresses(action)) <==> forall k :: Touches(action, k) ==> k in market.reserves;
    }

    /** The refresh of a reserve's collateral farm, if it has one. */
    function CollateralFarm(r: ActionReserve): seq<Ix> {
      if r.farmCollateral == DEFAULT then []
      else [RefreshObligationFarm(Collateral, r.address, r.farmCollateral, payer)]
    }

    /** The refresh of a reserve's debt farm, if it has one. */
    function DebtFarm(r: ActionReserve): seq<Ix> {
      if r.farmDebt == DEFAULT then [] else [RefreshObligationFarm(Debt, r.address, r.farmDebt, payer)]
    }

    /** The actions of one step on the obligation. */
    predicate OneSided(action: ActionType) {
      || action.Deposit? || action.DepositCollateral? || action.Withdraw?
      || action.Borrow? || action.Repay? || action.Liquidate?
    }

    /** A deposit or withdrawal touches collateral, a borrow or repayment debt; a liquidation seizes collateral
        of the outflow reserve and repays debt of its own. */
    function SetupFarms(action: ActionType): seq<Ix> {
      if action.Borrow? || action.Repay? then DebtFarm(reserve)
      else if action.Liquidate? && outflowReserve.Some? then CollateralFarm(outflowReserve.value) + DebtFarm(reserve)
      else CollateralFarm(reserve)
    }

    lemma {:induction false} FarmsInStoredFields(action: ActionType)
      ensures OneSided(action) && (action.Liquidate? ==> outflowReserve.Some?) ==>
                FarmsOf(action, Setup) == SetupFarms(action)
      ensures action.DepositAndBorrow? && outflowReserve.Some? ==>
                FarmsOf(action, InBetween) == DebtFarm(outflowReserve.value)
      ensures action.RepayAndWithdraw? && outflowReserve.Some? ==>
                FarmsOf(action, InBetween) == CollateralFarm(outflowReserve.value)
    {
      OneFarm(reserve);
      if outflowReserve.Some? {
        OneFarm(outflowReserve.value);
      }
    }

    lemma {:induction false} OneFarm(r: ActionReserve)
      ensures FarmIxs([r], Collateral, payer) == CollateralFarm(r) && FarmIxs([r], Debt, payer) == DebtFarm(r)
    {
      assert [r][1..] == [];
    }

    /** The farm accounts an action creates in its setup: on the side it touches, and on the other side of the
        outflow reserve, where there is a farm and no account yet. */
    predicate CreatesFarm(action: ActionType, mode: FarmKind, k: PublicKey, farm: PublicKey) {
      && farm != DEFAULT && farm != NULL_PUBKEY && !world.farmAccountExists(farm)
      && if action.Borrow? || action.Repay? || action.Liquidate? then
           || (mode.Debt? && k == reserve.address && farm == reserve.farmDebt)
           || (mode.Collateral? && outflowReserve.Some? && k == outflowReserve.value.address
               && farm == outflowReserve.value.farmCollateral)
         else
           || (mode.Collateral? && k == reserve.address && farm == reserve.farmCollateral)
           || (mode.Debt? && outflowReserve.Some? && k == outflowReserve.value.address
               && farm == outflowReserve.value.farmDebt)
    }

    lemma {:induction false} InitFarmMembers(action: ActionType, ix: Ix)
      requires OneSided(action)
      ensures ix in InitFarmsOf(action) <==>
                ix.InitObligationFarm? && CreatesFarm(action, ix.mode, ix.reserve, ix.farm)
    {
    }

    // -------------------------------------------------------------- which group is asked for, in stored fields

    /** A group that both sides list and whose debt reserve this is. */
    ghost predicate Shared(coll: seq<nat>, debt: seq<nat>, debtReserve: PublicKey, g: nat) {
      && 0 < g <= |market.elevationGroups| && g in coll && g in debt
      && market.elevationGroups[g - 1].debtReserve == debtReserve
    }

    /** Every group both sides list is configured, under its own id where it counts. */
    ghost predicate GroupsKnown(coll: seq<nat>, debt: seq<nat>, debtReserve: PublicKey) {
      && (forall g :: g in coll && g in debt ==> g <= |market.elevationGroups|)
      && (forall g :: Shared(coll, debt, debtReserve, g) ==>
            exists i :: IsFirstGroup(market.elevationGroups, g, i))
    }

    /** Of all shared groups none has a higher loan-to-value. */
    ghost predicate Best(coll: seq<nat>, debt: seq<nat>, debtReserve: PublicKey, g: nat) {
      && Shared(coll, debt, debtReserve, g)
      && forall h, i, j :: Shared(coll, debt, debtReserve, h) && IsFirstGroup(market.elevationGroups, h, i)
                           && IsFirstGroup(market.elevationGroups, g, j) ==>
           market.elevationGroups[i].ltvPct <= market.elevationGroups[j].ltvPct
    }

    predicate AlreadyIn(g: int) {
      obligation.Some? && obligation.value.elevationGroup == g
    }

    /** The best shared group, unless the obligation is in it already or there is none. */
    ghost predicate AsksFor(coll: seq<nat>, debt: seq<nat>, debtReserve: PublicKey, requested: Option<int>) {
      if requested.Some? then
        0 <= requested.value && Best(coll, debt, debtReserve, requested.value) && !AlreadyIn(requested.value)
      else
        || (forall g :: !Shared(coll, debt, debtReserve, g))
        || exists g: nat :: Best(coll, debt, debtReserve, g) && AlreadyIn(g)
    }

    /** The reserve of the obligation's first used deposit slot. */
    ghost predicate FirstUsed(k: PublicKey) {
      && obligation.Some? && k != DEFAULT
      && exists i :: 0 <= i < |obligation.value.depositSlots| && obligation.value.depositSlots[i] == k
                     && forall j :: 0 <= j < i ==> obligation.value.depositSlots[j] == DEFAULT
    }

    /** A borrow goes by the groups of that reserve and of its own. */
    ghost predicate BorrowAsksFor(requested: Option<int>) {
      exists k :: FirstUsed(k) && k in market.reserves
                  && AsksFor(market.reserves[k].elevationGroups, reserve.elevationGroups, reserve.address, requested)
    }

    ghost predicate BorrowCanAsk() {
      exists k :: FirstUsed(k) && k in market.reserves
                  && GroupsKnown(market.reserves[k].elevationGroups, reserve.elevationGroups, reserve.address)
    }

    /** The repayment covers the only debt of an obligation that is in a group. */
    predicate ClearsOnlyDebt() {
      && obligation.Some? && obligation.value.elevationGroup != 0
      && obligation.value.borrows.Keys == {reserve.address}
      && obligation.value.borrows[reserve.address] <= world.amount
    }

    /** The group an action asks for. */
    ghost predicate Asks(action: ActionType, override: Option<int>, requested: Option<int>) {
      if action.Deposit? then
        requested == if override.Some? && !AlreadyIn(override.value) then override else None
      else if action.Repay? then
        requested == if ClearsOnlyDebt() then (if override.Some? then override else Some(0)) else None
      else if (action.Borrow? || action.DepositAndBorrow?) && override.Some? then
        requested == if 0 <= override.value && !AlreadyIn(override.value) then override else None
      else if action.Borrow? then BorrowAsksFor(requested)
      else if action.DepositAndBorrow? then
        outflowReserve.Some? && AsksFor(reserve.elevationGroups, outflowReserve.value.elevationGroups,
                                        outflowReserve.value.address, requested)
      else requested.None?
    }

    /** When it can be worked out. */
    ghost predicate CanAsk(action: ActionType, override: Option<int>) {
      if action.Repay? then obligation.Some? && reserve.address in obligation.value.borrows
      else if action.Borrow? then
        if override.Some? then 0 <= override.value ==> obligation.Some? else BorrowCanAsk()
      else if action.DepositAndBorrow? && override.None? then
        outflowReserve.Some? && GroupsKnown(reserve.elevationGroups, outflowReserve.value.elevationGroups,
                                            outflowReserve.value.address)
      else true
    }

    /** The choice among the common groups, read off the stored groups. */
    lemma {:induction false} BestInStoredFields(sides: ElevationSides, g: nat)
      requires GroupsKnown(sides.coll, sides.debt, sides.debtReserve)
      ensures BestGroup(sides, g) <==> Best(sides.coll, sides.debt, sides.debtReserve, g)
    {
      forall h: nat
        ensures h in sides.coll && Common(market.elevationGroups, sides, h)
           <==> Shared(sides.coll, sides.debt, sides.debtReserve, h)
        ensures Shared(sides.coll, sides.debt, sides.debtReserve, h) ==> Ltv(h).Some?
      {
        FirstGroupExists(market.elevationGroups, h);
      }
      if Best(sides.coll, sides.debt, sides.debtReserve, g) {
        forall h: nat | Shared(sides.coll, sides.debt, sides.debtReserve, h) ensures Ltv(h).value <= Ltv(g).value {
          var i :| IsFirstGroup(market.elevationGroups, h, i);
          var j :| IsFirstGroup(market.elevationGroups, g, j);
        }
      }
    }

    lemma {:induction false} KnownInStoredFields(sides: ElevationSides)
      ensures GroupsKnown(sides.coll, sides.debt, sides.debtReserve) <==>
              (LookUpsExist(market.elevationGroups, sides)
               && forall id :: id in sides.coll && Common(market.elevationGroups, sides, id) ==> Ltv(id).Some?)
    {
      forall h: nat
        ensures h in sides.coll && Common(market.elevationGroups, sides, h)
           <==> Shared(sides.coll, sides.debt, sides.debtReserve, h)
        ensures Ltv(h).Some? <==> exists i :: IsFirstGroup(market.elevationGroups, h, i)
      {
        FirstGroupExists(market.elevationGroups, h);
      }
    }

    lemma {:induction false} AskedInStoredFields(sides: ElevationSides, requested: Option<int>)
      requires GroupsKnown(sides.coll, sides.debt, sides.debtReserve)
      requires if requested.None? then NothingToGain(sides)
               else requested.value >= 0 && BestGroup(sides, requested.value) && ChangesGroup(requested.value)
      ensures AsksFor(sides.coll, sides.debt, sides.debtReserve, requested)
    {
      forall g: nat ensures BestGroup(sides, g) <==> Best(sides.coll, sides.debt, sides.debtReserve, g) {
        BestInStoredFields(sides, g);
      }
      if requested.None? && !(exists g: nat :: BestGroup(sides, g) && !ChangesGroup(g)) {
        forall g: nat ensures !Shared(sides.coll, sides.debt, sides.debtReserve, g) {
          assert g in sides.coll ==> !Common(market.elevationGroups, sides, g);
        }
      }
    }

    lemma {:induction false} FirstUsedIsHead(slots: seq<PublicKey>, k: PublicKey)
      requires k != DEFAULT
      ensures Without(slots, [DEFAULT]) != [] && Without(slots, [DEFAULT])[0] == k <==>
                exists i :: 0 <= i < |slots| && slots[i] == k && forall j :: 0 <= j < i ==> slots[j] == DEFAULT
    {
      if slots != [] {
        FirstUsedIsHead(slots[1..], k);
        if slots[0] == DEFAULT {
          if i :| 0 <= i < |slots| && slots[i] == k && forall j :: 0 <= j < i ==> slots[j] == DEFAULT {
            assert slots[1..][i - 1] == k && forall j :: 0 <= j < i - 1 ==> slots[1..][j] == slots[j + 1];
          }
          if i :| 0 <= i < |slots[1..]| && slots[1..][i] == k && forall j :: 0 <= j < i ==> slots[1..][j] == DEFAULT {
            assert slots[i + 1] == k && forall j :: 1 <= j < i + 1 ==> slots[j] == slots[1..][j - 1];
          }
        }
      }
    }

    /** The sides of a borrow are those of the first used deposit slot and of its own reserve. */
    lemma {:induction false} BorrowSides(k: PublicKey)
      ensures FirstUsed(k) && k in market.reserves ==>
                SidesOf(Borrow) == Ok(ElevationSides(market.reserves[k].elevationGroups, reserve.elevationGroups,
                                                     reserve.address))
    {
      if FirstUsed(k) {
        FirstUsedIsHead(obligation.value.depositSlots, k);
      }
    }

    lemma {:induction false} BorrowSidesKnown()
      requires SidesOf(Borrow).Ok?
      ensures exists k :: FirstUsed(k) && k in market.reserves
    {
      var used := Without(obligation.value.depositSlots, [DEFAULT]);
      assert used[0] in used;
      FirstUsedIsHead(obligation.value.depositSlots, used[0]);
      assert FirstUsed(used[0]);
    }

    lemma {:induction false} BorrowCanAskIff()
      ensures BorrowCanAsk() <==> Choosable(Borrow, None)
    {
      if SidesOf(Borrow).Ok? {
        BorrowSidesKnown();
        KnownInStoredFields(SidesOf(Borrow).value);
      }
      forall k ensures FirstUsed(k) && k in market.reserves ==>
                         SidesOf(Borrow) == Ok(ElevationSides(market.reserves[k].elevationGroups,
                                                              reserve.elevationGroups, reserve.address))
      {
        BorrowSides(k);
      }
    }

    /** When the request does not throw, in stored fields. */
    lemma {:induction false} CanAskIff(action: ActionType, override: Option<int>)
      requires HasReserves(action)
      ensures Requestable(action, override) <==> CanAsk(action, override)
    {
      if action.Borrow? && override.None? {
        BorrowCanAskIff();
      }
      if action.DepositAndBorrow? && override.None? {
        KnownInStoredFields(SidesOf(DepositAndBorrow).value);
      }
    }

    lemma {:induction false} OnlyDebt()
      requires obligation.Some?
      ensures reserve.address in obligation.value.borrows && |obligation.value.borrows| == 1
         <==> obligation.value.borrows.Keys == {reserve.address}
    {
      var keys := obligation.value.borrows.Keys;
      assert |keys| == |obligation.value.borrows|;
      if reserve.address in keys && |keys| == 1 {
        assert |keys - {reserve.address}| == 0;
        assert keys == {reserve.address} + (keys - {reserve.address});
      }
    }

    /** And the group asked for. */
    lemma {:induction false} AsksInStoredFields(action: ActionType, override: Option<int>, requested: Option<int>)
      requires HasReserves(action) && CanAsk(action, override) && Decides(action, override, requested)
      ensures Asks(action, override, requested)
    {
      if action.Repay? {
        OnlyDebt();
      } else if action.Borrow? && override.None? {
        BorrowCanAskIff();
        BorrowSidesKnown();
        var k :| FirstUsed(k) && k in market.reserves;
        BorrowSides(k);
        KnownInStoredFields(SidesOf(Borrow).value);
        AskedInStoredFields(SidesOf(Borrow).value, requested);
      } else if action.DepositAndBorrow? && override.None? {
        AskedInStoredFields(SidesOf(DepositAndBorrow).value, requested);
      }
    }

    ghost predicate AsksIf(asked: bool, action: ActionType, override: Option<int>, requested: Option<int>) {
      if asked then Asks(action, override, requested) else requested.None?
    }

    /** When the support instructions of an action can be added. */
    ghost predicate Ready(action: ActionType, deposits: seq<PublicKey>, options: BuildOptions, override: Option<int>) {
      && (options.includeAtaIxns ==> !world.wallet(action).fails)
      && (TwoReserves(action) ==> outflowReserve.Some?) && KnowsEverything(deposits, action)
      && (action.RepayAndWithdraw? && obligation.Some? ==>
            exists b :: b in obligation.value.borrowSlots && b.borrowReserve == reserve.address)
      && (options.requestElevationGroup ==> CanAsk(action, override))
    }

    lemma {:induction false} ReadyIff(action: ActionType, kind: AuxiliaryIx, deposits: seq<PublicKey>,
                                      options: BuildOptions, override: Option<int>)
      requires if kind.Setup? then OneSided(action) else action.DepositAndBorrow? || action.RepayAndWithdraw?
      ensures WalletReady(action, options.includeAtaIxns) && Selectable(action) && KnowsAll(deposits, action)
              && Finishable(action, kind, options.requestElevationGroup, override)
         <==> Ready(action, deposits, options, override)
    {
      KnowsAllIff(deposits, action);
      SelectableIff(action);
      if HasReserves(action) {
        CanAskIff(action, override);
      }
    }

    lemma {:induction false} SelectableIff(action: ActionType)
      ensures Selectable(action) <==>
                && (TwoReserves(action) ==> outflowReserve.Some?)
                && (action.RepayAndWithdraw? && obligation.Some? ==>
                      exists b :: b in obligation.value.borrowSlots && b.borrowReserve == reserve.address)
    {
      if obligation.Some? && RepaidSlot().Some? {
        var i :| IsFirstBorrow(obligation.value.borrowSlots, reserve.address, i);
        assert obligation.value.borrowSlots[i] in obligation.value.borrowSlots;
      }
    }

    /** The token-account steps at the end of a cleanup. */
    function Backs(action: ActionType, includeAtaIxns: bool): seq<Ix> {
      WalletIxs(if includeAtaIxns then world.wallet(action).back else [])
    }

    /** When the last repayment leaves the group: the other reserves, the obligation without its borrows, and the
        request. */
    function Leaving(group: int, deposits: seq<PublicKey>): seq<Ix> {
      RefreshAll(Excluding(deposits, borrowReserves, [reserve.address]))
      + [RefreshObligation(deposits, [], []), RequestElevationGroup(group, deposits, [], [])]
    }

    /** The cleanup behind the farms: the token-account steps, and what leaving the group takes. */
    function Closing(action: ActionType, includeAtaIxns: bool, requested: Option<int>, deposits: seq<PublicKey>)
      : seq<Ix>
    {
      if !action.Repay? || requested.None? then Backs(action, includeAtaIxns)
      else
        Backs(action, includeAtaIxns) + Leaving(requested.value, deposits)
    }

    /** What a setup ends with in front of the farms: the refresh of the current reserves and of the obligation. */
    function Last(action: ActionType, deposits: seq<PublicKey>): seq<Ix> {
      if action.Liquidate? && outflowReserve.Some? && outflowReserve.value.address != reserve.address
      then [RefreshReserve(outflowReserve.value.address), RefreshReserve(reserve.address), InitialRefresh(deposits)]
      else [RefreshReserve(reserve.address), InitialRefresh(deposits)]
    }

    lemma {:induction false} LastInStoredFields(action: ActionType, deposits: seq<PublicKey>)
      requires OneSided(action)
      ensures RefreshAll(CurrentAddresses(action)) + [InitialRefresh(deposits)] == Last(action, deposits)
    {
      CurrentInStoredFields(action);
    }

    lemma {:induction false} LeaveInStoredFields(group: int, deposits: seq<PublicKey>)
      ensures LeaveBlock(Preloaded([], []), group, deposits, Excluding(deposits, borrowReserves, [reserve.address]))
           == Leaving(group, deposits)
    {
    }

    lemma {:induction false} RequestCleanup(action: ActionType, options: SupportOptions, requested: Option<int>,
                                            deposits: seq<PublicKey>)
      requires OneSided(action)
      ensures ActionRequest(Preloaded([], []), deposits, action, options, requested).cleanup
           == if !action.Repay? || requested.None? then [] else Leaving(requested.value, deposits)
    {
      CurrentInStoredFields(action);
      if action.Repay? && requested.Some? {
        LeaveInStoredFields(requested.value, deposits);
      }
    }

    /** The cleanup of a setup. */
    lemma {:induction false} SetupCleanup(action: ActionType, options: BuildOptions, twoTokenAction: bool,
                                          override: Option<int>, requested: Option<int>, deposits: seq<PublicKey>)
      requires OneSided(action)
      ensures AfterSupport(State(FirstLists(action, options), [], Preloaded([], []), deposits), action, Setup,
                           SetupOptions(options, twoTokenAction, override), requested).lists.cleanup
              == Closing(action, options.includeAtaIxns, requested, deposits)
    {
      var support := SetupOptions(options, twoTokenAction, override);
      SetupState(FirstLists(action, options), deposits, action, support, requested);
      RequestCleanup(action, support, requested, deposits);
      assert WithWallet(FirstLists(action, options), action, options.includeAtaIxns).cleanup
          == Backs(action, options.includeAtaIxns);
    }

    // -------------------------------------------------------------- what a setup holds

    /** The obligation refresh that names everything the obligation holds when the transaction starts. */
    function InitialRefresh(deposits: seq<PublicKey>): Ix {
      RefreshObligation(deposits, borrowReserves, if referrer == DEFAULT then [] else borrowReserves)
    }

    /** The request that names everything the obligation holds when the transaction starts. */
    function InitialRequest(group: int, deposits: seq<PublicKey>): Ix {
      RequestElevationGroup(group, deposits, borrowReserves, if referrer == DEFAULT then [] else borrowReserves)
    }

    /** The token-account steps in front of a setup; those of a second action come in front of the first's. */
    function Fronts(action: ActionType, second: Option<ActionType>, includeAtaIxns: bool): seq<nat> {
      if !includeAtaIxns then []
      else (if second.Some? then world.wallet(second.value).front else []) + world.wallet(action).front
    }

    /** What an action creates in its setup. */
    predicate Creates(ix: Ix, action: ActionType, second: Option<ActionType>, options: BuildOptions) {
      match ix
      case Wallet(step) => step in Fronts(action, second, options.includeAtaIxns)
      case InitReferrerTokenState(k) =>
        && referrer != DEFAULT && !world.referrerStateExists(k)
        && (k == reserve.address || (outflowReserve.Some? && k == outflowReserve.value.address))
      case ComputeBudget(units) => 0 < units == options.extraComputeBudget
      case CreateLookupTable => !world.userMetadataExists && options.includeUserMetadata
      case InitUserMetadata => !world.userMetadataExists && options.includeUserMetadata
      case InitObligation => obligation.None?
      case _ => false
    }

    /** Refreshes of every reserve of the obligation and of the action. */
    predicate RefreshesReserve(ix: Ix, action: ActionType, deposits: seq<PublicKey>) {
      ix.RefreshReserve? && (ix.reserve in deposits || ix.reserve in borrowReserves || Touches(action, ix.reserve))
    }

    /** Exactly these instructions stand in the setup of an action that refreshes the obligation. */
    predicate SetupHolds(ix: Ix, action: ActionType, second: Option<ActionType>, options: BuildOptions,
                         requested: Option<int>, deposits: seq<PublicKey>)
    {
      || Creates(ix, action, second, options)
      || RefreshesReserve(ix, action, deposits)
      || (ix.InitObligationFarm? && CreatesFarm(action, ix.mode, ix.reserve, ix.farm))
      || ix == InitialRefresh(deposits)
      || (requested.Some? && !action.Repay? && ix == InitialRequest(requested.value, deposits))
      || ix in SetupFarms(action)
    }

    predicate InSetupIff(ix: Ix, ixs: seq<Ix>, action: ActionType, second: Option<ActionType>, options: BuildOptions,
                         requested: Option<int>, deposits: seq<PublicKey>)
    {
      ix in ixs <==> SetupHolds(ix, action, second, options, requested, deposits)
    }

    ghost predicate HoldsExactly(ixs: seq<Ix>, action: ActionType, second: Option<ActionType>, options: BuildOptions,
                                 requested: Option<int>, deposits: seq<PublicKey>)
    {
      forall ix :: InSetupIff(ix, ixs, action, second, options, requested, deposits)
    }

    /** Those, in the order of their stages, with the token-account steps first, and the obligation refresh and
        the farms last. */
    ghost predicate SetupIs(ixs: seq<Ix>, action: ActionType, second: Option<ActionType>, options: BuildOptions,
                            requested: Option<int>, deposits: seq<PublicKey>)
    {
      && HoldsExactly(ixs, action, second, options, requested, deposits)
      && FarmRefreshes(ixs) == SetupFarms(action) && EndsWith(ixs, Last(action, deposits) + SetupFarms(action))
      && InStages(ixs) && WalletIxs(Fronts(action, second, options.includeAtaIxns)) <= ixs
    }

    lemma {:induction false} ReferrerInitMembers(reserves: seq<PublicKey>, ix: Ix)
      ensures ix in ReferrerInits(reserves) <==>
                ix.InitReferrerTokenState? && ix.reserve in reserves && !world.referrerStateExists(ix.reserve)
    {
      if reserves != [] {
        ReferrerInitMembers(reserves[..|reserves| - 1], ix);
        assert reserves == reserves[..|reserves| - 1] + [reserves[|reserves| - 1]];
      }
    }

    lemma {:induction false} ReferrerInitsInStages(reserves: seq<PublicKey>)
      requires NoRepeats(reserves)
      ensures InStages(ReferrerInits(reserves)) && Within(1, 1, ReferrerInits(reserves))
    {
      if reserves != [] {
        var before, last := reserves[..|reserves| - 1], reserves[|reserves| - 1];
        ReferrerInitsInStages(before);
        forall ix ensures ix in ReferrerInits(before) ==> ix.InitReferrerTokenState? && ix.reserve != last {
          ReferrerInitMembers(before, ix);
        }
        InStagesAppend(When(!world.referrerStateExists(last), [InitReferrerTokenState(last)]), ReferrerInits(before));
      }
    }

    // -------------------------------------------------------------- builders

    /** The farm refreshes of the setup come again right after the only lending instruction. */
    ghost predicate FarmsAfterLending()
      reads this
    {
      inBetweenIxs == [] && FarmRefreshes(setupIxs) <= cleanupIxs
    }

    /** Those of the setup come again right after the first of two lending instructions, the others in
        between right after the second. */
    ghost predicate FarmsAfterEachLending()
      reads this
    {
      FarmsInOrder(setupIxs, inBetweenIxs, cleanupIxs)
    }

    /** The block of a setup has no farm refreshes and ends with that refresh. */
    lemma {:induction false} SetupBlock(deposits: seq<PublicKey>, action: ActionType)
      ensures RefreshNaming(Preloaded([], []), deposits, false) == InitialRefresh(deposits)
      ensures var block := ActionBlock(Preloaded([], []), deposits, action, true, false);
              NoFarmRefresh(block)
              && EndsWith(block, RefreshAll(CurrentAddresses(action)) + [InitialRefresh(deposits)])
    {
      var current := CurrentAddresses(action);
      WithoutNone(borrowReserves);
      InitFarmsNeutral(action);
      EndsWithCurrent([] + RefreshAll(Excluding(deposits, borrowReserves, current)) + InitFarmsOf(action),
                      RefreshAll(current), InitialRefresh(deposits));
      BlockWithoutFarms([], Excluding(deposits, borrowReserves, current), InitFarmsOf(action), current,
                        InitialRefresh(deposits));
    }

    /** A setup ends with the refresh of the whole obligation and the farm refreshes of the action. */
    lemma {:induction false} SetupLaws(before: Lists, deposits: seq<PublicKey>, action: ActionType,
                                       options: SupportOptions, requested: Option<int>)
      requires Refreshes(action) && !action.DepositAndBorrow? && !action.RepayAndWithdraw?
               && options.addInitObligationForFarm
      requires NoFarmRefresh(WithWallet(before, action, options.includeAtaIxns).setup)
      ensures var after := AfterSupport(State(before, [], Preloaded([], []), deposits), action, Setup, options,
                                        requested);
              && after.pre == Preloaded([], []) && after.deposits == deposits
              && FarmRefreshes(after.lists.setup) == FarmsOf(action, Setup)
              && EndsWith(after.lists.setup,
                          RefreshAll(CurrentAddresses(action)) + [InitialRefresh(deposits)] + FarmsOf(action, Setup))
              && (before.inBetween == [] ==> after.lists.inBetween == FarmsAhead(action, Setup, options.twoTokenAction))
              && after.kept == FarmsKept(action, Setup, options.twoTokenAction)
    {
      var pre, current := Preloaded([], []), CurrentAddresses(action);
      SetupBlock(deposits, action);
      FarmsOfOnly(action, Setup);
      RequestLaws(pre, action, options.overrideElevationGroupRequest, requested, deposits,
                  Excluding(deposits, borrowReserves, current), current);
      SetupListLaws(WithWallet(before, action, options.includeAtaIxns),
                    ActionBlock(pre, deposits, action, true, false), RefreshAll(current) + [InitialRefresh(deposits)],
                    ActionRequest(pre, deposits, action, options, requested), FarmsOf(action, Setup),
                    FarmsAhead(action, Setup, options.twoTokenAction));
      SetupState(before, deposits, action, options, requested);
    }

    lemma {:induction false} SetupState(before: Lists, deposits: seq<PublicKey>, action: ActionType,
                                        options: SupportOptions, requested: Option<int>)
      requires Refreshes(action) && !action.DepositAndBorrow? && !action.RepayAndWithdraw?
               && options.addInitObligationForFarm
      ensures var pre := Preloaded([], []);
              AfterSupport(State(before, [], pre, deposits), action, Setup, options, requested)
              == State(WithWallet(before, action, options.includeAtaIxns)
                         .Supported(Setup, ActionBlock(pre, deposits, action, true, false),
                                    ActionRequest(pre, deposits, action, options, requested), FarmsOf(action, Setup),
                                    FarmsAhead(action, Setup, options.twoTokenAction)),
                       FarmsKept(action, Setup, options.twoTokenAction), pre, deposits)
    {
    }

    method AddBudget(extraComputeBudget: int)
      requires setupIxs == []
      modifies this`setupIxs
      ensures setupIxs == When(extraComputeBudget > 0, [ComputeBudget(extraComputeBudget)])
      ensures RefreshedBeforeUse(setupIxs) && Neutral(setupIxs)
    {
      if extraComputeBudget > 0 {
        AddComputeBudgetIxn(extraComputeBudget);
      }
    }

    /** The support options of a setup. */
    function SetupOptions(options: BuildOptions, twoTokenAction: bool, override: Option<int>): SupportOptions {
      SupportOptions(options.includeAtaIxns, options.requestElevationGroup, true, false, twoTokenAction, override)
    }

    /** The compute budget, when one is asked for. */
    function Budget(options: BuildOptions): seq<Ix> {
      When(options.extraComputeBudget > 0, [ComputeBudget(options.extraComputeBudget)])
    }

    /** The lists of an object just made, with budget and prelude. */
    function FirstLists(action: ActionType, options: BuildOptions): Lists {
      WithPrelude(Lists(Budget(options), [], []), action, options.includeUserMetadata)
    }

    lemma {:induction false} FirstListsNeutral(action: ActionType, options: BuildOptions)
      ensures Neutral(WithWallet(FirstLists(action, options), action, options.includeAtaIxns).setup)
    {
      PreludeNeutral(Lists(Budget(options), [], []), action, options.includeUserMetadata, options.includeAtaIxns);
    }

    lemma {:induction false} ReferrerMembers(ix: Ix)
      ensures ix in ReferrerInits(ReferrerReserves()) <==>
              (&& ix.InitReferrerTokenState? && referrer != DEFAULT && !world.referrerStateExists(ix.reserve)
               && (ix.reserve == reserve.address
                   || (outflowReserve.Some? && ix.reserve == outflowReserve.value.address)))
    {
      ReferrerInitMembers(ReferrerReserves(), ix);
      UniqueLaws([reserve.address] + if outflowReserve.Some? then [outflowReserve.value.address] else []);
    }

    lemma {:induction false} PreludeIsCreations(action: ActionType, options: BuildOptions)
      requires OneSided(action)
      ensures FirstLists(action, options).setup
           == Creations(ReferrerInits(ReferrerReserves()), options.extraComputeBudget,
                        !world.userMetadataExists && options.includeUserMetadata, obligation.None?)
    {
    }

    /** What the prelude holds. */
    lemma {:induction false} PreludeMembers(action: ActionType, options: BuildOptions, ix: Ix)
      requires OneSided(action)
      ensures ix in FirstLists(action, options).setup <==> !ix.Wallet? && Creates(ix, action, None, options)
    {
      ReferrerMembers(ix);
      PreludeIsCreations(action, options);
      CreationMembers(ReferrerInits(ReferrerReserves()), options.extraComputeBudget,
                      !world.userMetadataExists && options.includeUserMetadata, obligation.None?, ix);
    }

    lemma {:induction false} WalletMembers(steps: seq<nat>, ix: Ix)
      ensures ix in WalletIxs(steps) <==> ix.Wallet? && ix.step in steps
    {
      if ix.Wallet? && ix.step in steps {
        var i :| 0 <= i < |steps| && steps[i] == ix.step;
        assert WalletIxs(steps)[i] == ix;
      }
    }

    /** What stands in front of the refreshes. */
    lemma {:induction false} HeadMembers(action: ActionType, options: BuildOptions, ix: Ix)
      requires OneSided(action)
      ensures ix in WithWallet(FirstLists(action, options), action, options.includeAtaIxns).setup <==>
                Creates(ix, action, None, options)
    {
      PreludeMembers(action, options, ix);
      WalletMembers(world.wallet(action).front, ix);
    }

    lemma {:induction false} PreludeInStages(action: ActionType, options: BuildOptions)
      requires OneSided(action)
      ensures InStages(FirstLists(action, options).setup) && Within(1, 5, FirstLists(action, options).setup)
    {
      UniqueLaws([reserve.address] + if outflowReserve.Some? then [outflowReserve.value.address] else []);
      ReferrerInitsInStages(ReferrerReserves());
      PreludeIsCreations(action, options);
      CreationsInStages(ReferrerInits(ReferrerReserves()), options.extraComputeBudget,
                        !world.userMetadataExists && options.includeUserMetadata, obligation.None?);
    }

    lemma {:induction false} HeadInStages(action: ActionType, options: BuildOptions)
      requires OneSided(action)
      ensures InStages(WithWallet(FirstLists(action, options), action, options.includeAtaIxns).setup)
      ensures Within(0, 5, WithWallet(FirstLists(action, options), action, options.includeAtaIxns).setup)
    {
      PreludeInStages(action, options);
      WalletFirst(world.wallet(action).front, FirstLists(action, options).setup);
    }

    lemma {:induction false} RefreshMembers(keys: seq<PublicKey>, ix: Ix)
      ensures ix in RefreshAll(keys) <==> ix.RefreshReserve? && ix.reserve in keys
    {
      RefreshAllNeutral(keys);
    }

    /** A refresh block of the setup. */
    lemma {:induction false} BlockMembers(action: ActionType, deposits: seq<PublicKey>, ix: Ix)
      requires OneSided(action)
      ensures ix in ActionBlock(Preloaded([], []), deposits, action, true, false) <==>
                || RefreshesReserve(ix, action, deposits)
                || (ix.InitObligationFarm? && CreatesFarm(action, ix.mode, ix.reserve, ix.farm))
                || ix == InitialRefresh(deposits)
    {
      var current := CurrentAddresses(action);
      CurrentInStoredFields(action);
      SetupBlock(deposits, action);
      RefreshMembers(Excluding(deposits, borrowReserves, current), ix);
      RefreshMembers(current, ix);
      InitFarmMembers(action, ix);
    }

    lemma {:induction false} RequestBlockMembers(pre: Preloaded, group: int, deposits: seq<PublicKey>,
                                                 excluded: seq<PublicKey>, current: seq<PublicKey>, ix: Ix)
      ensures ix in RequestBlock(pre, group, deposits, excluded, current) <==>
                || ix == RequestNaming(pre, group, deposits, false) || ix == RefreshNaming(pre, deposits, false)
                || (ix.RefreshReserve? && (ix.reserve in excluded || ix.reserve in current))
    {
      RefreshMembers(excluded, ix);
      RefreshMembers(current, ix);
    }

    lemma {:induction false} NamesEverything(deposits: seq<PublicKey>, group: int)
      ensures RefreshNaming(Preloaded([], []), deposits, false) == InitialRefresh(deposits)
      ensures RequestNaming(Preloaded([], []), group, deposits, false) == InitialRequest(group, deposits)
    {
      WithoutNone(borrowReserves);
    }

    /** A request in the setup. */
    lemma {:induction false} RequestMembers(action: ActionType, deposits: seq<PublicKey>, options: SupportOptions,
                                            requested: Option<int>, ix: Ix)
      requires OneSided(action)
      ensures ix in ActionRequest(Preloaded([], []), deposits, action, options, requested).setup <==>
                && requested.Some? && !action.Repay?
                && (|| RefreshesReserve(ix, action, deposits)
                    || ix == InitialRequest(requested.value, deposits) || ix == InitialRefresh(deposits))
    {
      var current := CurrentAddresses(action);
      var excluded := Excluding(deposits, borrowReserves, current);
      if requested.Some? && !action.Repay? {
        CurrentInStoredFields(action);
        NamesEverything(deposits, requested.value);
        RequestBlockMembers(Preloaded([], []), requested.value, deposits, excluded, current, ix);
        assert ActionRequest(Preloaded([], []), deposits, action, options, requested).setup
            == RequestBlock(Preloaded([], []), requested.value, deposits, excluded, current);
      }
    }

    /** The block and the request are of one stage. */
    lemma {:induction false} MiddleStage(action: ActionType, deposits: seq<PublicKey>, options: SupportOptions,
                                         requested: Option<int>)
      requires OneSided(action)
      ensures Within(6, 6, ActionBlock(Preloaded([], []), deposits, action, true, false))
      ensures Within(6, 6, ActionRequest(Preloaded([], []), deposits, action, options, requested).setup)
    {
      forall ix ensures ix in ActionBlock(Preloaded([], []), deposits, action, true, false) ==> Stage(ix) == 6 {
        BlockMembers(action, deposits, ix);
      }
      forall ix
        ensures ix in ActionRequest(Preloaded([], []), deposits, action, options, requested).setup ==> Stage(ix) == 6
      {
        RequestMembers(action, deposits, options, requested, ix);
      }
    }

    lemma {:induction false} PartsMembers(action: ActionType, options: BuildOptions, support: SupportOptions,
                                          requested: Option<int>, deposits: seq<PublicKey>, ix: Ix)
      requires OneSided(action)
      ensures || ix in WithWallet(FirstLists(action, options), action, options.includeAtaIxns).setup
              || ix in ActionBlock(Preloaded([], []), deposits, action, true, false)
              || ix in ActionRequest(Preloaded([], []), deposits, action, support, requested).setup
              || ix in SetupFarms(action)
         <==> SetupHolds(ix, action, None, options, requested, deposits)
    {
      HeadMembers(action, options, ix);
      BlockMembers(action, deposits, ix);
      RequestMembers(action, deposits, support, requested, ix);
    }

    /** The parts of a setup. */
    function SetupParts(action: ActionType, options: BuildOptions, support: SupportOptions, requested: Option<int>,
                        deposits: seq<PublicKey>): seq<Ix>
    {
      WithWallet(FirstLists(action, options), action, options.includeAtaIxns).setup
      + ActionBlock(Preloaded([], []), deposits, action, true, false)
      + ActionRequest(Preloaded([], []), deposits, action, support, requested).setup
      + SetupFarms(action)
    }

    lemma {:induction false} SetupInParts(action: ActionType, options: BuildOptions, twoTokenAction: bool,
                                          override: Option<int>, requested: Option<int>, deposits: seq<PublicKey>)
      requires OneSided(action) && (action.Liquidate? ==> outflowReserve.Some?)
      ensures var support := SetupOptions(options, twoTokenAction, override);
              AfterSupport(State(FirstLists(action, options), [], Preloaded([], []), deposits), action, Setup, support,
                           requested).lists.setup
              == SetupParts(action, options, support, requested, deposits)
    {
      SetupState(FirstLists(action, options), deposits, action, SetupOptions(options, twoTokenAction, override),
                 requested);
      FarmsInStoredFields(action);
    }

    lemma {:induction false} SetupMembers(action: ActionType, options: BuildOptions, support: SupportOptions,
                                          requested: Option<int>, deposits: seq<PublicKey>)
      requires OneSided(action)
      ensures HoldsExactly(SetupParts(action, options, support, requested, deposits), action, None, options, requested,
                           deposits)
    {
      forall ix
        ensures InSetupIff(ix, SetupParts(action, options, support, requested, deposits), action, None, options,
                           requested, deposits)
      {
        PartsMembers(action, options, support, requested, deposits, ix);
      }
    }

    lemma {:induction false} SetupFarmsOnly(action: ActionType)
      ensures OnlyFarmRefreshes(SetupFarms(action))
    {
    }

    lemma {:induction false} FarmsAreLast(action: ActionType)
      ensures Within(7, 7, SetupFarms(action))
    {
    }

    lemma {:induction false} SetupOrder(action: ActionType, options: BuildOptions, support: SupportOptions,
                                        requested: Option<int>, deposits: seq<PublicKey>)
      requires OneSided(action)
      ensures InStages(SetupParts(action, options, support, requested, deposits))
    {
      HeadInStages(action, options);
      MiddleStage(action, deposits, support, requested);
      FarmsAreLast(action);
      SetupInStages(WithWallet(FirstLists(action, options), action, options.includeAtaIxns).setup,
                    ActionBlock(Preloaded([], []), deposits, action, true, false),
                    ActionRequest(Preloaded([], []), deposits, action, support, requested).setup, SetupFarms(action));
    }

    lemma {:induction false} SetupFront(action: ActionType, options: BuildOptions, support: SupportOptions,
                                        requested: Option<int>, deposits: seq<PublicKey>)
      ensures WalletIxs(Fronts(action, None, options.includeAtaIxns))
              <= SetupParts(action, options, support, requested, deposits)
    {
      FrontIs(FirstLists(action, options), action, options.includeAtaIxns);
      OwnFront(action, options.includeAtaIxns);
      PrefixOfParts(WithWallet(FirstLists(action, options), action, options.includeAtaIxns).setup,
                    ActionBlock(Preloaded([], []), deposits, action, true, false),
                    ActionRequest(Preloaded([], []), deposits, action, support, requested).setup, SetupFarms(action));
    }

    lemma {:induction false} OwnFront(action: ActionType, includeAtaIxns: bool)
      ensures WalletIxs(Fronts(action, None, includeAtaIxns))
           == if includeAtaIxns then WalletIxs(world.wallet(action).front) else []
    {
      assert [] + world.wallet(action).front == world.wallet(action).front;
    }

    /** A setup holds exactly what the action needs, in the order of the stages. */
    lemma {:induction false} SetupContents(action: ActionType, options: BuildOptions, support: SupportOptions,
                                           requested: Option<int>, deposits: seq<PublicKey>)
      requires OneSided(action)
      requires var parts := SetupParts(action, options, support, requested, deposits);
               && FarmRefreshes(parts) == SetupFarms(action)
               && EndsWith(parts, Last(action, deposits) + SetupFarms(action))
      ensures SetupIs(SetupParts(action, options, support, requested, deposits), action, None, options, requested,
                      deposits)
    {
      SetupMembers(action, options, support, requested, deposits);
      SetupOrder(action, options, support, requested, deposits);
      SetupFront(action, options, support, requested, deposits);
    }

    /** The compute budget and the support instructions of an object just made. */
    method AddBudgetAndSupport(action: ActionType, options: BuildOptions, twoTokenAction: bool, override: Option<int>)
        returns (o: Outcome<ActionError>, ghost requested: Option<int>)
      requires Untouched()
      modifies this`preLoadedDepositReservesSameTx, this`preLoadedBorrowReservesSameTx,
               this`potentialElevationGroupUpdate,
               this`setupIxs, this`inBetweenIxs, this`cleanupIxs, this`refreshFarmsCleanupTxnIxs, depositReserves
      ensures o.Pass? == (&& WalletReady(action, options.includeAtaIxns)
                          && (Refreshes(action) ==>
                                && Selectable(action) && KnowsAll(old(depositReserves.items), action)
                                && Finishable(action, Setup, options.requestElevationGroup, override)))
      ensures o.Fail? || Valid()
      ensures o.Fail? || !Refreshes(action)
              || DecidesUnder(action, SetupOptions(options, twoTokenAction, override), requested)
      ensures o.Pass? ==> potentialElevationGroupUpdate == Noted(action, requested, old(potentialElevationGroupUpdate))
      ensures o.Pass? ==>
                Now() == AfterSupport(State(FirstLists(action, options), [], Preloaded([], []),
                                            old(depositReserves.items)),
                                      action, Setup, SetupOptions(options, twoTokenAction, override), requested)
    {
      AddBudget(options.extraComputeBudget);
      assert Now().(lists := WithPrelude(Assembled(), action, options.includeUserMetadata))
          == State(FirstLists(action, options), [], Preloaded([], []), depositReserves.items);
      o, requested := AddSupportIxs(action, options.includeUserMetadata,
                                    SetupOptions(options, twoTokenAction, override));
    }

    /** The farm refreshes of the setup wait in one of two places: at the head of what comes in between, or
        for the cleanup. */
    method Begin(action: ActionType, options: BuildOptions, twoTokenAction: bool, override: Option<int>)
        returns (o: Outcome<ActionError>, ghost requested: Option<int>)
      requires Untouched() && OneSided(action) && !(twoTokenAction && action.Liquidate?)
      modifies this`preLoadedDepositReservesSameTx, this`preLoadedBorrowReservesSameTx,
               this`potentialElevationGroupUpdate,
               this`setupIxs, this`inBetweenIxs, this`cleanupIxs, this`refreshFarmsCleanupTxnIxs, depositReserves
      ensures o.Pass? == Ready(action, old(depositReserves.items), options, override)
      ensures o.Fail? || Valid()
      ensures o.Pass? ==> depositReserves.items == old(depositReserves.items)
      ensures o.Pass? ==> Pre() == Preloaded([], [])
      ensures o.Fail? || AsksIf(options.requestElevationGroup, action, override, requested)
      ensures o.Pass? ==> potentialElevationGroupUpdate == Noted(action, requested, old(potentialElevationGroupUpdate))
      ensures o.Fail? || SetupIs(setupIxs, action, None, options, requested, depositReserves.items)
      ensures o.Pass? ==> inBetweenIxs == When(twoTokenAction, SetupFarms(action))
      ensures o.Pass? ==> refreshFarmsCleanupTxnIxs == When(!twoTokenAction, SetupFarms(action))
      ensures o.Pass? ==> cleanupIxs == Closing(action, options.includeAtaIxns, requested, depositReserves.items)
    {
      ghost var deposits := depositReserves.items;
      o, requested := AddBudgetAndSupport(action, options, twoTokenAction, override);
      ReadyIff(action, Setup, deposits, options, override);
      if o.Fail? {
        return;
      }
      BeginLaws(action, options, twoTokenAction, override, requested, deposits);
    }

    /** What a setup comes to, in stored fields. */
    lemma {:induction false} BeginLaws(action: ActionType, options: BuildOptions, twoTokenAction: bool,
                                       override: Option<int>, requested: Option<int>, deposits: seq<PublicKey>)
      requires OneSided(action) && !(twoTokenAction && action.Liquidate?)
      requires Ready(action, deposits, options, override)
      requires DecidesUnder(action, SetupOptions(options, twoTokenAction, override), requested)
      ensures AsksIf(options.requestElevationGroup, action, override, requested)
      ensures var after := AfterSupport(State(FirstLists(action, options), [], Preloaded([], []), deposits), action,
                                        Setup, SetupOptions(options, twoTokenAction, override), requested);
              && after.pre == Preloaded([], []) && after.deposits == deposits
              && SetupIs(after.lists.setup, action, None, options, requested, deposits)
              && after.lists.inBetween == When(twoTokenAction, SetupFarms(action))
              && after.kept == When(!twoTokenAction, SetupFarms(action))
              && after.lists.cleanup == Closing(action, options.includeAtaIxns, requested, deposits)
    {
      var support := SetupOptions(options, twoTokenAction, override);
      if options.requestElevationGroup {
        AsksInStoredFields(action, override, requested);
      }
      FirstListsNeutral(action, options);
      LastInStoredFields(action, deposits);
      FarmsInStoredFields(action);
      SetupLaws(FirstLists(action, options), deposits, action, support, requested);
      SetupInParts(action, options, twoTokenAction, override, requested, deposits);
      SetupContents(action, options, support, requested, deposits);
      SetupCleanup(action, options, twoTokenAction, override, requested, deposits);
    }

    /** The same for an action on the reserve alone, which refreshes nothing. */
    method BeginWithoutObligation(action: ActionType, options: BuildOptions) returns (o: Outcome<ActionError>)
      requires Untouched() && (action.Mint? || action.Redeem?)
      modifies this`preLoadedDepositReservesSameTx, this`preLoadedBorrowReservesSameTx,
               this`potentialElevationGroupUpdate,
               this`setupIxs, this`inBetweenIxs, this`cleanupIxs, this`refreshFarmsCleanupTxnIxs, depositReserves
      ensures o.Pass? == (options.includeAtaIxns ==> !world.wallet(action).fails)
      ensures o.Fail? || Valid()
      ensures o.Fail? || Neutral(setupIxs)
      ensures o.Pass? ==> inBetweenIxs == [] && refreshFarmsCleanupTxnIxs == [] && FarmRefreshes(setupIxs) == []
      ensures o.Pass? ==> setupIxs == WalletIxs(Fronts(action, None, options.includeAtaIxns)) + Budget(options)
      ensures o.Pass? ==> cleanupIxs == Backs(action, options.includeAtaIxns)
    {
      ghost var requested;
      o, requested := AddBudgetAndSupport(action, options, false, None);
      FirstListsNeutral(action, options);
      OwnFront(action, options.includeAtaIxns);
      if o.Pass? {
        FarmRefreshesNone(setupIxs);
      }
    }

    method BuildDeposit(options: BuildOptions, override: Option<int>)
        returns (o: Outcome<ActionError>, ghost requested: Option<int>)
      requires Untouched()
      modifies this`preLoadedDepositReservesSameTx, this`preLoadedBorrowReservesSameTx,
               this`potentialElevationGroupUpdate,
               this`setupIxs, this`inBetweenIxs, this`lendingIxs, this`cleanupIxs, this`refreshFarmsCleanupTxnIxs,
               depositReserves
      ensures o.Pass? == Ready(Deposit, old(depositReserves.items), options, override)
      ensures o.Fail? || Valid()
      ensures o.Fail? || FarmsAfterLending()
      ensures o.Pass? ==> depositReserves.items == old(depositReserves.items)
      ensures o.Pass? ==>
                requested == if options.requestElevationGroup && override.Some? && !AlreadyIn(override.value)
                             then override else None
      ensures o.Fail? || SetupIs(setupIxs, Deposit, None, options, requested, depositReserves.items)
      ensures o.Pass? ==> FarmRefreshes(setupIxs) == CollateralFarm(reserve)
      ensures o.Pass? ==> lendingIxs == [Lend(DepositReserveLiquidityAndObligationCollateral, reserve.address, [])]
      ensures o.Pass? ==> cleanupIxs == CollateralFarm(reserve) + Backs(Deposit, options.includeAtaIxns)
    {
      o, requested := Begin(Deposit, options, false, override);
      if o.Fail? {
        return;
      }
      AddDepositIx();
      AddRefreshFarmsCleanupTxnIxsToCleanupIxs();
    }

    method BuildBorrow(options: BuildOptions, override: Option<int>)
        returns (o: Outcome<ActionError>, ghost requested: Option<int>)
      requires Untouched()
      modifies this`preLoadedDepositReservesSameTx, this`preLoadedBorrowReservesSameTx,
               this`potentialElevationGroupUpdate,
               this`setupIxs, this`inBetweenIxs, this`lendingIxs, this`cleanupIxs, this`refreshFarmsCleanupTxnIxs,
               depositReserves
      ensures o.Pass? == (Ready(Borrow, old(depositReserves.items), options, override) && obligation.Some?)
      ensures o.Fail? || Valid()
      ensures o.Fail? || FarmsAfterLending()
      ensures o.Pass? ==> depositReserves.items == old(depositReserves.items)
      ensures o.Fail? || AsksIf(options.requestElevationGroup, Borrow, override, requested)
      ensures o.Fail? || SetupIs(setupIxs, Borrow, None, options, requested, depositReserves.items)
      ensures o.Pass? ==> FarmRefreshes(setupIxs) == DebtFarm(reserve)
      ensures o.Pass? ==>
                lendingIxs
                == [Lend(BorrowObligationLiquidity, reserve.address,
                         if obligation.value.elevationGroup > 0
                            || (if requested.Some? then requested.value else old(potentialElevationGroupUpdate)) > 0
                         then depositReserves.items else [])]
      ensures o.Pass? ==> cleanupIxs == DebtFarm(reserve) + Backs(Borrow, options.includeAtaIxns)
    {
      o, requested := Begin(Borrow, options, false, override);
      if o.Fail? {
        return;
      }
      o := AddBorrowIx();
      if o.Fail? {
        return;
      }
      AddRefreshFarmsCleanupTxnIxsToCleanupIxs();
    }

    method BuildDepositReserveLiquidity(options: BuildOptions) returns (o: Outcome<ActionError>)
      requires Untouched()
      modifies this`preLoadedDepositReservesSameTx, this`preLoadedBorrowReservesSameTx,
               this`potentialElevationGroupUpdate,
               this`setupIxs, this`inBetweenIxs, this`lendingIxs, this`cleanupIxs, this`refreshFarmsCleanupTxnIxs,
               depositReserves
      ensures o.Pass? == (options.includeAtaIxns ==> !world.wallet(Mint).fails)
      ensures o.Fail? || Valid()
      ensures o.Fail? || FarmsAfterLending()
      ensures o.Fail? || Neutral(setupIxs)
      ensures o.Pass? ==> setupIxs == WalletIxs(Fronts(Mint, None, options.includeAtaIxns)) + Budget(options)
      ensures o.Pass? ==> lendingIxs == [Lend(DepositReserveLiquidity, reserve.address, [])]
      ensures o.Pass? ==> cleanupIxs == Backs(Mint, options.includeAtaIxns)
    {
      o := BeginWithoutObligation(Mint, options);
      if o.Fail? {
        return;
      }
      AddDepositReserveLiquidityIx();
      AddRefreshFarmsCleanupTxnIxsToCleanupIxs();
    }

    method BuildRedeemReserveCollateral(options: BuildOptions) returns (o: Outcome<ActionError>)
      requires Untouched()
      modifies this`preLoadedDepositReservesSameTx, this`preLoadedBorrowReservesSameTx,
               this`potentialElevationGroupUpdate,
               this`setupIxs, this`inBetweenIxs, this`lendingIxs, this`cleanupIxs, this`refreshFarmsCleanupTxnIxs,
               depositReserves
      ensures o.Pass? == (options.includeAtaIxns ==> !world.wallet(Redeem).fails)
      ensures o.Fail? || Valid()
      ensures o.Fail? || FarmsAfterLending()
      ensures o.Fail? || Neutral(setupIxs)
      ensures o.Pass? ==> setupIxs == WalletIxs(Fronts(Redeem, None, options.includeAtaIxns)) + Budget(options)
      ensures o.Pass? ==> lendingIxs == [Lend(RedeemReserveCollateral, reserve.address, [])]
      ensures o.Pass? ==> cleanupIxs == Backs(Redeem, options.includeAtaIxns)
    {
      o := BeginWithoutObligation(Redeem, options);
      if o.Fail? {
        return;
      }
      AddRedeemReserveCollateralIx();
      AddRefreshFarmsCleanupTxnIxsToCleanupIxs();
    }

    method BuildDepositObligationCollateral(options: BuildOptions)
        returns (o: Outcome<ActionError>)
      requires Untouched()
      modifies this`preLoadedDepositReservesSameTx, this`preLoadedBorrowReservesSameTx,
               this`potentialElevationGroupUpdate,
               this`setupIxs, this`inBetweenIxs, this`lendingIxs, this`cleanupIxs, this`refreshFarmsCleanupTxnIxs,
               depositReserves
      ensures o.Pass? == Ready(DepositCollateral, old(depositReserves.items), options, None)
      ensures o.Fail? || Valid()
      ensures o.Fail? || FarmsAfterLending()
      ensures o.Pass? ==> depositReserves.items == old(depositReserves.items)
      ensures o.Fail? || SetupIs(setupIxs, DepositCollateral, None, options, None, depositReserves.items)
      ensures o.Pass? ==> FarmRefreshes(setupIxs) == CollateralFarm(reserve)
      ensures o.Pass? ==> lendingIxs == [Lend(DepositObligationCollateral, reserve.address, [])]
      ensures o.Pass? ==> cleanupIxs == CollateralFarm(reserve) + Backs(DepositCollateral, options.includeAtaIxns)
    {
      ghost var requested;
      o, requested := Begin(DepositCollateral, options, false, None);
      if o.Fail? {
        return;
      }
      AddDepositObligationCollateralIx();
      AddRefreshFarmsCleanupTxnIxsToCleanupIxs();
    }

    method BuildWithdraw(options: BuildOptions) returns (o: Outcome<ActionError>)
      requires Untouched()
      modifies this`preLoadedDepositReservesSameTx, this`preLoadedBorrowReservesSameTx,
               this`potentialElevationGroupUpdate,
               this`setupIxs, this`inBetweenIxs, this`lendingIxs, this`cleanupIxs, this`refreshFarmsCleanupTxnIxs,
               depositReserves
      ensures o.Pass? == Ready(Withdraw, old(depositReserves.items), options, None)
      ensures o.Fail? || Valid()
      ensures o.Fail? || FarmsAfterLending()
      ensures o.Pass? ==> depositReserves.items == old(depositReserves.items)
      ensures o.Fail? || SetupIs(setupIxs, Withdraw, None, options, None, depositReserves.items)
      ensures o.Pass? ==> FarmRefreshes(setupIxs) == CollateralFarm(reserve)
      ensures o.Pass? ==>
                lendingIxs
                == [Lend(WithdrawObligationCollateralAndRedeemReserveCollateral, reserve.address, [])]
      ensures o.Pass? ==> cleanupIxs == CollateralFarm(reserve) + Backs(Withdraw, options.includeAtaIxns)
    {
      ghost var requested;
      o, requested := Begin(Withdraw, options, false, None);
      if o.Fail? {
        return;
      }
      AddWithdrawIx();
      AddRefreshFarmsCleanupTxnIxsToCleanupIxs();
    }

    method BuildRepay(options: BuildOptions)
        returns (o: Outcome<ActionError>, ghost requested: Option<int>)
      requires Untouched()
      modifies this`preLoadedDepositReservesSameTx, this`preLoadedBorrowReservesSameTx,
               this`potentialElevationGroupUpdate,
               this`setupIxs, this`inBetweenIxs, this`lendingIxs, this`cleanupIxs, this`refreshFarmsCleanupTxnIxs,
               depositReserves
      ensures o.Pass? == (Ready(Repay, old(depositReserves.items), options, None) && obligation.Some?)
      ensures o.Fail? || Valid()
      ensures o.Fail? || FarmsAfterLending()
      ensures o.Pass? ==> depositReserves.items == old(depositReserves.items)
      ensures o.Pass? ==> requested == if options.requestElevationGroup && ClearsOnlyDebt() then Some(0) else None
      ensures o.Fail? || SetupIs(setupIxs, Repay, None, options, requested, depositReserves.items)
      ensures o.Pass? ==> FarmRefreshes(setupIxs) == DebtFarm(reserve)
      ensures o.Pass? ==>
                lendingIxs
                == [Lend(RepayObligationLiquidity, reserve.address,
                         if obligation.value.elevationGroup > 0 then depositReserves.items else [])]
      ensures o.Pass? ==>
                cleanupIxs
                == DebtFarm(reserve) + Closing(Repay, options.includeAtaIxns, requested, depositReserves.items)
    {
      o, requested := Begin(Repay, options, false, None);
      if o.Fail? {
        return;
      }
      o := AddRepayIx();
      if o.Fail? {
        return;
      }
      AddRefreshFarmsCleanupTxnIxsToCleanupIxs();
    }

    method BuildLiquidate(options: BuildOptions) returns (o: Outcome<ActionError>)
      requires Untouched()
      modifies this`preLoadedDepositReservesSameTx, this`preLoadedBorrowReservesSameTx,
               this`potentialElevationGroupUpdate,
               this`setupIxs, this`inBetweenIxs, this`lendingIxs, this`cleanupIxs, this`refreshFarmsCleanupTxnIxs,
               depositReserves
      ensures o.Pass? == (&& Ready(Liquidate, old(depositReserves.items), options, None)
                          && world.additionalTokenAccountSet && obligation.Some?)
      ensures o.Fail? || Valid()
      ensures o.Fail? || FarmsAfterLending()
      ensures o.Pass? ==> depositReserves.items == old(depositReserves.items)
      ensures o.Fail? || SetupIs(setupIxs, Liquidate, None, options, None, depositReserves.items)
      ensures o.Pass? ==> FarmRefreshes(setupIxs) == CollateralFarm(outflowReserve.value) + DebtFarm(reserve)
      ensures o.Pass? ==>
                lendingIxs
                == [Lend(LiquidateObligationAndRedeemReserveCollateral, reserve.address,
                         if obligation.value.elevationGroup > 0 then depositReserves.items else [])]
      ensures o.Pass? ==>
                cleanupIxs == CollateralFarm(outflowReserve.value) + DebtFarm(reserve)
                              + Backs(Liquidate, options.includeAtaIxns)
    {
      ghost var requested;
      o, requested := Begin(Liquidate, options, false, None);
      if o.Fail? {
        return;
      }
      o := AddLiquidateIx();
      if o.Fail? {
        return;
      }
      AddRefreshFarmsCleanupTxnIxsToCleanupIxs();
    }

    // -------------------------------------------------------------- between two lending instructions

    /** The farms refreshed in between are the outflow reserve's: the debt farm of what is borrowed, the
        collateral farm of what is withdrawn. */
    function SecondFarms(action: ActionType): seq<Ix> {
      if outflowReserve.None? then []
      else if action.DepositAndBorrow? then DebtFarm(outflowReserve.value)
      else CollateralFarm(outflowReserve.value)
    }

    /** The deposit reserves once the first half is done: a deposit that opens a slot adds its own. */
    function DepositsAfter(action: ActionType, deposits: seq<PublicKey>): seq<PublicKey> {
      if (obligation.None? || (action.DepositAndBorrow? && reserve.address !in obligation.value.depositSlots))
         && reserve.address !in deposits
      then deposits + [reserve.address]
      else deposits
    }

    /** The amount covers the debt of the first borrow slot of the reserve, grown to its estimated rate. */
    ghost predicate RepaidInFull() {
      obligation.Some? &&
      exists i :: IsFirstBorrow(obligation.value.borrowSlots, reserve.address, i)
                  && obligation.value.borrowSlots[i].borrowedAmount * world.estimatedCumulativeBorrowRate
                     / obligation.value.borrowSlots[i].cumulativeBorrowRate <= world.amount
    }

    /** The borrow reserves still open then. */
    ghost function StillOpen(action: ActionType, isClosingPosition: bool): seq<PublicKey> {
      if action.DepositAndBorrow? then borrowReserves
      else if isClosingPosition then []
      else if RepaidInFull() then Without(borrowReserves, [reserve.address])
      else borrowReserves
    }

    /** The obligation refresh in between names both. */
    ghost function SecondRefresh(action: ActionType, isClosingPosition: bool, deposits: seq<PublicKey>): Ix {
      var open := StillOpen(action, isClosingPosition);
      RefreshObligation(deposits, open, if referrer == DEFAULT then [] else open)
    }

    lemma {:induction false} RepaidInFullIff()
      requires RepaidSlot().Some?
      ensures RepaysInFull(RepaidSlot().value) <==> RepaidInFull()
    {
      var slots := obligation.value.borrowSlots;
      var i :| IsFirstBorrow(slots, reserve.address, i);
      assert RepaidSlot().value == slots[i];
      RepaysIff(slots[i]);
      forall k | IsFirstBorrow(slots, reserve.address, k) ensures k == i {}
    }

    lemma {:induction false} RepaysIff(slot: Obligation.ObligationLiquidity)
      ensures RepaysInFull(slot) <==>
                slot.borrowedAmount * world.estimatedCumulativeBorrowRate / slot.cumulativeBorrowRate <= world.amount
    {
    }

    /** What is preloaded for the second half, in stored fields. */
    lemma {:induction false} SelectedInStoredFields(action: ActionType, deposits: seq<PublicKey>,
                                                    isClosingPosition: bool)
      requires (action.DepositAndBorrow? || action.RepayAndWithdraw?) && Selectable(action)
      ensures var pre := Selected(Preloaded([], []), action);
              && KnownDeposits(pre, deposits) == DepositsAfter(action, deposits)
              && RefreshNaming(pre, KnownDeposits(pre, deposits), SkipsBorrows(action, InBetween, isClosingPosition))
                 == SecondRefresh(action, isClosingPosition, DepositsAfter(action, deposits))
    {
      assert [] + [reserve.address] == [reserve.address];
      InsertOne(deposits, reserve.address);
      WithoutNone(borrowReserves);
      if action.RepayAndWithdraw? && obligation.Some? {
        RepaidInFullIff();
      }
    }

    /** Exactly these instructions stand in between. */
    ghost predicate InBetweenHolds(ix: Ix, action: ActionType, before: seq<PublicKey>, ahead: seq<Ix>, refresh: Ix,
                                   requested: Option<int>)
      requires refresh.RefreshObligation?
    {
      || ix in ahead
      || RefreshesReserve(ix, action, before)
      || ix == refresh
      || (requested.Some? && ix == RequestElevationGroup(requested.value, refresh.deposits, refresh.borrows,
                                                         refresh.referrerStates))
      || ix in SecondFarms(action)
    }

    ghost predicate InBetweenIff(ix: Ix, ixs: seq<Ix>, action: ActionType, before: seq<PublicKey>, ahead: seq<Ix>,
                                 refresh: Ix, requested: Option<int>)
      requires refresh.RefreshObligation?
    {
      ix in ixs <==> InBetweenHolds(ix, action, before, ahead, refresh, requested)
    }

    /** The farm refreshes of the setup first, then refreshes of every reserve and of the obligation, with the
        elevation group request in the middle, the current reserves right in front of the last obligation
        refresh, and the further farms at the end. */
    ghost predicate InBetweenIs(ixs: seq<Ix>, action: ActionType, before: seq<PublicKey>, ahead: seq<Ix>, refresh: Ix,
                                requested: Option<int>)
      requires refresh.RefreshObligation?
    {
      && (forall ix :: InBetweenIff(ix, ixs, action, before, ahead, refresh, requested))
      && ahead <= ixs && FarmRefreshes(ixs) == ahead + SecondFarms(action)
      && EndsWith(ixs, RefreshAll(CurrentKeys(action)) + [refresh] + SecondFarms(action))
    }

    lemma {:induction false} InBetweenBlock(pre: Preloaded, deposits: seq<PublicKey>, action: ActionType,
                                            skipBorrows: bool)
      ensures var block := ActionBlock(pre, deposits, action, false, skipBorrows);
              && NoFarmRefresh(block)
              && EndsWith(block, RefreshAll(CurrentAddresses(action))
                                 + [RefreshNaming(pre, KnownDeposits(pre, deposits), skipBorrows)])
    {
      var current := CurrentAddresses(action);
      EndsWithCurrent([] + RefreshAll(Excluding(deposits, borrowReserves, current)) + [], RefreshAll(current),
                      RefreshNaming(pre, KnownDeposits(pre, deposits), skipBorrows));
      BlockWithoutFarms([], Excluding(deposits, borrowReserves, current), [], current,
                        RefreshNaming(pre, KnownDeposits(pre, deposits), skipBorrows));
    }

    lemma {:induction false} SecondBlockMembers(pre: Preloaded, deposits: seq<PublicKey>, action: ActionType,
                                                skipBorrows: bool, ix: Ix)
      ensures ix in ActionBlock(pre, deposits, action, false, skipBorrows) <==>
                || RefreshesReserve(ix, action, deposits)
                || ix == RefreshNaming(pre, KnownDeposits(pre, deposits), skipBorrows)
    {
      var current := CurrentAddresses(action);
      CurrentInStoredFields(action);
      RefreshMembers(Excluding(deposits, borrowReserves, current), ix);
      RefreshMembers(current, ix);
    }

    lemma {:induction false} SecondRequestMembers(pre: Preloaded, deposits: seq<PublicKey>, action: ActionType,
                                                  options: SupportOptions, requested: Option<int>, ix: Ix)
      requires action.DepositAndBorrow? || (action.RepayAndWithdraw? && requested.None?)
      requires options.overrideElevationGroupRequest.None?
      ensures var named := KnownDeposits(pre, deposits);
              ix in ActionRequest(pre, deposits, action, options, requested).inBetween <==>
                && requested.Some?
                && (|| RefreshesReserve(ix, action, deposits)
                    || ix == RequestNaming(pre, requested.value, named, false)
                    || ix == RefreshNaming(pre, named, false))
    {
      if requested.Some? {
        var current := CurrentAddresses(action);
        var excluded := Excluding(deposits, borrowReserves, current);
        CurrentInStoredFields(action);
        RequestBlockMembers(pre, requested.value, KnownDeposits(pre, deposits), excluded, current, ix);
        assert ActionRequest(pre, deposits, action, options, requested).inBetween
            == RequestBlock(pre, requested.value, KnownDeposits(pre, deposits), excluded, current);
      }
    }

    /** The in-between list after the second half: the farm refreshes follow those already there, with nothing
        between them and the obligation refresh. */
    lemma {:induction false} InBetweenLaws(s: State, action: ActionType, options: SupportOptions,
                                           requested: Option<int>)
      requires action.DepositAndBorrow? || action.RepayAndWithdraw?
      requires !options.addInitObligationForFarm && !options.twoTokenAction
               && options.overrideElevationGroupRequest.None?
      requires DecidesUnder(action, options, requested)
      ensures var after := AfterObligationSupport(s, action, InBetween, options, requested);
              var skip := SkipsBorrows(action, InBetween, options.isClosingPosition);
              && after.lists.setup == s.lists.setup
              && FarmRefreshes(after.lists.inBetween) == FarmRefreshes(s.lists.inBetween) + FarmsOf(action, InBetween)
              && s.lists.inBetween <= after.lists.inBetween
              && after.kept == s.kept + FarmsOf(action, InBetween)
              && EndsWith(after.lists.inBetween,
                          RefreshAll(CurrentAddresses(action)) + [RefreshNaming(after.pre, after.deposits, skip)]
                          + FarmsOf(action, InBetween))
    {
      var pre, deposits, current := Selected(s.pre, action), s.deposits, CurrentAddresses(action);
      var skip := SkipsBorrows(action, InBetween, options.isClosingPosition);
      InBetweenBlock(pre, deposits, action, skip);
      FarmsOfOnly(action, InBetween);
      RequestLaws(pre, action, None, requested, KnownDeposits(pre, deposits),
                  Excluding(deposits, borrowReserves, current), current);
      InBetweenListLaws(s.lists, ActionBlock(pre, deposits, action, false, skip),
                        RefreshAll(current) + [RefreshNaming(pre, KnownDeposits(pre, deposits), skip)],
                        ActionRequest(pre, deposits, action, options, requested), FarmsOf(action, InBetween));
    }

    lemma {:induction false} InBetweenParts(s: State, action: ActionType, options: SupportOptions,
                                            requested: Option<int>)
      requires (action.DepositAndBorrow? || action.RepayAndWithdraw?) && outflowReserve.Some?
      requires !options.addInitObligationForFarm && !options.twoTokenAction
               && options.overrideElevationGroupRequest.None?
      requires DecidesUnder(action, options, requested)
      ensures var after := AfterObligationSupport(s, action, InBetween, options, requested);
              var pre, skip := Selected(s.pre, action), SkipsBorrows(action, InBetween, options.isClosingPosition);
              && after.lists.inBetween
                 == s.lists.inBetween + ActionBlock(pre, s.deposits, action, false, skip)
                    + ActionRequest(pre, s.deposits, action, options, requested).inBetween + SecondFarms(action)
              && after.lists.cleanup == s.lists.cleanup
    {
      FarmsInStoredFields(action);
      var after := AfterObligationSupport(s, action, InBetween, options, requested);
      assert after.lists.inBetween + [] == after.lists.inBetween;
      assert s.lists.cleanup + [] == s.lists.cleanup;
    }

    /** The support options of a second half. */
    function SecondOptions(options: BuildOptions, isClosingPosition: bool): SupportOptions {
      SupportOptions(options.includeAtaIxns, options.requestElevationGroup, false, isClosingPosition, false, None)
    }

    lemma {:induction false} InBetweenMembers(s: State, action: ActionType, options: BuildOptions,
                                              isClosingPosition: bool, requested: Option<int>, refresh: Ix, ix: Ix)
      requires (action.DepositAndBorrow? || action.RepayAndWithdraw?) && outflowReserve.Some?
      requires DecidesUnder(action, SecondOptions(options, isClosingPosition), requested)
      requires var pre, skip := Selected(s.pre, action), SkipsBorrows(action, InBetween, isClosingPosition);
               refresh == RefreshNaming(pre, KnownDeposits(pre, s.deposits), skip)
      ensures var after := AfterObligationSupport(s, action, InBetween, SecondOptions(options, isClosingPosition),
                                                  requested);
              InBetweenIff(ix, after.lists.inBetween, action, s.deposits, s.lists.inBetween, refresh, requested)
    {
      var support := SecondOptions(options, isClosingPosition);
      var pre, skip := Selected(s.pre, action), SkipsBorrows(action, InBetween, isClosingPosition);
      InBetweenParts(s, action, support, requested);
      SecondBlockMembers(pre, s.deposits, action, skip, ix);
      SecondRequestMembers(pre, s.deposits, action, support, requested, ix);
    }

    /** What comes in between, in stored fields. */
    lemma {:induction false} SecondHalfLaws(s: State, action: ActionType, options: BuildOptions,
                                            isClosingPosition: bool, requested: Option<int>)
      requires (action.DepositAndBorrow? || action.RepayAndWithdraw?) && s.pre == Preloaded([], [])
      requires Selectable(action) && Ready(action, s.deposits, options, None)
      requires DecidesUnder(action, SecondOptions(options, isClosingPosition), requested)
      requires FarmRefreshes(s.lists.inBetween) == s.lists.inBetween
      ensures AsksIf(options.requestElevationGroup, action, None, requested)
      ensures var after := AfterObligationSupport(s, action, InBetween, SecondOptions(options, isClosingPosition),
                                                  requested);
              && after.lists.setup == s.lists.setup && after.lists.cleanup == s.lists.cleanup
              && after.kept == s.kept + SecondFarms(action)
              && after.deposits == DepositsAfter(action, s.deposits)
              && InBetweenIs(after.lists.inBetween, action, s.deposits, s.lists.inBetween,
                             SecondRefresh(action, isClosingPosition, after.deposits), requested)
    {
      var support := SecondOptions(options, isClosingPosition);
      var after := AfterObligationSupport(s, action, InBetween, support, requested);
      var refresh := SecondRefresh(action, isClosingPosition, after.deposits);
      if options.requestElevationGroup {
        AsksInStoredFields(action, None, requested);
      }
      SelectedInStoredFields(action, s.deposits, isClosingPosition);
      CurrentInStoredFields(action);
      FarmsInStoredFields(action);
      InBetweenLaws(s, action, support, requested);
      InBetweenParts(s, action, support, requested);
      forall ix
        ensures InBetweenIff(ix, after.lists.inBetween, action, s.deposits, s.lists.inBetween, refresh, requested)
      {
        InBetweenMembers(s, action, options, isClosingPosition, requested, refresh, ix);
      }
    }

    /** The in-between instructions of a two-token action. */
    method AddSecondHalf(action: ActionType, options: BuildOptions, isClosingPosition: bool)
        returns (o: Outcome<ActionError>, ghost requested: Option<int>)
      requires Valid() && (action.DepositAndBorrow? || action.RepayAndWithdraw?) && Pre() == Preloaded([], [])
      requires refreshFarmsCleanupTxnIxs == [] && OnlyFarmRefreshes(inBetweenIxs)
      modifies this`preLoadedDepositReservesSameTx, this`preLoadedBorrowReservesSameTx,
               this`potentialElevationGroupUpdate,
               this`setupIxs, this`inBetweenIxs, this`cleanupIxs, this`refreshFarmsCleanupTxnIxs, depositReserves
      ensures o.Pass? == Ready(action, old(depositReserves.items), options, None)
      ensures o.Fail? || Valid()
      ensures o.Pass? ==> refreshFarmsCleanupTxnIxs == SecondFarms(action)
      ensures o.Pass? ==> depositReserves.items == DepositsAfter(action, old(depositReserves.items))
      ensures o.Fail? || AsksIf(options.requestElevationGroup, action, None, requested)
      ensures o.Pass? ==> setupIxs == WithWallet(old(Assembled()), action, options.includeAtaIxns).setup
      ensures o.Pass? ==> cleanupIxs == WithWallet(old(Assembled()), action, options.includeAtaIxns).cleanup
      ensures o.Fail? || InBetweenIs(inBetweenIxs, action, old(depositReserves.items), old(inBetweenIxs),
                                     SecondRefresh(action, isClosingPosition, depositReserves.items), requested)
    {
      ghost var s := Now().(lists := WithWallet(Assembled(), action, options.includeAtaIxns));
      FarmRefreshesAll(inBetweenIxs);
      ReadyIff(action, InBetween, depositReserves.items, options, None);
      o, requested := AddInBetweenIxs(action, options.includeAtaIxns, options.requestElevationGroup, false,
                                      isClosingPosition);
      if o.Fail? {
        return;
      }
      SecondHalfLaws(s, action, options, isClosingPosition, requested);
    }

    /** The wallet in front of a setup changes neither its farm refreshes nor its end. */
    lemma {:induction false} WalletInFront(before: Lists, action: ActionType, includeAtaIxns: bool, tail: seq<Ix>)
      requires EndsWith(before.setup, tail)
      ensures var after := WithWallet(before, action, includeAtaIxns);
              FarmRefreshes(after.setup) == FarmRefreshes(before.setup) && EndsWith(after.setup, tail)
    {
      var front := WalletIxs(world.wallet(action).front);
      FarmRefreshesAppend(front, before.setup);
      FarmRefreshesNone(front);
      assert [] + FarmRefreshes(before.setup) == FarmRefreshes(before.setup);
      EndsWithBehind(front, before.setup, tail);
    }

    lemma {:induction false} FrontSteps(ixs: seq<Ix>, first: ActionType, second: ActionType, options: BuildOptions,
                                        requested: Option<int>, deposits: seq<PublicKey>, ix: Ix)
      requires options.includeAtaIxns && InSetupIff(ix, ixs, first, None, options, requested, deposits)
      ensures InSetupIff(ix, WalletIxs(world.wallet(second).front) + ixs, first, Some(second), options, requested,
                         deposits)
    {
      WalletMembers(world.wallet(second).front, ix);
      if ix.Wallet? {
        StepsInFront(first, second, ix.step);
      } else {
        assert Creates(ix, first, Some(second), options) == Creates(ix, first, None, options);
      }
    }

    lemma {:induction false} StepsInFront(first: ActionType, second: ActionType, step: nat)
      ensures step in Fronts(first, Some(second), true)
         <==> step in world.wallet(second).front || step in Fronts(first, None, true)
    {
    }

    lemma {:induction false} SecondMembers(ixs: seq<Ix>, first: ActionType, second: ActionType, options: BuildOptions,
                                           requested: Option<int>, deposits: seq<PublicKey>)
      requires HoldsExactly(ixs, first, None, options, requested, deposits)
      ensures var front := if options.includeAtaIxns then WalletIxs(world.wallet(second).front) else [];
              HoldsExactly(front + ixs, first, Some(second), options, requested, deposits)
    {
      var front := if options.includeAtaIxns then WalletIxs(world.wallet(second).front) else [];
      assert [] + ixs == ixs;
      forall ix ensures InSetupIff(ix, front + ixs, first, Some(second), options, requested, deposits) {
        assert InSetupIff(ix, ixs, first, None, options, requested, deposits);
        if options.includeAtaIxns {
          FrontSteps(ixs, first, second, options, requested, deposits, ix);
        }
      }
    }

    lemma {:induction false} SecondPrefix(ixs: seq<Ix>, first: ActionType, second: ActionType, includeAtaIxns: bool)
      requires WalletIxs(Fronts(first, None, includeAtaIxns)) <= ixs
      ensures var front := if includeAtaIxns then WalletIxs(world.wallet(second).front) else [];
              WalletIxs(Fronts(first, Some(second), includeAtaIxns)) <= front + ixs
    {
      OwnFront(first, includeAtaIxns);
      WalletConcat(world.wallet(second).front, world.wallet(first).front, ixs);
    }

    /** A setup with the second action's token-account steps in front of it. */
    lemma {:induction false} SecondFront(before: Lists, first: ActionType, second: ActionType, options: BuildOptions,
                                         requested: Option<int>, deposits: seq<PublicKey>)
      requires SetupIs(before.setup, first, None, options, requested, deposits)
      ensures SetupIs(WithWallet(before, second, options.includeAtaIxns).setup, first, Some(second), options, requested,
                      deposits)
    {
      FrontIs(before, second, options.includeAtaIxns);
      SecondMembers(before.setup, first, second, options, requested, deposits);
      SecondPrefix(before.setup, first, second, options.includeAtaIxns);
      WalletInFront(before, second, options.includeAtaIxns, Last(first, deposits) + SetupFarms(first));
      StillInStages(before, second, options.includeAtaIxns);
    }

    lemma {:induction false} FrontIs(before: Lists, second: ActionType, includeAtaIxns: bool)
      ensures var front := if includeAtaIxns then WalletIxs(world.wallet(second).front) else [];
              WithWallet(before, second, includeAtaIxns).setup == front + before.setup
    {
      assert [] + before.setup == before.setup;
    }

    lemma {:induction false} StillInStages(before: Lists, second: ActionType, includeAtaIxns: bool)
      requires InStages(before.setup)
      ensures InStages(WithWallet(before, second, includeAtaIxns).setup)
    {
      WalletFirst(world.wallet(second).front, before.setup);
    }

    /** The in-between half; the setup keeps what it holds, with the second action's steps in front. */
    method AddSecondHalfBehind(first: ActionType, action: ActionType, options: BuildOptions, isClosingPosition: bool,
                               ghost asked: Option<int>, ghost deposits: seq<PublicKey>)
        returns (o: Outcome<ActionError>, ghost requested: Option<int>)
      requires Valid() && (action.DepositAndBorrow? || action.RepayAndWithdraw?) && Pre() == Preloaded([], [])
      requires refreshFarmsCleanupTxnIxs == [] && inBetweenIxs == SetupFarms(first)
      requires SetupIs(setupIxs, first, None, options, asked, deposits)
      modifies this`preLoadedDepositReservesSameTx, this`preLoadedBorrowReservesSameTx,
               this`potentialElevationGroupUpdate,
               this`setupIxs, this`inBetweenIxs, this`cleanupIxs, this`refreshFarmsCleanupTxnIxs, depositReserves
      ensures o.Pass? == Ready(action, old(depositReserves.items), options, None)
      ensures o.Fail? || Valid()
      ensures o.Pass? ==> depositReserves.items == DepositsAfter(action, old(depositReserves.items))
      ensures o.Fail? || AsksIf(options.requestElevationGroup, action, None, requested)
      ensures o.Fail? || SetupIs(setupIxs, first, Some(action), options, asked, deposits)
      ensures o.Fail? || InBetweenIs(inBetweenIxs, action, old(depositReserves.items), SetupFarms(first),
                                     SecondRefresh(action, isClosingPosition, depositReserves.items), requested)
      ensures o.Pass? ==> refreshFarmsCleanupTxnIxs == SecondFarms(action)
      ensures o.Pass? ==> cleanupIxs == old(cleanupIxs) + Backs(action, options.includeAtaIxns)
    {
      SecondFront(Assembled(), first, action, options, asked, deposits);
      SetupFarmsOnly(first);
      assert cleanupIxs + [] == cleanupIxs;
      o, requested := AddSecondHalf(action, options, isClosingPosition);
    }

    /** The kept farm refreshes go in front of the cleanup, so that they come right behind the second lending
        instruction. */
    method CloseSecondHalf(ghost first: ActionType, ghost action: ActionType)
      requires FarmRefreshes(setupIxs) == SetupFarms(first) <= inBetweenIxs
      requires FarmRefreshes(inBetweenIxs) == SetupFarms(first) + SecondFarms(action)
      requires refreshFarmsCleanupTxnIxs == SecondFarms(action)
      modifies this`cleanupIxs
      ensures cleanupIxs == SecondFarms(action) + old(cleanupIxs)
      ensures FarmsInOrder(setupIxs, inBetweenIxs, cleanupIxs)
    {
      ghost var cleanup := cleanupIxs;
      AddRefreshFarmsCleanupTxnIxsToCleanupIxs();
      OrderOfFarms(setupIxs, inBetweenIxs, SecondFarms(action), cleanup);
    }

    /** The in-between half, and the cleanup behind the second lending instruction. */
    method AddSecondHalfAndCleanup(first: ActionType, action: ActionType, options: BuildOptions,
                                   isClosingPosition: bool, ghost asked: Option<int>, ghost deposits: seq<PublicKey>)
        returns (o: Outcome<ActionError>, ghost requested: Option<int>)
      requires Valid() && (action.DepositAndBorrow? || action.RepayAndWithdraw?) && Pre() == Preloaded([], [])
      requires refreshFarmsCleanupTxnIxs == [] && inBetweenIxs == SetupFarms(first)
      requires SetupIs(setupIxs, first, None, options, asked, deposits)
      modifies this`preLoadedDepositReservesSameTx, this`preLoadedBorrowReservesSameTx,
               this`potentialElevationGroupUpdate,
               this`setupIxs, this`inBetweenIxs, this`cleanupIxs, this`refreshFarmsCleanupTxnIxs, depositReserves
      ensures o.Pass? == Ready(action, old(depositReserves.items), options, None)
      ensures o.Fail? || Valid()
      ensures o.Pass? ==> depositReserves.items == DepositsAfter(action, old(depositReserves.items))
      ensures o.Fail? || AsksIf(options.requestElevationGroup, action, None, requested)
      ensures o.Fail? || SetupIs(setupIxs, first, Some(action), options, asked, deposits)
      ensures o.Fail? || InBetweenIs(inBetweenIxs, action, old(depositReserves.items), SetupFarms(first),
                                     SecondRefresh(action, isClosingPosition, depositReserves.items), requested)
      ensures o.Pass? && action.RepayAndWithdraw? ==> requested == None
      ensures o.Fail? || FarmsInOrder(setupIxs, inBetweenIxs, cleanupIxs)
      ensures o.Pass? ==>
                cleanupIxs == SecondFarms(action) + (old(cleanupIxs) + Backs(action, options.includeAtaIxns))
    {
      o, requested := AddSecondHalfBehind(first, action, options, isClosingPosition, asked, deposits);
      if o.Pass? {
        CloseSecondHalf(first, action);
      }
    }

    /** The deposit reserves that the borrow of a deposit-and-borrow names. */
    function NamedByBorrow(deposits: seq<PublicKey>): seq<PublicKey> {
      if deposits == [] then [reserve.address] else deposits
    }

    method BuildDepositAndBorrow(options: BuildOptions) returns (o: Outcome<ActionError>, ghost requested: Option<int>)
      requires Untouched()
      modifies this`preLoadedDepositReservesSameTx, this`preLoadedBorrowReservesSameTx,
               this`potentialElevationGroupUpdate,
               this`setupIxs, this`inBetweenIxs, this`lendingIxs, this`cleanupIxs, this`refreshFarmsCleanupTxnIxs,
               depositReserves
      ensures o.Pass?
              == (&& Ready(Deposit, old(depositReserves.items), options, None)
                  && outflowReserve.Some? && world.additionalTokenAccountSet && world.outflowAmountSet
                  && Ready(DepositAndBorrow, NamedByBorrow(old(depositReserves.items)), options, None))
      ensures o.Fail? || Valid()
      ensures o.Fail? || FarmsAfterEachLending()
      ensures o.Pass? ==>
                depositReserves.items == DepositsAfter(DepositAndBorrow, NamedByBorrow(old(depositReserves.items)))
      ensures o.Fail? || AsksIf(options.requestElevationGroup, DepositAndBorrow, None, requested)
      ensures o.Fail? || SetupIs(setupIxs, Deposit, Some(DepositAndBorrow), options, None, old(depositReserves.items))
      ensures o.Pass? ==> FarmRefreshes(setupIxs) == CollateralFarm(reserve)
      ensures o.Fail? || InBetweenIs(inBetweenIxs, DepositAndBorrow, NamedByBorrow(old(depositReserves.items)),
                                     CollateralFarm(reserve), InitialRefresh(depositReserves.items), requested)
      ensures o.Pass? ==> FarmRefreshes(inBetweenIxs) == CollateralFarm(reserve) + DebtFarm(outflowReserve.value)
      ensures o.Pass? ==> lendingIxs == [Lend(DepositReserveLiquidityAndObligationCollateral, reserve.address, []),
                                         Lend(BorrowObligationLiquidity, outflowReserve.value.address,
                                              NamedByBorrow(old(depositReserves.items)))]
      ensures o.Pass? ==>
                (reserve.address in lendingIxs[1].remaining
                 <==> old(depositReserves.items) == [] || reserve.address in old(depositReserves.items))
      ensures o.Pass? ==>
                cleanupIxs
                == DebtFarm(outflowReserve.value)
                   + (Backs(Deposit, options.includeAtaIxns) + Backs(DepositAndBorrow, options.includeAtaIxns))
    {
      ghost var deposits := depositReserves.items;
      o, requested := Begin(Deposit, options, true, None);
      if o.Fail? {
        return;
      }
      o := AddDepositAndBorrowIx();
      if o.Fail? {
        return;
      }
      o, requested := AddSecondHalfAndCleanup(Deposit, DepositAndBorrow, options, false, None, deposits);
    }

    method BuildRepayAndWithdraw(options: BuildOptions, isClosingPosition: bool)
        returns (o: Outcome<ActionError>, ghost requested: Option<int>)
      requires Untouched()
      modifies this`preLoadedDepositReservesSameTx, this`preLoadedBorrowReservesSameTx,
               this`potentialElevationGroupUpdate,
               this`setupIxs, this`inBetweenIxs, this`lendingIxs, this`cleanupIxs, this`refreshFarmsCleanupTxnIxs,
               depositReserves
      ensures o.Pass?
              == (&& Ready(Repay, old(depositReserves.items), options, None)
                  && outflowReserve.Some? && world.additionalTokenAccountSet && world.outflowAmountSet
                  && Ready(RepayAndWithdraw, old(depositReserves.items), options, None))
      ensures o.Fail? || Valid()
      ensures o.Fail? || FarmsAfterEachLending()
      ensures o.Pass? ==> depositReserves.items == DepositsAfter(RepayAndWithdraw, old(depositReserves.items))
      ensures o.Pass? ==> requested == if options.requestElevationGroup && ClearsOnlyDebt() then Some(0) else None
      ensures o.Fail? || SetupIs(setupIxs, Repay, Some(RepayAndWithdraw), options, requested,
                                 old(depositReserves.items))
      ensures o.Pass? ==> FarmRefreshes(setupIxs) == DebtFarm(reserve)
      ensures o.Fail? || InBetweenIs(inBetweenIxs, RepayAndWithdraw, old(depositReserves.items), DebtFarm(reserve),
                                     SecondRefresh(RepayAndWithdraw, isClosingPosition, depositReserves.items), None)
      ensures o.Pass? ==> FarmRefreshes(inBetweenIxs) == DebtFarm(reserve) + CollateralFarm(outflowReserve.value)
      ensures o.Pass? ==> lendingIxs == [Lend(RepayObligationLiquidity, reserve.address, old(depositReserves.items)),
                                         Lend(WithdrawObligationCollateralAndRedeemReserveCollateral,
                                              outflowReserve.value.address, [])]
      ensures o.Pass? ==>
                cleanupIxs
                == CollateralFarm(outflowReserve.value)
                   + (Closing(Repay, options.includeAtaIxns, requested, old(depositReserves.items))
                      + Backs(RepayAndWithdraw, options.includeAtaIxns))
    {
      ghost var deposits := depositReserves.items;
      o, requested := Begin(Repay, options, true, None);
      if o.Fail? {
        return;
      }
      o := AddRepayAndWithdrawIxs();
      if o.Fail? {
        return;
      }
      ghost var none;
      o, none := AddSecondHalfAndCleanup(Repay, RepayAndWithdraw, options, isClosingPosition, requested, deposits);
    }

    // -------------------------------------------------------------- refreshing an obligation

    /** The farm refreshes of the deposits' collateral farms and of the borrows' debt farms. */
    predicate RefreshesFarm(ix: Ix, crank: PublicKey, deposits: seq<PublicKey>)
      requires market.Knows(deposits) && market.Knows(borrowReserves)
    {
      || (exists k :: k in deposits && market.reserves[k].farmCollateral != DEFAULT
                      && ix == RefreshObligationFarm(Collateral, market.reserves[k].address,
                                                     market.reserves[k].farmCollateral, crank))
      || (exists k :: k in borrowReserves && market.reserves[k].farmDebt != DEFAULT
                      && ix == RefreshObligationFarm(Debt, market.reserves[k].address, market.reserves[k].farmDebt,
                                                     crank))
    }

    /** Exactly these instructions refresh an obligation as it is. */
    predicate RefreshIff(ix: Ix, ixs: seq<Ix>, crank: PublicKey, units: int, deposits: seq<PublicKey>)
      requires market.Knows(deposits) && market.Knows(borrowReserves)
    {
      ix in ixs <==>
      (|| (ix.ComputeBudget? && 0 < ix.units == units)
       || (ix.RefreshReserve? && (ix.reserve in deposits || ix.reserve in borrowReserves))
       || RefreshesFarm(ix, crank, deposits)
       || ix == InitialRefresh(deposits))
    }

    ghost predicate RefreshIs(ixs: seq<Ix>, crank: PublicKey, units: int, deposits: seq<PublicKey>) {
      && market.Knows(deposits) && market.Knows(borrowReserves)
      && (forall ix :: RefreshIff(ix, ixs, crank, units, deposits))
      && EndsWith(ixs, [InitialRefresh(deposits)])
    }

    lemma {:induction false} FarmMembers(keys: seq<PublicKey>, mode: FarmKind, crank: PublicKey, ix: Ix)
      requires market.Knows(keys)
      ensures ix in FarmIxs(LookUp(keys), mode, crank) <==>
                exists k :: k in keys && market.reserves[k].Farm(mode) != DEFAULT
                            && ix == RefreshObligationFarm(mode, market.reserves[k].address,
                                                           market.reserves[k].Farm(mode), crank)
    {
      if keys != [] {
        assert LookUp(keys)[1..] == LookUp(keys[1..]);
        FarmMembers(keys[1..], mode, crank, ix);
        assert keys[0] in keys && forall k :: k in keys <==> k == keys[0] || k in keys[1..];
      }
    }

    lemma {:induction false} ObligationFarmMembers(deposits: seq<PublicKey>, crank: PublicKey, ix: Ix)
      requires market.Knows(deposits) && market.Knows(borrowReserves)
      ensures ix in ObligationFarms(deposits, crank) <==> RefreshesFarm(ix, crank, deposits)
    {
      FarmMembers(deposits, Collateral, crank, ix);
      FarmMembers(borrowReserves, Debt, crank, ix);
    }

    lemma {:induction false} RefreshContents(crank: PublicKey, units: int, deposits: seq<PublicKey>)
      requires market.Knows(deposits) && market.Knows(borrowReserves)
      ensures RefreshIs(When(units > 0, [ComputeBudget(units)]) + RefreshAll(Unique(deposits + borrowReserves))
                        + ObligationFarms(deposits, crank) + [InitialRefresh(deposits)], crank, units, deposits)
    {
      var ixs := When(units > 0, [ComputeBudget(units)]) + RefreshAll(Unique(deposits + borrowReserves))
                 + ObligationFarms(deposits, crank) + [InitialRefresh(deposits)];
      UniqueLaws(deposits + borrowReserves);
      forall ix ensures RefreshIff(ix, ixs, crank, units, deposits) {
        RefreshMembers(Unique(deposits + borrowReserves), ix);
        ObligationFarmMembers(deposits, crank, ix);
      }
    }

    method BeginRefresh(crank: PublicKey, extraComputeBudget: int) returns (o: Outcome<ActionError>)
      requires Untouched()
      modifies this`setupIxs, this`inBetweenIxs, this`cleanupIxs, this`refreshFarmsCleanupTxnIxs, depositReserves
      ensures o.Pass? == KnowsObligation(old(depositReserves.items))
      ensures o.Fail? || Valid()
      ensures o.Pass? ==> inBetweenIxs == [] && cleanupIxs == []
      ensures o.Pass? ==> depositReserves.items == old(depositReserves.items)
      ensures o.Fail? || RefreshIs(setupIxs, crank, extraComputeBudget, depositReserves.items)
    {
      ghost var deposits := depositReserves.items;
      AddBudget(extraComputeBudget);
      WithoutNone(borrowReserves);
      o := AddRefreshObligation(crank);
      if o.Pass? {
        RefreshContents(crank, extraComputeBudget, deposits);
      }
    }

    method BuildRefreshObligation(crank: PublicKey, extraComputeBudget: int) returns (o: Outcome<ActionError>)
      requires Untouched()
      modifies this`setupIxs, this`inBetweenIxs, this`cleanupIxs, this`refreshFarmsCleanupTxnIxs, depositReserves
      ensures o.Pass? == (&& (forall k :: k in old(depositReserves.items) ==> k in market.reserves)
                          && (forall k :: k in borrowReserves ==> k in market.reserves))
      ensures o.Fail? || Valid()
      ensures o.Pass? ==> inBetweenIxs == [] && cleanupIxs == []
      ensures o.Pass? ==> depositReserves.items == old(depositReserves.items)
      ensures o.Fail? || RefreshIs(setupIxs, crank, extraComputeBudget, depositReserves.items)
    {
      o := BeginRefresh(crank, extraComputeBudget);
    }

    method AddInitialRequest(elevationGroup: int)
      requires Valid() && preLoadedDepositReservesSameTx == [] && preLoadedBorrowReservesSameTx == []
      modifies this`setupIxs, this`inBetweenIxs, this`cleanupIxs, depositReserves
      ensures Valid() && inBetweenIxs == old(inBetweenIxs) && cleanupIxs == old(cleanupIxs)
      ensures setupIxs == old(setupIxs) + [InitialRequest(elevationGroup, depositReserves.items)]
      ensures depositReserves.items == old(depositReserves.items)
    {
      WithoutNone(borrowReserves);
      OrderKeptByAppend(setupIxs, [InitialRequest(elevationGroup, depositReserves.items)]);
      AddRequestElevationIx(elevationGroup, Setup, false);
    }

    /** The request comes last, after the refresh of the obligation it is for. */
    method BuildRequestElevationGroup(crank: PublicKey, elevationGroup: int, extraComputeBudget: int)
        returns (o: Outcome<ActionError>)
      requires Untouched()
      modifies this`setupIxs, this`inBetweenIxs, this`cleanupIxs, this`refreshFarmsCleanupTxnIxs, depositReserves
      ensures o.Pass? == (&& (forall k :: k in old(depositReserves.items) ==> k in market.reserves)
                          && (forall k :: k in borrowReserves ==> k in market.reserves))
      ensures o.Fail? || Valid()
      ensures o.Pass? ==> inBetweenIxs == [] && cleanupIxs == []
      ensures o.Pass? ==> depositReserves.items == old(depositReserves.items)
      ensures o.Pass? ==>
                && setupIxs != []
                && setupIxs[|setupIxs| - 1] == InitialRequest(elevationGroup, depositReserves.items)
                && RefreshIs(setupIxs[..|setupIxs| - 1], crank, extraComputeBudget, depositReserves.items)
    {
      o := BeginRefresh(crank, extraComputeBudget);
      if o.Fail? {
        return;
      }
      ghost var refresh := setupIxs;
      AddInitialRequest(elevationGroup);
      assert setupIxs[..|setupIxs| - 1] == refresh;
    }

    /** In front of each lending instruction of the transaction the obligation refreshes are in order, and
        behind it the farm refreshes in front of it are repeated. */
    lemma {:induction false} StepsAreSafe()
      requires Valid() && lendingIxs != [] && lendingIxs[0].Lend?
      ensures var txn, p := LendingTxn(setupIxs, lendingIxs, inBetweenIxs, cleanupIxs), |setupIxs|;
              && (|lendingIxs| == 1 && FarmsAfterLending() ==> SafeStep(txn, 0, p) && txn[p] == lendingIxs[0])
              && (|lendingIxs| == 2 && FarmsAfterEachLending() ==>
                    && SafeStep(txn, 0, p) && txn[p] == lendingIxs[0]
                    && SafeStep(txn, p + 1 + |FarmRefreshes(setupIxs)|, p + 1 + |inBetweenIxs|)
                    && txn[p + 1 + |inBetweenIxs|] == lendingIxs[1])
    {
      if |lendingIxs| == 1 && FarmsAfterLending() {
        OneStepTransaction(setupIxs, lendingIxs, cleanupIxs);
      } else if |lendingIxs| == 2 && FarmsAfterEachLending() {
        TwoStepTransaction(setupIxs, lendingIxs, inBetweenIxs, cleanupIxs);
      }
    }

    /** Between an obligation refresh and each lending instruction stand only farm refreshes, when the setup and
        the in-between list end as the builders leave them: refreshes of the current reserves, of the
        obligation, and farms. */
    lemma {:induction false} StepsAreFresh(current: seq<Ix>, first: Ix, farms: seq<Ix>, touched: seq<Ix>, second: Ix,
                                           more: seq<Ix>)
      requires 1 <= |lendingIxs| <= 2 && OnlyFarmRefreshes(farms) && OnlyFarmRefreshes(more)
      requires first.RefreshObligation? && EndsWith(setupIxs, current + ([first] + farms))
      requires |lendingIxs| == 2 ==>
                 second.RefreshObligation? && EndsWith(inBetweenIxs, touched + ([second] + more))
      ensures var txn, p := LendingTxn(setupIxs, lendingIxs, inBetweenIxs, cleanupIxs), |setupIxs|;
              FreshAt(txn, p) && (|lendingIxs| == 2 ==> FreshAt(txn, p + 1 + |inBetweenIxs|))
    {
      EndsWithSuffix(setupIxs, current, [first] + farms);
      EndsFresh(setupIxs, first, farms);
      if |lendingIxs| == 2 {
        EndsWithSuffix(inBetweenIxs, touched, [second] + more);
        EndsFresh(inBetweenIxs, second, more);
      }
      FreshTransaction(setupIxs, lendingIxs, inBetweenIxs, cleanupIxs);
    }

    method GetTransactions() returns (lendingTxn: seq<Ix>)
      ensures lendingTxn == LendingTxn(setupIxs, lendingIxs, inBetweenIxs, cleanupIxs)
    {
      if |lendingIxs| == 2 {
        lendingTxn := setupIxs + [lendingIxs[0]] + inBetweenIxs + [lendingIxs[1]] + cleanupIxs;
      } else {
        lendingTxn := setupIxs + lendingIxs + cleanupIxs;
      }
    }
  }

  lemma {:induction false} WalletConcat(xs: seq<nat>, ys: seq<nat>, ixs: seq<Ix>)
    ensures WalletIxs(xs + ys) == WalletIxs(xs) + WalletIxs(ys)
    ensures WalletIxs(ys) <= ixs ==> WalletIxs(xs + ys) <= WalletIxs(xs) + ixs
    ensures WalletIxs([]) <= [] + ixs
  {
    assert WalletIxs(xs + ys) == WalletIxs(xs) + WalletIxs(ys);
  }

  /** Token-account steps may stand in front of any setup. */
  lemma {:induction false} WalletFirst(steps: seq<nat>, ixs: seq<Ix>)
    requires InStages(ixs)
    ensures InStages(WalletIxs(steps) + ixs)
    ensures Within(1, 5, ixs) ==> Within(0, 5, ixs) && Within(0, 5, WalletIxs(steps) + ixs)
  {
    InStagesAppend(WalletIxs(steps), ixs);
  }

  lemma {:induction false} PrefixOfParts(head: seq<Ix>, block: seq<Ix>, request: seq<Ix>, farms: seq<Ix>)
    ensures head <= head + block + request + farms
  {
  }

  lemma {:induction false} EndsWithCurrent(front: seq<Ix>, current: seq<Ix>, refresh: Ix)
    ensures EndsWith(front + current + [refresh], current + [refresh])
    ensures EndsWith([] + (front + current + [refresh]), current + [refresh])
  {
    assert (front + current + [refresh])[|front|..] == current + [refresh];
    assert [] + (front + current + [refresh]) == front + current + [refresh];
  }

  lemma {:induction false} UniqueOfOne(k: PublicKey)
    ensures Unique([k]) == [k]
  {
    var none: seq<PublicKey> := [];
    assert [k][1..] == none;
    assert InsertAll(none, [k]) == InsertAll(Insert(none, k), none) == [k];
  }

  lemma {:induction false} InsertOne(items: seq<PublicKey>, k: PublicKey)
    ensures InsertAll(items, [k]) == Insert(items, k) && InsertAll(items, []) == items
  {
    assert [k][1..] == [];
  }

  lemma {:induction false} UniqueOfTwo(k: PublicKey, other: PublicKey)
    ensures Unique([k, other]) == if k == other then [k] else [k, other]
  {
    var none: seq<PublicKey> := [];
    assert [k, other][1..] == [other] && [other][1..] == none;
    assert none + [k] == [k];
    assert InsertAll(none, [k, other]) == InsertAll([k], [other]) == InsertAll(Insert([k], other), none);
  }

  /** What a setup comes to: a block and a request that end with the obligation refresh, then the farms. */
  lemma {:induction false} SetupListLaws(before: Lists, block: seq<Ix>, last: seq<Ix>, request: Lists, farms: seq<Ix>,
                                         ahead: seq<Ix>)
    requires NoFarmRefresh(before.setup) && NoFarmRefresh(block) && NoFarms(request) && OnlyFarmRefreshes(farms)
    requires EndsWith(block, last) && (request.setup == [] || EndsWith(request.setup, last))
    ensures var after := before.Supported(Setup, block, request, farms, ahead);
            && FarmRefreshes(after.setup) == farms && EndsWith(after.setup, last + farms)
            && (before.inBetween == [] && request.inBetween == [] ==> after.inBetween == ahead)
  {
    FarmRefreshesAtEnd(before.setup + block + request.setup, farms);
    EndsWithLast(before.setup, block, request.setup, last, farms);
  }

  lemma {:induction false} InBetweenListLaws(before: Lists, block: seq<Ix>, last: seq<Ix>, request: Lists,
                                             farms: seq<Ix>)
    requires NoFarmRefresh(block) && NoFarms(request) && OnlyFarmRefreshes(farms)
    requires EndsWith(block, last)
    requires request.setup == [] && (request.inBetween == [] || EndsWith(request.inBetween, last))
    ensures var after := before.Supported(InBetween, block, request, farms, []);
            && after.setup == before.setup
            && FarmRefreshes(after.inBetween) == FarmRefreshes(before.inBetween) + farms
            && before.inBetween <= after.inBetween && EndsWith(after.inBetween, last + farms)
  {
    FarmRefreshesFollow(before.inBetween, block, request.inBetween, farms);
    EndsWithLast(before.inBetween, block, request.inBetween, last, farms);
    assert before.inBetween + block + request.inBetween + farms + []
           == before.inBetween + block + request.inBetween + farms;
  }

  lemma {:induction false} EndsWithLast(before: seq<Ix>, block: seq<Ix>, request: seq<Ix>, last: seq<Ix>,
                                        farms: seq<Ix>)
    requires EndsWith(block, last) && (request == [] || EndsWith(request, last))
    ensures EndsWith(before + block + request + farms, last + farms)
  {
    if request == [] {
      EndsWithMore(before, block, last, farms);
      assert before + block + request + farms == before + block + farms;
    } else {
      EndsWithMore(before + block, request, last, farms);
    }
  }

  lemma {:induction false} EndsWithMore(before: seq<Ix>, ixs: seq<Ix>, last: seq<Ix>, farms: seq<Ix>)
    requires EndsWith(ixs, last)
    ensures EndsWith(before + ixs + farms, last + farms)
  {
    var n := |before| + |ixs| - |last|;
    assert (before + ixs + farms)[n..] == ixs[|ixs| - |last|..] + farms;
  }

  lemma {:induction false} EndsWithBehind(front: seq<Ix>, ixs: seq<Ix>, tail: seq<Ix>)
    requires EndsWith(ixs, tail)
    ensures EndsWith(front + ixs, tail)
  {
    assert (front + ixs)[|front + ixs| - |tail|..] == ixs[|ixs| - |tail|..];
  }

  /** Farm refreshes at the end keep the order. */
  lemma {:induction false} FarmsKeepOrder(before: seq<Ix>, farms: seq<Ix>)
    requires RefreshedBeforeUse(before) && OnlyFarmRefreshes(farms)
    ensures RefreshedBeforeUse(before + farms)
  {
    OrderKeptByAppend(before, farms);
  }
}
