/** Elevation groups of a market (src/classes/market.ts) and of an obligation's reserves
    (src/classes/obligation.ts). */
module Market {
  import opened Wrappers
  import opened PublicKeys
  import opened PubkeyMaps

  /** The fields of a reserve that the market and the obligation read. */
  datatype MarketReserve = MarketReserve(
    address: PublicKey,
    liquidityMint: PublicKey,
    elevationGroups: seq<nat>,
    loanToValue: real,
    liquidationThreshold: real,
    borrowFactorPct: real,
    oraclePrice: real,
    mintFactor: real,
    borrowFee: real,
    disableUsageAsCollOutsideEmode: bool,
    borrowLimitAgainstThisCollateralInElevationGroup: seq<real>,
    borrowedAmountsAgainstThisReserveInElevationGroups: seq<real>)

  /** Percentages as stored. */
  datatype ElevationGroup = ElevationGroup(id: nat, debtReserve: PublicKey, ltvPct: nat, liquidationThresholdPct: nat)

  /** The lending market and its reserves, in the order the reserve map yields them. */
  datatype KaminoMarket = KaminoMarket(elevationGroups: seq<ElevationGroup>, reserves: seq<MarketReserve>)
  {
    function ReserveByAddress(address: PublicKey): Option<MarketReserve> {
      FindReserve(reserves, address)
    }

    /** The reserve map has one entry per address. */
    predicate Valid() {
      forall i, j :: 0 <= i < j < |reserves| ==> reserves[i].address != reserves[j].address
    }
  }

  datatype ElevationGroupDescription = ElevationGroupDescription(
    collateralReserves: seq<PublicKey>,
    collateralLiquidityMints: seq<PublicKey>,
    debtReserve: PublicKey,
    debtLiquidityMint: Option<PublicKey>,
    elevationGroup: nat)

  datatype MarketError = InvalidElevationGroupId(reserve: PublicKey)

  function FindReserve(reserves: seq<MarketReserve>, address: PublicKey): (r: Option<MarketReserve>)
    ensures r.Some? ==> r.value in reserves && r.value.address == address
    ensures r.None? ==> forall x :: x in reserves ==> x.address != address
  {
    if reserves == [] then None
    else if reserves[0].address == address then Some(reserves[0])
    else FindReserve(reserves[1..], address)
  }

  lemma {:induction false} FindReserveUnique(reserves: seq<MarketReserve>, i: nat)
    requires i < |reserves|
    requires forall i, j :: 0 <= i < j < |reserves| ==> reserves[i].address != reserves[j].address
    ensures FindReserve(reserves, reserves[i].address) == Some(reserves[i])
  {}

  lemma {:induction false} ReserveByItsAddress(market: KaminoMarket, r: MarketReserve)
    requires market.Valid() && r in market.reserves
    ensures market.ReserveByAddress(r.address) == Some(r)
  {
    var i :| 0 <= i < |market.reserves| && market.reserves[i] == r;
    FindReserveUnique(market.reserves, i);
  }

  // ---------------------------------------------------------------- counting groups

  function Multiplicity(ids: seq<nat>, g: nat): nat {
    if ids == [] then 0 else Multiplicity(ids[..|ids| - 1], g) + if ids[|ids| - 1] == g then 1 else 0
  }

  /** How often the reserves list group g, all together. */
  function TotalListings(reserves: seq<MarketReserve>, g: nat): nat {
    if reserves == [] then 0
    else TotalListings(reserves[..|reserves| - 1], g) + Multiplicity(reserves[|reserves| - 1].elevationGroups, g)
  }

  function CountOf(counts: seq<Entry<nat, nat>>, g: nat): nat {
    match ListGet(counts, g)
    case Some(n) => n
    case None => 0
  }

  /** The counts loop keeps a Map in insertion order: every key once, no zero key, no zero count. */
  ghost predicate ProperCounts(counts: seq<Entry<nat, nat>>) {
    && DistinctKeys(counts)
    && forall i :: 0 <= i < |counts| ==> counts[i].key != 0 && counts[i].value != 0
  }

  lemma {:induction false} CountOne(counts: seq<Entry<nat, nat>>, g: nat)
    requires ProperCounts(counts) && g != 0
    ensures ProperCounts(ListSet(counts, g, CountOf(counts, g) + 1))
    ensures forall h :: CountOf(ListSet(counts, g, CountOf(counts, g) + 1), h)
                        == CountOf(counts, h) + if h == g then 1 else 0
  {
    ListSetLaws(counts, g, CountOf(counts, g) + 1);
  }

  lemma {:induction false} EntryCount(counts: seq<Entry<nat, nat>>, i: nat)
    requires ProperCounts(counts) && i < |counts|
    ensures CountOf(counts, counts[i].key) == counts[i].value
  {
    IndexOfUnique(counts, counts[i].key, i);
  }

  /** g is counted once per reserve. */
  predicate Counted(reserves: seq<MarketReserve>, g: nat) {
    g != 0 && reserves != [] && TotalListings(reserves, g) == |reserves|
  }

  /** counts covers the first i reserves and the first j groups of the next one. */
  ghost predicate Tallies(counts: seq<Entry<nat, nat>>, reserves: seq<MarketReserve>, i: nat, ids: seq<nat>, j: nat)
    requires i <= |reserves| && j <= |ids|
  {
    && ProperCounts(counts)
    && forall g :: g != 0 ==> CountOf(counts, g) == TotalListings(reserves[..i], g) + Multiplicity(ids[..j], g)
  }

  lemma {:induction false} TallyGroup(counts: seq<Entry<nat, nat>>, reserves: seq<MarketReserve>, i: nat, ids: seq<nat>,
                                      j: nat)
    requires i <= |reserves| && j < |ids| && Tallies(counts, reserves, i, ids, j)
    ensures Tallies(if ids[j] == 0 then counts
                    else ListSet(counts, ids[j], CountOf(counts, ids[j]) + 1), reserves, i, ids, j + 1)
  {
    assert ids[..j + 1][..j] == ids[..j];
    if ids[j] != 0 {
      CountOne(counts, ids[j]);
    }
  }

  lemma {:induction false} TallyReserve(counts: seq<Entry<nat, nat>>, reserves: seq<MarketReserve>, i: nat)
    requires i < |reserves|
    requires Tallies(counts, reserves, i, reserves[i].elevationGroups, |reserves[i].elevationGroups|)
    ensures Tallies(counts, reserves, i + 1, [], 0)
  {
    var ids := reserves[i].elevationGroups;
    assert ids[..|ids|] == ids;
    assert reserves[..i + 1][..i] == reserves[..i];
  }

  /** The counting pass. */
  method CountListings(reserves: seq<MarketReserve>) returns (counts: seq<Entry<nat, nat>>)
    ensures ProperCounts(counts)
    ensures forall g :: g != 0 ==> CountOf(counts, g) == TotalListings(reserves, g)
  {
    counts := [];
    for i := 0 to |reserves|
      invariant Tallies(counts, reserves, i, [], 0)
    {
      var ids := reserves[i].elevationGroups;
      for j := 0 to |ids|
        invariant Tallies(counts, reserves, i, ids, j)
      {
        TallyGroup(counts, reserves, i, ids, j);
        if ids[j] != 0 {
          match ListGet(counts, ids[j]) {
            case Some(count) => counts := ListSet(counts, ids[j], count + 1);
            case None => counts := ListSet(counts, ids[j], 1);
          }
        }
      }
      TallyReserve(counts, reserves, i);
    }
    assert reserves[..|reserves|] == reserves;
  }

  /** Exactly the groups listed as often as there are reserves, each once. */
  method GetElevationGroupsForReserves(reserves: seq<MarketReserve>) returns (active: seq<nat>)
    ensures forall g :: g in active <==> Counted(reserves, g)
    ensures NoRepeats(active)
  {
    var counts := CountListings(reserves);
    active := [];
    for i := 0 to |counts|
      invariant forall g ::
                  g in active <==> exists k :: 0 <= k < i && counts[k].key == g && counts[k].value == |reserves|
      invariant NoRepeats(active)
    {
      if counts[i].value == |reserves| {
        assert counts[i].key !in active;
        active := active + [counts[i].key];
      }
    }
    forall g ensures g in active <==> Counted(reserves, g) {
      CountedIsListed(reserves, counts, g);
    }
  }

  lemma {:induction false} CountedIsListed(reserves: seq<MarketReserve>, counts: seq<Entry<nat, nat>>, g: nat)
    requires ProperCounts(counts)
    requires forall g :: g != 0 ==> CountOf(counts, g) == TotalListings(reserves, g)
    ensures (exists k :: 0 <= k < |counts| && counts[k].key == g && counts[k].value == |reserves|)
            <==> Counted(reserves, g)
  {
    forall k | 0 <= k < |counts| ensures counts[k].value == CountOf(counts, counts[k].key) {
      EntryCount(counts, k);
    }
    if Counted(reserves, g) {
      var k := IndexOf(counts, g);
      assert counts[k].key == g && counts[k].value == |reserves|;
    }
  }

  // ---------------------------------------------------------------- the intersection

  ghost predicate NoDuplicateGroups(reserve: MarketReserve) {
    var ids := reserve.elevationGroups;
    forall i, j :: 0 <= i < j < |ids| && ids[i] != 0 ==> ids[i] != ids[j]
  }

  lemma {:induction false} MultiplicityOfDistinct(ids: seq<nat>, g: nat)
    requires g != 0 && forall i, j :: 0 <= i < j < |ids| && ids[i] != 0 ==> ids[i] != ids[j]
    ensures Multiplicity(ids, g) == if g in ids then 1 else 0
  {
    if ids != [] {
      var last := |ids| - 1;
      MultiplicityOfDistinct(ids[..last], g);
      assert ids == ids[..last] + [ids[last]];
    }
  }

  lemma {:induction false} ListedByAll(reserves: seq<MarketReserve>, g: nat)
    requires g != 0 && forall r :: r in reserves ==> NoDuplicateGroups(r)
    ensures TotalListings(reserves, g) <= |reserves|
    ensures TotalListings(reserves, g) == |reserves| <==> forall r :: r in reserves ==> g in r.elevationGroups
  {
    if reserves != [] {
      var last := |reserves| - 1;
      ListedByAll(reserves[..last], g);
      assert reserves[last] in reserves && NoDuplicateGroups(reserves[last]);
      MultiplicityOfDistinct(reserves[last].elevationGroups, g);
      assert reserves == reserves[..last] + [reserves[last]];
    }
  }

  /** Without duplicate listings, counting computes the intersection. */
  lemma {:induction false} CountingIsIntersection(reserves: seq<MarketReserve>, g: nat)
    requires forall r :: r in reserves ==> NoDuplicateGroups(r)
    ensures Counted(reserves, g) <==> g != 0 && reserves != [] && forall r :: r in reserves ==> g in r.elevationGroups
  {
    if g != 0 {
      ListedByAll(reserves, g);
    }
  }

  lemma {:induction false} ListedAtLeastOnce(ids: seq<nat>, i: nat)
    requires i < |ids|
    ensures Multiplicity(ids, ids[i]) >= 1
  {
    if i < |ids| - 1 {
      ListedAtLeastOnce(ids[..|ids| - 1], i);
    }
  }

  lemma {:induction false} ListedTwice(ids: seq<nat>, i: nat, j: nat)
    requires i < j < |ids| && ids[i] == ids[j]
    ensures Multiplicity(ids, ids[i]) >= 2
  {
    var before := ids[..|ids| - 1];
    if j < |ids| - 1 {
      ListedTwice(before, i, j);
    } else {
      ListedAtLeastOnce(before, i);
    }
  }

  /** For these reserves and this group, counting and intersecting agree. */
  ghost predicate CountsAsIntersection(reserves: seq<MarketReserve>, g: nat) {
    Counted(reserves, g) <==> g != 0 && reserves != [] && forall r :: r in reserves ==> g in r.elevationGroups
  }

  /** Counting is the intersection for every list of reserves and every group exactly when no reserve
      lists a group twice. */
  lemma {:induction false} CountingIsIntersectionIff(all: set<MarketReserve>)
    ensures (forall rs: seq<MarketReserve>, g: nat | (forall r :: r in rs ==> r in all) :: CountsAsIntersection(rs, g))
       <==> (forall r :: r in all ==> NoDuplicateGroups(r))
  {
    if forall r :: r in all ==> NoDuplicateGroups(r) {
      forall rs: seq<MarketReserve>, g: nat | (forall r :: r in rs ==> r in all) ensures CountsAsIntersection(rs, g) {
        CountingIsIntersection(rs, g);
      }
    } else {
      var r :| r in all && !NoDuplicateGroups(r);
      RepeatIsMissed(r);
      assert !forall g: nat :: CountsAsIntersection([r], g);
    }
  }

  /** A reserve that lists a group twice is on its own enough: the group is listed and not counted. */
  lemma {:induction false} RepeatIsMissed(r: MarketReserve)
    requires !NoDuplicateGroups(r)
    ensures exists g: nat :: !CountsAsIntersection([r], g)
  {
    var ids := r.elevationGroups;
    var i, j :| 0 <= i < j < |ids| && ids[i] != 0 && ids[i] == ids[j];
    ListedTwice(ids, i, j);
    assert [r][..0] == [];
    assert TotalListings([r], ids[i]) >= 2;
    assert !CountsAsIntersection([r], ids[i]);
  }

  /** And in a pair it can make up for one that does not list the group at all. */
  lemma {:induction false} DuplicateListingBreaksCounting(a: MarketReserve, b: MarketReserve)
    requires a.elevationGroups == [1, 1] && b.elevationGroups == []
    ensures Counted([a, b], 1) && 1 !in b.elevationGroups
  {
    assert [a, b][..1] == [a] && [a][..0] == [];
    assert [1, 1][..1] == [1] && [1][..0] == [];
    assert TotalListings([a], 1) == 2;
  }

  // ---------------------------------------------------------------- group descriptions

  /** The first pass: one partial record per group with a non-zero id. */
  function Skeleton(groups: seq<ElevationGroup>): seq<ElevationGroupDescription> {
    if groups == [] then [] else
    var g := groups[|groups| - 1];
    Skeleton(groups[..|groups| - 1])
    + if g.id == 0 then [] else [ElevationGroupDescription([], [], g.debtReserve, None, g.id)]
  }

  /** One listing of the reserve in the group: as the debt side or as collateral. */
  function Place(d: ElevationGroupDescription, reserve: MarketReserve): ElevationGroupDescription {
    if reserve.address == d.debtReserve then d.(debtLiquidityMint := Some(reserve.liquidityMint))
    else d.(collateralReserves := d.collateralReserves + [reserve.address],
            collateralLiquidityMints := d.collateralLiquidityMints + [reserve.liquidityMint])
  }

  /** All listings of one reserve in group id, then of all reserves: what one record receives when
      the passes are read group by group instead of reserve by reserve. */
  function PlaceIds(d: ElevationGroupDescription, id: nat, reserve: MarketReserve,
                    ids: seq<nat>): ElevationGroupDescription {
    if ids == [] then d else
    var d' := PlaceIds(d, id, reserve, ids[..|ids| - 1]);
    if ids[|ids| - 1] == id then Place(d', reserve) else d'
  }

  function PlaceReserves(d: ElevationGroupDescription, id: nat,
                         reserves: seq<MarketReserve>): ElevationGroupDescription {
    if reserves == [] then d else
    var last := reserves[|reserves| - 1];
    PlaceIds(PlaceReserves(d, id, reserves[..|reserves| - 1]), id, last, last.elevationGroups)
  }

  /** The records after the first i reserves. */
  function FilledReserves(market: KaminoMarket, i: nat): (ds: seq<ElevationGroupDescription>)
    requires i <= |market.reserves|
    ensures |ds| == |Skeleton(market.elevationGroups)|
    ensures forall p :: 0 <= p < |ds| ==>
              ds[p] == PlaceReserves(Skeleton(market.elevationGroups)[p], p + 1, market.reserves[..i])
  {
    var partial := Skeleton(market.elevationGroups);
    seq(|partial|, p requires 0 <= p < |partial| => PlaceReserves(partial[p], p + 1, market.reserves[..i]))
  }

  /** The records after the first i reserves and the first j groups of the next one. */
  function FilledUpTo(market: KaminoMarket, i: nat, j: nat): (ds: seq<ElevationGroupDescription>)
    requires i < |market.reserves| && j <= |market.reserves[i].elevationGroups|
    ensures |ds| == |Skeleton(market.elevationGroups)|
    ensures forall p :: 0 <= p < |ds| ==>
              ds[p] == PlaceIds(FilledReserves(market, i)[p], p + 1, market.reserves[i],
                                market.reserves[i].elevationGroups[..j])
  {
    var before, reserve := FilledReserves(market, i), market.reserves[i];
    seq(|before|, p requires 0 <= p < |before| => PlaceIds(before[p], p + 1, reserve, reserve.elevationGroups[..j]))
  }

  /** The finished records: the one at position p collects the listings of group p + 1. */
  function Descriptions(market: KaminoMarket): seq<ElevationGroupDescription> {
    FilledReserves(market, |market.reserves|)
  }

  predicate GroupsWithin(ids: seq<nat>, k: nat) {
    forall j :: 0 <= j < |ids| ==> ids[j] <= k
  }

  /** No reserve lists an id above k. */
  predicate ListsOnlyUpTo(reserves: seq<MarketReserve>, k: nat) {
    forall i :: 0 <= i < |reserves| ==> GroupsWithin(reserves[i].elevationGroups, k)
  }

  lemma {:induction false} FillNothing(market: KaminoMarket, i: nat)
    requires i < |market.reserves|
    ensures FilledUpTo(market, i, 0) == FilledReserves(market, i)
  {}

  lemma {:induction false} FillGroup(market: KaminoMarket, i: nat, j: nat)
    requires i < |market.reserves| && j < |market.reserves[i].elevationGroups|
    requires market.reserves[i].elevationGroups[j] <= |FilledUpTo(market, i, j)|
    ensures var ds, id := FilledUpTo(market, i, j), market.reserves[i].elevationGroups[j];
            FilledUpTo(market, i, j + 1) == if id == 0 then ds else ds[id - 1 := Place(ds[id - 1], market.reserves[i])]
  {
    var ids := market.reserves[i].elevationGroups;
    assert ids[..j + 1][..j] == ids[..j];
  }

  lemma {:induction false} FillReserve(market: KaminoMarket, i: nat)
    requires i < |market.reserves|
    ensures FilledReserves(market, i + 1) == FilledUpTo(market, i, |market.reserves[i].elevationGroups|)
  {
    var ids := market.reserves[i].elevationGroups;
    assert ids[..|ids|] == ids;
    assert market.reserves[..i + 1][..i] == market.reserves[..i];
  }

  /** The first pass. */
  method PartiallyBuild(groups: seq<ElevationGroup>) returns (descriptions: seq<ElevationGroupDescription>)
    ensures descriptions == Skeleton(groups)
  {
    descriptions := [];
    for i := 0 to |groups|
      invariant descriptions == Skeleton(groups[..i])
    {
      assert groups[..i + 1][..i] == groups[..i];
      if groups[i].id != 0 {
        descriptions := descriptions + [ElevationGroupDescription([], [], groups[i].debtReserve, None, groups[i].id)];
      }
    }
    assert groups[..|groups|] == groups;
  }

  /** The inner loop of the second pass; `ok` is false when it throws. */
  method FillFromReserve(market: KaminoMarket, i: nat, descriptions: seq<ElevationGroupDescription>)
      returns (ok: bool, filled: seq<ElevationGroupDescription>)
    requires i < |market.reserves| && descriptions == FilledReserves(market, i)
    ensures ok <==> GroupsWithin(market.reserves[i].elevationGroups, |descriptions|)
    ensures ok ==> filled == FilledReserves(market, i + 1)
  {
    filled := descriptions;
    var ids := market.reserves[i].elevationGroups;
    FillNothing(market, i);
    for j := 0 to |ids|
      invariant filled == FilledUpTo(market, i, j)
      invariant forall m :: 0 <= m < j ==> ids[m] <= |descriptions|
    {
      var id := ids[j];
      if id > |filled| {
        return false, filled;
      }
      FillGroup(market, i, j);
      if id != 0 {
        filled := filled[id - 1 := Place(filled[id - 1], market.reserves[i])];
      }
    }
    FillReserve(market, i);
    ok := true;
  }

  /** The two passes fail exactly when a reserve lists an id above the number of groups; otherwise
      every record holds exactly its own group's listings. */
  method GetMarketElevationGroupDescriptions(market: KaminoMarket)
      returns (r: Result<seq<ElevationGroupDescription>, MarketError>)
    ensures r.Ok? <==> ListsOnlyUpTo(market.reserves, |Descriptions(market)|)
    ensures r.Ok? ==> r.value == Descriptions(market)
  {
    var elevationGroups := PartiallyBuild(market.elevationGroups);
    assert elevationGroups == FilledReserves(market, 0);
    for i := 0 to |market.reserves|
      invariant elevationGroups == FilledReserves(market, i)
      invariant ListsOnlyUpTo(market.reserves[..i], |elevationGroups|)
    {
      var ok, filled := FillFromReserve(market, i, elevationGroups);
      if !ok {
        return Err(InvalidElevationGroupId(market.reserves[i].address));
      }
      elevationGroups := filled;
    }
    assert market.reserves[..|market.reserves|] == market.reserves;
    return Ok(elevationGroups);
  }

  // ---------------------------------------------------------------- what the descriptions say

  /** How often reserves at address a list group id. */
  function ListingsAt(reserves: seq<MarketReserve>, id: nat, a: PublicKey): nat {
    if reserves == [] then 0 else
    var last := reserves[|reserves| - 1];
    ListingsAt(reserves[..|reserves| - 1], id, a)
    + if last.address == a then Multiplicity(last.elevationGroups, id) else 0
  }

  /** d' is d with `extra` more copies of address a on the collateral side. */
  ghost predicate Gained(d: ElevationGroupDescription, d': ElevationGroupDescription, a: PublicKey, extra: nat) {
    && d'.debtReserve == d.debtReserve && d'.elevationGroup == d.elevationGroup
    && |d'.collateralReserves| - |d.collateralReserves| == |d'.collateralLiquidityMints| - |d.collateralLiquidityMints|
    && multiset(d'.collateralReserves)[a] == multiset(d.collateralReserves)[a] + if a == d.debtReserve then 0 else extra
  }

  lemma {:induction false} PlaceIdsGained(d: ElevationGroupDescription, id: nat, reserve: MarketReserve, ids: seq<nat>,
                                          a: PublicKey)
    ensures Gained(d, PlaceIds(d, id, reserve, ids), a, if reserve.address == a then Multiplicity(ids, id) else 0)
  {
    if ids != [] {
      PlaceIdsGained(d, id, reserve, ids[..|ids| - 1], a);
    }
  }

  lemma {:induction false} PlaceReservesGained(d: ElevationGroupDescription, id: nat, reserves: seq<MarketReserve>,
                                               a: PublicKey)
    ensures Gained(d, PlaceReserves(d, id, reserves), a, ListingsAt(reserves, id, a))
  {
    if reserves != [] {
      var before, last := reserves[..|reserves| - 1], reserves[|reserves| - 1];
      PlaceReservesGained(d, id, before, a);
      PlaceIdsGained(PlaceReserves(d, id, before), id, last, last.elevationGroups, a);
    }
  }

  lemma {:induction false} ListingsAtAddress(reserves: seq<MarketReserve>, id: nat, a: PublicKey)
    requires forall i, j :: 0 <= i < j < |reserves| ==> reserves[i].address != reserves[j].address
    ensures ListingsAt(reserves, id, a)
         == match FindReserve(reserves, a) case Some(r) => Multiplicity(r.elevationGroups, id) case None => 0
  {
    if reserves != [] {
      var before, last := reserves[..|reserves| - 1], reserves[|reserves| - 1];
      ListingsAtAddress(before, id, a);
      FindReserveSnoc(before, last, a);
      assert reserves == before + [last];
    }
  }

  lemma {:induction false} FindReserveSnoc(before: seq<MarketReserve>, last: MarketReserve, a: PublicKey)
    ensures FindReserve(before + [last], a)
         == if FindReserve(before, a).Some? then FindReserve(before, a)
            else if last.address == a then Some(last) else None
  {
    if before == [] {
      assert [last][1..] == [];
    } else {
      FindReserveSnoc(before[1..], last, a);
      assert (before + [last])[1..] == before[1..] + [last];
    }
  }

  /** For every address: it stands on the collateral side of record p once per listing of group
      p + 1 by the reserve at that address, and never when it is the debt reserve. */
  lemma {:induction false} DescriptionsExact(market: KaminoMarket, p: nat, a: PublicKey)
    requires market.Valid() && p < |Descriptions(market)|
    ensures var d, partial := Descriptions(market)[p], Skeleton(market.elevationGroups)[p];
            && d.elevationGroup == partial.elevationGroup && d.debtReserve == partial.debtReserve
            && |d.collateralReserves| == |d.collateralLiquidityMints|
            && multiset(d.collateralReserves)[a]
               == (if a == d.debtReserve || market.ReserveByAddress(a).None? then 0
                   else Multiplicity(market.ReserveByAddress(a).value.elevationGroups, p + 1))
  {
    var partial := Skeleton(market.elevationGroups);
    assert market.reserves[..|market.reserves|] == market.reserves;
    SkeletonIsPartial(market.elevationGroups, p);
    PlaceReservesGained(partial[p], p + 1, market.reserves, a);
    ListingsAtAddress(market.reserves, p + 1, a);
  }

  lemma {:induction false} SkeletonIsPartial(groups: seq<ElevationGroup>, p: nat)
    requires p < |Skeleton(groups)|
    ensures Skeleton(groups)[p].collateralReserves == [] && Skeleton(groups)[p].collateralLiquidityMints == []
    ensures Skeleton(groups)[p].debtLiquidityMint == None
    ensures Skeleton(groups)[p].elevationGroup != 0
  {
    if groups != [] && p < |Skeleton(groups[..|groups| - 1])| {
      SkeletonIsPartial(groups[..|groups| - 1], p);
    }
  }

  /** Each collateral's mint is that of a reserve at its address. */
  ghost predicate MintsFrom(d: ElevationGroupDescription, reserves: seq<MarketReserve>) {
    && |d.collateralReserves| == |d.collateralLiquidityMints|
    && forall i :: 0 <= i < |d.collateralReserves| ==>
         exists r :: r in reserves && r.address == d.collateralReserves[i]
                     && r.liquidityMint == d.collateralLiquidityMints[i]
  }

  lemma {:induction false} PlaceIdsMints(d: ElevationGroupDescription, id: nat, reserve: MarketReserve, ids: seq<nat>,
                                         reserves: seq<MarketReserve>)
    requires MintsFrom(d, reserves) && reserve in reserves
    ensures MintsFrom(PlaceIds(d, id, reserve, ids), reserves)
    ensures PlaceIds(d, id, reserve, ids).debtReserve == d.debtReserve
    ensures PlaceIds(d, id, reserve, ids).debtLiquidityMint
         == if reserve.address == d.debtReserve && id in ids then Some(reserve.liquidityMint) else d.debtLiquidityMint
  {
    if ids != [] {
      PlaceIdsMints(d, id, reserve, ids[..|ids| - 1], reserves);
      assert ids == ids[..|ids| - 1] + [ids[|ids| - 1]];
    }
  }

  /** The mint of the debt reserve, once it is seen to list the group. */
  function DebtMint(reserves: seq<MarketReserve>, id: nat, debtReserve: PublicKey): Option<PublicKey> {
    match FindReserve(reserves, debtReserve)
    case Some(r) => if id in r.elevationGroups then Some(r.liquidityMint) else None
    case None => None
  }

  lemma {:induction false} PlaceReservesMints(d: ElevationGroupDescription, id: nat, reserves: seq<MarketReserve>)
    requires d.collateralReserves == [] && d.collateralLiquidityMints == [] && d.debtLiquidityMint == None
    requires forall i, j :: 0 <= i < j < |reserves| ==> reserves[i].address != reserves[j].address
    ensures MintsFrom(PlaceReserves(d, id, reserves), reserves)
    ensures PlaceReserves(d, id, reserves).debtReserve == d.debtReserve
    ensures PlaceReserves(d, id, reserves).debtLiquidityMint == DebtMint(reserves, id, d.debtReserve)
  {
    if reserves != [] {
      var before, last := reserves[..|reserves| - 1], reserves[|reserves| - 1];
      PlaceReservesMints(d, id, before);
      assert reserves == before + [last];
      assert MintsFrom(PlaceReserves(d, id, before), reserves);
      PlaceIdsMints(PlaceReserves(d, id, before), id, last, last.elevationGroups, reserves);
      FindReserveSnoc(before, last, d.debtReserve);
    }
  }

  /** Each collateral of a description has its own mint beside it, and the debt mint is that of the debt
      reserve, present exactly when that reserve lists the group itself. */
  lemma {:induction false} MintsBesideReserves(market: KaminoMarket, p: nat)
    requires market.Valid() && p < |Descriptions(market)|
    ensures var d := Descriptions(market)[p];
            && |d.collateralReserves| == |d.collateralLiquidityMints|
            && (forall i :: 0 <= i < |d.collateralReserves| ==>
                  && market.ReserveByAddress(d.collateralReserves[i]).Some?
                  && d.collateralLiquidityMints[i]
                     == market.ReserveByAddress(d.collateralReserves[i]).value.liquidityMint)
            && (d.debtLiquidityMint.Some? <==>
                (market.ReserveByAddress(d.debtReserve).Some?
                 && p + 1 in market.ReserveByAddress(d.debtReserve).value.elevationGroups))
            && (d.debtLiquidityMint.Some? ==>
                  d.debtLiquidityMint.value == market.ReserveByAddress(d.debtReserve).value.liquidityMint)
  {
    var partial, d := Skeleton(market.elevationGroups)[p], Descriptions(market)[p];
    assert market.reserves[..|market.reserves|] == market.reserves;
    SkeletonIsPartial(market.elevationGroups, p);
    PlaceReservesMints(partial, p + 1, market.reserves);
    forall i | 0 <= i < |d.collateralReserves|
      ensures market.ReserveByAddress(d.collateralReserves[i]).Some?
              && d.collateralLiquidityMints[i] == market.ReserveByAddress(d.collateralReserves[i]).value.liquidityMint
    {
      var r :| r in market.reserves && r.address == d.collateralReserves[i]
               && r.liquidityMint == d.collateralLiquidityMints[i];
      ReserveByItsAddress(market, r);
    }
  }

  /** The program stores its groups in front and zero ids behind: then the descriptions are one per stored
      group, in order, each with the group's id and debt reserve. */
  lemma {:induction false} DescriptionsOfStoredGroups(market: KaminoMarket, k: nat)
    requires k <= |market.elevationGroups|
    requires forall i :: 0 <= i < |market.elevationGroups| ==> (market.elevationGroups[i].id != 0 <==> i < k)
    ensures |Descriptions(market)| == k
    ensures forall p :: 0 <= p < k ==>
              && Skeleton(market.elevationGroups)[p].elevationGroup == market.elevationGroups[p].id
              && Skeleton(market.elevationGroups)[p].debtReserve == market.elevationGroups[p].debtReserve
  {
    SkeletonOfStored(market.elevationGroups, k);
  }

  lemma {:induction false} SkeletonOfStored(groups: seq<ElevationGroup>, k: nat)
    requires k <= |groups| && forall i :: 0 <= i < |groups| ==> (groups[i].id != 0 <==> i < k)
    ensures |Skeleton(groups)| == k
    ensures forall p :: 0 <= p < k ==>
              Skeleton(groups)[p].elevationGroup == groups[p].id
              && Skeleton(groups)[p].debtReserve == groups[p].debtReserve
  {
    if groups != [] {
      var last := |groups| - 1;
      SkeletonOfStored(groups[..last], if k == |groups| then k - 1 else k);
    }
  }

  /** The configured non-zero ids are 1, 2, ... in order. */
  ghost predicate IdsInOrder(market: KaminoMarket) {
    forall p :: 0 <= p < |Skeleton(market.elevationGroups)| ==>
      Skeleton(market.elevationGroups)[p].elevationGroup == p + 1
  }

  /** Then each group's description has exactly the reserves that list the group, other than its debt
      reserve, each once. */
  lemma {:induction false} DescriptionsOfGroups(market: KaminoMarket, p: nat, a: PublicKey)
    requires market.Valid() && IdsInOrder(market) && p < |Descriptions(market)|
    requires forall r :: r in market.reserves ==> NoDuplicateGroups(r)
    ensures var d := Descriptions(market)[p];
            && (a in d.collateralReserves <==>
                (a != d.debtReserve && market.ReserveByAddress(a).Some?
                 && d.elevationGroup in market.ReserveByAddress(a).value.elevationGroups))
            && multiset(d.collateralReserves)[a] <= 1
  {
    DescriptionsExact(market, p, a);
    if market.ReserveByAddress(a).Some? {
      var r := market.ReserveByAddress(a).value;
      assert NoDuplicateGroups(r);
      MultiplicityOfDistinct(r.elevationGroups, p + 1);
    }
  }

  /** Out of order they go to the wrong record: with groups 2, 1 a reserve that lists only group 2 is
      collateral of the record for group 1. */
  lemma {:induction false} IdsOutOfOrder(debt: PublicKey, r: MarketReserve)
    requires r.address != debt && r.elevationGroups == [2]
    ensures var market := KaminoMarket([ElevationGroup(2, debt, 90, 95), ElevationGroup(1, debt, 90, 95)], [r]);
            |Descriptions(market)| == 2 && Descriptions(market)[1].elevationGroup == 1
            && r.address in Descriptions(market)[1].collateralReserves && 1 !in r.elevationGroups
  {
    var g2, g1 := ElevationGroup(2, debt, 90, 95), ElevationGroup(1, debt, 90, 95);
    var market := KaminoMarket([g2, g1], [r]);
    assert [g2, g1][..1] == [g2] && [g2][..0] == [];
    assert [2][..0] == [];
    assert Skeleton([g2]) == [ElevationGroupDescription([], [], debt, None, 2)];
    assert Skeleton(market.elevationGroups) == Skeleton([g2]) + [ElevationGroupDescription([], [], debt, None, 1)];
    DescriptionsExact(market, 1, r.address);
    assert market.ReserveByAddress(r.address) == Some(r);
  }

  /** Market, listings and ids as the program stores them. */
  ghost predicate WellListed(market: KaminoMarket) {
    && market.Valid()
    && ListsOnlyUpTo(market.reserves, |Descriptions(market)|)
    && forall r :: r in market.reserves ==> NoDuplicateGroups(r)
  }

  /** The record at p holds exactly the reserves that list its group, other than its debt reserve. */
  ghost predicate DescribesItsGroup(market: KaminoMarket, p: nat, a: PublicKey)
    requires p < |Descriptions(market)|
  {
    var d := Descriptions(market)[p];
    a in d.collateralReserves <==>
    (a != d.debtReserve && market.ReserveByAddress(a).Some?
     && d.elevationGroup in market.ReserveByAddress(a).value.elevationGroups)
  }

  ghost predicate DescribesGroups(market: KaminoMarket) {
    forall p: nat, a: PublicKey | p < |Descriptions(market)| :: DescribesItsGroup(market, p, a)
  }

  /** Whatever reserves the market has, the descriptions are right exactly when the configured non-zero
      ids are 1, 2, ... in order. */
  lemma {:induction false} DescriptionsRightIff(groups: seq<ElevationGroup>)
    ensures (forall rs: seq<MarketReserve> | WellListed(KaminoMarket(groups, rs)) ::
               DescribesGroups(KaminoMarket(groups, rs)))
       <==> IdsInOrder(KaminoMarket(groups, []))
  {
    if IdsInOrder(KaminoMarket(groups, [])) {
      forall rs: seq<MarketReserve> | WellListed(KaminoMarket(groups, rs))
        ensures DescribesGroups(KaminoMarket(groups, rs))
      {
        var market := KaminoMarket(groups, rs);
        forall p: nat, a: PublicKey | p < |Descriptions(market)| ensures DescribesItsGroup(market, p, a) {
          DescriptionsOfGroups(market, p, a);
        }
      }
    } else {
      var p :| 0 <= p < |Skeleton(groups)| && Skeleton(groups)[p].elevationGroup != p + 1;
      var rs := [Misplaced(groups, p)];
      MisplacedIsWrong(groups, p);
      assert WellListed(KaminoMarket(groups, rs)) && !DescribesGroups(KaminoMarket(groups, rs));
    }
  }

  /** A reserve that lists only the group number p + 1 and is not the debt reserve of record p. */
  function Misplaced(groups: seq<ElevationGroup>, p: nat): MarketReserve
    requires p < |Skeleton(groups)|
  {
    var a := PublicKey(Skeleton(groups)[p].debtReserve.bn + 1);
    MarketReserve(a, a, [p + 1], 0.0, 0.0, 0.0, 0.0, 0.0, 0.0, false, [], [])
  }

  /** It lands in record p, which is some other group's. */
  lemma {:induction false} MisplacedIsWrong(groups: seq<ElevationGroup>, p: nat)
    requires p < |Skeleton(groups)| && Skeleton(groups)[p].elevationGroup != p + 1
    ensures var market := KaminoMarket(groups, [Misplaced(groups, p)]);
            WellListed(market) && !DescribesGroups(market)
  {
    var r := Misplaced(groups, p);
    var market := KaminoMarket(groups, [r]);
    assert market.ReserveByAddress(r.address) == Some(r);
    assert [p + 1][..0] == [];
    assert Multiplicity([p + 1], p + 1) == 1;
    DescriptionsExact(market, p, r.address);
    assert !DescribesItsGroup(market, p, r.address);
  }

  // ---------------------------------------------------------------- groups for a combination

  predicate Kept(d: ElevationGroupDescription, collReserves: seq<PublicKey>, debtReserve: Option<PublicKey>) {
    && (forall c :: c in collReserves ==> c in d.collateralReserves)
    && (debtReserve.None? || debtReserve.value == d.debtReserve)
  }

  /** The kept descriptions, in their order. */
  function KeptOf(ds: seq<ElevationGroupDescription>, collReserves: seq<PublicKey>,
                  debtReserve: Option<PublicKey>): (kept: seq<ElevationGroupDescription>)
    ensures forall d :: d in kept <==> d in ds && Kept(d, collReserves, debtReserve)
  {
    if ds == [] then []
    else
      var last := ds[|ds| - 1];
      KeptOf(ds[..|ds| - 1], collReserves, debtReserve) + if Kept(last, collReserves, debtReserve) then [last] else []
  }

  method GetElevationGroupsForReservesCombination(market: KaminoMarket, collReserves: seq<PublicKey>,
                                                  debtReserve: Option<PublicKey>)
      returns (r: Result<seq<ElevationGroupDescription>, MarketError>)
    ensures r.Ok? <==> ListsOnlyUpTo(market.reserves, |Descriptions(market)|)
    ensures r.Ok? ==> r.value == KeptOf(Descriptions(market), collReserves, debtReserve)
  {
    var all := GetMarketElevationGroupDescriptions(market);
    if all.Err? {
      return all;
    }
    var kept := [];
    for p := 0 to |all.value|
      invariant kept == KeptOf(all.value[..p], collReserves, debtReserve)
    {
      assert all.value[..p + 1][..p] == all.value[..p];
      if Kept(all.value[p], collReserves, debtReserve) {
        kept := kept + [all.value[p]];
      }
    }
    assert all.value[..|all.value|] == all.value;
    return Ok(kept);
  }

  function ReservesOf(market: KaminoMarket, addresses: seq<PublicKey>): seq<MarketReserve>
    requires forall c :: c in addresses ==> market.ReserveByAddress(c).Some?
  {
    seq(|addresses|, i requires 0 <= i < |addresses| => market.ReserveByAddress(addresses[i]).value)
  }

  /** The two ways of finding an obligation's groups agree: a group is kept for a non-empty set of
      collaterals exactly when it is in their counted intersection, its debt reserve is not one of them
      and, if a debt reserve is asked for, it is that one. */
  lemma {:induction false} KeptIffCounted(market: KaminoMarket, collReserves: seq<PublicKey>,
                                          debtReserve: Option<PublicKey>, p: nat)
    requires market.Valid() && IdsInOrder(market) && p < |Descriptions(market)|
    requires forall r :: r in market.reserves ==> NoDuplicateGroups(r)
    requires collReserves != [] && forall c :: c in collReserves ==> market.ReserveByAddress(c).Some?
    ensures var d := Descriptions(market)[p];
            Kept(d, collReserves, debtReserve) <==>
            (Counted(ReservesOf(market, collReserves), d.elevationGroup) && d.debtReserve !in collReserves
             && (debtReserve == None || debtReserve == Some(d.debtReserve)))
  {
    var d, rs := Descriptions(market)[p], ReservesOf(market, collReserves);
    DescriptionsExact(market, p, d.debtReserve);
    CountingIsIntersection(rs, d.elevationGroup);
    forall c | c in collReserves
      ensures c in d.collateralReserves
              <==> c != d.debtReserve && d.elevationGroup in market.ReserveByAddress(c).value.elevationGroups
    {
      DescriptionsOfGroups(market, p, c);
    }
    assert forall i :: 0 <= i < |rs| ==> rs[i] == market.ReserveByAddress(collReserves[i]).value;
    AllOf(market, collReserves, rs, d.elevationGroup);
  }

  lemma {:induction false} AllOf(market: KaminoMarket, cs: seq<PublicKey>, rs: seq<MarketReserve>, g: nat)
    requires |rs| == |cs| && forall c :: c in cs ==> market.ReserveByAddress(c).Some?
    requires forall i :: 0 <= i < |rs| ==> rs[i] == market.ReserveByAddress(cs[i]).value
    ensures (forall r :: r in rs ==> g in r.elevationGroups)
            <==> (forall c :: c in cs ==> g in market.ReserveByAddress(c).value.elevationGroups)
  {
    if forall r :: r in rs ==> g in r.elevationGroups {
      forall c | c in cs ensures g in market.ReserveByAddress(c).value.elevationGroups {
        var i :| 0 <= i < |cs| && cs[i] == c;
        assert rs[i] in rs;
      }
    }
  }
}
