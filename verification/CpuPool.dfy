/** Partitioning a node's CPUs between the tiers. */
module CpuPool {
  import opened Tiers
  import opened Pods
  import opened CpuSets
  import CpuSetText
  import StableSort

  datatype Zone = Zone(id: int, cpus: set<int>)

  datatype Topology = Topology(zones: seq<Zone>, online: set<int>)

  datatype Config = Config(
    cpuSetEnabled: bool,
    reservedSystemCPUs: string,
    sharedPoolMinCPUs: int,
    reclaimedPoolMinCPUs: int)

  datatype Pool = Pool(name: string, level: Level, cpus: set<int>, podUIDs: seq<string>)

  function AtLeastOne(n: int): int {
    if n < 1 then 1 else n
  }

  // ----- choosing a zone -----

  function FreeIn(z: Zone, free: set<int>): nat {
    |z.cpus * free|
  }

  /** The first of the tightest zones that hold enough free CPUs. */
  function BestZone(zones: seq<Zone>, free: set<int>, want: int): Option<Zone> {
    if zones == [] then None
    else
      var best, z := BestZone(zones[..|zones| - 1], free, want), zones[|zones| - 1];
      if FreeIn(z, free) >= want && (best.None? || FreeIn(z, free) < FreeIn(best.value, free)) then Some(z) else best
  }

  method ZoneFor(zones: seq<Zone>, free: set<int>, want: int) returns (r: Option<Zone>)
    requires want >= 0
    ensures r == BestZone(zones, free, want)
  {
    var best := Zone(0, {});
    var bestFree := -1;
    for i := 0 to |zones|
      invariant bestFree == -1 <==> BestZone(zones[..i], free, want).None?
      invariant bestFree >= 0 ==> BestZone(zones[..i], free, want) == Some(best) && bestFree == FreeIn(best, free)
      invariant bestFree >= -1
    {
      assert zones[..i + 1][..i] == zones[..i];
      var n := |zones[i].cpus * free|;
      if n >= want && (bestFree < 0 || n < bestFree) {
        best, bestFree := zones[i], n;
      }
    }
    assert zones[..|zones|] == zones;
    if bestFree < 0 {
      return None;
    }
    return Some(best);
  }

  /** The chosen zone fits, no fitting zone is tighter, and none is chosen only if none fits. */
  lemma {:induction false} BestZoneLaw(zones: seq<Zone>, free: set<int>, want: int)
    ensures var best := BestZone(zones, free, want);
            && (best.Some? ==> best.value in zones && FreeIn(best.value, free) >= want)
            && forall z :: z in zones && FreeIn(z, free) >= want ==>
                 best.Some? && FreeIn(best.value, free) <= FreeIn(z, free)
  {
    if zones != [] {
      var n := |zones| - 1;
      BestZoneLaw(zones[..n], free, want);
      assert zones == zones[..n] + [zones[n]];
    }
  }

  // ----- the order in which dedicated pods are served -----

  /** Pods that ask for more whole cores come first. */
  const LARGER: (Pod, Pod) -> bool := (x, y) => WholeCores(x) > WholeCores(y)

  lemma LargerIsWeakOrder()
    ensures StableSort.WeakOrder(LARGER)
  {
  }

  /** The dedicated pods are served largest first, in a stable permutation of their order. */
  lemma ServedLaw(pods: seq<Pod>)
    ensures var served := Served(pods);
            && multiset(served) == multiset(AtLevel(pods, DedicatedCores))
            && (forall i, j :: 0 <= i < j < |served| ==> WholeCores(served[i]) >= WholeCores(served[j]))
            && forall e ::
                 StableSort.Peers(served, e, LARGER) == StableSort.Peers(AtLevel(pods, DedicatedCores), e, LARGER)
  {
    LargerIsWeakOrder();
    StableSort.SortLaw(AtLevel(pods, DedicatedCores), LARGER);
    forall i, j | 0 <= i < j < |Served(pods)| ensures WholeCores(Served(pods)[i]) >= WholeCores(Served(pods)[j]) {
      assert !LARGER(Served(pods)[j], Served(pods)[i]);
    }
  }

  // ----- granting exclusive CPUs -----

  datatype Allocation = Allocation(pools: seq<Pool>, free: set<int>)

  function Placement(zones: seq<Zone>, free: set<int>, want: int, numa: bool): (set<int>, set<int>) {
    var zone := if numa then BestZone(zones, free, want) else None;
    if zone.Some? then TakeFrom(free, want, zone.value.cpus) else Take(free, want)
  }

  predicate Grants(free: set<int>, want: int, minShared: int) {
    want >= 1 && |free| - want >= minShared
  }

  function GrantOne(zones: seq<Zone>, a: Allocation, pod: Pod, minShared: int): Allocation {
    var want := WholeCores(pod);
    if !Grants(a.free, want, minShared) then a
    else
      var (taken, rest) := Placement(zones, a.free, want, WantsNUMABinding(pod));
      Allocation(a.pools + [Pool(pod.uid, DedicatedCores, taken, [pod.uid])], rest)
  }

  function GrantAll(zones: seq<Zone>, free: set<int>, pods: seq<Pod>, minShared: int): Allocation {
    if pods == [] then Allocation([], free)
    else GrantOne(zones, GrantAll(zones, free, pods[..|pods| - 1], minShared), pods[|pods| - 1], minShared)
  }

  function Union(pools: seq<Pool>): set<int> {
    if pools == [] then {} else Union(pools[..|pools| - 1]) + pools[|pools| - 1].cpus
  }

  lemma PlacementLaw(zones: seq<Zone>, free: set<int>, want: int, numa: bool)
    requires 1 <= want <= |free|
    ensures var (taken, rest) := Placement(zones, free, want, numa);
            && taken + rest == free && taken !! rest && |taken| == want && |rest| == |free| - want
            && (numa && BestZone(zones, free, want).Some? ==> taken <= BestZone(zones, free, want).value.cpus)
  {
    TakeLaw(free, want);
    if numa && BestZone(zones, free, want).Some? {
      BestZoneLaw(zones, free, want);
      var cpus := BestZone(zones, free, want).value.cpus;
      assert free * cpus == cpus * free;
      TakeFromLaw(free, want, cpus);
    }
  }

  /** Disjoint pools carved out of one set, with what they leave over. */
  ghost predicate Carved(a: Allocation, all: set<int>) {
    && Union(a.pools) + a.free == all && Union(a.pools) !! a.free
    && (forall i, j :: 0 <= i < j < |a.pools| ==> a.pools[i].cpus !! a.pools[j].cpus)
    && (forall i :: 0 <= i < |a.pools| ==> a.pools[i].cpus <= Union(a.pools) && a.pools[i].cpus != {})
  }

  lemma CarveOne(a: Allocation, all: set<int>, pool: Pool, rest: set<int>)
    requires Carved(a, all) && pool.cpus + rest == a.free && pool.cpus !! rest && pool.cpus != {}
    ensures Carved(Allocation(a.pools + [pool], rest), all)
  {
    var pools := a.pools + [pool];
    assert pools[..|pools| - 1] == a.pools;
    forall i, j | 0 <= i < j < |pools| ensures pools[i].cpus !! pools[j].cpus {
      assert a.pools[i].cpus <= Union(a.pools);
    }
  }

  /** Every grant takes its CPUs out of the free set, which keeps the shared floor. */
  lemma {:induction false} GrantAllLaw(zones: seq<Zone>, free: set<int>, pods: seq<Pod>, minShared: int)
    requires minShared >= 1
    ensures var a := GrantAll(zones, free, pods, minShared);
            Carved(a, free) && (a.pools == [] ==> a.free == free) && (a.pools != [] ==> |a.free| >= minShared)
  {
    if pods != [] {
      var n := |pods| - 1;
      GrantAllLaw(zones, free, pods[..n], minShared);
      var before := GrantAll(zones, free, pods[..n], minShared);
      GrantOneLaw(zones, before, pods[n], minShared, free);
    }
  }

  lemma GrantOneLaw(zones: seq<Zone>, before: Allocation, pod: Pod, minShared: int, all: set<int>)
    requires minShared >= 1 && Carved(before, all)
    ensures var a := GrantOne(zones, before, pod, minShared);
            && Carved(a, all)
            && (a == before || (|a.free| >= minShared && a.pools != []))
  {
    var want := WholeCores(pod);
    if Grants(before.free, want, minShared) {
      var (taken, rest) := Placement(zones, before.free, want, WantsNUMABinding(pod));
      PlacementLaw(zones, before.free, want, WantsNUMABinding(pod));
      CarveOne(before, all, Pool(pod.uid, DedicatedCores, taken, [pod.uid]), rest);
    }
  }

  // ----- the whole layout -----

  function Reserved(topo: Topology, cfg: Config): set<int> {
    if cfg.reservedSystemCPUs == "" then {}
    else
      match CpuSetText.Parse(cfg.reservedSystemCPUs)
      case Ok(cpus) => cpus * topo.online
      case _ => {}
  }

  /** Reading the reserved expression comes to an end, so that there is a layout at all. */
  predicate Readable(cfg: Config) {
    !CpuSetText.Parse(cfg.reservedSystemCPUs).Endless?
  }

  function AtLevel(pods: seq<Pod>, level: Level): seq<Pod> {
    if pods == [] then []
    else AtLevel(pods[..|pods| - 1], level) + if LevelOf(pods[|pods| - 1]) == level then [pods[|pods| - 1]] else []
  }

  /** The UIDs of the pods at one level, in order. */
  function Members(pods: seq<Pod>, level: Level): seq<string> {
    if pods == [] then []
    else Members(pods[..|pods| - 1], level) + if LevelOf(pods[|pods| - 1]) == level then [pods[|pods| - 1].uid] else []
  }

  function Served(pods: seq<Pod>): seq<Pod> {
    StableSort.Sort(AtLevel(pods, DedicatedCores), LARGER)
  }

  function Allocated(topo: Topology, cfg: Config, reserved: set<int>, pods: seq<Pod>): Allocation {
    GrantAll(topo.zones, topo.online - reserved, Served(pods), AtLeastOne(cfg.sharedPoolMinCPUs))
  }

  function Shared(topo: Topology, cfg: Config, reserved: set<int>, pods: seq<Pod>): set<int> {
    var free := Allocated(topo, cfg, reserved, pods).free;
    if |free| < AtLeastOne(cfg.sharedPoolMinCPUs) then topo.online - reserved else free
  }

  function Reclaimed(topo: Topology, cfg: Config, reserved: set<int>, pods: seq<Pod>): set<int> {
    var shared := Shared(topo, cfg, reserved, pods);
    if |shared| < AtLeastOne(cfg.reclaimedPoolMinCPUs) then topo.online - reserved else shared
  }

  /** The pools before membership is recorded. */
  function Unlisted(topo: Topology, cfg: Config, reserved: set<int>, pods: seq<Pod>): seq<Pool> {
    (if reserved == {} then [] else [Pool("reserved", SystemCores, reserved, [])])
    + Allocated(topo, cfg, reserved, pods).pools
    + [Pool("shared", SharedCores, Shared(topo, cfg, reserved, pods), [])]
    + [Pool("reclaimed", ReclaimedCores, Reclaimed(topo, cfg, reserved, pods), [])]
  }

  function Listed(pool: Pool, pods: seq<Pod>): Pool {
    if pool.level == DedicatedCores then pool else pool.(podUIDs := pool.podUIDs + Members(pods, pool.level))
  }

  ghost predicate IsLayout(pools: seq<Pool>, topo: Topology, cfg: Config, reserved: set<int>, pods: seq<Pod>) {
    AllListed(pools, Unlisted(topo, cfg, reserved, pods), pods)
  }

  ghost predicate AllListed(pools: seq<Pool>, bare: seq<Pool>, pods: seq<Pod>) {
    |pools| == |bare| && forall i :: 0 <= i < |pools| ==> pools[i] == Listed(bare[i], pods)
  }

  method ReservedFor(topo: Topology, cfg: Config) returns (reserved: set<int>)
    requires Readable(cfg)
    ensures reserved == Reserved(topo, cfg)
  {
    reserved := {};
    if cfg.reservedSystemCPUs != "" {
      var parsed := CpuSetText.ParseText(cfg.reservedSystemCPUs);
      if parsed.Ok? {
        reserved := parsed.cpus * topo.online;
      }
    }
  }

  method ComputePools(topo: Topology, cfg: Config, pods: seq<Pod>) returns (pools: seq<Pool>)
    requires Readable(cfg)
    ensures IsLayout(pools, topo, cfg, Reserved(topo, cfg), pods)
  {
    var reserved := ReservedFor(topo, cfg);
    pools := ComputeAround(topo, cfg, reserved, pods);
  }

  /** Everything that follows from the reserved CPUs. */
  method ComputeAround(topo: Topology, cfg: Config, reserved: set<int>, pods: seq<Pod>) returns (pools: seq<Pool>)
    ensures IsLayout(pools, topo, cfg, reserved, pods)
  {
    pools := [];
    if reserved != {} {
      pools := pools + [Pool("reserved", SystemCores, reserved, [])];
    }
    var minShared := cfg.sharedPoolMinCPUs;
    if minShared < 1 {
      minShared := 1;
    }
    var dedicated := DedicatedInOrder(pods);
    var granted, free := GrantDedicated(topo.zones, topo.online - reserved, dedicated, minShared);
    var common := CommonPools(topo.online - reserved, free, minShared, cfg.reclaimedPoolMinCPUs);
    PutTogether(topo, cfg, reserved, pods, pools, Allocation(granted, free), minShared, common);
    pools := ListMembers(pools + granted + common, pods);
  }

  lemma PutTogether(topo: Topology, cfg: Config, reserved: set<int>, pods: seq<Pod>,
                    head: seq<Pool>, a: Allocation, minShared: int, common: seq<Pool>)
    requires head == if reserved == {} then [] else [Pool("reserved", SystemCores, reserved, [])]
    requires minShared == AtLeastOne(cfg.sharedPoolMinCPUs)
    requires a == GrantAll(topo.zones, topo.online - reserved, Served(pods), minShared)
    requires common == Common(topo.online - reserved, a.free, minShared, cfg.reclaimedPoolMinCPUs)
    ensures head + a.pools + common == Unlisted(topo, cfg, reserved, pods)
  {
    ThreeParts(head, a.pools, common[0], common[1]);
  }

  lemma ThreeParts(a: seq<Pool>, b: seq<Pool>, x: Pool, y: Pool)
    ensures a + b + ([x] + [y]) == a + b + [x] + [y]
  {
  }

  function Common(unreserved: set<int>, free: set<int>, minShared: int, minReclaimed: int): seq<Pool> {
    var shared := if |free| < minShared then unreserved else free;
    var reclaimed := if |shared| < AtLeastOne(minReclaimed) then unreserved else shared;
    [Pool("shared", SharedCores, shared, [])] + [Pool("reclaimed", ReclaimedCores, reclaimed, [])]
  }

  /** The two pools every other pod shares, each falling back on all that is not reserved. */
  method CommonPools(unreserved: set<int>, free: set<int>, minShared: int, reclaimedPoolMinCPUs: int)
    returns (pools: seq<Pool>)
    ensures pools == Common(unreserved, free, minShared, reclaimedPoolMinCPUs)
  {
    var shared := free;
    if |shared| < minShared {
      shared := unreserved;
    }
    pools := [Pool("shared", SharedCores, shared, [])];
    var minReclaimed := reclaimedPoolMinCPUs;
    if minReclaimed < 1 {
      minReclaimed := 1;
    }
    var reclaimed := shared;
    if |reclaimed| < minReclaimed {
      reclaimed := unreserved;
    }
    pools := pools + [Pool("reclaimed", ReclaimedCores, reclaimed, [])];
  }

  /** Records which pods sit in each pool that is not one pod's own. */
  method ListMembers(bare: seq<Pool>, pods: seq<Pod>) returns (pools: seq<Pool>)
    ensures AllListed(pools, bare, pods)
  {
    pools := bare;
    for i := 0 to |bare|
      invariant |pools| == |bare|
      invariant forall k :: 0 <= k < i ==> pools[k] == Listed(bare[k], pods)
      invariant forall k :: i <= k < |bare| ==> pools[k] == bare[k]
    {
      if pools[i].level == DedicatedCores {
        continue;
      }
      var uids := pools[i].podUIDs;
      for n := 0 to |pods|
        invariant uids == bare[i].podUIDs + Members(pods[..n], bare[i].level)
      {
        assert pods[..n + 1][..n] == pods[..n];
        if LevelOf(pods[n]) == pools[i].level {
          uids := uids + [pods[n].uid];
        }
      }
      assert pods[..|pods|] == pods;
      pools := pools[i := pools[i].(podUIDs := uids)];
    }
  }

  /** The dedicated pods, sorted in place by request. */
  method DedicatedInOrder(pods: seq<Pod>) returns (dedicated: seq<Pod>)
    ensures dedicated == Served(pods)
  {
    var list: seq<Pod> := [];
    for i := 0 to |pods|
      invariant list == AtLevel(pods[..i], DedicatedCores)
    {
      assert pods[..i + 1][..i] == pods[..i];
      if LevelOf(pods[i]) == DedicatedCores {
        list := list + [pods[i]];
      }
    }
    assert pods[..|pods|] == pods;
    var a := new Pod[|list|](i requires 0 <= i < |list| => list[i]);
    assert a[..] == list;
    StableSort.InsertionSort(a, LARGER);
    return a[..];
  }

  /** The loop that serves the dedicated pods. */
  method GrantDedicated(zones: seq<Zone>, all: set<int>, dedicated: seq<Pod>, minShared: int)
    returns (pools: seq<Pool>, free: set<int>)
    requires minShared >= 1
    ensures Allocation(pools, free) == GrantAll(zones, all, dedicated, minShared)
  {
    pools, free := [], all;
    for i := 0 to |dedicated|
      invariant Allocation(pools, free) == GrantAll(zones, all, dedicated[..i], minShared)
    {
      assert dedicated[..i + 1][..i] == dedicated[..i];
      var pod := dedicated[i];
      var want := WholeCores(pod);
      if want < 1 {
        continue;
      }
      if |free| - want < minShared {
        continue;
      }
      PlacementLaw(zones, free, want, WantsNUMABinding(pod));
      var taken: set<int>;
      if WantsNUMABinding(pod) {
        var zone := ZoneFor(zones, free, want);
        if zone.Some? {
          var t := TakeFrom(free, want, zone.value.cpus);
          taken, free := t.0, t.1;
        } else {
          var t := Take(free, want);
          taken, free := t.0, t.1;
        }
      } else {
        var t := Take(free, want);
        taken, free := t.0, t.1;
      }
      if |taken| == 0 {
        continue;
      }
      pools := pools + [Pool(pod.uid, DedicatedCores, taken, [pod.uid])];
    }
    assert dedicated[..|dedicated|] == dedicated;
  }

  // ----- what the layout guarantees -----

  /** What is reserved is what the configured list of ids and ranges names, among the online
      CPUs, and nothing at all when the expression is malformed. */
  lemma ReservedLaw(topo: Topology, cfg: Config, items: seq<CpuSetText.Item>)
    requires CpuSetText.AllOk(items) && cfg.reservedSystemCPUs == CpuSetText.Text(items)
    ensures Readable(cfg) <==> CpuSetText.MAX_INT !in CpuSetText.DenotesAll(items)
    ensures Readable(cfg) ==> Reserved(topo, cfg) == CpuSetText.DenotesAll(items) * topo.online
  {
    CpuSetText.ListReads(items);
    if cfg.reservedSystemCPUs == "" {
      assert CpuSetText.Parse("") == CpuSetText.Ok({});
    }
  }

  lemma ReservedOnline(topo: Topology, cfg: Config)
    ensures Reserved(topo, cfg) <= topo.online
    ensures CpuSetText.Parse(cfg.reservedSystemCPUs).Err? ==> Reserved(topo, cfg) == {}
  {
  }

  /** The shared fallback never changes anything: whatever was granted left the shared floor,
      so the shared pool is always exactly what reserved and dedicated leave over. */
  lemma SharedIsTheRest(topo: Topology, cfg: Config, reserved: set<int>, pods: seq<Pod>)
    ensures var a := Allocated(topo, cfg, reserved, pods);
            Shared(topo, cfg, reserved, pods) == a.free == topo.online - reserved - Union(a.pools)
  {
    GrantAllLaw(topo.zones, topo.online - reserved, Served(pods), AtLeastOne(cfg.sharedPoolMinCPUs));
  }

  /** For every configuration, topology and pod list the reserved CPUs, the dedicated pools and
      the shared pool are pairwise disjoint and together exactly the online CPUs, and the shared
      pool keeps its floor unless the node itself is smaller. */
  lemma Partition(topo: Topology, cfg: Config, reserved: set<int>, pods: seq<Pod>)
    requires reserved <= topo.online
    ensures var (dedicated, shared) := (Allocated(topo, cfg, reserved, pods).pools, Shared(topo, cfg, reserved, pods));
            && reserved + Union(dedicated) + shared == topo.online
            && reserved !! Union(dedicated) !! shared
            && (forall i, j :: 0 <= i < j < |dedicated| ==> dedicated[i].cpus !! dedicated[j].cpus)
            && (forall i :: 0 <= i < |dedicated| ==> dedicated[i].cpus <= Union(dedicated))
            && (|shared| >= AtLeastOne(cfg.sharedPoolMinCPUs) || shared == topo.online - reserved)
  {
    GrantAllLaw(topo.zones, topo.online - reserved, Served(pods), AtLeastOne(cfg.sharedPoolMinCPUs));
    SharedIsTheRest(topo, cfg, reserved, pods);
  }

  /** The reclaimed pool stays off every dedicated CPU exactly when the shared pool meets the
      reclaimed floor or nothing dedicated was granted. */
  lemma ReclaimedAvoidsDedicated(topo: Topology, cfg: Config, reserved: set<int>, pods: seq<Pod>)
    ensures var (dedicated, reclaimed) :=
            (Allocated(topo, cfg, reserved, pods).pools, Reclaimed(topo, cfg, reserved, pods));
            (forall i :: 0 <= i < |dedicated| ==> dedicated[i].cpus !! reclaimed) <==>
            |Shared(topo, cfg, reserved, pods)| >= AtLeastOne(cfg.reclaimedPoolMinCPUs) || dedicated == []
    ensures AtLeastOne(cfg.reclaimedPoolMinCPUs) <= AtLeastOne(cfg.sharedPoolMinCPUs) ==>
              forall i :: 0 <= i < |Allocated(topo, cfg, reserved, pods).pools| ==>
                Allocated(topo, cfg, reserved, pods).pools[i].cpus !! Reclaimed(topo, cfg, reserved, pods)
  {
    var dedicated := Allocated(topo, cfg, reserved, pods).pools;
    GrantAllLaw(topo.zones, topo.online - reserved, Served(pods), AtLeastOne(cfg.sharedPoolMinCPUs));
    SharedIsTheRest(topo, cfg, reserved, pods);
    if |Shared(topo, cfg, reserved, pods)| < AtLeastOne(cfg.reclaimedPoolMinCPUs) && dedicated != [] {
      assert dedicated[0].cpus <= Reclaimed(topo, cfg, reserved, pods);
      assert dedicated[0].cpus * Reclaimed(topo, cfg, reserved, pods) == dedicated[0].cpus != {};
    }
  }

  // ----- when the documented promises fail -----

  const ONE_CORE_POD := Pod("ns", "p", "u", map[QOS_LEVEL := "dedicated_cores"], "", None, "", "Running", false,
                            [Container("c", map[CPU := NANO], map[])], [])

  lemma OneCorePodAsksForOne()
    ensures LevelOf(ONE_CORE_POD) == DedicatedCores && WholeCores(ONE_CORE_POD) == 1
  {
    var cs := ONE_CORE_POD.containers;
    assert Requests(cs)[0] == cs[0].requests && Requests(cs)[..0] == [];
    assert Total(Requests(cs)[..0], CPU) == None;
    assert Total(Requests(cs), CPU) == Some(NANO);
    assert Requests(ONE_CORE_POD.initContainers) == [];
    assert PodRequest(ONE_CORE_POD, CPU) == Some(NANO);
    RoundUpIs(NANO, MILLI, 1000);
  }

  /** Four CPUs, none of them reserved, one dedicated pod that takes one of them, and a reclaimed
      floor of four: the reclaimed pool has the dedicated CPU too. */
  lemma ReclaimedCanOverlap()
    ensures var (topo, cfg, pods) := (Topology([], {0, 1, 2, 3}), Config(true, "", 1, 4), [ONE_CORE_POD]);
            var pools := Allocated(topo, cfg, {}, pods).pools;
            |pools| == 1 && pools[0].cpus <= Reclaimed(topo, cfg, {}, pods) && pools[0].cpus != {}
  {
    var (topo, cfg, pods) := (Topology([], {0, 1, 2, 3}), Config(true, "", 1, 4), [ONE_CORE_POD]);
    OneCorePodAsksForOne();
    OneAtLevel(ONE_CORE_POD);
    assert topo.online - {} == topo.online;
    FourOnline();
    OneServed(topo.online, ONE_CORE_POD);
    SharedIsTheRest(topo, cfg, {}, pods);
  }

  lemma FourOnline()
    ensures |{0, 1, 2, 3}| == 4
  {
  }

  lemma OneAtLevel(pod: Pod)
    requires LevelOf(pod) == DedicatedCores
    ensures Served([pod]) == [pod]
  {
    assert [pod][..0] == [] && AtLevel([], DedicatedCores) == [];
    assert AtLevel([pod], DedicatedCores) == [pod];
    assert StableSort.Sort([pod][..0], LARGER) == [];
    assert StableSort.Sort([pod], LARGER) == StableSort.Insert([], pod, LARGER);
  }

  lemma OneServed(free: set<int>, pod: Pod)
    requires WholeCores(pod) == 1 && |free| == 4
    ensures var a := GrantAll([], free, [pod], 1);
            |a.pools| == 1 && |a.free| == 3 && a.pools[0].cpus <= free && a.pools[0].cpus != {}
  {
    assert [pod][..0] == [];
    assert GrantAll([], free, [pod], 1) == GrantOne([], Allocation([], free), pod, 1);
    PlacementLaw([], free, 1, WantsNUMABinding(pod));
  }

  /** The chosen zone has the most free CPUs of those that fit exactly when all that fit have
      equally many. */
  lemma ZoneIsRoomiest(zones: seq<Zone>, free: set<int>, want: int)
    requires BestZone(zones, free, want).Some?
    ensures var best := BestZone(zones, free, want).value;
            (forall z :: z in zones && FreeIn(z, free) >= want ==> FreeIn(z, free) <= FreeIn(best, free)) <==>
            (forall y, z :: y in zones && z in zones && FreeIn(y, free) >= want && FreeIn(z, free) >= want ==>
              FreeIn(y, free) == FreeIn(z, free))
  {
    BestZoneLaw(zones, free, want);
  }

  /** Of a zone with one free CPU and a zone with two, a pod of one core gets the first. */
  lemma ZoneIsNotRoomiest()
    ensures var (tight, roomy) := (Zone(0, {0}), Zone(1, {1, 2}));
            && BestZone([roomy, tight], {0, 1, 2}, 1) == Some(tight)
            && FreeIn(roomy, {0, 1, 2}) > FreeIn(tight, {0, 1, 2})
  {
    var (tight, roomy, free) := (Zone(0, {0}), Zone(1, {1, 2}), {0, 1, 2});
    assert tight.cpus * free == {0} && roomy.cpus * free == {1, 2};
    BestZoneLaw([roomy, tight], free, 1);
  }

  // ----- what each dedicated pod gets -----

  /** The allocation as it stands when it is the k-th served pod's turn. */
  function AtTurn(zones: seq<Zone>, free: set<int>, served: seq<Pod>, minShared: int, k: nat): Allocation
    requires k <= |served|
  {
    GrantAll(zones, free, served[..k], minShared)
  }

  predicate Granted(zones: seq<Zone>, free: set<int>, served: seq<Pod>, minShared: int, k: nat)
    requires k < |served|
  {
    Grants(AtTurn(zones, free, served, minShared, k).free, WholeCores(served[k]), minShared)
  }

  lemma NextTurn(zones: seq<Zone>, free: set<int>, served: seq<Pod>, minShared: int, k: nat)
    requires k < |served|
    ensures AtTurn(zones, free, served, minShared, k + 1) ==
            GrantOne(zones, AtTurn(zones, free, served, minShared, k), served[k], minShared)
  {
    assert served[..k + 1][..k] == served[..k];
  }

  lemma GrantOneOnlyAdds(zones: seq<Zone>, a: Allocation, pod: Pod, minShared: int)
    requires minShared >= 1
    ensures var b := GrantOne(zones, a, pod, minShared);
            && a.pools <= b.pools && b.free <= a.free
            && |b.pools| <= |a.pools| + 1
            && (|b.pools| > |a.pools| ==> b.pools[|a.pools|].name == pod.uid)
  {
    if Grants(a.free, WholeCores(pod), minShared) {
      PlacementLaw(zones, a.free, WholeCores(pod), WantsNUMABinding(pod));
    }
  }

  /** Later turns only add pools and only take from the free set. */
  lemma {:induction false} TurnsOnlyAdd(zones: seq<Zone>, free: set<int>, served: seq<Pod>, minShared: int, k: nat,
                                        m: nat)
    requires minShared >= 1 && k <= m <= |served|
    ensures AtTurn(zones, free, served, minShared, k).pools <= AtTurn(zones, free, served, minShared, m).pools
    ensures AtTurn(zones, free, served, minShared, m).free <= AtTurn(zones, free, served, minShared, k).free
    decreases m - k
  {
    if k < m {
      TurnsOnlyAdd(zones, free, served, minShared, k, m - 1);
      NextTurn(zones, free, served, minShared, m - 1);
      GrantOneOnlyAdds(zones, AtTurn(zones, free, served, minShared, m - 1), served[m - 1], minShared);
    }
  }

  /** Greedy allocation wastes nothing. A granted pod owns exactly its request, rounded up to
      whole cores, and if it is NUMA-bound and some zone had room at its turn, all of it lies in
      the tightest such zone. A pod that was denied would still not fit above the shared floor
      in what is finally left. */
  lemma GreedyWastesNothing(zones: seq<Zone>, free: set<int>, served: seq<Pod>, minShared: int, k: nat)
    requires minShared >= 1 && k < |served|
    ensures var (turn, final, want) :=
            (AtTurn(zones, free, served, minShared, k), GrantAll(zones, free, served, minShared),
              WholeCores(served[k]));
            if Granted(zones, free, served, minShared, k) then
              var slot := |turn.pools|;
              && slot < |final.pools| && final.pools[slot].name == served[k].uid
              && final.pools[slot].podUIDs == [served[k].uid]
              && |final.pools[slot].cpus| == want && final.pools[slot].cpus <= turn.free
              && forall z :: WantsNUMABinding(served[k]) && z in zones && FreeIn(z, turn.free) >= want ==>
                   exists best :: best in zones && final.pools[slot].cpus <= best.cpus
                     && want <= FreeIn(best, turn.free) <= FreeIn(z, turn.free)
            else
              want < 1 || |final.free| - want < minShared
  {
    var turn := AtTurn(zones, free, served, minShared, k);
    var final := GrantAll(zones, free, served, minShared);
    var want := WholeCores(served[k]);
    assert served[..|served|] == served;
    NextTurn(zones, free, served, minShared, k);
    TurnsOnlyAdd(zones, free, served, minShared, k + 1, |served|);
    TurnsOnlyAdd(zones, free, served, minShared, k, |served|);
    SubsetSize(final.free, turn.free);
    if Granted(zones, free, served, minShared, k) {
      PlacementLaw(zones, turn.free, want, WantsNUMABinding(served[k]));
      BestZoneLaw(zones, turn.free, want);
    }
  }

  // ----- the CPU set each pod is confined to -----

  function Named(pools: seq<Pool>, name: string): Option<set<int>> {
    if pools == [] then None else if pools[0].name == name then Some(pools[0].cpus) else Named(pools[1..], name)
  }

  function TierName(level: Level): string {
    match level
    case ReclaimedCores => "reclaimed"
    case SystemCores => "reserved"
    case _ => "shared"
  }

  /** A dedicated pod is confined to the pool that carries its name, if there is one. */
  function CpusForPod(pools: seq<Pool>, uid: string, level: Level): Option<set<int>> {
    var own := if level == DedicatedCores then Named(pools, uid) else None;
    if own.Some? then own else Named(pools, TierName(level))
  }

  lemma {:induction false} NamedFinds(pools: seq<Pool>, name: string)
    ensures Named(pools, name).Some? ==>
            exists j :: 0 <= j < |pools| && pools[j].name == name && pools[j].cpus == Named(pools, name).value
    ensures Named(pools, name).None? ==> forall j :: 0 <= j < |pools| ==> pools[j].name != name
  {
    if pools != [] && pools[0].name != name {
      NamedFinds(pools[1..], name);
      if j :| 0 <= j < |pools| - 1 && pools[1..][j].name == name && pools[1..][j].cpus == Named(pools, name).value {
        assert pools[j + 1].name == name;
      }
    }
  }

  ghost predicate ServedBetween(served: seq<Pod>, name: string, k: nat, m: nat) {
    exists n :: k <= n < m && n < |served| && served[n].uid == name
  }

  lemma ServedLonger(served: seq<Pod>, name: string, k: nat, m: nat)
    requires m < |served|
    ensures ServedBetween(served, name, k, m) ==> ServedBetween(served, name, k, m + 1)
    ensures k <= m && served[m].uid == name ==> ServedBetween(served, name, k, m + 1)
  {
  }

  /** A pool that a turn adds carries the name of the pod served at it. */
  lemma AddedName(zones: seq<Zone>, a: Allocation, pod: Pod, minShared: int, j: nat)
    requires minShared >= 1 && j < |GrantOne(zones, a, pod, minShared).pools|
    ensures GrantOne(zones, a, pod, minShared).pools[j].name == if j < |a.pools| then a.pools[j].name else pod.uid
  {
    GrantOneOnlyAdds(zones, a, pod, minShared);
  }

  /** The pools granted between two turns carry the names of the pods served between them. */
  lemma {:induction false} NamesBetween(zones: seq<Zone>, free: set<int>, served: seq<Pod>, minShared: int, k: nat,
                                        m: nat, j: nat)
    requires minShared >= 1 && k <= m <= |served|
    requires |AtTurn(zones, free, served, minShared, k).pools| <= j < |AtTurn(zones, free, served, minShared, m).pools|
    ensures ServedBetween(served, AtTurn(zones, free, served, minShared, m).pools[j].name, k, m)
    decreases m - k
  {
    if k < m {
      var last := m - 1;
      var mid := AtTurn(zones, free, served, minShared, last);
      NextTurn(zones, free, served, minShared, last);
      AddedName(zones, mid, served[last], minShared, j);
      if j < |mid.pools| {
        NamesBetween(zones, free, served, minShared, k, last, j);
        ServedLonger(served, mid.pools[j].name, k, last);
      } else {
        ServedLonger(served, served[last].uid, k, last);
      }
    }
  }

  ghost predicate DistinctUIDs(pods: seq<Pod>) {
    forall i, j :: 0 <= i < j < |pods| ==> pods[i].uid != pods[j].uid
  }

  lemma OtherTurnsOtherNames(served: seq<Pod>, name: string, k: nat, from: nat, to: nat)
    requires DistinctUIDs(served) && k < |served| && ServedBetween(served, name, from, to) && (to <= k || k < from)
    ensures name != served[k].uid
  {
    var n :| from <= n < to && n < |served| && served[n].uid == name;
  }

  /** Among the dedicated pools only a granted pod's own carries its name. */
  lemma OwnPool(zones: seq<Zone>, free: set<int>, served: seq<Pod>, minShared: int, k: nat, j: nat)
    requires minShared >= 1 && k < |served| && Granted(zones, free, served, minShared, k) && DistinctUIDs(served)
    requires j < |GrantAll(zones, free, served, minShared).pools|
    ensures GrantAll(zones, free, served, minShared).pools[j].name == served[k].uid <==>
            j == |AtTurn(zones, free, served, minShared, k).pools|
  {
    var n := |served|;
    var final := GrantAll(zones, free, served, minShared).pools;
    var before := AtTurn(zones, free, served, minShared, k).pools;
    assert served[..0] == [] && served[..n] == served;
    GreedyWastesNothing(zones, free, served, minShared, k);
    NextTurn(zones, free, served, minShared, k);
    TurnsOnlyAdd(zones, free, served, minShared, k, n);
    if j < |before| {
      NamesBetween(zones, free, served, minShared, 0, k, j);
      OtherTurnsOtherNames(served, final[j].name, k, 0, k);
    } else if j > |before| {
      NamesBetween(zones, free, served, minShared, k + 1, n, j);
      OtherTurnsOtherNames(served, final[j].name, k, k + 1, n);
    }
  }

  const TIER_NAMES: set<string> := {"reserved", "shared", "reclaimed"}

  /** Where the dedicated pools start in the layout. */
  function First(reserved: set<int>): nat {
    if reserved == {} then 0 else 1
  }

  /** The dedicated pools sit together; the others belong to tiers. */
  lemma LayoutShape(topo: Topology, cfg: Config, reserved: set<int>, pods: seq<Pod>, j: nat)
    requires j < |Unlisted(topo, cfg, reserved, pods)|
    ensures var (all, dedicated, first) :=
            (Unlisted(topo, cfg, reserved, pods), Allocated(topo, cfg, reserved, pods).pools, First(reserved));
            && |all| == first + |dedicated| + 2
            && if first <= j < first + |dedicated| then all[j] == dedicated[j - first]
               else
                 && all[j].name in TIER_NAMES
                 && all[j].cpus in {reserved, Shared(topo, cfg, reserved, pods), Reclaimed(topo, cfg, reserved, pods)}
  {
    var dedicated := Allocated(topo, cfg, reserved, pods).pools;
    Sections(if reserved == {} then [] else [Pool("reserved", SystemCores, reserved, [])], dedicated,
             Pool("shared", SharedCores, Shared(topo, cfg, reserved, pods), []),
             Pool("reclaimed", ReclaimedCores, Reclaimed(topo, cfg, reserved, pods), []), j);
  }

  lemma Sections(head: seq<Pool>, middle: seq<Pool>, x: Pool, y: Pool, j: nat)
    requires j < |head| + |middle| + 2
    ensures var all := head + middle + [x] + [y];
            && |all| == |head| + |middle| + 2
            && all[j] ==
               if j < |head| then head[j] else if j < |head| + |middle| then middle[j - |head|]
               else if j == |head| + |middle| then x else y
  {
  }

  /** A dedicated pool shares no CPU with any other pool of the layout. */
  lemma Separate(topo: Topology, cfg: Config, reserved: set<int>, pods: seq<Pod>, slot: nat, j: nat)
    requires reserved <= topo.online && |Shared(topo, cfg, reserved, pods)| >= AtLeastOne(cfg.reclaimedPoolMinCPUs)
    requires slot < |Allocated(topo, cfg, reserved, pods).pools| && j < |Unlisted(topo, cfg, reserved, pods)|
    requires j != First(reserved) + slot
    ensures Unlisted(topo, cfg, reserved, pods)[j].cpus !! Allocated(topo, cfg, reserved, pods).pools[slot].cpus
  {
    var dedicated := Allocated(topo, cfg, reserved, pods).pools;
    LayoutShape(topo, cfg, reserved, pods, j);
    Partition(topo, cfg, reserved, pods);
    assert dedicated[slot].cpus <= Union(dedicated);
    if First(reserved) <= j < First(reserved) + |dedicated| {
      var i := j - First(reserved);
      if i < slot {
        assert dedicated[i].cpus !! dedicated[slot].cpus;
      } else {
        assert dedicated[slot].cpus !! dedicated[i].cpus;
      }
    }
  }

  /** The k-th served pod is granted exclusive CPUs in this layout. */
  predicate GrantedIn(topo: Topology, cfg: Config, reserved: set<int>, pods: seq<Pod>, k: nat)
    requires k < |Served(pods)|
  {
    Granted(topo.zones, topo.online - reserved, Served(pods), AtLeastOne(cfg.sharedPoolMinCPUs), k)
  }

  /** Where a granted pod's own pool sits in the layout. */
  function SlotIn(topo: Topology, cfg: Config, reserved: set<int>, pods: seq<Pod>, k: nat): nat
    requires k < |Served(pods)|
  {
    |AtTurn(topo.zones, topo.online - reserved, Served(pods), AtLeastOne(cfg.sharedPoolMinCPUs), k).pools|
  }

  /** A granted pod's pool is among those finally granted. */
  lemma OwnSlot(zones: seq<Zone>, free: set<int>, served: seq<Pod>, minShared: int, k: nat)
    requires minShared >= 1 && k < |served| && Granted(zones, free, served, minShared, k)
    ensures |AtTurn(zones, free, served, minShared, k).pools| < |GrantAll(zones, free, served, minShared).pools|
  {
    GreedyWastesNothing(zones, free, served, minShared, k);
  }

  /** A pod's own pool is found under its name, and no other pool of that name exists. */
  lemma OnlyOwnName(topo: Topology, cfg: Config, reserved: set<int>, pods: seq<Pod>, k: nat, j: nat)
    requires k < |Served(pods)| && GrantedIn(topo, cfg, reserved, pods, k) && DistinctUIDs(Served(pods))
    requires Served(pods)[k].uid !in TIER_NAMES && j < |Unlisted(topo, cfg, reserved, pods)|
    ensures Unlisted(topo, cfg, reserved, pods)[j].name == Served(pods)[k].uid <==>
            j == First(reserved) + SlotIn(topo, cfg, reserved, pods, k)
  {
    var dedicated := Allocated(topo, cfg, reserved, pods).pools;
    LayoutShape(topo, cfg, reserved, pods, j);
    OwnSlot(topo.zones, topo.online - reserved, Served(pods), AtLeastOne(cfg.sharedPoolMinCPUs), k);
    if First(reserved) <= j < First(reserved) + |dedicated| {
      OwnPool(topo.zones, topo.online - reserved, Served(pods), AtLeastOne(cfg.sharedPoolMinCPUs), k,
        j - First(reserved));
    }
  }

  /** A granted dedicated pod is confined to its own pool, of exactly the size it asked for. */
  lemma OwnCpus(topo: Topology, cfg: Config, reserved: set<int>, pods: seq<Pod>, pools: seq<Pool>, k: nat)
    requires IsLayout(pools, topo, cfg, reserved, pods)
    requires k < |Served(pods)| && GrantedIn(topo, cfg, reserved, pods, k) && DistinctUIDs(Served(pods))
    requires Served(pods)[k].uid !in TIER_NAMES
    ensures SlotIn(topo, cfg, reserved, pods, k) < |Allocated(topo, cfg, reserved, pods).pools|
    ensures CpusForPod(pools, Served(pods)[k].uid, DedicatedCores) ==
            Some(Allocated(topo, cfg, reserved, pods).pools[SlotIn(topo, cfg, reserved, pods, k)].cpus)
    ensures |Allocated(topo, cfg, reserved, pods).pools[SlotIn(topo, cfg, reserved, pods, k)].cpus| ==
            WholeCores(Served(pods)[k])
  {
    var name := Served(pods)[k].uid;
    var at := First(reserved) + SlotIn(topo, cfg, reserved, pods, k);
    GreedyWastesNothing(topo.zones, topo.online - reserved, Served(pods), AtLeastOne(cfg.sharedPoolMinCPUs), k);
    LayoutShape(topo, cfg, reserved, pods, 0);
    LayoutShape(topo, cfg, reserved, pods, at);
    OnlyOwnName(topo, cfg, reserved, pods, k, at);
    assert pools[at].name == name;
    forall i | 0 <= i < |pools| && pools[i].name == name ensures i == at {
      OnlyOwnName(topo, cfg, reserved, pods, k, i);
    }
    OnlyFound(pools, at);
  }

  lemma OnlyFound(pools: seq<Pool>, at: nat)
    requires at < |pools| && forall i :: 0 <= i < |pools| && pools[i].name == pools[at].name ==> i == at
    ensures Named(pools, pools[at].name) == Some(pools[at].cpus)
  {
    NamedFinds(pools, pools[at].name);
  }

  /** When the shared pool meets the reclaimed floor, the pool of a granted dedicated pod has no
      CPU in common with the pool of any other pod that has one, whatever its UID and level. */
  lemma PoolsApart(topo: Topology, cfg: Config, reserved: set<int>, pods: seq<Pod>, pools: seq<Pool>, k: nat,
                   uid: string, level: Level)
    requires reserved <= topo.online && IsLayout(pools, topo, cfg, reserved, pods)
    requires |Shared(topo, cfg, reserved, pods)| >= AtLeastOne(cfg.reclaimedPoolMinCPUs)
    requires k < |Served(pods)| && GrantedIn(topo, cfg, reserved, pods, k) && DistinctUIDs(Served(pods))
    requires Served(pods)[k].uid !in TIER_NAMES && uid != Served(pods)[k].uid
    ensures var mine := CpusForPod(pools, Served(pods)[k].uid, DedicatedCores);
            var other := CpusForPod(pools, uid, level);
            && mine.Some? && |mine.value| == WholeCores(Served(pods)[k])
            && (other.Some? ==> mine.value !! other.value)
  {
    OwnCpus(topo, cfg, reserved, pods, pools, k);
    var other := CpusForPod(pools, uid, level);
    if other.Some? {
      NamedFinds(pools, uid);
      NamedFinds(pools, TierName(level));
      assert TierName(level) in TIER_NAMES;
      var j :| 0 <= j < |pools| && pools[j].name != Served(pods)[k].uid && pools[j].cpus == other.value;
      OnlyOwnName(topo, cfg, reserved, pods, k, j);
      Separate(topo, cfg, reserved, pods, SlotIn(topo, cfg, reserved, pods, k), j);
    }
  }

  // ----- the pools as they are returned -----

  lemma {:induction false} UnionAppend(a: seq<Pool>, b: seq<Pool>)
    ensures Union(a + b) == Union(a) + Union(b)
  {
    if b == [] {
      assert a + b == a;
    } else {
      UnionAppend(a, b[..|b| - 1]);
      assert (a + b)[..|a + b| - 1] == a + b[..|b| - 1];
    }
  }

  lemma {:induction false} ListedUnion(pools: seq<Pool>, bare: seq<Pool>, pods: seq<Pod>)
    requires AllListed(pools, bare, pods)
    ensures Union(pools) == Union(bare)
  {
    if pools != [] {
      var n := |pools| - 1;
      ListedUnion(pools[..n], bare[..n], pods);
    }
  }

  ghost predicate PairwiseDisjoint(pools: seq<Pool>) {
    forall i, j :: 0 <= i < j < |pools| ==> pools[i].cpus !! pools[j].cpus
  }

  lemma AppendDisjoint(a: seq<Pool>, b: seq<Pool>)
    requires PairwiseDisjoint(a) && PairwiseDisjoint(b) && Union(a) !! Union(b)
    ensures PairwiseDisjoint(a + b)
  {
    forall i, j | 0 <= i < j < |a + b| ensures (a + b)[i].cpus !! (a + b)[j].cpus {
      if i < |a| <= j {
        InUnion(a, i);
        InUnion(b, j - |a|);
      }
    }
  }

  lemma {:induction false} InUnion(pools: seq<Pool>, i: nat)
    requires i < |pools|
    ensures pools[i].cpus <= Union(pools)
  {
    if i < |pools| - 1 {
      InUnion(pools[..|pools| - 1], i);
    }
  }

  lemma OnePool(pool: Pool)
    ensures Union([pool]) == pool.cpus && PairwiseDisjoint([pool])
  {
    assert [pool][..0] == [];
  }

  /** The pools before membership is recorded, without the reclaimed one. */
  lemma BarePartition(topo: Topology, cfg: Config, reserved: set<int>, pods: seq<Pod>)
    requires reserved <= topo.online
    ensures var bare := Unlisted(topo, cfg, reserved, pods);
            var n := |bare| - 1;
            && n >= 1 && bare[n] == Pool("reclaimed", ReclaimedCores, Reclaimed(topo, cfg, reserved, pods), [])
            && PairwiseDisjoint(bare[..n]) && Union(bare[..n]) == topo.online
  {
    var head := if reserved == {} then [] else [Pool("reserved", SystemCores, reserved, [])];
    var (dedicated, shared) :=
      (Allocated(topo, cfg, reserved, pods).pools, Pool("shared", SharedCores, Shared(topo, cfg, reserved, pods), []));
    Partition(topo, cfg, reserved, pods);
    OnePool(Pool("reserved", SystemCores, reserved, []));
    OnePool(shared);
    assert Union(head) == reserved;
    UnionAppend(head, dedicated);
    AppendDisjoint(head, dedicated);
    UnionAppend(head + dedicated, [shared]);
    AppendDisjoint(head + dedicated, [shared]);
    var bare := Unlisted(topo, cfg, reserved, pods);
    assert bare[..|bare| - 1] == head + dedicated + [shared];
  }

  lemma PoolsPartitionAround(topo: Topology, cfg: Config, reserved: set<int>, pods: seq<Pod>, pools: seq<Pool>)
    requires reserved <= topo.online && IsLayout(pools, topo, cfg, reserved, pods)
    ensures var n := |pools| - 1;
            n >= 1 && pools[n].level == ReclaimedCores && PairwiseDisjoint(pools[..n])
            && Union(pools[..n]) == topo.online
  {
    BarePartition(topo, cfg, reserved, pods);
    PartitionListed(pools, Unlisted(topo, cfg, reserved, pods), pods);
  }

  /** What `ComputePools` returns ends with the reclaimed pool, and all its other pools are
      pairwise disjoint and together exactly the online CPUs, for every configuration, reserved
      expression, topology and pod list. */
  lemma PoolsPartition(topo: Topology, cfg: Config, pods: seq<Pod>, pools: seq<Pool>)
    requires IsLayout(pools, topo, cfg, Reserved(topo, cfg), pods)
    ensures var n := |pools| - 1;
            n >= 1 && pools[n].level == ReclaimedCores && PairwiseDisjoint(pools[..n])
            && Union(pools[..n]) == topo.online
  {
    ReservedOnline(topo, cfg);
    PoolsPartitionAround(topo, cfg, Reserved(topo, cfg), pods, pools);
  }

  lemma PartitionListed(pools: seq<Pool>, bare: seq<Pool>, pods: seq<Pod>)
    requires AllListed(pools, bare, pods) && bare != [] && PairwiseDisjoint(bare[..|bare| - 1])
    ensures var n := |bare| - 1;
            pools[n].level == bare[n].level && PairwiseDisjoint(pools[..n]) && Union(pools[..n]) == Union(bare[..n])
  {
    var n := |bare| - 1;
    assert AllListed(pools[..n], bare[..n], pods);
    ListedUnion(pools[..n], bare[..n], pods);
    forall i, j | 0 <= i < j < n ensures pools[..n][i].cpus !! pools[..n][j].cpus {
      assert bare[..n][i].cpus !! bare[..n][j].cpus;
    }
  }
}
