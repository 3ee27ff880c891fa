/** Whether exclusive CPUs are exclusive: where every pod of a node may run. */
module CpuExclusive {
  import opened Tiers
  import opened Pods
  import opened CpuPool

  /** The CPUs a pod may run on: those of its pool, or all that are online when nothing confines
      it. Without a pool, or with an empty one, no CPU set is written for it. */
  function RunsOn(topo: Topology, cfg: Config, pools: seq<Pool>, uid: string, level: Level): set<int> {
    var own := CpusForPod(pools, uid, level);
    if cfg.cpuSetEnabled && own.Some? && own.value != {} then own.value else topo.online
  }

  /** No UID is the name of a tier's pool. */
  ghost predicate ProperUIDs(pods: seq<Pod>) {
    forall p :: p in pods ==> p.uid !in TIER_NAMES
  }

  ghost predicate OthersAt(pods: seq<Pod>, uid: string, level: Level) {
    exists p :: p in pods && p.uid != uid && LevelOf(p) == level
  }

  // ----- the pool each tier finds -----

  lemma {:induction false} AtLevelMembers(pods: seq<Pod>, level: Level)
    ensures forall p :: p in AtLevel(pods, level) ==> p in pods && LevelOf(p) == level
  {
    if pods != [] {
      AtLevelMembers(pods[..|pods| - 1], level);
    }
  }

  lemma ServedMembers(pods: seq<Pod>)
    ensures forall p :: p in Served(pods) ==> p in pods && LevelOf(p) == DedicatedCores
  {
    ServedLaw(pods);
    AtLevelMembers(pods, DedicatedCores);
    forall p | p in Served(pods) ensures p in AtLevel(pods, DedicatedCores) {
      assert p in multiset(Served(pods));
    }
  }

  /** No pod's own pool is named like a tier. */
  lemma OwnNames(topo: Topology, cfg: Config, reserved: set<int>, pods: seq<Pod>, i: nat)
    requires ProperUIDs(pods) && i < |Allocated(topo, cfg, reserved, pods).pools|
    ensures Allocated(topo, cfg, reserved, pods).pools[i].name !in TIER_NAMES
  {
    var (served, minShared) := (Served(pods), AtLeastOne(cfg.sharedPoolMinCPUs));
    var n := |served|;
    assert served[..0] == [] && served[..n] == served;
    NamesBetween(topo.zones, topo.online - reserved, served, minShared, 0, n, i);
    ServedMembers(pods);
  }

  function TierCpus(topo: Topology, cfg: Config, reserved: set<int>, pods: seq<Pod>, level: Level): Option<set<int>> {
    match level
    case ReclaimedCores => Some(Reclaimed(topo, cfg, reserved, pods))
    case SystemCores => if reserved == {} then None else Some(reserved)
    case _ => Some(Shared(topo, cfg, reserved, pods))
  }

  /** The tier pools by position: reserved first, if there is one, and shared and reclaimed last. */
  lemma TierPlaces(topo: Topology, cfg: Config, reserved: set<int>, pods: seq<Pod>)
    ensures var (all, n) :=
            (Unlisted(topo, cfg, reserved, pods), First(reserved) + |Allocated(topo, cfg, reserved, pods).pools|);
            && |all| == n + 2
            && (reserved != {} ==> all[0] == Pool("reserved", SystemCores, reserved, []))
            && all[n] == Pool("shared", SharedCores, Shared(topo, cfg, reserved, pods), [])
            && all[n + 1] == Pool("reclaimed", ReclaimedCores, Reclaimed(topo, cfg, reserved, pods), [])
  {
  }

  /** A tier's name finds the pool of that tier. */
  lemma {:induction false} TierFound(topo: Topology, cfg: Config, reserved: set<int>, pods: seq<Pod>, pools: seq<Pool>,
                                     level: Level)
    requires IsLayout(pools, topo, cfg, reserved, pods) && ProperUIDs(pods)
    ensures Named(pools, TierName(level)) == TierCpus(topo, cfg, reserved, pods, level)
  {
    var (all, name) := (Unlisted(topo, cfg, reserved, pods), TierName(level));
    var n := First(reserved) + |Allocated(topo, cfg, reserved, pods).pools|;
    TierPlaces(topo, cfg, reserved, pods);
    NamedFinds(pools, name);
    assert pools[n].name == "shared" && pools[n + 1].name == "reclaimed";
    assert reserved != {} ==> pools[0].name == "reserved";
    forall j | 0 <= j < |pools| && pools[j].name == name ensures j < First(reserved) || n <= j {
      LayoutShape(topo, cfg, reserved, pods, j);
      if First(reserved) <= j < n {
        OwnNames(topo, cfg, reserved, pods, j - First(reserved));
      }
    }
  }

  // ----- one pod and another -----

  /** A granted pod's CPUs: its own pool, of the size it asked for, outside the other pools. */
  lemma OwnRun(topo: Topology, cfg: Config, reserved: set<int>, pods: seq<Pod>, pools: seq<Pool>, k: nat)
    requires reserved <= topo.online && IsLayout(pools, topo, cfg, reserved, pods) && ProperUIDs(pods)
    requires k < |Served(pods)| && GrantedIn(topo, cfg, reserved, pods, k) && DistinctUIDs(Served(pods))
    ensures var own := CpusForPod(pools, Served(pods)[k].uid, DedicatedCores);
            && own.Some? && own.value != {} && |own.value| == WholeCores(Served(pods)[k])
            && own.value <= topo.online - reserved
            && own.value !! Shared(topo, cfg, reserved, pods) && Shared(topo, cfg, reserved, pods) != {}
  {
    ServedMembers(pods);
    assert Served(pods)[k] in Served(pods);
    OwnCpus(topo, cfg, reserved, pods, pools, k);
    Partition(topo, cfg, reserved, pods);
    GrantAllLaw(topo.zones, topo.online - reserved, Served(pods), AtLeastOne(cfg.sharedPoolMinCPUs));
    var slot := SlotIn(topo, cfg, reserved, pods, k);
    assert Allocated(topo, cfg, reserved, pods).pools[slot].cpus <= Union(Allocated(topo, cfg, reserved, pods).pools);
  }

  lemma TwoGranted(topo: Topology, cfg: Config, reserved: set<int>, pods: seq<Pod>, i: nat, j: nat)
    requires i < |Allocated(topo, cfg, reserved, pods).pools| && j < |Allocated(topo, cfg, reserved, pods).pools|
    requires i != j
    ensures var dedicated := Allocated(topo, cfg, reserved, pods).pools;
            dedicated[i].cpus !! dedicated[j].cpus && dedicated[i].cpus != {}
  {
    var dedicated := Allocated(topo, cfg, reserved, pods).pools;
    GrantAllLaw(topo.zones, topo.online - reserved, Served(pods), AtLeastOne(cfg.sharedPoolMinCPUs));
    if i < j {
      assert dedicated[i].cpus !! dedicated[j].cpus;
    } else {
      assert dedicated[j].cpus !! dedicated[i].cpus;
    }
  }

  lemma FoundAmongGranted(topo: Topology, cfg: Config, reserved: set<int>, pods: seq<Pod>, pools: seq<Pool>,
                          uid: string)
    returns (i: nat)
    requires IsLayout(pools, topo, cfg, reserved, pods) && uid !in TIER_NAMES && Named(pools, uid).Some?
    ensures i < |Allocated(topo, cfg, reserved, pods).pools|
    ensures Allocated(topo, cfg, reserved, pods).pools[i].name == uid
    ensures Allocated(topo, cfg, reserved, pods).pools[i].cpus == Named(pools, uid).value
  {
    NamedFinds(pools, uid);
    var j :| 0 <= j < |pools| && pools[j].name == uid && pools[j].cpus == Named(pools, uid).value;
    LayoutShape(topo, cfg, reserved, pods, j);
    i := j - First(reserved);
  }

  /** Another dedicated pod never runs on a granted pod's CPUs. */
  lemma DedicatedApart(topo: Topology, cfg: Config, reserved: set<int>, pods: seq<Pod>, pools: seq<Pool>, k: nat,
                       uid: string)
    requires reserved <= topo.online && IsLayout(pools, topo, cfg, reserved, pods) && ProperUIDs(pods)
    requires k < |Served(pods)| && GrantedIn(topo, cfg, reserved, pods, k) && DistinctUIDs(Served(pods))
    requires uid != Served(pods)[k].uid && uid !in TIER_NAMES && Named(pools, uid).Some?
    ensures var own := CpusForPod(pools, Served(pods)[k].uid, DedicatedCores);
            own.Some? && Named(pools, uid).value !! own.value && Named(pools, uid).value != {}
  {
    ServedMembers(pods);
    assert Served(pods)[k] in Served(pods);
    OwnCpus(topo, cfg, reserved, pods, pools, k);
    var i := FoundAmongGranted(topo, cfg, reserved, pods, pools, uid);
    OwnPool(topo.zones, topo.online - reserved, Served(pods), AtLeastOne(cfg.sharedPoolMinCPUs), k, i);
    TwoGranted(topo, cfg, reserved, pods, i, SlotIn(topo, cfg, reserved, pods, k));
  }

  /** A reclaimed pod stays away as long as the shared pool meets the reclaimed floor, a system
      pod as long as something is reserved, and any other pod always. */
  predicate StaysAway(topo: Topology, cfg: Config, reserved: set<int>, pods: seq<Pod>, level: Level) {
    match level
    case ReclaimedCores => |Shared(topo, cfg, reserved, pods)| >= AtLeastOne(cfg.reclaimedPoolMinCPUs)
    case SystemCores => reserved != {}
    case _ => true
  }

  lemma Apart(topo: Topology, cfg: Config, reserved: set<int>, pods: seq<Pod>, pools: seq<Pool>, k: nat, p: Pod)
    requires reserved <= topo.online && IsLayout(pools, topo, cfg, reserved, pods) && ProperUIDs(pods)
    requires k < |Served(pods)| && GrantedIn(topo, cfg, reserved, pods, k) && DistinctUIDs(Served(pods))
    requires p in pods && p.uid != Served(pods)[k].uid && cfg.cpuSetEnabled
    ensures RunsOn(topo, cfg, pools, p.uid, LevelOf(p)) !!
            RunsOn(topo, cfg, pools, Served(pods)[k].uid, DedicatedCores) <==>
            StaysAway(topo, cfg, reserved, pods, LevelOf(p))
  {
    OwnRun(topo, cfg, reserved, pods, pools, k);
    var mine := CpusForPod(pools, Served(pods)[k].uid, DedicatedCores).value;
    if LevelOf(p) == DedicatedCores && Named(pools, p.uid).Some? {
      DedicatedApart(topo, cfg, reserved, pods, pools, k, p.uid);
    } else {
      TierFound(topo, cfg, reserved, pods, pools, LevelOf(p));
      var theirs := RunsOn(topo, cfg, pools, p.uid, LevelOf(p));
      if !StaysAway(topo, cfg, reserved, pods, LevelOf(p)) {
        assert mine <= theirs;
        assert mine * theirs == mine;
      }
    }
  }

  // ----- exclusive, exactly when -----

  /** A granted pod has its CPUs to itself, among all pods of the node, exactly when it is the
      only pod, or CPU sets are written, no other pod is reclaimed unless the shared pool meets
      the reclaimed floor, and no other pod is of the system tier unless something is reserved. */
  lemma Exclusive(topo: Topology, cfg: Config, reserved: set<int>, pods: seq<Pod>, pools: seq<Pool>, k: nat)
    requires reserved <= topo.online && IsLayout(pools, topo, cfg, reserved, pods) && ProperUIDs(pods)
    requires k < |Served(pods)| && GrantedIn(topo, cfg, reserved, pods, k) && DistinctUIDs(Served(pods))
    ensures var me := Served(pods)[k].uid;
            (forall p :: p in pods && p.uid != me ==>
               RunsOn(topo, cfg, pools, p.uid, LevelOf(p)) !! RunsOn(topo, cfg, pools, me, DedicatedCores)) <==>
            || (forall p :: p in pods ==> p.uid == me)
            || (&& cfg.cpuSetEnabled
                && (OthersAt(pods, me, ReclaimedCores) ==>
                      |Shared(topo, cfg, reserved, pods)| >= AtLeastOne(cfg.reclaimedPoolMinCPUs))
                && (OthersAt(pods, me, SystemCores) ==> reserved != {}))
  {
    var me := Served(pods)[k].uid;
    OwnRun(topo, cfg, reserved, pods, pools, k);
    forall p | p in pods && p.uid != me
      ensures RunsOn(topo, cfg, pools, p.uid, LevelOf(p)) !! RunsOn(topo, cfg, pools, me, DedicatedCores) <==>
              cfg.cpuSetEnabled && StaysAway(topo, cfg, reserved, pods, LevelOf(p))
    {
      if cfg.cpuSetEnabled {
        Apart(topo, cfg, reserved, pods, pools, k, p);
      } else {
        assert topo.online * topo.online == topo.online;
      }
    }
  }

  // ----- a pod that nothing confines -----

  const SYSTEM_POD := Pod("kube-system", "proxy", "v", map[QOS_LEVEL := "system_cores"], "", None, "", "Running", false,
                          [], [])

  /** Four CPUs of which none is reserved, a dedicated pod that is granted one, and a system pod:
      the shared pool meets the reclaimed floor, yet the system pod may run on every CPU. */
  lemma SystemPodsRoam(pools: seq<Pool>)
    requires IsLayout(pools, Topology([], {0, 1, 2, 3}), Config(true, "", 1, 1), {}, [ONE_CORE_POD, SYSTEM_POD])
    ensures var (topo, cfg) := (Topology([], {0, 1, 2, 3}), Config(true, "", 1, 1));
            var own := RunsOn(topo, cfg, pools, ONE_CORE_POD.uid, DedicatedCores);
            && |own| == 1 && own <= topo.online && own == CpusForPod(pools, ONE_CORE_POD.uid, DedicatedCores).value
            && RunsOn(topo, cfg, pools, SYSTEM_POD.uid, LevelOf(SYSTEM_POD)) == topo.online
            && |Shared(topo, cfg, {}, [ONE_CORE_POD, SYSTEM_POD])| >= AtLeastOne(cfg.reclaimedPoolMinCPUs)
  {
    var (topo, cfg, pods) := (Topology([], {0, 1, 2, 3}), Config(true, "", 1, 1), [ONE_CORE_POD, SYSTEM_POD]);
    OneGranted(topo, cfg);
    OwnRun(topo, cfg, {}, pods, pools, 0);
    TierFound(topo, cfg, {}, pods, pools, SystemCores);
  }

  lemma {:induction false} ProperTwo()
    ensures ProperUIDs([ONE_CORE_POD, SYSTEM_POD]) && DistinctUIDs([ONE_CORE_POD])
  {
  }

  lemma {:induction false} ServedTwo()
    ensures Served([ONE_CORE_POD, SYSTEM_POD]) == [ONE_CORE_POD] && WholeCores(ONE_CORE_POD) == 1
  {
    OneCorePodAsksForOne();
    OneOfTwo(ONE_CORE_POD, SYSTEM_POD);
    assert [ONE_CORE_POD] + [SYSTEM_POD] == [ONE_CORE_POD, SYSTEM_POD];
  }

  lemma {:induction false} OneGranted(topo: Topology, cfg: Config)
    requires topo == Topology([], {0, 1, 2, 3}) && cfg == Config(true, "", 1, 1)
    ensures var pods := [ONE_CORE_POD, SYSTEM_POD];
            && Served(pods) == [ONE_CORE_POD] && WholeCores(ONE_CORE_POD) == 1 && GrantedIn(topo, cfg, {}, pods, 0)
            && |Shared(topo, cfg, {}, pods)| == 3 && ProperUIDs(pods) && DistinctUIDs([ONE_CORE_POD])
  {
    ProperTwo();
    ServedTwo();
    assert topo.online - {} == topo.online;
    FourOnline();
    OneServed(topo.online, ONE_CORE_POD);
    assert [ONE_CORE_POD][..0] == [];
    SharedIsTheRest(topo, cfg, {}, [ONE_CORE_POD, SYSTEM_POD]);
  }

  lemma {:induction false} AtLevelSnoc(pods: seq<Pod>, pod: Pod, level: Level)
    requires LevelOf(pod) != level
    ensures AtLevel(pods + [pod], level) == AtLevel(pods, level)
  {
    assert (pods + [pod])[..|pods|] == pods;
  }

  lemma {:induction false} SameServed(pods: seq<Pod>, others: seq<Pod>)
    requires AtLevel(pods, DedicatedCores) == AtLevel(others, DedicatedCores)
    ensures Served(pods) == Served(others)
  {
  }

  /** Only the dedicated one of the two pods is served. */
  lemma {:induction false} OneOfTwo(mine: Pod, other: Pod)
    requires LevelOf(mine) == DedicatedCores && LevelOf(other) != DedicatedCores
    ensures Served([mine] + [other]) == [mine]
  {
    OneAtLevel(mine);
    AtLevelSnoc([mine], other, DedicatedCores);
    SameServed([mine] + [other], [mine]);
  }
}
