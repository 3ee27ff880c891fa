/** What each returned pool holds: which CPUs, which pods, and so where each pod is confined. */
module PoolContents {
  import opened Tiers
  import opened Pods
  import opened CpuPool
  import opened CpuExclusive

  // ----- CPUs -----

  /** Some pod's own pool has this CPU. */
  ghost predicate InSomePodsPool(pools: seq<Pool>, c: int) {
    exists j :: 0 <= j < |pools| && pools[j].level == DedicatedCores && c in pools[j].cpus
  }

  lemma {:induction false} UnionMembers(pools: seq<Pool>, c: int)
    ensures c in Union(pools) <==> exists j :: 0 <= j < |pools| && c in pools[j].cpus
  {
    if pools != [] {
      var n := |pools| - 1;
      UnionMembers(pools[..n], c);
      if j :| 0 <= j < |pools| && c in pools[j].cpus {
        assert j < n ==> c in pools[..n][j].cpus;
      }
      if j :| 0 <= j < n && c in pools[..n][j].cpus {
        assert c in pools[j].cpus;
      }
    }
  }

  lemma {:induction false} GrantedLevels(zones: seq<Zone>, free: set<int>, pods: seq<Pod>, minShared: int)
    ensures forall j :: 0 <= j < |GrantAll(zones, free, pods, minShared).pools| ==>
              GrantAll(zones, free, pods, minShared).pools[j].level == DedicatedCores
  {
    if pods != [] {
      GrantedLevels(zones, free, pods[..|pods| - 1], minShared);
    }
  }

  lemma {:induction false} ListedAlike(pools: seq<Pool>, bare: seq<Pool>, pods: seq<Pod>, j: nat)
    requires AllListed(pools, bare, pods) && j < |pools|
    ensures pools[j].name == bare[j].name && pools[j].level == bare[j].level && pools[j].cpus == bare[j].cpus
    ensures pools[j].level != DedicatedCores ==> pools[j].podUIDs == bare[j].podUIDs + Members(pods, pools[j].level)
  {
  }

  lemma {:induction false} GrantedIsListed(topo: Topology, cfg: Config, reserved: set<int>, pods: seq<Pod>,
                                           pools: seq<Pool>, j: nat)
    requires IsLayout(pools, topo, cfg, reserved, pods) && j < |Allocated(topo, cfg, reserved, pods).pools|
    ensures First(reserved) + j < |pools| && pools[First(reserved) + j].level == DedicatedCores
    ensures pools[First(reserved) + j].cpus == Allocated(topo, cfg, reserved, pods).pools[j].cpus
  {
    GrantedLevels(topo.zones, topo.online - reserved, Served(pods), AtLeastOne(cfg.sharedPoolMinCPUs));
    TierPlaces(topo, cfg, reserved, pods);
    LayoutShape(topo, cfg, reserved, pods, First(reserved) + j);
    ListedAlike(pools, Unlisted(topo, cfg, reserved, pods), pods, First(reserved) + j);
  }

  lemma {:induction false} OnlyGrantedDedicated(topo: Topology, cfg: Config, reserved: set<int>, pods: seq<Pod>,
                                                pools: seq<Pool>, j: nat)
    requires IsLayout(pools, topo, cfg, reserved, pods) && j < |pools| && pools[j].level == DedicatedCores
    ensures 0 <= j - First(reserved) < |Allocated(topo, cfg, reserved, pods).pools|
  {
    TierPlaces(topo, cfg, reserved, pods);
    ListedAlike(pools, Unlisted(topo, cfg, reserved, pods), pods, j);
  }

  /** A CPU is in some pod's pool exactly when it was granted. */
  lemma {:induction false} GrantedMembers(topo: Topology, cfg: Config, reserved: set<int>, pods: seq<Pod>,
                                          pools: seq<Pool>, c: int)
    requires IsLayout(pools, topo, cfg, reserved, pods)
    ensures InSomePodsPool(pools, c) <==> c in Union(Allocated(topo, cfg, reserved, pods).pools)
  {
    var (dedicated, first) := (Allocated(topo, cfg, reserved, pods).pools, First(reserved));
    UnionMembers(dedicated, c);
    if j :| 0 <= j < |dedicated| && c in dedicated[j].cpus {
      GrantedIsListed(topo, cfg, reserved, pods, pools, j);
      assert c in pools[first + j].cpus;
    }
    if j :| 0 <= j < |pools| && pools[j].level == DedicatedCores && c in pools[j].cpus {
      OnlyGrantedDedicated(topo, cfg, reserved, pods, pools, j);
      GrantedIsListed(topo, cfg, reserved, pods, pools, j - first);
      assert c in dedicated[j - first].cpus;
    }
  }

  /** The last two pools returned, and the first. */
  lemma {:induction false} Ends(topo: Topology, cfg: Config, reserved: set<int>, pods: seq<Pod>, pools: seq<Pool>)
    requires IsLayout(pools, topo, cfg, reserved, pods)
    ensures var n := |pools| - 1;
            && n >= 1
            && pools[n] == Pool("reclaimed", ReclaimedCores, Reclaimed(topo, cfg, reserved, pods),
                                Members(pods, ReclaimedCores))
            && pools[n - 1] == Pool("shared", SharedCores, Shared(topo, cfg, reserved, pods),
                                    Members(pods, SharedCores))
            && (reserved != {} ==> pools[0] == Pool("reserved", SystemCores, reserved, Members(pods, SystemCores)))
  {
    var n := |pools| - 1;
    TierPlaces(topo, cfg, reserved, pods);
    ListedAlike(pools, Unlisted(topo, cfg, reserved, pods), pods, n);
    ListedAlike(pools, Unlisted(topo, cfg, reserved, pods), pods, n - 1);
    ListedAlike(pools, Unlisted(topo, cfg, reserved, pods), pods, 0);
  }

  /** The shared pool has exactly the CPUs that are neither reserved nor any pod's own, and the
      reclaimed pool every CPU that is not reserved, but for pods' own exactly when the shared
      pool meets the reclaimed floor. */
  lemma {:induction false} CommonPoolsHold(topo: Topology, cfg: Config, reserved: set<int>, pods: seq<Pod>,
                                           pools: seq<Pool>, c: int)
    requires reserved <= topo.online && IsLayout(pools, topo, cfg, reserved, pods)
    ensures var n := |pools| - 1;
            && n >= 1
            && (c in pools[n - 1].cpus <==> c in topo.online && c !in reserved && !InSomePodsPool(pools, c))
            && (c in pools[n].cpus <==>
                && c in topo.online && c !in reserved
                && !(InSomePodsPool(pools, c) && |pools[n - 1].cpus| >= AtLeastOne(cfg.reclaimedPoolMinCPUs)))
  {
    Ends(topo, cfg, reserved, pods, pools);
    GrantedMembers(topo, cfg, reserved, pods, pools, c);
    SharedIsTheRest(topo, cfg, reserved, pods);
  }

  // ----- pods -----

  /** How often a pod is at a level is how often it is listed, at its own level. */
  lemma {:induction false} AtLevelCounts(pods: seq<Pod>, level: Level, p: Pod)
    ensures multiset(AtLevel(pods, level))[p] == if LevelOf(p) == level then multiset(pods)[p] else 0
  {
    if pods != [] {
      var n := |pods| - 1;
      AtLevelCounts(pods[..n], level, p);
      assert pods == pods[..n] + [pods[n]];
    }
  }

  /** The members of a pool are the UIDs of the pods at its level, in order. */
  lemma {:induction false} MembersLaw(pods: seq<Pod>, level: Level)
    ensures |Members(pods, level)| == |AtLevel(pods, level)|
    ensures forall i :: 0 <= i < |Members(pods, level)| ==> Members(pods, level)[i] == AtLevel(pods, level)[i].uid
  {
    if pods != [] {
      MembersLaw(pods[..|pods| - 1], level);
    }
  }

  /** A tier's pool lists exactly the pods of its tier. */
  lemma {:induction false} TierListed(topo: Topology, cfg: Config, reserved: set<int>, pods: seq<Pod>,
                                      pools: seq<Pool>, uid: string)
    requires IsLayout(pools, topo, cfg, reserved, pods)
    ensures var n := |pools| - 1;
            && n >= 1
            && (uid in pools[n].podUIDs <==> exists p :: p in pods && p.uid == uid && LevelOf(p) == ReclaimedCores)
            && (uid in pools[n - 1].podUIDs <==> exists p :: p in pods && p.uid == uid && LevelOf(p) == SharedCores)
            && (reserved != {} ==>
                  (uid in pools[0].podUIDs <==> exists p :: p in pods && p.uid == uid && LevelOf(p) == SystemCores))
  {
    Ends(topo, cfg, reserved, pods, pools);
    MemberExists(pods, ReclaimedCores, uid);
    MemberExists(pods, SharedCores, uid);
    MemberExists(pods, SystemCores, uid);
  }

  lemma {:induction false} MemberExists(pods: seq<Pod>, level: Level, uid: string)
    ensures uid in Members(pods, level) <==> exists p :: p in pods && p.uid == uid && LevelOf(p) == level
  {
    MembersLaw(pods, level);
    if p :| p in pods && p.uid == uid && LevelOf(p) == level {
      AtLevelCounts(pods, level, p);
      assert p in multiset(pods) && p in multiset(AtLevel(pods, level));
      var i :| 0 <= i < |AtLevel(pods, level)| && AtLevel(pods, level)[i] == p;
      assert Members(pods, level)[i] == uid;
    }
    if uid in Members(pods, level) {
      var i :| 0 <= i < |Members(pods, level)| && Members(pods, level)[i] == uid;
      AtLevelMembers(pods, level);
      assert AtLevel(pods, level)[i] in AtLevel(pods, level);
    }
  }

  // ----- where a pod is confined -----

  /** A reclaimed pod is confined to the last pool, a shared one to that before it, as is a
      dedicated one that was granted nothing, and a system pod to the first if anything is
      reserved, and otherwise to none. */
  lemma {:induction false} ConfinedTo(topo: Topology, cfg: Config, reserved: set<int>, pods: seq<Pod>,
                                      pools: seq<Pool>, p: Pod)
    requires IsLayout(pools, topo, cfg, reserved, pods) && ProperUIDs(pods)
    ensures var (n, cpus) := (|pools| - 1, CpusForPod(pools, p.uid, LevelOf(p)));
            && n >= 1
            && (LevelOf(p) == ReclaimedCores ==> cpus == Some(pools[n].cpus))
            && (LevelOf(p) == SharedCores ==> cpus == Some(pools[n - 1].cpus))
            && (LevelOf(p) == SystemCores ==> cpus == if reserved == {} then None else Some(reserved))
            && (LevelOf(p) == DedicatedCores && (forall j :: 0 <= j < |pools| ==> pools[j].name != p.uid) ==>
                  cpus == Some(pools[n - 1].cpus))
  {
    Ends(topo, cfg, reserved, pods, pools);
    TierFound(topo, cfg, reserved, pods, pools, LevelOf(p));
    NamedFinds(pools, p.uid);
  }

  /** A configured floor below one counts as one. */
  lemma {:induction false} FloorLaw(n: int)
    ensures AtLeastOne(n) >= 1 && AtLeastOne(n) >= n && (AtLeastOne(n) == 1 || AtLeastOne(n) == n)
  {
  }
}
