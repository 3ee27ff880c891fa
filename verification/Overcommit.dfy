/** Advertising a node's reclaimable capacity as extended resources, with hysteresis. */
module Overcommit {
  import opened Numbers
  import opened Tiers
  import opened Pods

  const STALE_AFTER := 90 * SECOND

  datatype Profile = Profile(
    nodeName: string,
    reclaimable: Resources,
    allocatable: Resources,
    lastReport: Time,
    pressure: PressureLevel)

  /** The parts of a node's status the controller patches. */
  datatype NodeStatus = NodeStatus(capacity: Resources, allocatable: Resources)

  datatype Fetched<+T> = Found(value: T) | NotFound | Unreadable

  datatype Outcome = Gone | FetchFailed | NoChange | Updated | PatchFailed

  // ----- what should be advertised -----

  function MilliOf(rs: Resources, r: string): int {
    if r in rs then MilliValue(rs[r]) else 0
  }

  function UnitsOf(rs: Resources, r: string): int {
    if r in rs then Value(rs[r]) else 0
  }

  function AtLeastZero(v: int): int {
    if v < 0 then 0 else v
  }

  predicate Stale(p: Profile, now: Time) {
    p.lastReport == 0 || now - p.lastReport > STALE_AFTER
  }

  /** Millicores and bytes to offer: what the profile says, or nothing once it is stale. */
  function Desired(p: Profile, now: Time): (int, int) {
    if Stale(p, now) then (0, 0)
    else (AtLeastZero(MilliOf(p.reclaimable, CPU)), AtLeastZero(UnitsOf(p.reclaimable, MEMORY)))
  }

  // ----- what a node advertises -----

  function AdvertisedCPU(n: NodeStatus): int {
    UnitsOf(n.allocatable, RECLAIMED_CPU)
  }

  /** In mebibytes. */
  function AdvertisedMemory(n: NodeStatus): int {
    UnitsOf(n.allocatable, RECLAIMED_MEMORY)
  }

  predicate Significant(minMilli: int, minBytes: int, cpu: int, mib: int, curCPU: int, curMiB: int) {
    || (cpu == 0) != (curCPU == 0)
    || (mib == 0) != (curMiB == 0)
    || Abs(cpu - curCPU) >= minMilli
    || Abs(mib - curMiB) * MIB >= minBytes
  }

  function Patched(rs: Resources, cpu: int, mib: int): Resources {
    rs[RECLAIMED_CPU := cpu * NANO][RECLAIMED_MEMORY := mib * NANO]
  }

  /** The node after one synchronisation that wants these amounts. */
  function Synced(minMilli: int, minBytes: int, n: NodeStatus, cpu: int, bytes: int,
                  patchAccepted: bool): (NodeStatus, Outcome) {
    var mib := GoDiv(bytes, MIB);
    if !Significant(minMilli, minBytes, cpu, mib, AdvertisedCPU(n), AdvertisedMemory(n)) then (n, NoChange)
    else if !patchAccepted then (n, PatchFailed)
    else (NodeStatus(Patched(n.capacity, cpu, mib), Patched(n.allocatable, cpu, mib)), Updated)
  }

  predicate Succeeded(o: Outcome) {
    o == NoChange || o == Updated
  }

  /** How far an advertisement may lag behind what is wanted: nothing, or less than a threshold. */
  predicate Tracks(advertised: int, wanted: int, unit: int, threshold: int) {
    && (advertised == 0 <==> wanted == 0)
    && (advertised == wanted || Abs(advertised - wanted) * unit < threshold)
  }

  lemma WholeValue(v: int)
    ensures Value(v * NANO) == v
  {
    if v >= 0 {
      RoundUpIs(v * NANO, NANO, v);
    } else {
      RoundUpIs(-v * NANO, NANO, -v);
    }
  }

  /** After every synchronisation that did not fail, the node tracks what is wanted, in both
      resources, whatever it advertised before. */
  lemma SyncTracks(minMilli: int, minBytes: int, n: NodeStatus, cpu: int, bytes: int, patchAccepted: bool)
    ensures var (n', outcome) := Synced(minMilli, minBytes, n, cpu, bytes, patchAccepted);
            Succeeded(outcome) ==>
              && Tracks(AdvertisedCPU(n'), cpu, 1, minMilli)
              && Tracks(AdvertisedMemory(n'), GoDiv(bytes, MIB), MIB, minBytes)
  {
    WholeValue(cpu);
    WholeValue(GoDiv(bytes, MIB));
  }

  /** A patch touches nothing but the two extended resources, and a failure touches nothing. */
  lemma SyncTouchesOnlyReclaimed(minMilli: int, minBytes: int, n: NodeStatus, cpu: int, bytes: int, patchAccepted: bool)
    ensures var (n', outcome) := Synced(minMilli, minBytes, n, cpu, bytes, patchAccepted);
            && (outcome != Updated ==> n' == n)
            && n'.capacity - {RECLAIMED_CPU, RECLAIMED_MEMORY} == n.capacity - {RECLAIMED_CPU, RECLAIMED_MEMORY}
            && n'.allocatable - {RECLAIMED_CPU, RECLAIMED_MEMORY} == n.allocatable - {RECLAIMED_CPU, RECLAIMED_MEMORY}
  {
  }

  /** Synchronising again for the same amounts writes nothing, as long as the thresholds are positive. */
  lemma SyncSettles(minMilli: int, minBytes: int, n: NodeStatus, cpu: int, bytes: int, again: bool)
    requires minMilli > 0 && minBytes > 0
    ensures var n' := Synced(minMilli, minBytes, n, cpu, bytes, true).0;
            Synced(minMilli, minBytes, n', cpu, bytes, again) == (n', NoChange)
  {
    WholeValue(cpu);
    WholeValue(GoDiv(bytes, MIB));
  }

  // ----- the controller -----

  class Node {
    var status: NodeStatus

    constructor (status: NodeStatus)
      ensures this.status == status
    {
      this.status := status;
    }
  }

  class Reconciler {
    var minChangeMilli: int
    var minChangeBytes: int

    constructor (minMilli: int, minBytes: int)
      ensures minChangeMilli == minMilli && minChangeBytes == minBytes
    {
      minChangeMilli, minChangeBytes := minMilli, minBytes;
    }

    /** Unset thresholds take their defaults when the controller is registered. */
    method Setup()
      modifies this
      ensures minChangeMilli == if old(minChangeMilli) == 0 then 50 else old(minChangeMilli)
      ensures minChangeBytes == if old(minChangeBytes) == 0 then 64 * MIB else old(minChangeBytes)
    {
      if minChangeMilli == 0 {
        minChangeMilli := 50;
      }
      if minChangeBytes == 0 {
        minChangeBytes := 64 * MIB;
      }
    }

    /** Brings one node's extended resources in line with its profile. */
    method Reconcile(profile: Fetched<Profile>, node: Fetched<Node>, now: Time, patchAccepted: bool)
      returns (outcome: Outcome)
      modifies if node.Found? then {node.value} else {}
      ensures profile.Found? && node.Found? ==>
                var (cpu, bytes) := Desired(profile.value, now);
                (node.value.status, outcome) ==
                  Synced(minChangeMilli, minChangeBytes, old(node.value.status), cpu, bytes, patchAccepted)
      ensures outcome == Gone <==> profile.NotFound? || (profile.Found? && node.NotFound?)
      ensures outcome == FetchFailed <==> profile.Unreadable? || (profile.Found? && node.Unreadable?)
      ensures !profile.Found? && node.Found? ==> node.value.status == old(node.value.status)
    {
      if !profile.Found? {
        return if profile.NotFound? then Gone else FetchFailed;
      }
      if !node.Found? {
        return if node.NotFound? then Gone else FetchFailed;
      }
      var p := profile.value;
      var cpu, bytes := MilliOf(p.reclaimable, CPU), UnitsOf(p.reclaimable, MEMORY);
      if cpu < 0 {
        cpu := 0;
      }
      if bytes < 0 {
        bytes := 0;
      }
      if Stale(p, now) {
        cpu, bytes := 0, 0;
      }
      outcome := Sync(node.value, cpu, bytes, patchAccepted);
    }

    /** Patches the node's status if the wanted amounts differ enough to be worth a write. */
    method Sync(node: Node, cpu: int, bytes: int, patchAccepted: bool) returns (outcome: Outcome)
      modifies node
      ensures (node.status, outcome) ==
              Synced(minChangeMilli, minChangeBytes, old(node.status), cpu, bytes, patchAccepted)
    {
      var mib := GoDiv(bytes, MIB);
      var curCPU, curMiB := AdvertisedCPU(node.status), AdvertisedMemory(node.status);
      if !Significant(minChangeMilli, minChangeBytes, cpu, mib, curCPU, curMiB) {
        return NoChange;
      }
      if !patchAccepted {
        return PatchFailed;
      }
      node.status := NodeStatus(Patched(node.status.capacity, cpu, mib), Patched(node.status.allocatable, cpu, mib));
      outcome := Updated;
    }
  }

  // ----- what follows for the cluster -----

  /** A stale profile withdraws everything on the next reconcile that does not fail. */
  lemma StaleWithdraws(minMilli: int, minBytes: int, n: NodeStatus, p: Profile, now: Time, patchAccepted: bool)
    requires Stale(p, now)
    ensures var (cpu, bytes) := Desired(p, now);
            var (n', outcome) := Synced(minMilli, minBytes, n, cpu, bytes, patchAccepted);
            Succeeded(outcome) ==> AdvertisedCPU(n') == 0 && AdvertisedMemory(n') == 0
  {
    SyncTracks(minMilli, minBytes, n, 0, 0, patchAccepted);
  }

  // ----- over whole runs -----

  /** One reconcile that found both the profile and the node. */
  datatype Round = Round(profile: Profile, now: Time, patchAccepted: bool)

  function AfterRound(minMilli: int, minBytes: int, n: NodeStatus, r: Round): (NodeStatus, Outcome) {
    var (cpu, bytes) := Desired(r.profile, r.now);
    Synced(minMilli, minBytes, n, cpu, bytes, r.patchAccepted)
  }

  function AfterRounds(minMilli: int, minBytes: int, n: NodeStatus, rounds: seq<Round>): NodeStatus {
    if rounds == [] then n
    else AfterRound(minMilli, minBytes, AfterRounds(minMilli, minBytes, n, rounds[..|rounds| - 1]),
      rounds[|rounds| - 1]).0
  }

  predicate Withdrawn(n: NodeStatus) {
    AdvertisedCPU(n) == 0 && AdvertisedMemory(n) == 0
  }

  lemma StaleRound(minMilli: int, minBytes: int, n: NodeStatus, r: Round)
    requires minMilli > 0 && minBytes > 0 && Stale(r.profile, r.now)
    ensures Withdrawn(n) ==> AfterRound(minMilli, minBytes, n, r) == (n, NoChange)
    ensures r.patchAccepted ==> Withdrawn(AfterRound(minMilli, minBytes, n, r).0)
  {
    StaleWithdraws(minMilli, minBytes, n, r.profile, r.now, r.patchAccepted);
  }

  /** While the agent stays silent, the first patch that is accepted withdraws the node, and
      nothing advertises it again or writes to it after that. */
  lemma {:induction false} SilenceWithdraws(minMilli: int, minBytes: int, n: NodeStatus, rounds: seq<Round>, k: nat)
    requires minMilli > 0 && minBytes > 0 && k < |rounds| && rounds[k].patchAccepted
    requires forall i :: k <= i < |rounds| ==> Stale(rounds[i].profile, rounds[i].now)
    ensures Withdrawn(AfterRounds(minMilli, minBytes, n, rounds))
    ensures AfterRounds(minMilli, minBytes, n, rounds) == AfterRounds(minMilli, minBytes, n, rounds[..k + 1])
  {
    var last := |rounds| - 1;
    if k == last {
      assert rounds[..k + 1] == rounds;
    } else {
      SilenceWithdraws(minMilli, minBytes, n, rounds[..last], k);
      assert rounds[..last][..k + 1] == rounds[..k + 1];
    }
    StaleRound(minMilli, minBytes, AfterRounds(minMilli, minBytes, n, rounds[..last]), rounds[last]);
  }

  /** How far a wanted amount may move without being worth a write. */
  predicate Near(wanted: int, advertised: int, unit: int, threshold: int) {
    (wanted == 0 <==> advertised == 0) && Abs(wanted - advertised) * unit < threshold
  }

  /** Hysteresis: however the offer wobbles, and for however long, a run that stays near what the
      node advertises never writes to it. */
  lemma {:induction false} WobblesAreSilent(minMilli: int, minBytes: int, n: NodeStatus, rounds: seq<Round>)
    requires forall i :: 0 <= i < |rounds| ==>
               var (cpu, bytes) := Desired(rounds[i].profile, rounds[i].now);
               Near(cpu, AdvertisedCPU(n), 1, minMilli) && Near(GoDiv(bytes, MIB), AdvertisedMemory(n), MIB, minBytes)
    ensures AfterRounds(minMilli, minBytes, n, rounds) == n
  {
    if rounds != [] {
      WobblesAreSilent(minMilli, minBytes, n, rounds[..|rounds| - 1]);
    }
  }
}
