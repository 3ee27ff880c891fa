/** The three eviction plugins: when each proposes anything, and whom. */
module Plugins {
  import opened Numbers
  import opened Tiers
  import opened Pods
  import opened EvictionModel
  import AdvisorModel
  import CpuSets
  import StableSort

  datatype Reading = Reading(cpuMilli: real, memoryBytes: nat)

  /** What a plugin gets to reason about. */
  datatype Signal = Signal(
    memoryUsed: nat,
    memoryAllocatable: int,
    pressure: AdvisorModel.Pressure,
    policy: Policy,
    pods: seq<Pod>,
    readings: map<string, Reading>)

  datatype PodUsage = PodUsage(pod: Pod, level: Level, cpuMilli: real, memoryBytes: nat)

  function UsageOf(sig: Signal, pod: Pod): PodUsage {
    if pod.uid in sig.readings
    then PodUsage(pod, LevelOf(pod), sig.readings[pod.uid].cpuMilli, sig.readings[pod.uid].memoryBytes)
    else PodUsage(pod, LevelOf(pod), 0.0, 0)
  }

  function UsagesOf(sig: Signal, pods: seq<Pod>): seq<PodUsage> {
    if pods == [] then [] else UsagesOf(sig, pods[..|pods| - 1]) + [UsageOf(sig, pods[|pods| - 1])]
  }

  method UsagesFor(sig: Signal) returns (out: seq<PodUsage>)
    ensures out == UsagesOf(sig, sig.pods)
  {
    out := [];
    for i := 0 to |sig.pods|
      invariant out == UsagesOf(sig, sig.pods[..i])
    {
      assert sig.pods[..i + 1][..i] == sig.pods[..i];
      var u := PodUsage(sig.pods[i], LevelOf(sig.pods[i]), 0.0, 0);
      if sig.pods[i].uid in sig.readings {
        u := u.(cpuMilli := sig.readings[sig.pods[i].uid].cpuMilli,
          memoryBytes := sig.readings[sig.pods[i].uid].memoryBytes);
      }
      out := out + [u];
    }
    assert sig.pods[..|sig.pods|] == sig.pods;
  }

  // ----- ranking -----

  /** Cheaper tiers first, and within a tier the biggest memory users first. */
  const CHEAPER: (PodUsage, PodUsage) -> bool := (x: PodUsage, y: PodUsage) =>
    if EvictionRank(x.level) != EvictionRank(y.level) then EvictionRank(x.level) > EvictionRank(y.level)
    else x.memoryBytes > y.memoryBytes

  lemma CheaperIsWeakOrder()
    ensures StableSort.WeakOrder(CHEAPER)
  {
  }

  function Ranked(us: seq<PodUsage>): seq<PodUsage> {
    StableSort.Sort(us, CHEAPER)
  }

  method RankByTierThenUsage(sig: Signal) returns (ranked: seq<PodUsage>)
    ensures ranked == Ranked(UsagesOf(sig, sig.pods))
  {
    var usages := UsagesFor(sig);
    var a := new PodUsage[|usages|](i requires 0 <= i < |usages| => usages[i]);
    assert a[..] == usages;
    StableSort.InsertionSort(a, CHEAPER);
    ranked := a[..];
  }

  ghost predicate InRankOrder(us: seq<PodUsage>) {
    forall i, j :: 0 <= i < j < |us| ==>
      && EvictionRank(us[i].level) >= EvictionRank(us[j].level)
      && (us[i].level == us[j].level ==> us[i].memoryBytes >= us[j].memoryBytes)
  }

  /** The ranking is a permutation of the candidates, by tier and then by memory, and stable. */
  lemma RankedLaw(us: seq<PodUsage>)
    ensures multiset(Ranked(us)) == multiset(us) && |Ranked(us)| == |us|
    ensures InRankOrder(Ranked(us))
    ensures forall e :: StableSort.Peers(Ranked(us), e, CHEAPER) == StableSort.Peers(us, e, CHEAPER)
  {
    CheaperIsWeakOrder();
    StableSort.SortLaw(us, CHEAPER);
    var r := Ranked(us);
    forall i, j | 0 <= i < j < |r|
      ensures EvictionRank(r[i].level) >= EvictionRank(r[j].level)
              && (r[i].level == r[j].level ==> r[i].memoryBytes >= r[j].memoryBytes)
    {
      assert !CHEAPER(r[j], r[i]);
    }
  }

  // ----- memory pressure -----

  function Freed(us: seq<PodUsage>): nat {
    if us == [] then 0 else Freed(us[..|us| - 1]) + us[|us| - 1].memoryBytes
  }

  predicate MemoryTriggered(sig: Signal) {
    && sig.memoryAllocatable > 0
    && GoDiv(sig.memoryUsed * 100, sig.memoryAllocatable) >= sig.policy.memoryPressureThresholdPercent
  }

  function MustFree(sig: Signal): int {
    sig.memoryUsed - GoDiv(sig.memoryAllocatable * (sig.policy.memoryPressureThresholdPercent - 5), 100)
  }

  /** What the plugin sets out to free: nothing unless the node is over its threshold. */
  function Shortfall(sig: Signal): int {
    if MemoryTriggered(sig) && MustFree(sig) > 0 then MustFree(sig) else 0
  }

  /** How many candidates from the front on are needed to free an amount, or all of them. */
  function Enough(us: seq<PodUsage>, amount: int): (k: nat)
    ensures k <= |us|
  {
    if us == [] then 0
    else
      var k := Enough(us[..|us| - 1], amount);
      if Freed(us[..k]) >= amount then k else |us|
  }

  function MemoryVictims(sig: Signal): seq<PodUsage> {
    if Shortfall(sig) <= 0 then []
    else
      var ranked := Ranked(UsagesOf(sig, sig.pods));
      ranked[..Enough(ranked, Shortfall(sig))]
  }

  function MemoryVerdict(u: PodUsage): Verdict {
    Verdict(u.pod, "memory-pressure", "NodeMemoryPressure", u.memoryBytes as real, 0, u.memoryBytes)
  }

  function MemoryVerdicts(us: seq<PodUsage>): seq<Verdict> {
    if us == [] then [] else MemoryVerdicts(us[..|us| - 1]) + [MemoryVerdict(us[|us| - 1])]
  }

  method EvaluateMemoryPressure(sig: Signal) returns (out: seq<Verdict>)
    ensures out == MemoryVerdicts(MemoryVictims(sig))
  {
    var mustFree := MeasureShortfall(sig);
    if mustFree <= 0 {
      return [];
    }
    var candidates := RankByTierThenUsage(sig);
    out := TakeEnough(candidates, mustFree);
  }

  method MeasureShortfall(sig: Signal) returns (mustFree: int)
    ensures mustFree == Shortfall(sig)
  {
    var memAlloc := sig.memoryAllocatable;
    if memAlloc <= 0 {
      return 0;
    }
    var threshold := sig.policy.memoryPressureThresholdPercent;
    var utilPercent := GoDiv(sig.memoryUsed * 100, memAlloc);
    if utilPercent < threshold {
      return 0;
    }
    mustFree := sig.memoryUsed - GoDiv(memAlloc * (threshold - 5), 100);
    if mustFree <= 0 {
      return 0;
    }
  }

  /** Chooses candidates from the front until they free enough. */
  method TakeEnough(candidates: seq<PodUsage>, mustFree: int) returns (out: seq<Verdict>)
    ensures out == MemoryVerdicts(candidates[..Enough(candidates, mustFree)])
  {
    out := [];
    var freed := 0;
    for i := 0 to |candidates|
      invariant out == MemoryVerdicts(candidates[..i]) && freed == Freed(candidates[..i])
      invariant Enough(candidates[..i], mustFree) == i
    {
      assert candidates[..i + 1][..i] == candidates[..i];
      if freed >= mustFree {
        EnoughStays(candidates, i, mustFree);
        return;
      }
      freed := freed + candidates[i].memoryBytes;
      out := out + [MemoryVerdict(candidates[i])];
      assert candidates[..i][..i] == candidates[..i];
    }
    assert candidates[..|candidates|] == candidates;
  }

  lemma {:induction false} EnoughStays(us: seq<PodUsage>, i: nat, amount: int)
    requires i <= |us| && Enough(us[..i], amount) == i && Freed(us[..i]) >= amount
    ensures Enough(us, amount) == i
    decreases |us|
  {
    if i == |us| {
      assert us[..i] == us;
    } else {
      var n := |us| - 1;
      assert us[..n][..i] == us[..i];
      EnoughStays(us[..n], i, amount);
    }
  }

  lemma {:induction false} FreedSplit(us: seq<PodUsage>, i: nat)
    requires i <= |us|
    ensures Freed(us) == Freed(us[..i]) + Freed(us[i..])
    decreases |us|
  {
    if i == |us| {
      assert us[..i] == us && us[i..] == [];
    } else {
      var n := |us| - 1;
      FreedSplit(us[..n], i);
      assert us[..n][..i] == us[..i];
      assert us[i..][..n - i] == us[..n][i..];
    }
  }

  lemma FreedMonotone(us: seq<PodUsage>, i: nat, j: nat)
    requires i <= j <= |us|
    ensures Freed(us[..i]) <= Freed(us[..j])
  {
    FreedSplit(us[..j], i);
    assert us[..j][..i] == us[..i];
  }

  /** The victims are the shortest prefix that frees enough, or every candidate if none does. */
  lemma {:induction false} EnoughLaw(us: seq<PodUsage>, amount: int)
    ensures var k := Enough(us, amount);
            && (forall i :: 0 <= i < k ==> Freed(us[..i]) < amount)
            && (Freed(us[..k]) >= amount || k == |us|)
  {
    if us != [] {
      var n := |us| - 1;
      EnoughLaw(us[..n], amount);
      var k := Enough(us[..n], amount);
      assert us[..n][..k] == us[..k];
      assert forall i :: 0 <= i < k ==> us[..n][..i] == us[..i];
      if Freed(us[..k]) < amount {
        assert k == n;
      }
    }
  }

  /** What the candidates of tiers cheaper than a rank free together. */
  function FreedAbove(us: seq<PodUsage>, rank: nat): nat {
    if us == [] then 0
    else
      FreedAbove(us[..|us| - 1], rank)
      + if EvictionRank(us[|us| - 1].level) > rank then us[|us| - 1].memoryBytes else 0
  }

  lemma {:induction false} InsertFreedAbove(us: seq<PodUsage>, x: PodUsage, rank: nat)
    ensures FreedAbove(StableSort.Insert(us, x, CHEAPER), rank) ==
            FreedAbove(us, rank) + if EvictionRank(x.level) > rank then x.memoryBytes else 0
  {
    if us == [] || !CHEAPER(x, us[|us| - 1]) {
      assert (us + [x])[..|us|] == us;
    } else {
      var t := StableSort.Insert(us[..|us| - 1], x, CHEAPER);
      InsertFreedAbove(us[..|us| - 1], x, rank);
      assert (t + [us[|us| - 1]])[..|t|] == t;
    }
  }

  lemma {:induction false} RankedFreedAbove(us: seq<PodUsage>, rank: nat)
    ensures FreedAbove(Ranked(us), rank) == FreedAbove(us, rank)
  {
    if us != [] {
      RankedFreedAbove(us[..|us| - 1], rank);
      InsertFreedAbove(Ranked(us[..|us| - 1]), us[|us| - 1], rank);
    }
  }

  lemma {:induction false} FreedAbovePrefix(us: seq<PodUsage>, i: nat, rank: nat)
    requires i <= |us| && forall j :: i <= j < |us| ==> EvictionRank(us[j].level) <= rank
    ensures FreedAbove(us, rank) <= Freed(us[..i])
    decreases |us|
  {
    if i < |us| {
      var n := |us| - 1;
      FreedAbovePrefix(us[..n], i, rank);
      assert us[..n][..i] == us[..i];
    } else if us != [] {
      var n := |us| - 1;
      FreedAbovePrefix(us[..n], n, rank);
      assert us[..n][..n] == us[..n] && us[..i] == us;
    }
  }

  lemma {:induction false} DearerLast(us: seq<PodUsage>, amount: int, i: nat)
    requires i < Enough(Ranked(us), amount)
    ensures i < |Ranked(us)| && FreedAbove(us, EvictionRank(Ranked(us)[i].level)) < amount
  {
    var ranked := Ranked(us);
    RankedLaw(us);
    EnoughLaw(ranked, amount);
    var rank := EvictionRank(ranked[i].level);
    RankedFreedAbove(us, rank);
    FreedAbovePrefix(ranked, i, rank);
  }

  /** A pod of a dearer tier is chosen only when every candidate of the cheaper tiers together
      would not free enough. */
  lemma DearerTiersLast(sig: Signal, i: nat)
    requires i < |MemoryVictims(sig)|
    ensures FreedAbove(UsagesOf(sig, sig.pods), EvictionRank(MemoryVictims(sig)[i].level)) < MustFree(sig)
  {
    DearerLast(UsagesOf(sig, sig.pods), MustFree(sig), i);
  }

  // ----- no smaller choice within a tier suffices -----

  ghost predicate Positions(at: set<int>, lo: nat, us: seq<PodUsage>) {
    forall i :: i in at ==> lo <= i < |us|
  }

  /** What the candidates at a set of positions free together. */
  ghost function FreedAt(us: seq<PodUsage>, at: set<int>): nat
    requires Positions(at, 0, us)
  {
    if at == {} then 0
    else
      var m := CpuSets.Least(at);
      us[m].memoryBytes + FreedAt(us, at - {m})
  }

  lemma FreedCons(us: seq<PodUsage>, lo: nat, hi: nat)
    requires lo < hi <= |us|
    ensures Freed(us[lo..hi]) == us[lo].memoryBytes + Freed(us[lo + 1..hi])
  {
    FreedSplit(us[lo..hi], 1);
    assert us[lo..hi][1..] == us[lo + 1..hi] && us[lo..hi][..1] == [us[lo]];
    assert Freed([us[lo]]) == Freed([us[lo]][..0]) + us[lo].memoryBytes;
  }

  /** Of positions from lo on, the first ones free the most when usage falls along the ranking. */
  lemma {:induction false} SliceFreesMost(us: seq<PodUsage>, at: set<int>, lo: nat)
    requires Positions(at, lo, us)
    requires forall i, j :: lo <= i < j && j in at ==> us[i].memoryBytes >= us[j].memoryBytes
    ensures at == {} || lo + |at| <= |us|
    ensures at != {} ==> FreedAt(us, at) <= Freed(us[lo..lo + |at|])
  {
    if at != {} {
      var m := CpuSets.Least(at);
      var rest := at - {m};
      SliceFreesMost(us, rest, lo + 1);
      assert |at| == |rest| + 1 && lo <= m < |us|;
      assert rest == {} ==> |rest| == 0;
      FreedCons(us, lo, lo + |at|);
      assert us[m].memoryBytes <= us[lo].memoryBytes;
    }
  }

  lemma PrefixFreesMost(us: seq<PodUsage>, at: set<int>, k: nat)
    requires |at| <= k <= |us| && Positions(at, 0, us)
    requires forall i, j :: 0 <= i < j && j in at ==> us[i].memoryBytes >= us[j].memoryBytes
    ensures FreedAt(us, at) <= Freed(us[..k])
  {
    if at != {} {
      SliceFreesMost(us, at, 0);
      FreedMonotone(us, |at|, k);
    }
  }

  lemma FewestOf(us: seq<PodUsage>, amount: int, tier: Level, at: set<int>)
    requires var (ranked, k) := (Ranked(us), Enough(Ranked(us), amount));
             && 0 < k && |at| < k && ranked[0].level == tier
             && Positions(at, 0, ranked) && (forall i :: i in at ==> ranked[i].level == tier)
    ensures FreedAt(Ranked(us), at) < amount
  {
    var ranked := Ranked(us);
    RankedLaw(us);
    EnoughLaw(ranked, amount);
    forall i, j | 0 <= i < j && j in at ensures ranked[i].memoryBytes >= ranked[j].memoryBytes {
      SameTierLarger(us, i, j);
    }
    PrefixFreesMost(ranked, at, Enough(ranked, amount) - 1);
  }

  /** Within the first candidate's tier the ranking is by usage. */
  lemma SameTierLarger(us: seq<PodUsage>, i: nat, j: nat)
    requires i < j < |Ranked(us)| && Ranked(us)[j].level == Ranked(us)[0].level
    ensures Ranked(us)[i].memoryBytes >= Ranked(us)[j].memoryBytes
  {
    var ranked := Ranked(us);
    RankedLaw(us);
    assert EvictionRank(ranked[0].level) >= EvictionRank(ranked[i].level) >= EvictionRank(ranked[j].level);
    assert ranked[i].level == ranked[j].level;
  }

  /** When the victims all belong to one tier, no smaller choice from that tier frees enough:
      `at` ranges over every set of positions in the ranking. */
  lemma FewestVictims(sig: Signal, at: set<int>)
    requires var ranked := Ranked(UsagesOf(sig, sig.pods));
             && MemoryVictims(sig) != [] && |at| < |MemoryVictims(sig)|
             && (forall i :: 0 <= i < |MemoryVictims(sig)| ==>
                MemoryVictims(sig)[i].level == MemoryVictims(sig)[0].level)
             && Positions(at, 0, ranked) && (forall i :: i in at ==> ranked[i].level == MemoryVictims(sig)[0].level)
    ensures FreedAt(Ranked(UsagesOf(sig, sig.pods)), at) < MustFree(sig)
  {
    FewestOf(UsagesOf(sig, sig.pods), MustFree(sig), MemoryVictims(sig)[0].level, at);
  }

  /** Once enough is proposed, what stays keeps the node at least five points under the
      threshold, so the same reading does not trigger again. */
  lemma ProposalRecovers(sig: Signal)
    requires MemoryTriggered(sig) && Freed(MemoryVictims(sig)) >= MustFree(sig)
    ensures var target := sig.policy.memoryPressureThresholdPercent - 5;
            GoDiv((sig.memoryUsed - Freed(MemoryVictims(sig))) * 100, sig.memoryAllocatable)
              <= if target > 0 then target else 0
  {
    BelowTarget(sig.memoryUsed - Freed(MemoryVictims(sig)), sig.memoryAllocatable,
      sig.policy.memoryPressureThresholdPercent - 5);
  }

  lemma BelowTarget(left: int, alloc: int, t: int)
    requires alloc > 0 && left <= GoDiv(alloc * t, 100)
    ensures GoDiv(left * 100, alloc) <= if t > 0 then t else 0
  {
    GoDivBounds(alloc * t, 100);
    if t > 0 {
      assert alloc * t > 0;
      GoDivMonotone(left * 100, alloc * t, alloc);
      ExactQuotient(alloc, t);
    } else {
      assert alloc * t <= 0;
      GoDivMonotone(left * 100, 0, alloc);
      assert GoDiv(0, alloc) == 0;
    }
  }

  lemma ExactQuotient(d: int, q: int)
    requires d > 0 && q > 0
    ensures GoDiv(d * q, d) == q
  {
    assert d * q >= 0;
    assert (d * q) / d == q;
  }

  // ----- the two plugins that touch only the reclaimed tier -----

  function OnlyReclaimed(us: seq<PodUsage>): seq<PodUsage> {
    if us == [] then []
    else OnlyReclaimed(us[..|us| - 1]) + if us[|us| - 1].level == ReclaimedCores then [us[|us| - 1]] else []
  }

  const HUNGRIER: (PodUsage, PodUsage) -> bool := (x: PodUsage, y: PodUsage) => x.cpuMilli > y.cpuMilli

  predicate CPUTriggered(sig: Signal) {
    || sig.pressure.cpuSomeStalledPercent >= sig.policy.cpuSomeStalledThresholdPercent
    || sig.pressure.cpuUtilizationPercent >= sig.policy.cpuPressureThresholdPercent
  }

  function CPUVerdict(u: PodUsage): Verdict {
    Verdict(u.pod, "cpu-suppression", "NodeCPUSuppression", u.cpuMilli, Trunc(u.cpuMilli), 0)
  }

  /** Nothing without a trigger or a reclaimed pod, and otherwise the hungriest of these. */
  ghost predicate CPUAnswer(sig: Signal, out: seq<Verdict>) {
    var reclaimed := OnlyReclaimed(UsagesOf(sig, sig.pods));
    if !CPUTriggered(sig) || reclaimed == [] then out == []
    else
      exists u ::
        u in reclaimed && out == [CPUVerdict(u)] && forall x :: x in reclaimed ==> x.cpuMilli <= u.cpuMilli
  }

  /** At most one victim: the hungriest reclaimed pod. */
  method EvaluateCPUSuppression(sig: Signal) returns (out: seq<Verdict>)
    ensures CPUAnswer(sig, out)
  {
    if !CPUTriggered(sig) {
      return [];
    }
    var usages := UsagesFor(sig);
    var reclaimed := KeepReclaimed(usages);
    if |reclaimed| == 0 {
      return [];
    }
    var top := Hungriest(reclaimed);
    out := [CPUVerdict(top)];
  }

  /** Sorts by CPU and takes the first. */
  method Hungriest(us: seq<PodUsage>) returns (top: PodUsage)
    requires us != []
    ensures top in us && forall x :: x in us ==> x.cpuMilli <= top.cpuMilli
  {
    var a := new PodUsage[|us|](i requires 0 <= i < |us| => us[i]);
    assert a[..] == us;
    StableSort.InsertionSort(a, HUNGRIER);
    HungriestFirst(us);
    assert a[..] == StableSort.Sort(us, HUNGRIER);
    top := a[0];
    assert top == a[..][0];
  }

  method KeepReclaimed(us: seq<PodUsage>) returns (out: seq<PodUsage>)
    ensures out == OnlyReclaimed(us)
  {
    out := [];
    for i := 0 to |us|
      invariant out == OnlyReclaimed(us[..i])
    {
      assert us[..i + 1][..i] == us[..i];
      if us[i].level == ReclaimedCores {
        out := out + [us[i]];
      }
    }
    assert us[..|us|] == us;
  }

  lemma HungriestFirst(us: seq<PodUsage>)
    requires us != []
    ensures var s := StableSort.Sort(us, HUNGRIER);
            |s| == |us| && s[0] in us && forall x :: x in us ==> x.cpuMilli <= s[0].cpuMilli
  {
    assert StableSort.WeakOrder(HUNGRIER);
    StableSort.SortLaw(us, HUNGRIER);
    var s := StableSort.Sort(us, HUNGRIER);
    assert s[0] in multiset(us);
    forall x | x in us ensures x.cpuMilli <= s[0].cpuMilli {
      assert x in multiset(s);
      var i :| 0 <= i < |s| && s[i] == x;
      assert i > 0 ==> !HUNGRIER(s[i], s[0]);
    }
  }

  ghost predicate ReclaimedOnly(vs: seq<Verdict>) {
    forall v :: v in vs ==> LevelOf(v.pod) == ReclaimedCores
  }

  lemma {:induction false} UsageLevels(sig: Signal, pods: seq<Pod>)
    ensures forall u :: u in UsagesOf(sig, pods) ==> u.level == LevelOf(u.pod)
  {
    if pods != [] {
      UsageLevels(sig, pods[..|pods| - 1]);
    }
  }

  lemma {:induction false} ReclaimedUsages(us: seq<PodUsage>)
    ensures forall u :: u in OnlyReclaimed(us) ==> u in us && u.level == ReclaimedCores
  {
    if us != [] {
      ReclaimedUsages(us[..|us| - 1]);
    }
  }

  lemma {:induction false} OverrunningReclaimed(us: seq<PodUsage>)
    requires forall u :: u in us ==> u.level == LevelOf(u.pod)
    ensures ReclaimedOnly(Overrunning(us))
  {
    if us != [] {
      OverrunningReclaimed(us[..|us| - 1]);
      assert us[|us| - 1] in us;
    }
  }

  function RequestedMilli(pod: Pod): int {
    var q := EffectiveRequest(pod, CPU);
    if q.Some? then MilliValue(q.value) else 0
  }

  function OverrunVerdict(u: PodUsage): Verdict {
    var r := RequestedMilli(u.pod);
    Verdict(u.pod, "reclaimed-overrun", "ReclaimedOverrun",
      if r > 0 then u.cpuMilli / r as real else 0.0, Trunc(u.cpuMilli), 0)
  }

  predicate Overruns(u: PodUsage) {
    u.level == ReclaimedCores && RequestedMilli(u.pod) > 0 && OverrunVerdict(u).score >= 3.0
  }

  function Overrunning(us: seq<PodUsage>): seq<Verdict> {
    if us == [] then []
    else Overrunning(us[..|us| - 1]) + if Overruns(us[|us| - 1]) then [OverrunVerdict(us[|us| - 1])] else []
  }

  const WORSE: (Verdict, Verdict) -> bool := (x: Verdict, y: Verdict) => x.score > y.score

  /** Nothing without pressure, and with it exactly the pods that overrun, worst first. */
  ghost predicate OverrunAnswer(sig: Signal, out: seq<Verdict>) {
    if sig.pressure.level == NoPressure then out == []
    else
      && multiset(out) == multiset(Overrunning(UsagesOf(sig, sig.pods)))
      && forall i, j :: 0 <= i < j < |out| ==> out[i].score >= out[j].score
  }

  /** Reclaimed pods that use at least three times their request, worst first, while the node
      is under pressure. */
  method EvaluateReclaimedOverrun(sig: Signal) returns (out: seq<Verdict>)
    ensures OverrunAnswer(sig, out)
  {
    if sig.pressure.level == NoPressure {
      return [];
    }
    var usages := UsagesFor(sig);
    var list: seq<Verdict> := [];
    for i := 0 to |usages|
      invariant list == Overrunning(usages[..i])
    {
      assert usages[..i + 1][..i] == usages[..i];
      var u := usages[i];
      if u.level != ReclaimedCores {
        continue;
      }
      var reqMilli := RequestedMilli(u.pod);
      if reqMilli <= 0 {
        continue;
      }
      var ratio := u.cpuMilli / reqMilli as real;
      if ratio < 3.0 {
        continue;
      }
      list := list + [Verdict(u.pod, "reclaimed-overrun", "ReclaimedOverrun", ratio, Trunc(u.cpuMilli), 0)];
    }
    assert usages[..|usages|] == usages;
    out := SortByScore(list);
  }

  const OVERRUNNER := Pod("ns", "p", "u", map[QOS_LEVEL := "reclaimed_cores"], "", None, "", "Running", false,
                          [Container("c", map[RECLAIMED_CPU := 100 * NANO], map[RECLAIMED_CPU := 100 * NANO])], [])

  lemma OverrunnerAsks()
    ensures LevelOf(OVERRUNNER) == ReclaimedCores && RequestedMilli(OVERRUNNER) == 100
  {
    var cs := OVERRUNNER.containers;
    assert Requests(cs)[0] == cs[0].requests && Requests(cs)[..0] == [];
    assert Total(Requests(cs)[..0], CPU) == None && Total(Requests(cs), CPU) == None;
    assert Requests(OVERRUNNER.initContainers) == [] && PodRequest(OVERRUNNER, CPU) == None;
    assert cs[..0] == [] && ExtendedTotal(cs[..0], RECLAIMED_CPU) == 0;
    RoundUpIs(100 * NANO, NANO, 100);
    RoundUpIs(100 * MILLI, MILLI, 100);
  }

  /** A reclaimed pod at nine times its request, without and with pressure on the node: the
      plugin does wait for pressure. */
  lemma OverrunWaitsForPressure(sig: Signal, out: seq<Verdict>)
    requires sig.pods == [OVERRUNNER] && sig.readings == map["u" := Reading(900.0, 0)]
    requires OverrunAnswer(sig, out)
    ensures sig.pressure.level == NoPressure ==> out == []
    ensures sig.pressure.level != NoPressure ==> |out| == 1 && out[0].pod == OVERRUNNER && out[0].score == 9.0
  {
    OverrunnerAsks();
    var u := UsageOf(sig, OVERRUNNER);
    assert sig.pods[..0] == [] && UsagesOf(sig, sig.pods) == [] + [u];
    assert [u][..0] == [] && Overrunning([u]) == [] + [OverrunVerdict(u)];
    if sig.pressure.level != NoPressure {
      OneLeft(out, OverrunVerdict(u));
    }
  }

  lemma OneLeft(vs: seq<Verdict>, v: Verdict)
    requires multiset(vs) == multiset([v])
    ensures vs == [v]
  {
    assert |vs| == |multiset(vs)| == 1;
    assert vs[0] in multiset(vs);
  }

  method SortByScore(list: seq<Verdict>) returns (out: seq<Verdict>)
    ensures multiset(out) == multiset(list)
    ensures forall i, j :: 0 <= i < j < |out| ==> out[i].score >= out[j].score
  {
    var a := new Verdict[|list|](i requires 0 <= i < |list| => list[i]);
    assert a[..] == list;
    StableSort.InsertionSort(a, WORSE);
    assert StableSort.WeakOrder(WORSE);
    StableSort.SortLaw(list, WORSE);
    out := a[..];
    forall i, j | 0 <= i < j < |out| ensures out[i].score >= out[j].score {
      assert !WORSE(out[j], out[i]);
    }
  }

  /** Neither of these two plugins ever proposes a pod of a protected tier. */
  lemma OtherPluginsSpareProtected(sig: Signal, cpu: PodUsage, overruns: seq<Verdict>)
    ensures cpu in OnlyReclaimed(UsagesOf(sig, sig.pods)) ==> ReclaimedOnly([CPUVerdict(cpu)])
    ensures multiset(overruns) == multiset(Overrunning(UsagesOf(sig, sig.pods))) ==> ReclaimedOnly(overruns)
  {
    var us := UsagesOf(sig, sig.pods);
    UsageLevels(sig, sig.pods);
    ReclaimedUsages(us);
    OverrunningReclaimed(us);
    if multiset(overruns) == multiset(Overrunning(us)) {
      forall v | v in overruns ensures LevelOf(v.pod) == ReclaimedCores {
        assert v in multiset(overruns);
        assert v in Overrunning(us);
      }
    }
  }

  // ----- together with the manager -----

  lemma {:induction false} Collected(answers: seq<Option<seq<Verdict>>>, v: Verdict)
    requires v in Collect(answers)
    ensures exists i :: 0 <= i < |answers| && answers[i].Some? && v in answers[i].value
  {
    var n := |answers| - 1;
    if v in Collect(answers[..n]) {
      Collected(answers[..n], v);
      var i :| 0 <= i < n && answers[..n][i].Some? && v in answers[..n][i].value;
      assert answers[i].Some? && v in answers[i].value;
    } else {
      assert answers[n].Some? && v in answers[n].value;
    }
  }

  lemma {:induction false} VerdictOfVictim(us: seq<PodUsage>, v: Verdict)
    requires v in MemoryVerdicts(us)
    ensures exists i :: 0 <= i < |us| && v == MemoryVerdict(us[i])
  {
    var n := |us| - 1;
    if v in MemoryVerdicts(us[..n]) {
      VerdictOfVictim(us[..n], v);
      var i :| 0 <= i < n && v == MemoryVerdict(us[..n][i]);
      assert v == MemoryVerdict(us[i]);
    } else {
      assert v == MemoryVerdict(us[n]);
    }
  }

  lemma VictimsOfDearTiers(sig: Signal, v: Verdict)
    requires v in MemoryVerdicts(MemoryVictims(sig))
    ensures MemoryTriggered(sig)
    ensures FreedAbove(UsagesOf(sig, sig.pods), EvictionRank(LevelOf(v.pod))) < MustFree(sig)
  {
    VerdictOfVictim(MemoryVictims(sig), v);
    var k :| 0 <= k < |MemoryVictims(sig)| && v == MemoryVerdict(MemoryVictims(sig)[k]);
    DearerTiersLast(sig, k);
    VictimLevel(sig, k);
  }

  /** A victim's recorded level is its pod's own. */
  lemma VictimLevel(sig: Signal, k: nat)
    requires k < |MemoryVictims(sig)|
    ensures MemoryVictims(sig)[k].level == LevelOf(MemoryVictims(sig)[k].pod)
  {
    var us := UsagesOf(sig, sig.pods);
    RankedLaw(us);
    UsageLevels(sig, sig.pods);
    assert Ranked(us)[k] in multiset(us);
  }

  /** When every plugin answer is the memory plugin's or names reclaimed pods only, as the other
      two plugins' answers do, a pod of a protected tier is evicted only under memory pressure
      that all candidates of the cheaper tiers together could not relieve. */
  lemma ProtectedTiersLast(st: State, p: Pass, sig: Signal, v: Verdict)
    requires st.budget.window > 0 && v in RunPass(st, p).1.evicted
    requires forall i :: 0 <= i < |p.answers| && p.answers[i].Some? ==>
               p.answers[i].value == MemoryVerdicts(MemoryVictims(sig)) || ReclaimedOnly(p.answers[i].value)
    requires LevelOf(v.pod) != ReclaimedCores
    ensures MemoryTriggered(sig)
    ensures FreedAbove(UsagesOf(sig, sig.pods), EvictionRank(LevelOf(v.pod))) < MustFree(sig)
  {
    assert v in Collect(p.answers) by {
      OnlyLawfulEvictions(st, p);
    }
    Collected(p.answers, v);
    VictimsOfDearTiers(sig, v);
  }
}
