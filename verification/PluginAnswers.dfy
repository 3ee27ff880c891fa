/** What the plugins' proposals mean for the node: when there are any, whom they name and how many. */
module PluginAnswers {
  import opened Numbers
  import opened Tiers
  import opened Pods
  import opened EvictionModel
  import opened Plugins
  import opened PressureLevels
  import StableSort

  // ----- what the plugins read -----

  function MemoryReading(sig: Signal, p: Pod): nat {
    if p.uid in sig.readings then sig.readings[p.uid].memoryBytes else 0
  }

  function CPUReading(sig: Signal, p: Pod): real {
    if p.uid in sig.readings then sig.readings[p.uid].cpuMilli else 0.0
  }

  /** Each candidate stands for one pod, at its own level and with its own readings. */
  lemma {:induction false} UsagesLaw(sig: Signal, pods: seq<Pod>)
    ensures var us := UsagesOf(sig, pods);
            && |us| == |pods|
            && forall i :: 0 <= i < |pods| ==>
                 us[i] == PodUsage(pods[i], LevelOf(pods[i]), CPUReading(sig, pods[i]), MemoryReading(sig, pods[i]))
  {
    if pods != [] {
      UsagesLaw(sig, pods[..|pods| - 1]);
    }
  }

  lemma {:induction false} UsageFrom(sig: Signal, u: PodUsage) returns (i: nat)
    requires u in UsagesOf(sig, sig.pods)
    ensures i < |sig.pods| && u.pod == sig.pods[i] && u.level == LevelOf(u.pod)
    ensures u.cpuMilli == CPUReading(sig, u.pod) && u.memoryBytes == MemoryReading(sig, u.pod)
  {
    UsagesLaw(sig, sig.pods);
    i :| 0 <= i < |sig.pods| && UsagesOf(sig, sig.pods)[i] == u;
  }

  // ----- tiers -----

  const TIER_ORDER: seq<Level> := [ReclaimedCores, SharedCores, DedicatedCores, SystemCores]

  /** Reclaimed pods go before shared ones, these before dedicated ones, and system pods last. */
  lemma {:induction false} TiersInOrder(i: nat, j: nat)
    requires i < |TIER_ORDER| && j < |TIER_ORDER|
    ensures EvictionRank(TIER_ORDER[i]) > EvictionRank(TIER_ORDER[j]) <==> i < j
    ensures Evictable(TIER_ORDER[i]) <==> i < 3
  {
  }

  // ----- memory -----

  /** With so much freed, use is still above five points under the threshold. */
  ghost predicate StillOver(sig: Signal, freed: int) {
    100 * (sig.memoryUsed - freed) > sig.memoryAllocatable * (sig.policy.memoryPressureThresholdPercent - 5)
  }

  lemma {:induction false} TargetLaw(sig: Signal, freed: int)
    requires sig.policy.memoryPressureThresholdPercent >= 5 && sig.memoryAllocatable > 0
    ensures freed < MustFree(sig) <==> StillOver(sig, freed)
  {
    var product := sig.memoryAllocatable * (sig.policy.memoryPressureThresholdPercent - 5);
    assert product >= 0;
    QuotientBelow(product, sig.memoryUsed - freed);
  }

  lemma {:induction false} QuotientBelow(product: int, left: int)
    requires product >= 0
    ensures left > GoDiv(product, 100) <==> 100 * left > product
  {
    GoDivBounds(product, 100);
  }

  lemma {:induction false} TriggerLaw(sig: Signal)
    ensures MemoryTriggered(sig) <==>
            && sig.memoryAllocatable > 0
            && 100 * sig.memoryUsed >= sig.policy.memoryPressureThresholdPercent * sig.memoryAllocatable
  {
    if sig.memoryAllocatable > 0 {
      QuotientReaches(sig.memoryUsed * 100, sig.memoryAllocatable, sig.policy.memoryPressureThresholdPercent);
    }
  }

  lemma {:induction false} VictimsLaw(sig: Signal)
    ensures var (victims, ranked) := (MemoryVictims(sig), Ranked(UsagesOf(sig, sig.pods)));
            && victims == ranked[..|victims|] && |victims| <= |ranked| == |sig.pods|
            && (Shortfall(sig) > 0 ==>
                  && (forall k :: 0 <= k < |victims| ==> Freed(victims[..k]) < Shortfall(sig))
                  && (Freed(victims) >= Shortfall(sig) || |victims| == |ranked|))
            && (Shortfall(sig) == 0 ==> victims == [])
  {
    var (victims, ranked) := (MemoryVictims(sig), Ranked(UsagesOf(sig, sig.pods)));
    UsagesLaw(sig, sig.pods);
    RankedLaw(UsagesOf(sig, sig.pods));
    if Shortfall(sig) > 0 {
      EnoughPrefix(ranked, Shortfall(sig));
    }
  }

  lemma {:induction false} EnoughPrefix(us: seq<PodUsage>, amount: int)
    ensures var chosen := us[..Enough(us, amount)];
            && (forall k :: 0 <= k < |chosen| ==> Freed(chosen[..k]) < amount)
            && (Freed(chosen) >= amount || |chosen| == |us|)
  {
    EnoughLaw(us, amount);
    var chosen := us[..Enough(us, amount)];
    forall k | 0 <= k < |chosen| ensures Freed(chosen[..k]) < amount {
      assert chosen[..k] == us[..k];
    }
  }

  /** No victim is one too many: without the last one, or without more, too much stays in use. And
      they are enough, unless everybody is proposed. */
  lemma {:induction false} NoneTooMany(sig: Signal, k: nat)
    requires sig.policy.memoryPressureThresholdPercent >= 5 && k < |MemoryVictims(sig)|
    ensures StillOver(sig, Freed(MemoryVictims(sig)[..k]))
    ensures !StillOver(sig, Freed(MemoryVictims(sig))) || |MemoryVictims(sig)| == |sig.pods|
  {
    VictimsLaw(sig);
    TargetLaw(sig, Freed(MemoryVictims(sig)[..k]));
    TargetLaw(sig, Freed(MemoryVictims(sig)));
  }

  /** Somebody is proposed exactly when there is somebody, the node has memory, its use has reached
      the threshold, and is above five points under it. */
  lemma {:induction false} ProposesWhen(sig: Signal)
    requires sig.policy.memoryPressureThresholdPercent >= 5
    ensures MemoryVictims(sig) != [] <==>
            && sig.pods != [] && sig.memoryAllocatable > 0
            && 100 * sig.memoryUsed >= sig.policy.memoryPressureThresholdPercent * sig.memoryAllocatable
            && StillOver(sig, 0)
  {
    VictimsLaw(sig);
    TriggerLaw(sig);
    if sig.memoryAllocatable > 0 {
      TargetLaw(sig, 0);
    }
    assert MemoryVictims(sig)[..0] == [];
  }

  /** Above a positive threshold of five points or more, reaching it is enough. */
  lemma {:induction false} ReachingIsOver(sig: Signal)
    requires sig.memoryAllocatable > 0
    requires 100 * sig.memoryUsed >= sig.policy.memoryPressureThresholdPercent * sig.memoryAllocatable
    ensures StillOver(sig, 0)
  {
    var (t, a) := (sig.policy.memoryPressureThresholdPercent, sig.memoryAllocatable);
    assert a * (t - 5) == t * a - 5 * a;
  }

  lemma {:induction false} VerdictAt(us: seq<PodUsage>, i: nat)
    requires i < |us|
    ensures |MemoryVerdicts(us)| == |us|
    ensures MemoryVerdicts(us)[i] ==
            Verdict(us[i].pod, "memory-pressure", "NodeMemoryPressure", us[i].memoryBytes as real, 0, us[i].memoryBytes)
  {
    var n := |us| - 1;
    if i < n {
      VerdictAt(us[..n], i);
    } else if n > 0 {
      VerdictAt(us[..n], 0);
    }
  }

  /** What the memory plugin answers: a verdict each for distinct candidates, cheaper tiers first
      and within a tier the bigger first, with what the pod uses as what its eviction releases. */
  lemma {:induction false} MemoryAnswerMeans(sig: Signal, i: nat, j: nat)
    requires i < j < |MemoryVerdicts(MemoryVictims(sig))|
    ensures var out := MemoryVerdicts(MemoryVictims(sig));
            && out[i].pod in sig.pods && out[i].releasesMemoryBytes == MemoryReading(sig, out[i].pod)
            && EvictionRank(LevelOf(out[i].pod)) >= EvictionRank(LevelOf(out[j].pod))
            && (LevelOf(out[i].pod) == LevelOf(out[j].pod) ==>
                  MemoryReading(sig, out[i].pod) >= MemoryReading(sig, out[j].pod))
  {
    var (us, victims) := (UsagesOf(sig, sig.pods), MemoryVictims(sig));
    VerdictCount(victims);
    VerdictAt(victims, i);
    VerdictAt(victims, j);
    VictimReads(sig, i);
    VictimReads(sig, j);
    VictimsLaw(sig);
    RankedLaw(us);
    assert victims[i] == Ranked(us)[i] && victims[j] == Ranked(us)[j];
  }

  lemma {:induction false} VerdictCount(us: seq<PodUsage>)
    ensures |MemoryVerdicts(us)| == |us|
  {
    if us != [] {
      VerdictAt(us, 0);
    }
  }

  lemma {:induction false} FreedAlike(us: seq<PodUsage>, size: nat)
    requires forall i :: 0 <= i < |us| ==> us[i].memoryBytes == size
    ensures Freed(us) == size * |us|
  {
    if us != [] {
      FreedAlike(us[..|us| - 1], size);
    }
  }

  const GIB := 1024 * MIB

  lemma {:induction false} VictimReads(sig: Signal, i: nat)
    requires i < |MemoryVictims(sig)|
    ensures var u := MemoryVictims(sig)[i];
            u.pod in sig.pods && u.memoryBytes == MemoryReading(sig, u.pod) && u.level == LevelOf(u.pod)
  {
    VictimsLaw(sig);
    RankedLaw(UsagesOf(sig, sig.pods));
    assert Ranked(UsagesOf(sig, sig.pods))[i] in multiset(UsagesOf(sig, sig.pods));
    var m := UsageFrom(sig, MemoryVictims(sig)[i]);
  }

  lemma {:induction false} VictimsAlike(sig: Signal, size: nat, k: nat)
    requires forall p :: p in sig.pods ==> MemoryReading(sig, p) == size
    requires k <= |MemoryVictims(sig)|
    ensures Freed(MemoryVictims(sig)[..k]) == size * k
  {
    var front := MemoryVictims(sig)[..k];
    forall i | 0 <= i < |front| ensures front[i].memoryBytes == size {
      VictimReads(sig, i);
    }
    FreedAlike(front, size);
  }

  lemma {:induction false} TwoNeeded(k: nat, alloc: nat, used: nat, size: nat)
    requires alloc == 100 * GIB && used == 90 * GIB && size == 8 * GIB && k > 0
    requires 100 * (used - size * (k - 1)) > alloc * 80
    requires 100 * (used - size * k) <= alloc * 80 || k == 10
    ensures k == 2
  {
  }

  /** A node of a hundred gibibytes at ninety, a threshold of 85 and ten pods of eight each: two
      have to go. */
  lemma {:induction false} TwoOfTen(sig: Signal)
    requires sig.memoryAllocatable == 100 * GIB && sig.memoryUsed == 90 * GIB
    requires sig.policy.memoryPressureThresholdPercent == 85 && |sig.pods| == 10
    requires forall p :: p in sig.pods ==> MemoryReading(sig, p) == 8 * GIB
    ensures |MemoryVerdicts(MemoryVictims(sig))| == 2
  {
    var victims := MemoryVictims(sig);
    var k := |victims|;
    ProposesWhen(sig);
    NoneTooMany(sig, k - 1);
    VictimsAlike(sig, 8 * GIB, k - 1);
    VictimsAlike(sig, 8 * GIB, k);
    assert victims[..k] == victims;
    TwoNeeded(k, sig.memoryAllocatable, sig.memoryUsed, 8 * GIB);
    VerdictCount(victims);
  }

  // ----- CPU -----

  lemma {:induction false} ReclaimedAmong(us: seq<PodUsage>)
    ensures forall u :: u in OnlyReclaimed(us) <==> u in us && u.level == ReclaimedCores
  {
    if us != [] {
      ReclaimedAmong(us[..|us| - 1]);
      assert us == us[..|us| - 1] + [us[|us| - 1]];
    }
  }

  lemma {:induction false} ReclaimedCandidate(sig: Signal, p: Pod)
    requires p in sig.pods && LevelOf(p) == ReclaimedCores
    ensures PodUsage(p, ReclaimedCores, CPUReading(sig, p), MemoryReading(sig, p)) in
            OnlyReclaimed(UsagesOf(sig, sig.pods))
  {
    UsagesLaw(sig, sig.pods);
    ReclaimedAmong(UsagesOf(sig, sig.pods));
    var i :| 0 <= i < |sig.pods| && sig.pods[i] == p;
    assert UsagesOf(sig, sig.pods)[i] in UsagesOf(sig, sig.pods);
  }

  lemma {:induction false} CandidateIsReclaimed(sig: Signal, u: PodUsage)
    requires u in OnlyReclaimed(UsagesOf(sig, sig.pods))
    ensures u.pod in sig.pods && LevelOf(u.pod) == ReclaimedCores && u.cpuMilli == CPUReading(sig, u.pod)
  {
    ReclaimedAmong(UsagesOf(sig, sig.pods));
    var i := UsageFrom(sig, u);
  }

  /** The CPU plugin proposes somebody exactly when it is triggered and some candidate is reclaimed,
      and then one such pod that uses most. */
  lemma {:induction false} CPUAnswerMeans(sig: Signal, out: seq<Verdict>)
    requires CPUAnswer(sig, out)
    ensures out != [] <==> CPUTriggered(sig) && exists p :: p in sig.pods && LevelOf(p) == ReclaimedCores
    ensures out != [] ==>
              && |out| == 1 && out[0].pod in sig.pods && LevelOf(out[0].pod) == ReclaimedCores
              && out[0] == Verdict(out[0].pod, "cpu-suppression", "NodeCPUSuppression", CPUReading(sig, out[0].pod),
                                   Trunc(CPUReading(sig, out[0].pod)), 0)
              && forall p :: p in sig.pods && LevelOf(p) == ReclaimedCores ==>
                   CPUReading(sig, p) <= CPUReading(sig, out[0].pod)
  {
    var reclaimed := OnlyReclaimed(UsagesOf(sig, sig.pods));
    forall p | p in sig.pods && LevelOf(p) == ReclaimedCores
      ensures PodUsage(p, ReclaimedCores, CPUReading(sig, p), MemoryReading(sig, p)) in reclaimed
    {
      ReclaimedCandidate(sig, p);
    }
    forall u | u in reclaimed
      ensures u.pod in sig.pods && LevelOf(u.pod) == ReclaimedCores && u.cpuMilli == CPUReading(sig, u.pod)
    {
      CandidateIsReclaimed(sig, u);
    }
    if reclaimed != [] {
      assert reclaimed[0] in reclaimed;
    }
  }

  // ----- overruns -----

  lemma {:induction false} OverrunningMembers(us: seq<PodUsage>, p: Pod)
    ensures (exists v :: v in Overrunning(us) && v.pod == p) <==> exists u :: u in us && u.pod == p && Overruns(u)
  {
    if us != [] {
      var n := |us| - 1;
      OverrunningMembers(us[..n], p);
      assert us == us[..n] + [us[n]];
      if v :| v in Overrunning(us) && v.pod == p {
        if v !in Overrunning(us[..n]) {
          assert us[n] in us && us[n].pod == p;
        }
      }
      if u :| u in us && u.pod == p && Overruns(u) {
        if u !in us[..n] {
          assert OverrunVerdict(u) in Overrunning(us);
        } else {
          var v :| v in Overrunning(us[..n]) && v.pod == p;
          assert v in Overrunning(us);
        }
      }
    }
  }

  /** A candidate overruns when it is reclaimed, asks for CPU, and uses three times as much. */
  ghost predicate Overrunner(sig: Signal, p: Pod) {
    && LevelOf(p) == ReclaimedCores && RequestedMilli(p) > 0
    && CPUReading(sig, p) >= 3.0 * RequestedMilli(p) as real
  }

  lemma {:induction false} RatioReaches(use: real, requested: real)
    requires requested > 0.0
    ensures use / requested >= 3.0 <==> use >= 3.0 * requested
  {
    var q := use / requested;
    assert q * requested == use;
    if q >= 3.0 {
      assert (q - 3.0) * requested >= 0.0;
    } else {
      assert (3.0 - q) * requested > 0.0;
    }
  }

  lemma {:induction false} OverrunsLaw(sig: Signal, u: PodUsage)
    requires u in UsagesOf(sig, sig.pods)
    ensures Overruns(u) <==> Overrunner(sig, u.pod)
    ensures u.pod in sig.pods
  {
    var i := UsageFrom(sig, u);
    if RequestedMilli(u.pod) > 0 {
      RatioReaches(u.cpuMilli, RequestedMilli(u.pod) as real);
    }
  }

  /** Under pressure exactly the overrunning candidates are proposed, and without it nobody. */
  lemma {:induction false} OverrunAnswerMeans(sig: Signal, out: seq<Verdict>, p: Pod)
    requires OverrunAnswer(sig, out)
    ensures (exists v :: v in out && v.pod == p) <==>
            sig.pressure.level != NoPressure && p in sig.pods && Overrunner(sig, p)
  {
    var us := UsagesOf(sig, sig.pods);
    if sig.pressure.level != NoPressure {
      SameVerdicts(out, Overrunning(us));
      OverrunningMembers(us, p);
      if u :| u in us && u.pod == p && Overruns(u) {
        OverrunsLaw(sig, u);
      }
      if p in sig.pods && Overrunner(sig, p) {
        UsagesLaw(sig, sig.pods);
        var i :| 0 <= i < |sig.pods| && sig.pods[i] == p;
        OverrunsLaw(sig, us[i]);
        assert us[i] in us && us[i].pod == p;
      }
    }
  }

  lemma {:induction false} SameVerdicts(a: seq<Verdict>, b: seq<Verdict>)
    requires multiset(a) == multiset(b)
    ensures forall v :: v in a <==> v in b
  {
    forall v ensures v in a <==> v in b {
      assert v in multiset(a) <==> v in multiset(b);
    }
  }

  /** CPU use at its threshold triggers the CPU plugin although nothing is stalled. */
  lemma {:induction false} UseAloneTriggers(sig: Signal)
    requires sig.pressure.cpuUtilizationPercent == 92 && sig.pressure.cpuSomeStalledPercent == 0
    requires sig.policy.cpuPressureThresholdPercent == 92 && sig.policy.cpuSomeStalledThresholdPercent == 40
    ensures CPUTriggered(sig)
  {
  }

  /** A verdict on a pod that uses so much of what it asks for. */
  ghost predicate SaysOverrun(v: Verdict, p: Pod, use: real) {
    && v.pod == p && v.plugin == "reclaimed-overrun" && v.reason == "ReclaimedOverrun"
    && RequestedMilli(p) > 0 && v.score * RequestedMilli(p) as real == use
    && v.releasesCPUMilli == Trunc(use) && v.releasesMemoryBytes == 0
  }

  lemma {:induction false} OverrunSays(u: PodUsage)
    requires Overruns(u)
    ensures SaysOverrun(OverrunVerdict(u), u.pod, u.cpuMilli)
  {
    RatioTimes(u.cpuMilli, RequestedMilli(u.pod) as real);
  }

  lemma {:induction false} RatioTimes(use: real, requested: real)
    requires requested > 0.0
    ensures use / requested * requested == use
  {
  }

  lemma {:induction false} OverrunFrom(us: seq<PodUsage>, v: Verdict) returns (u: PodUsage)
    requires v in Overrunning(us)
    ensures u in us && SaysOverrun(v, u.pod, u.cpuMilli)
  {
    var n := |us| - 1;
    if v in Overrunning(us[..n]) {
      u := OverrunFrom(us[..n], v);
    } else {
      u := us[n];
      OverrunSays(u);
    }
  }

  /** Each verdict on an overrun says how many times its request the pod uses, and that it releases
      all of that. */
  lemma {:induction false} OverrunVerdicts(sig: Signal, out: seq<Verdict>, v: Verdict)
    requires OverrunAnswer(sig, out) && v in out
    ensures SaysOverrun(v, v.pod, CPUReading(sig, v.pod))
  {
    SameVerdicts(out, Overrunning(UsagesOf(sig, sig.pods)));
    var u := OverrunFrom(UsagesOf(sig, sig.pods), v);
    var i := UsageFrom(sig, u);
  }
}
