/** The per-node advisor: six observation windows, the last verdict and its revision. */
module Advisor {
  import opened Numbers
  import opened Tiers
  import opened SampleWindow
  import opened Model = AdvisorModel

  /** The advisor's six observation windows, rebuilt together. */
  datatype WindowSet = WindowSet(
    protectedCPU: Window,
    protectedMemory: Window,
    nodeCPU: Window,
    nodeMemory: Window,
    cpuPSI: Window,
    memPSI: Window)
  {
    ghost function At(i: nat): Window {
      if i == 0 then protectedCPU
      else if i == 1 then protectedMemory
      else if i == 2 then nodeCPU
      else if i == 3 then nodeMemory
      else if i == 4 then cpuPSI
      else memPSI
    }

    /** Mentions the six indices, so that what holds of each `At(i)` is known of each field. */
    lemma Named()
      ensures At(0) == protectedCPU && At(1) == protectedMemory && At(2) == nodeCPU
      ensures At(3) == nodeMemory && At(4) == cpuPSI && At(5) == memPSI
    {
    }

    ghost predicate Apart() {
      forall i, j :: 0 <= i < j < 6 ==> At(i).Apart(At(j))
    }

    ghost predicate Within(store: set<object>) {
      forall i :: 0 <= i < 6 ==> At(i) in store && At(i).values in store && At(i).stamps in store
    }
  }

  class Advisor {
    var windows: WindowSet
    var last: Recommendation
    var revision: int
    var cfg: Config

    ghost var Repr: set<object>

    ghost predicate Valid()
      reads this, Repr
    {
      && this in Repr
      && windows.Apart()
      && windows.Within(Repr)
      && forall i :: 0 <= i < 6 ==> windows.At(i).Valid()
    }

    ghost function Value(): State
      reads this, windows.protectedCPU, windows.protectedMemory, windows.nodeCPU, windows.nodeMemory, windows.cpuPSI,
        windows.memPSI
    {
      State(cfg, windows.protectedCPU.ring, windows.protectedMemory.ring, windows.nodeCPU.ring, windows.nodeMemory.ring,
            windows.cpuPSI.ring, windows.memPSI.ring, last, revision)
    }

    constructor (cfg: Config)
      ensures Valid() && fresh(Repr)
      ensures Value() == New(cfg)
    {
      var ws, store := SixWindows(cfg);
      ws.Named();
      this.cfg, last, revision := cfg, NO_VERDICT, 0;
      windows, Repr := ws, {this} + store;
    }

    /** Rebuilds every window, discarding history. */
    method Resize()
      modifies this
      ensures Valid() && fresh(Repr - {this})
      ensures Value() == Resized(old(Value()))
    {
      var ws, store := SixWindows(cfg);
      ws.Named();
      windows, Repr := ws, {this} + store;
    }

    /** Six empty windows of the configured geometry. */
    static method SixWindows(cfg: Config) returns (ws: WindowSet, ghost store: set<object>)
      ensures ws.Apart() && ws.Within(store) && fresh(store)
      ensures forall i :: 0 <= i < 6 ==> ws.At(i).Valid() && ws.At(i).ring == FreshRing(cfg)
    {
      var interval := cfg.intervalSeconds;
      if interval < 1 {
        interval := 1;
      }
      var capacity := GoDiv(cfg.windowSeconds, interval);
      if capacity < 3 {
        capacity := 3;
      }
      var horizon := cfg.windowSeconds * SECOND;
      var list: seq<Window> := [];
      store := {};
      for n := 0 to 6
        invariant |list| == n && fresh(store)
        invariant forall i :: 0 <= i < n ==> list[i].Valid() && list[i].ring == FreshRing(cfg)
        invariant forall i :: 0 <= i < n ==> list[i] in store && list[i].values in store && list[i].stamps in store
        invariant forall i, j :: 0 <= i < j < n ==> list[i].Apart(list[j])
      {
        var w := new Window(capacity, horizon);
        list, store := list + [w], store + {w, w.values, w.stamps};
      }
      ws := WindowSet(list[0], list[1], list[2], list[3], list[4], list[5]);
      assert forall i :: 0 <= i < 6 ==> ws.At(i) == list[i];
    }

    method SetConfig(cfg: Config)
      requires Valid()
      modifies this
      ensures Valid() && fresh(Repr - old(Repr))
      ensures Value() == Configure(old(Value()), cfg)
    {
      var geometryChanged := cfg.windowSeconds != this.cfg.windowSeconds
        || cfg.intervalSeconds != this.cfg.intervalSeconds;
      this.cfg := cfg;
      if geometryChanged {
        Resize();
      }
    }

    /** Pushes into one of the windows and leaves the other five alone. */
    method Feed(w: Window, ghost k: nat, v: real, at: Time)
      requires Valid() && k < 6 && w == windows.At(k)
      modifies w, w.values, w.stamps
      ensures Valid() && unchanged(this)
      ensures w.ring == PushObs(old(w.ring), Obs(v, at))
      ensures forall i :: 0 <= i < 6 && i != k ==> windows.At(i).ring == old(windows.At(i).ring)
    {
      forall i | 0 <= i < 6 && i != k ensures windows.At(i).Apart(w) {
        if i < k {
          assert windows.At(i).Apart(windows.At(k));
        } else {
          assert windows.At(k).Apart(windows.At(i));
        }
      }
      w.Push(v, at);
    }

    /** Folds one sample into the windows. */
    method Observe(s: NodeSample)
      requires Valid()
      modifies Repr
      ensures Valid() && Repr == old(Repr)
      ensures Value() == Model.Observe(old(Value()), s)
    {
      if !s.valid {
        return;
      }
      var protCPU, protMem := ProtectedUse(s.pods);
      windows.Named();
      Feed(windows.protectedCPU, 0, protCPU, s.timestamp);
      Feed(windows.protectedMemory, 1, protMem as real, s.timestamp);
      Feed(windows.nodeCPU, 2, s.cpuMilli, s.timestamp);
      Feed(windows.nodeMemory, 3, s.memoryBytes as real, s.timestamp);
      Feed(windows.cpuPSI, 4, s.cpuSomeAvg10, s.timestamp);
      Feed(windows.memPSI, 5, s.memoryFullAvg10, s.timestamp);
    }

    /** The sums `Observe` takes over the pods that are not reclaimed. */
    static method ProtectedUse(pods: seq<PodSample>) returns (protCPU: real, protMem: nat)
      ensures protCPU == ProtectedCPU(pods)
      ensures protMem == ProtectedMemory(pods)
    {
      protCPU, protMem := 0.0, 0;
      for i := 0 to |pods|
        invariant protCPU == ProtectedCPU(pods[..i])
        invariant protMem == ProtectedMemory(pods[..i])
      {
        assert pods[..i + 1][..i] == pods[..i];
        var p := pods[i];
        if p.level == ReclaimedCores {
          continue;
        }
        if p.valid {
          protCPU := protCPU + p.cpuMilli;
        }
        protMem := protMem + p.memoryBytes;
      }
      assert pods[..|pods|] == pods;
    }

    /** A verdict from the current windows, remembered as the last one. */
    method Recommend(cpuAlloc: int, memAlloc: int, now: Time) returns (rec: Recommendation)
      requires Valid()
      modifies this`last, this`revision
      ensures Valid()
      ensures Value() == Model.Recommend(old(Value()), cpuAlloc, memAlloc, now)
      ensures rec == last
    {
      rec := Decide(cpuAlloc, memAlloc, now);
      if MateriallyDiffers(last, rec) {
        revision := revision + 1;
      }
      rec := rec.(revision := revision);
      last := rec;
    }

    /** The part of `Recommend` that only reads. */
    method Decide(cpuAlloc: int, memAlloc: int, now: Time) returns (rec: Recommendation)
      requires Valid()
      ensures rec == Verdict(Value(), cpuAlloc, memAlloc, now)
    {
      windows.Named();
      var aggregate := windows.protectedCPU.Aggregate(cfg.algorithm, cfg.ewmaAlpha, now);
      var protCPU := Trunc(aggregate);
      var maximum := windows.protectedMemory.Max(now);
      var protMem := Trunc(maximum);

      var (cpuReclaim, cpuReason) := Reclaimable(cfg, cpuAlloc, protCPU, cfg.cpuTargetPercent, cfg.minReclaimCPUMilli);
      var (memReclaim, memReason) :=
        Reclaimable(cfg, memAlloc, protMem, cfg.memoryTargetPercent, cfg.minReclaimMemBytes);
      cpuReclaim := Damp(cfg.growthStepPercent, last.cpuMilli, cpuReclaim);
      memReclaim := Damp(cfg.growthStepPercent, last.memoryBytes, memReclaim);

      var pressure := PressureNow(cpuAlloc, memAlloc, now);
      var reason := cpuReason + "/" + memReason;
      if pressure.level == Critical {
        cpuReclaim, memReclaim := 0, 0;
        reason := "critical-pressure";
      }

      var confidence := "High";
      var full := windows.protectedCPU.Full();
      var count := windows.protectedCPU.Count(now);
      if !full {
        confidence := "Low";
      } else if count < windows.protectedCPU.capacity / 2 {
        confidence := "Medium";
      }
      rec := Recommendation(cpuReclaim, memReclaim, protCPU, protMem, pressure, confidence, reason, revision);
    }

    method PressureNow(cpuAlloc: int, memAlloc: int, now: Time) returns (p: Pressure)
      requires Valid()
      ensures p == PressureAt(Value(), cpuAlloc, memAlloc, now)
    {
      windows.Named();
      var cpu := windows.nodeCPU.Percentile(90, now);
      var mem := windows.nodeMemory.Max(now);
      var cpuStall := windows.cpuPSI.Percentile(90, now);
      var memStall := windows.memPSI.Percentile(90, now);
      var cpuUtil := Pct(Trunc(cpu), cpuAlloc);
      var memUtil := Pct(Trunc(mem), memAlloc);
      p := Pressure(Classify(cfg, cpuUtil, memUtil, cpuStall, memStall), cpuUtil, memUtil,
        Round(cpuStall), Round(memStall));
    }
  }
}
