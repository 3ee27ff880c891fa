/** The rules of admission: which level a pod gets, and exactly which pods are turned away. */
module AdmissionRules {
  import opened Numbers
  import opened Tiers
  import opened Pods
  import opened Webhook
  import opened DedicatedAdmission

  // ----- levels -----

  /** A pod says its level under the annotation, in one of four spellings. */
  predicate Says(pod: Pod, spelling: string) {
    "kqos.io/qos-level" in pod.annotations && pod.annotations["kqos.io/qos-level"] == spelling
  }

  predicate SaysSome(pod: Pod) {
    || Says(pod, "system_cores") || Says(pod, "dedicated_cores")
    || Says(pod, "shared_cores") || Says(pod, "reclaimed_cores")
  }

  predicate NodeCritical(pod: Pod) {
    pod.priorityClass == "system-node-critical" || pod.priorityClass == "system-cluster-critical"
  }

  /** No container requests or limits any CPU or memory. */
  ghost predicate AsksForNothing(cs: seq<Container>) {
    forall c, r :: c in cs && r in {"cpu", "memory"} ==>
      (r in c.requests ==> c.requests[r] == 0) && (r in c.limits ==> c.limits[r] == 0)
  }

  /** Every container limits both CPU and memory, to what it requests of them if it says so. */
  ghost predicate LimitsEverything(cs: seq<Container>) {
    forall c, r :: c in cs && r in {"cpu", "memory"} ==>
      r in c.limits && c.limits[r] != 0 && (r in c.requests ==> c.requests[r] == c.limits[r])
  }

  lemma {:induction false} AskingNothing(c: Container)
    ensures AsksNothing(c) <==> AsksForNothing([c])
  {
    assert c in [c];
    if AsksForNothing([c]) {
      assert "cpu" in {"cpu", "memory"} && "memory" in {"cpu", "memory"};
    }
  }

  lemma {:induction false} LimitingAll(c: Container)
    ensures GuaranteedContainer(c) <==> LimitsEverything([c])
  {
    assert c in [c];
    if LimitsEverything([c]) {
      assert "cpu" in {"cpu", "memory"} && "memory" in {"cpu", "memory"};
    }
  }

  lemma {:induction false} ShapeLaw(cs: seq<Container>)
    ensures AsksForNothing(cs) <==> forall i :: 0 <= i < |cs| ==> AsksNothing(cs[i])
    ensures LimitsEverything(cs) <==> forall i :: 0 <= i < |cs| ==> GuaranteedContainer(cs[i])
  {
    forall c
      ensures AsksNothing(c) <==> AsksForNothing([c])
      ensures GuaranteedContainer(c) <==> LimitsEverything([c])
    {
      AskingNothing(c);
      LimitingAll(c);
    }
    EachAlone(cs);
  }

  lemma {:induction false} EachAlone(cs: seq<Container>)
    ensures AsksForNothing(cs) <==> forall i :: 0 <= i < |cs| ==> AsksForNothing([cs[i]])
    ensures LimitsEverything(cs) <==> forall i :: 0 <= i < |cs| ==> LimitsEverything([cs[i]])
  {
    forall c | c in cs ensures exists i :: 0 <= i < |cs| && cs[i] == c && c in [cs[i]] {
      var i :| 0 <= i < |cs| && cs[i] == c;
      assert c in [cs[i]];
    }
    if forall i :: 0 <= i < |cs| ==> AsksForNothing([cs[i]]) {
      forall c, r | c in cs && r in {"cpu", "memory"}
        ensures (r in c.requests ==> c.requests[r] == 0) && (r in c.limits ==> c.limits[r] == 0)
      {
        var i :| 0 <= i < |cs| && cs[i] == c && c in [cs[i]];
        assert AsksForNothing([cs[i]]);
      }
    }
    if forall i :: 0 <= i < |cs| ==> LimitsEverything([cs[i]]) {
      forall c, r | c in cs && r in {"cpu", "memory"}
        ensures r in c.limits && c.limits[r] != 0 && (r in c.requests ==> c.requests[r] == c.limits[r])
      {
        var i :| 0 <= i < |cs| && cs[i] == c && c in [cs[i]];
        assert LimitsEverything([cs[i]]);
      }
    }
  }

  /** A pod's level is the one it says, or else system if the node cannot do without it, or else
      by the class Kubernetes gave it, or else by what its containers ask for. */
  lemma {:induction false} LevelLaw(pod: Pod)
    ensures var all := pod.initContainers + pod.containers;
            LevelOf(pod) ==
            if Says(pod, "system_cores") then SystemCores
            else if Says(pod, "dedicated_cores") then DedicatedCores
            else if Says(pod, "shared_cores") then SharedCores
            else if Says(pod, "reclaimed_cores") then ReclaimedCores
            else if NodeCritical(pod) then SystemCores
            else if pod.statusQoS == "Guaranteed" then DedicatedCores
            else if pod.statusQoS == "BestEffort" then ReclaimedCores
            else if pod.statusQoS != "" then SharedCores
            else if AsksForNothing(all) then ReclaimedCores
            else if LimitsEverything(all) then DedicatedCores
            else SharedCores
  {
    ShapeLaw(pod.initContainers + pod.containers);
  }

  /** The level a policy names as default, if it names one. */
  function DefaultLevel(spelling: string): Level {
    if spelling == "system_cores" then SystemCores
    else if spelling == "dedicated_cores" then DedicatedCores
    else if spelling == "reclaimed_cores" then ReclaimedCores
    else SharedCores
  }

  /** A pod is admitted at its own level, said or inferred, except that one which says none and
      seems shared is admitted at the default. */
  lemma {:induction false} AdmittedLevelLaw(pod: Pod, settings: Settings)
    ensures AdmittedLevel(pod, settings) ==
            if !SaysSome(pod) && LevelOf(pod) == SharedCores then DefaultLevel(settings.defaultLevel) else LevelOf(pod)
  {
  }

  // ----- refusals -----

  /** A container for which exclusive CPUs cannot be handed out. */
  predicate NotInCores(c: Container) {
    || "cpu" !in c.requests || c.requests["cpu"] == 0
    || MilliValue(c.requests["cpu"]) % 1000 != 0
  }

  lemma {:induction false} GoRemainder(m: int)
    ensures GoDiv(m, 1000) * 1000 == m <==> m % 1000 == 0
  {
    if m >= 0 {
      assert m == 1000 * (m / 1000) + m % 1000;
    } else {
      assert -m == 1000 * (-m / 1000) + -m % 1000;
    }
  }

  lemma {:induction false} NotInCoresLaw(c: Container)
    ensures NotInCores(c) <==> !AsksWholeCores(c)
  {
    if NonZero(c.requests, CPU) {
      GoRemainder(MilliValue(c.requests[CPU]));
    }
  }

  lemma {:induction false} DenialFinds(cs: seq<Container>)
    ensures DedicatedDenial(cs).Some? <==> exists i :: 0 <= i < |cs| && NotInCores(cs[i])
  {
    if cs != [] {
      DenialFinds(cs[1..]);
      NotInCoresLaw(cs[0]);
      if i :| 0 <= i < |cs| && NotInCores(cs[i]) {
        if i > 0 {
          assert cs[1..][i - 1] == cs[i];
        }
      }
      if i :| 0 <= i < |cs| - 1 && NotInCores(cs[1..][i]) {
        assert cs[i + 1] == cs[1..][i];
      }
    }
  }

  predicate NoMemoryAllowed(c: Container) {
    "memory" in c.limits && c.limits["memory"] == 0
  }

  /** Exactly which pods are turned away: dedicated ones of which some container does not ask for
      CPU in whole cores, reclaimed ones of which some container may use no memory or whose priority
      is positive, and others that want to be bound to a zone. */
  lemma {:induction false} DeniedExactly(pod: Pod, settings: Settings, encode: Encoder)
    ensures Admit(pod, settings, encode).Denied? <==>
            match AdmittedLevel(pod, settings)
            case DedicatedCores => exists i :: 0 <= i < |pod.containers| && NotInCores(pod.containers[i])
            case ReclaimedCores =>
              || (exists i :: 0 <= i < |pod.containers| && NoMemoryAllowed(pod.containers[i]))
              || (pod.priority.Some? && pod.priority.value > 0)
              || WantsZone(pod)
            case _ => WantsZone(pod)
  {
    DenialFinds(pod.containers);
    if i :| 0 <= i < |pod.containers| && NoMemoryAllowed(pod.containers[i]) {
      assert MEMORY in pod.containers[i].limits && pod.containers[i].limits[MEMORY] == 0;
    }
    if i :| 0 <= i < |pod.containers| && MEMORY in pod.containers[i].limits
            && pod.containers[i].limits[MEMORY] == 0 {
      assert NoMemoryAllowed(pod.containers[i]);
    }
  }

  predicate WantsZone(pod: Pod) {
    "kqos.io/numa-binding" in pod.annotations && pod.annotations["kqos.io/numa-binding"] == "true"
  }

  /** What admission changes: the level is written down, and nothing else unless the pod is
      reclaimed and rewriting is on. */
  lemma {:induction false} AdmittedAs(pod: Pod, settings: Settings, encode: Encoder)
    requires Admit(pod, settings, encode).Admitted?
    ensures var (once, level) := (Admit(pod, settings, encode).pod, AdmittedLevel(pod, settings));
            var annotated := pod.(annotations := pod.annotations["kqos.io/qos-level" := LevelName(level)]);
            once ==
            if level == ReclaimedCores && settings.rewriteReclaimed then Rewrite(annotated, encode) else annotated
  {
  }

  /** A level that is misspelled is not refused but replaced: such a pod is admitted at the level
      it would have had without. */
  lemma {:induction false} MisspellingReplaced(pod: Pod, settings: Settings, encode: Encoder)
    requires !SaysSome(pod)
    ensures var silent := pod.(annotations := pod.annotations - {"kqos.io/qos-level"});
            && AdmittedLevel(pod, settings) == AdmittedLevel(silent, settings)
            && Admit(pod, settings, encode).Denied? == Admit(silent, settings, encode).Denied?
  {
    var silent := pod.(annotations := pod.annotations - {"kqos.io/qos-level"});
    LevelLaw(pod);
    LevelLaw(silent);
    AdmittedLevelLaw(pod, settings);
    AdmittedLevelLaw(silent, settings);
    DeniedExactly(pod, settings, encode);
    DeniedExactly(silent, settings, encode);
  }

  // ----- what the rewrite writes -----

  /** Memory is asked for in whole mebibytes, rounded down, and in one at least. */
  lemma {:induction false} MebibytesExactly(q: Quantity)
    requires q > 0
    ensures var (bytes, m) := (Value(q), Mebibytes(q));
            m >= 1 && (bytes < MIB ==> m == 1) && (bytes >= MIB ==> m * MIB <= bytes < (m + 1) * MIB)
  {
    RoundUpLaw(q, NANO);
    GoDivBounds(Value(q), MIB);
  }

  /** The original requests of a container are remembered exactly if it asks for CPU or memory, and
      of those of one name those of the last. */
  lemma {:induction false} SnapshotLaw(cs: seq<Container>, name: string)
    ensures name in Snapshot(cs) <==>
            exists i :: 0 <= i < |cs| && cs[i].name == name && ("cpu" in cs[i].requests || "memory" in cs[i].requests)
    ensures name in Snapshot(cs) ==>
              exists i :: 0 <= i < |cs| && Snapshot(cs)[name] == cs[i] && cs[i].name == name &&
                forall j :: i < j < |cs| && cs[j].name == name ==>
                  "cpu" !in cs[j].requests && "memory" !in cs[j].requests
  {
    if cs != [] {
      var n := |cs| - 1;
      SnapshotLaw(cs[..n], name);
      if cs[n].name == name && (CPU in cs[n].requests || MEMORY in cs[n].requests) {
        assert Snapshot(cs)[name] == cs[n];
      } else if name in Snapshot(cs[..n]) {
        var i :| 0 <= i < n && Snapshot(cs[..n])[name] == cs[..n][i] && cs[..n][i].name == name &&
          forall j :: i < j < n && cs[..n][j].name == name ==>
            "cpu" !in cs[..n][j].requests && "memory" !in cs[..n][j].requests;
        assert Snapshot(cs)[name] == cs[i];
        forall j | i < j < |cs| && cs[j].name == name
          ensures "cpu" !in cs[j].requests && "memory" !in cs[j].requests
        {
          assert j < n ==> cs[..n][j] == cs[j];
        }
      } else {
        forall i | 0 <= i < |cs| && cs[i].name == name
          ensures "cpu" !in cs[i].requests && "memory" !in cs[i].requests
        {
          assert i < n ==> cs[..n][i] == cs[i];
        }
      }
    }
  }

  /** A container asks for some CPU or memory. */
  predicate AsksForSome(c: Container) {
    || ("cpu" in c.requests && c.requests["cpu"] != 0)
    || ("memory" in c.requests && c.requests["memory"] != 0)
  }

  /** The rewrite touches app containers one by one and the annotation, which it sets exactly if some
      app container asks for CPU or memory and the snapshot of them can be written down. */
  lemma {:induction false} RewriteLaw(pod: Pod, encode: Encoder)
    ensures var (once, raw) := (Rewrite(pod, encode), encode(Snapshot(pod.containers)));
            && once == pod.(containers := once.containers, annotations := once.annotations)
            && |once.containers| == |pod.containers|
            && (forall i :: 0 <= i < |pod.containers| ==> once.containers[i] == RewriteContainer(pod.containers[i]))
            && once.annotations ==
               if (exists c :: c in pod.containers && AsksForSome(c)) && raw.Some?
               then pod.annotations["kqos.io/original-resources" := raw.value]
               else pod.annotations
  {
    if c :| c in pod.containers && AsksForSome(c) {
      var i :| 0 <= i < |pod.containers| && pod.containers[i] == c;
      assert Rewritable(pod.containers[i]);
    }
    if i :| 0 <= i < |pod.containers| && Rewritable(pod.containers[i]) {
      assert pod.containers[i] in pod.containers && AsksForSome(pod.containers[i]);
    }
  }
}
