/** Pods as kqos reads them: their tier and their resource footprint. */
module Pods {
  import opened Numbers
  import opened Tiers

  /** An exact decimal amount, counted in billionths of a unit. */
  type Quantity = int

  const NANO: nat := 1_000_000_000
  const MILLI: nat := 1_000_000

  /** A resource list: amounts by resource name. A nil list is an empty one. */
  type Resources = map<string, Quantity>

  const CPU := "cpu"
  const MEMORY := "memory"
  const RECLAIMED_CPU := "kqos.io/reclaimed-cpu"
  const RECLAIMED_MEMORY := "kqos.io/reclaimed-memory"
  const QOS_LEVEL := "kqos.io/qos-level"
  const NUMA_BINDING := "kqos.io/numa-binding"
  const ORIGINAL_RESOURCES := "kqos.io/original-resources"
  const MIRROR_POD := "kubernetes.io/config.mirror"

  datatype Container = Container(name: string, requests: Resources, limits: Resources)

  datatype Pod = Pod(
    namespace: string,
    name: string,
    uid: string,
    annotations: map<string, string>,
    priorityClass: string,
    priority: Option<int>,
    statusQoS: string,
    phase: string,
    terminating: bool,
    containers: seq<Container>,
    initContainers: seq<Container>)

  // ----- quantities -----

  /** Whole units of the given size, rounded up away from zero. */
  function RoundUp(q: Quantity, unit: nat): int
    requires unit > 0
  {
    if q >= 0 then (q + unit - 1) / unit else -((-q + unit - 1) / unit)
  }

  function MilliValue(q: Quantity): int {
    RoundUp(q, MILLI)
  }

  function Value(q: Quantity): int {
    RoundUp(q, NANO)
  }

  lemma RoundUpLaw(q: Quantity, unit: nat)
    requires unit > 0 && q >= 0
    ensures RoundUp(q, unit) * unit - unit < q <= RoundUp(q, unit) * unit
    ensures RoundUp(q, unit) >= 0 && (RoundUp(q, unit) == 0 <==> q == 0)
  {
    var r := RoundUp(q, unit);
    assert q + unit - 1 == r * unit + (q + unit - 1) % unit;
    if q > 0 {
      DivMonotone(unit, q + unit - 1, unit);
    }
  }

  /** The one whole number that lies less than a unit above the quantity. */
  lemma RoundUpIs(q: Quantity, unit: nat, r: int)
    requires unit > 0 && q >= 0 && r * unit - unit < q <= r * unit
    ensures RoundUp(q, unit) == r
  {
    RoundUpLaw(q, unit);
    var s := RoundUp(q, unit);
    assert s >= r + 1 ==> s * unit >= (r + 1) * unit == r * unit + unit;
    assert r >= s + 1 ==> r * unit >= (s + 1) * unit == s * unit + unit;
  }

  lemma RoundUpMonotone(p: Quantity, q: Quantity, unit: nat)
    requires unit > 0 && 0 <= p <= q
    ensures RoundUp(p, unit) <= RoundUp(q, unit)
  {
    DivMonotone(p + unit - 1, q + unit - 1, unit);
  }

  // ----- sums -----

  function Requests(cs: seq<Container>): seq<Resources> {
    seq(|cs|, i requires 0 <= i < |cs| => cs[i].requests)
  }

  function Plus(total: Option<Quantity>, q: Quantity): Option<Quantity> {
    if total.None? then Some(q) else Some(total.value + q)
  }

  /** The sum of one resource over the lists that mention it. */
  function Total(lists: seq<Resources>, r: string): Option<Quantity> {
    if lists == [] then None
    else
      var n := |lists| - 1;
      if r in lists[n] then Plus(Total(lists[..n], r), lists[n][r]) else Total(lists[..n], r)
  }

  /** A total raised to the largest single amount an init container asks for. */
  function Raised(total: Option<Quantity>, inits: seq<Resources>, r: string): Option<Quantity> {
    if inits == [] then total
    else
      var n := |inits| - 1;
      var cur := Raised(total, inits[..n], r);
      if r in inits[n] && (cur.None? || inits[n][r] > cur.value) then Some(inits[n][r]) else cur
  }

  function PodTotal(apps: seq<Resources>, inits: seq<Resources>, r: string): Option<Quantity> {
    Raised(Total(apps, r), inits, r)
  }

  function PodRequest(pod: Pod, r: string): Option<Quantity> {
    PodTotal(Requests(pod.containers), Requests(pod.initContainers), r)
  }

  function Lookup(m: Resources, r: string): Option<Quantity> {
    if r in m then Some(m[r]) else None
  }

  /** The inner loop over one app container's list: every amount is added. */
  method AddAll(before: Resources, list: Resources) returns (out: Resources)
    ensures forall r :: Lookup(out, r) == if r in list then Plus(Lookup(before, r), list[r]) else Lookup(before, r)
  {
    out := before;
    var todo := list.Keys;
    while todo != {}
      invariant todo <= list.Keys
      invariant forall r :: Lookup(out, r) == if r in list && r !in todo
                then Plus(Lookup(before, r), list[r]) else Lookup(before, r)
      decreases |todo|
    {
      assert (exists r :: r in todo) || todo == {};
      var r :| r in todo;
      if r in out {
        out := out[r := out[r] + list[r]];
      } else {
        out := out[r := list[r]];
      }
      todo := todo - {r};
    }
  }

  /** The inner loop over one init container's list: every amount is a lower bound. */
  method RaiseAll(before: Resources, list: Resources) returns (out: Resources)
    ensures forall r :: Lookup(out, r) ==
              if r in list && (r !in before || list[r] > before[r]) then Some(list[r]) else Lookup(before, r)
  {
    out := before;
    var todo := list.Keys;
    while todo != {}
      invariant todo <= list.Keys
      invariant forall r :: Lookup(out, r) ==
                  if r in list && r !in todo && (r !in before || list[r] > before[r])
                  then Some(list[r]) else Lookup(before, r)
      decreases |todo|
    {
      assert (exists r :: r in todo) || todo == {};
      var r :| r in todo;
      assert Lookup(out, r) == Lookup(before, r);
      if r !in out || list[r] > out[r] {
        out := out[r := list[r]];
      }
      todo := todo - {r};
    }
  }

  /** `sumPod`: app containers add up, init containers raise the result. */
  method SumPod(apps: seq<Resources>, inits: seq<Resources>) returns (out: Resources)
    ensures forall r :: Lookup(out, r) == PodTotal(apps, inits, r)
  {
    out := map[];
    for i := 0 to |apps|
      invariant forall r :: Lookup(out, r) == Total(apps[..i], r)
    {
      assert apps[..i + 1][..i] == apps[..i];
      out := AddAll(out, apps[i]);
    }
    assert apps[..|apps|] == apps;
    for i := 0 to |inits|
      invariant forall r :: Lookup(out, r) == Raised(Total(apps, r), inits[..i], r)
    {
      assert inits[..i + 1][..i] == inits[..i];
      out := RaiseAll(out, inits[i]);
    }
    assert inits[..|inits|] == inits;
  }

  /** Whole units of one extended resource over the app containers. */
  function ExtendedTotal(cs: seq<Container>, r: string): int {
    if cs == [] then 0
    else
      var n := |cs| - 1;
      ExtendedTotal(cs[..n], r) + if r in cs[n].requests then Value(cs[n].requests[r]) else 0
  }

  method SumExtended(cs: seq<Container>, r: string) returns (total: int)
    ensures total == ExtendedTotal(cs, r)
  {
    total := 0;
    for i := 0 to |cs|
      invariant total == ExtendedTotal(cs[..i], r)
    {
      assert cs[..i + 1][..i] == cs[..i];
      if r in cs[i].requests {
        total := total + Value(cs[i].requests[r]);
      }
    }
    assert cs[..|cs|] == cs;
  }

  /** A pod's footprint, with the extended resources of a rewritten pod read back. */
  function EffectiveRequest(pod: Pod, r: string): Option<Quantity> {
    var native := PodRequest(pod, r);
    if native.Some? then native
    else if r == CPU && ExtendedTotal(pod.containers, RECLAIMED_CPU) > 0 then
      Some(ExtendedTotal(pod.containers, RECLAIMED_CPU) * MILLI)
    else if r == MEMORY && ExtendedTotal(pod.containers, RECLAIMED_MEMORY) > 0 then
      Some(ExtendedTotal(pod.containers, RECLAIMED_MEMORY) * MIB * NANO)
    else None
  }

  // ----- tiers -----

  datatype NativeClass = Guaranteed | BestEffort | Burstable

  predicate NonZero(m: Resources, r: string) {
    r in m && m[r] != 0
  }

  predicate AsksNothing(c: Container) {
    && !NonZero(c.requests, CPU) && !NonZero(c.requests, MEMORY)
    && !NonZero(c.limits, CPU) && !NonZero(c.limits, MEMORY)
  }

  predicate FullyLimited(c: Container, r: string) {
    NonZero(c.limits, r) && (r in c.requests ==> c.requests[r] == c.limits[r])
  }

  predicate GuaranteedContainer(c: Container) {
    FullyLimited(c, CPU) && FullyLimited(c, MEMORY)
  }

  /** Kubernetes' own class: nothing asked, everything limited to its request, or in between. */
  function ClassOf(cs: seq<Container>): NativeClass {
    if forall i :: 0 <= i < |cs| ==> AsksNothing(cs[i]) then BestEffort
    else if forall i :: 0 <= i < |cs| ==> GuaranteedContainer(cs[i]) then Guaranteed
    else Burstable
  }

  method NativeQoS(cs: seq<Container>) returns (native: NativeClass)
    ensures native == ClassOf(cs)
  {
    var limited, isGuaranteed, anyRequest := false, true, false;
    for i := 0 to |cs|
      invariant !anyRequest && !limited <==> forall k :: 0 <= k < i ==> AsksNothing(cs[k])
      invariant isGuaranteed <==> forall k :: 0 <= k < i ==> GuaranteedContainer(cs[k])
    {
      var names := [CPU, MEMORY];
      ghost var c := cs[i];
      ghost var quiet0, guaranteed0 := !anyRequest && !limited, isGuaranteed;
      for n := 0 to 2
        invariant !anyRequest && !limited <==>
                  (&& quiet0
                   && (n >= 1 ==> !NonZero(c.requests, CPU) && !NonZero(c.limits, CPU))
                   && (n >= 2 ==> !NonZero(c.requests, MEMORY) && !NonZero(c.limits, MEMORY)))
        invariant isGuaranteed <==>
                  (&& guaranteed0
                   && (n >= 1 ==> FullyLimited(c, CPU))
                   && (n >= 2 ==> FullyLimited(c, MEMORY)))
      {
        var r := names[n];
        var hasReq, hasLim := r in cs[i].requests, r in cs[i].limits;
        if hasReq && cs[i].requests[r] != 0 {
          anyRequest := true;
        }
        if hasLim && cs[i].limits[r] != 0 {
          limited := true;
        }
        if !hasLim || cs[i].limits[r] == 0 {
          isGuaranteed := false;
        } else if hasReq && cs[i].requests[r] != cs[i].limits[r] {
          isGuaranteed := false;
        }
      }
    }
    if !anyRequest && !limited {
      return BestEffort;
    }
    if isGuaranteed {
      return Guaranteed;
    }
    return Burstable;
  }

  function InferredLevel(pod: Pod): Level {
    if pod.priorityClass == "system-node-critical" || pod.priorityClass == "system-cluster-critical" then SystemCores
    else if pod.statusQoS == "Guaranteed" then DedicatedCores
    else if pod.statusQoS == "BestEffort" then ReclaimedCores
    else if pod.statusQoS != "" then SharedCores
    else
      match ClassOf(pod.initContainers + pod.containers)
      case Guaranteed => DedicatedCores
      case BestEffort => ReclaimedCores
      case Burstable => SharedCores
  }

  /** The level a pod declares, if it is a known one. */
  function DeclaredLevel(pod: Pod): Option<Level> {
    if QOS_LEVEL in pod.annotations then ParseLevel(pod.annotations[QOS_LEVEL]) else None
  }

  function LevelOf(pod: Pod): Level {
    var declared := DeclaredLevel(pod);
    if declared.Some? then declared.value else InferredLevel(pod)
  }

  predicate WantsNUMABinding(pod: Pod) {
    NUMA_BINDING in pod.annotations && pod.annotations[NUMA_BINDING] == "true" && LevelOf(pod) == DedicatedCores
  }

  predicate IsTerminal(pod: Pod) {
    pod.phase == "Succeeded" || pod.phase == "Failed"
  }

  predicate IsMirrorPod(pod: Pod) {
    MIRROR_POD in pod.annotations
  }

  /** A CPU request in whole cores, rounded up. */
  function WholeCores(pod: Pod): int {
    var q := EffectiveRequest(pod, CPU);
    if q.None? then 0
    else
      var milli := MilliValue(q.value);
      GoDiv(milli, 1000) + if GoDiv(milli, 1000) * 1000 != milli then 1 else 0
  }

  /** It is the least whole number of cores that covers the request, through both roundings. */
  lemma WholeCoresLaw(pod: Pod, q: Quantity)
    requires EffectiveRequest(pod, CPU) == Some(q) && q >= 0
    ensures (WholeCores(pod) - 1) * NANO < q <= WholeCores(pod) * NANO
  {
    RoundUpLaw(q, MILLI);
    GoDivBounds(MilliValue(q), 1000);
  }
}
