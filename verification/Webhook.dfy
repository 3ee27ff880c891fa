/**
 Admission: choosing and checking a pod's level, rewriting a reclaimed pod's requests into
 extended resources, and what the rest of kqos reads back from the rewritten pod.
 */
module Webhook {
  import opened Numbers
  import opened Tiers
  import opened Pods

  // ----- the rewrite -----

  function SetExtended(c: Container, r: string, value: int): Container {
    c.(requests := c.requests[r := value * NANO], limits := c.limits[r := value * NANO])
  }

  /** The CPU half: the request and limit go, the extended resource takes their place. */
  function RewriteCPU(c: Container): Container {
    if !NonZero(c.requests, CPU) then c
    else
      SetExtended(c.(requests := c.requests - {CPU}, limits := c.limits - {CPU}),
        RECLAIMED_CPU, MilliValue(c.requests[CPU]))
  }

  function Mebibytes(q: Quantity): int {
    var mib := GoDiv(Value(q), MIB);
    if mib < 1 then 1 else mib
  }

  /** The memory half: the request goes, a limit stays or is put in its place. */
  function RewriteMemory(c: Container): Container {
    if !NonZero(c.requests, MEMORY) then c
    else
      var q := c.requests[MEMORY];
      var limits := if MEMORY in c.limits then c.limits else c.limits[MEMORY := q];
      SetExtended(c.(requests := c.requests - {MEMORY}, limits := limits), RECLAIMED_MEMORY, Mebibytes(q))
  }

  function RewriteContainer(c: Container): Container {
    RewriteMemory(RewriteCPU(c))
  }

  predicate Rewritable(c: Container) {
    NonZero(c.requests, CPU) || NonZero(c.requests, MEMORY)
  }

  function RewriteAll(cs: seq<Container>): (out: seq<Container>)
    ensures |out| == |cs|
    ensures forall i :: 0 <= i < |cs| ==> out[i] == RewriteContainer(cs[i])
  {
    if cs == [] then [] else RewriteAll(cs[..|cs| - 1]) + [RewriteContainer(cs[|cs| - 1])]
  }

  predicate AnyRewritable(cs: seq<Container>) {
    exists i :: 0 <= i < |cs| && Rewritable(cs[i])
  }

  /** What the rewrite remembers: the original container under each name that requested
      anything, a later container replacing an earlier one of the same name. */
  function Snapshot(cs: seq<Container>): map<string, Container> {
    if cs == [] then map[]
    else
      var c := cs[|cs| - 1];
      if CPU in c.requests || MEMORY in c.requests then Snapshot(cs[..|cs| - 1])[c.name := c]
        else Snapshot(cs[..|cs| - 1])
  }

  /** How a snapshot is written down; `None` when it cannot be serialised. */
  type Encoder = map<string, Container> -> Option<string>

  function RewrittenAnnotations(annotations: map<string, string>, cs: seq<Container>,
                                encode: Encoder): map<string, string> {
    var raw := encode(Snapshot(cs));
    if AnyRewritable(cs) && raw.Some? then annotations[ORIGINAL_RESOURCES := raw.value] else annotations
  }

  function Rewrite(pod: Pod, encode: Encoder): Pod {
    pod.(containers := RewriteAll(pod.containers),
         annotations := RewrittenAnnotations(pod.annotations, pod.containers, encode))
  }

  /** One turn of the rewriting loop. */
  method RewriteOne(before: Container) returns (c: Container, changed: bool)
    ensures c == RewriteContainer(before)
    ensures changed == Rewritable(before)
  {
    c, changed := before, false;
    var hasCPU, hasMem := CPU in c.requests, MEMORY in c.requests;
    var cpuReq := if hasCPU then c.requests[CPU] else 0;
    var memReq := if hasMem then c.requests[MEMORY] else 0;
    if hasCPU && cpuReq != 0 {
      var milli := MilliValue(cpuReq);
      c := c.(requests := c.requests - {CPU});
      c := c.(limits := c.limits - {CPU});
      c := SetExtended(c, RECLAIMED_CPU, milli);
      changed := true;
    }
    if hasMem && memReq != 0 {
      var mib := GoDiv(Value(memReq), MIB);
      if mib < 1 {
        mib := 1;
      }
      c := c.(requests := c.requests - {MEMORY});
      if MEMORY !in c.limits {
        c := c.(limits := c.limits[MEMORY := memReq]);
      }
      c := SetExtended(c, RECLAIMED_MEMORY, mib);
      changed := true;
    }
  }

  /** A pod under admission, whose containers and annotations are edited in place. */
  class PodUnderAdmission {
    const containers: array<Container>
    var annotations: map<string, string>

    constructor (cs: seq<Container>, annotations: map<string, string>)
      ensures fresh(containers) && containers[..] == cs && this.annotations == annotations
    {
      containers := new Container[|cs|](i requires 0 <= i < |cs| => cs[i]);
      this.annotations := annotations;
    }

    method RewriteReclaimed(encode: Encoder) returns (changed: bool)
      modifies this, containers
      ensures containers[..] == RewriteAll(old(containers[..]))
      ensures annotations == RewrittenAnnotations(old(annotations), old(containers[..]), encode)
      ensures changed == AnyRewritable(old(containers[..]))
    {
      ghost var cs := containers[..];
      var snapshot: map<string, Container>;
      changed, snapshot := RewriteContainers();
      if changed {
        var raw := encode(snapshot);
        if raw.Some? {
          annotations := annotations[ORIGINAL_RESOURCES := raw.value];
        }
      }
    }

    /** The loop of the rewrite: edits every container and remembers what it was. */
    method RewriteContainers() returns (changed: bool, snapshot: map<string, Container>)
      modifies containers
      ensures containers[..] == RewriteAll(old(containers[..]))
      ensures changed == AnyRewritable(old(containers[..]))
      ensures snapshot == Snapshot(old(containers[..]))
    {
      changed, snapshot := false, map[];
      ghost var cs := containers[..];
      for i := 0 to containers.Length
        invariant forall k :: 0 <= k < i ==> containers[k] == RewriteContainer(cs[k])
        invariant forall k :: i <= k < containers.Length ==> containers[k] == cs[k]
        invariant changed <==> exists k :: 0 <= k < i && Rewritable(cs[k])
        invariant snapshot == Snapshot(cs[..i])
      {
        assert cs[..i + 1][..i] == cs[..i];
        var touched;
        touched, snapshot := RewriteAt(i, snapshot);
        changed := changed || touched;
      }
      assert cs[..containers.Length] == cs;
      assert containers[..] == RewriteAll(cs);
    }

    /** One turn of that loop. */
    method RewriteAt(i: nat, before: map<string, Container>) returns (touched: bool, snapshot: map<string, Container>)
      requires i < containers.Length
      modifies containers
      ensures containers[i] == RewriteContainer(old(containers[i]))
      ensures forall k :: 0 <= k < containers.Length && k != i ==> containers[k] == old(containers[k])
      ensures touched == Rewritable(old(containers[i]))
      ensures snapshot == var c := old(containers[i]);
                          if CPU in c.requests || MEMORY in c.requests then before[c.name := c] else before
    {
      var c := containers[i];
      snapshot := before;
      if CPU !in c.requests && MEMORY !in c.requests {
        return false, snapshot;
      }
      snapshot := snapshot[c.name := c];
      var d;
      d, touched := RewriteOne(c);
      containers[i] := d;
    }
  }

  // ----- what the rewrite leaves -----

  /** Extended resources are requested in equal amounts on both sides, memory that was
      requested stays limited, no non-zero native request is left, and nothing else moves. */
  lemma RewrittenContainer(c: Container)
    ensures var d := RewriteContainer(c);
            && (NonZero(c.requests, CPU) ==>
                  && RECLAIMED_CPU in d.requests && RECLAIMED_CPU in d.limits
                  && d.requests[RECLAIMED_CPU] == d.limits[RECLAIMED_CPU] == MilliValue(c.requests[CPU]) * NANO
                  && CPU !in d.requests && CPU !in d.limits)
            && (NonZero(c.requests, MEMORY) ==>
                  && RECLAIMED_MEMORY in d.requests && RECLAIMED_MEMORY in d.limits
                  && d.requests[RECLAIMED_MEMORY] == d.limits[RECLAIMED_MEMORY] == Mebibytes(c.requests[MEMORY]) * NANO
                  && MEMORY !in d.requests && MEMORY in d.limits
                  && d.limits[MEMORY] == (if MEMORY in c.limits then c.limits[MEMORY] else c.requests[MEMORY]))
            && !Rewritable(d)
            && forall r :: r !in {CPU, MEMORY, RECLAIMED_CPU, RECLAIMED_MEMORY} ==>
                 Lookup(d.requests, r) == Lookup(c.requests, r) && Lookup(d.limits, r) == Lookup(c.limits, r)
  {
  }

  /** A second rewrite reports no change and changes nothing. */
  lemma RewriteTwice(pod: Pod, encode: Encoder)
    ensures var once := Rewrite(pod, encode);
            !AnyRewritable(once.containers) && Rewrite(once, encode) == once
  {
    var once := Rewrite(pod, encode);
    forall i | 0 <= i < |once.containers|
      ensures !Rewritable(once.containers[i]) && RewriteContainer(once.containers[i]) == once.containers[i]
    {
      RewrittenContainer(pod.containers[i]);
    }
    assert RewriteAll(once.containers) == once.containers;
  }

  // ----- reading back -----

  ghost predicate NonNegative(lists: seq<Resources>, r: string) {
    forall i :: 0 <= i < |lists| && r in lists[i] ==> lists[i][r] >= 0
  }

  /** Some list keeps its native entry through the rewrite: an init container asks for the
      resource, or an app container asks for exactly zero of it. */
  ghost predicate NativeSurvives(pod: Pod, r: string) {
    || (exists i :: 0 <= i < |pod.initContainers| && r in pod.initContainers[i].requests)
    || SomeAskZero(pod.containers, r)
  }

  /** No container asks for a negative amount. */
  ghost predicate Plain(pod: Pod, r: string, extended: string) {
    && NonNegative(Requests(pod.containers), r)
    && NonNegative(Requests(pod.initContainers), r)
    && NonNegative(Requests(pod.containers), extended)
  }

  /** What containers ask of the extended resource that do not ask for the native one: theirs
      the rewrite leaves alone. */
  function OwnExtended(cs: seq<Container>, r: string, extended: string): int {
    if cs == [] then 0
    else
      var c := cs[|cs| - 1];
      OwnExtended(cs[..|cs| - 1], r, extended)
      + if !NonZero(c.requests, r) && extended in c.requests then Value(c.requests[extended]) else 0
  }

  lemma {:induction false} OwnExtendedLaw(cs: seq<Container>, r: string, extended: string)
    requires NonNegative(Requests(cs), extended)
    ensures OwnExtended(cs, r, extended) >= 0
    ensures Unset(cs, r) ==> ExtendedTotal(cs, extended) == OwnExtended(cs, r, extended)
  {
    if cs != [] {
      var n := |cs| - 1;
      RequestsPrefix(cs);
      OwnExtendedLaw(cs[..n], r, extended);
      assert Requests(cs)[n] == cs[n].requests;
      if extended in cs[n].requests {
        RoundUpLaw(cs[n].requests[extended], NANO);
      }
    }
  }

  function OrZero(q: Option<Quantity>): Quantity {
    if q.Some? then q.value else 0
  }

  /** Each container's CPU request rounded up to whole milli-cores, summed. */
  function MilliSum(cs: seq<Container>): int {
    if cs == [] then 0
    else
      var c := cs[|cs| - 1];
      MilliSum(cs[..|cs| - 1]) + if CPU in c.requests then MilliValue(c.requests[CPU]) else 0
  }

  function MebibyteSum(cs: seq<Container>): int {
    if cs == [] then 0
    else
      var c := cs[|cs| - 1];
      MebibyteSum(cs[..|cs| - 1]) + if NonZero(c.requests, MEMORY) then Mebibytes(c.requests[MEMORY]) else 0
  }

  lemma RequestsPrefix(cs: seq<Container>)
    requires cs != []
    ensures Requests(cs)[..|cs| - 1] == Requests(cs[..|cs| - 1])
  {
  }

  lemma ValueOfUnits(n: int)
    requires n >= 0
    ensures Value(n * NANO) == n && MilliValue(n * MILLI) == n
  {
    RoundUpIs(n * NANO, NANO, n);
    RoundUpIs(n * MILLI, MILLI, n);
  }

  ghost predicate Unset(cs: seq<Container>, r: string) {
    forall i :: 0 <= i < |cs| ==> r !in cs[i].requests
  }

  /** What each extended resource adds up to after the rewrite. */
  lemma {:induction false} ExtendedCPUAfter(cs: seq<Container>)
    requires NonNegative(Requests(cs), CPU)
    ensures ExtendedTotal(RewriteAll(cs), RECLAIMED_CPU) == MilliSum(cs) + OwnExtended(cs, CPU, RECLAIMED_CPU)
  {
    if cs != [] {
      var n := |cs| - 1;
      RequestsPrefix(cs);
      ExtendedCPUAfter(cs[..n]);
      RewrittenContainer(cs[n]);
      assert RewriteAll(cs)[..n] == RewriteAll(cs[..n]);
      assert Requests(cs)[n] == cs[n].requests;
      if CPU in cs[n].requests {
        RoundUpLaw(cs[n].requests[CPU], MILLI);
        ValueOfUnits(MilliValue(cs[n].requests[CPU]));
      }
    }
  }

  lemma {:induction false} ExtendedMemoryAfter(cs: seq<Container>)
    ensures ExtendedTotal(RewriteAll(cs), RECLAIMED_MEMORY) ==
            MebibyteSum(cs) + OwnExtended(cs, MEMORY, RECLAIMED_MEMORY)
  {
    if cs != [] {
      var n := |cs| - 1;
      ExtendedMemoryAfter(cs[..n]);
      RewrittenContainer(cs[n]);
      assert RewriteAll(cs)[..n] == RewriteAll(cs[..n]);
      if NonZero(cs[n].requests, MEMORY) {
        ValueOfUnits(Mebibytes(cs[n].requests[MEMORY]));
      }
    }
  }

  predicate AsksZero(c: Container, r: string) {
    r in c.requests && c.requests[r] == 0
  }

  ghost predicate SomeAskZero(cs: seq<Container>, r: string) {
    exists i :: 0 <= i < |cs| && AsksZero(cs[i], r)
  }

  lemma SomeAskZeroSnoc(cs: seq<Container>, r: string)
    requires cs != []
    ensures SomeAskZero(cs, r) <==> SomeAskZero(cs[..|cs| - 1], r) || AsksZero(cs[|cs| - 1], r)
  {
    var n := |cs| - 1;
    if i :| 0 <= i < |cs| && AsksZero(cs[i], r) {
      assert i < n ==> cs[..n][i] == cs[i];
    }
  }

  /** What the last container leaves of a native total after the rewrite. */
  lemma LastNative(cs: seq<Container>, r: string)
    requires cs != [] && (r == CPU || r == MEMORY)
    ensures var (front, last) := (Total(Requests(RewriteAll(cs[..|cs| - 1])), r), cs[|cs| - 1]);
            Total(Requests(RewriteAll(cs)), r) == if AsksZero(last, r) then Plus(front, 0) else front
  {
    var n := |cs| - 1;
    var after := RewriteAll(cs);
    RewrittenContainer(cs[n]);
    assert after[..n] == RewriteAll(cs[..n]);
    assert Requests(after)[..n] == Requests(after[..n]);
    assert Requests(after)[n] == after[n].requests;
  }

  /** The native total after the rewrite: only entries that were zero remain. */
  lemma {:induction false} NativeAfter(cs: seq<Container>, r: string)
    requires r == CPU || r == MEMORY
    ensures var t := Total(Requests(RewriteAll(cs)), r);
            (t.Some? <==> SomeAskZero(cs, r)) && (t.Some? ==> t.value == 0)
  {
    if cs != [] {
      NativeAfter(cs[..|cs| - 1], r);
      LastNative(cs, r);
      SomeAskZeroSnoc(cs, r);
    }
  }

  lemma {:induction false} RaisedLaw(total: Option<Quantity>, inits: seq<Resources>, r: string)
    requires NonNegative(inits, r)
    ensures var raised := Raised(total, inits, r);
            && (raised.Some? <==> total.Some? || exists i :: 0 <= i < |inits| && r in inits[i])
            && (total.Some? && total.value >= 0 ==>
                  OrZero(raised) == if total.value > OrZero(Raised(None, inits, r))
                  then total.value else OrZero(Raised(None, inits, r)))
            && OrZero(Raised(None, inits, r)) >= 0
  {
    if inits != [] {
      var n := |inits| - 1;
      RaisedLaw(total, inits[..n], r);
      if i :| 0 <= i < |inits| && r in inits[i] {
        if i < n {
          assert inits[..n][i] == inits[i];
        }
      }
      if i :| 0 <= i < n && r in inits[..n][i] {
        assert inits[i] == inits[..n][i];
      }
    }
  }

  lemma {:induction false} TotalLaw(cs: seq<Container>)
    requires NonNegative(Requests(cs), CPU)
    ensures var t := Total(Requests(cs), CPU);
            && (t.Some? <==> exists i :: 0 <= i < |cs| && CPU in cs[i].requests)
            && OrZero(t) >= 0 && MilliSum(cs) * MILLI >= OrZero(t)
            && (MilliSum(cs) == 0 <==> OrZero(t) == 0)
  {
    if cs != [] {
      var n := |cs| - 1;
      RequestsPrefix(cs);
      TotalLaw(cs[..n]);
      assert Requests(cs)[n] == cs[n].requests;
      if CPU in cs[n].requests {
        RoundUpLaw(cs[n].requests[CPU], MILLI);
      }
      if i :| 0 <= i < |cs| && CPU in cs[i].requests {
        if i < n {
          assert cs[..n][i] == cs[i];
        }
      }
      if i :| 0 <= i < n && CPU in cs[..n][i].requests {
        assert cs[i] == cs[..n][i];
      }
    }
  }

  /** The app containers' CPU requests alone, in milli-cores. */
  function AppMilli(pod: Pod): int {
    MilliValue(OrZero(Total(Requests(pod.containers), CPU)))
  }

  /** The largest init container CPU request, in milli-cores. */
  function InitMilli(pod: Pod): int {
    MilliValue(OrZero(Raised(None, Requests(pod.initContainers), CPU)))
  }

  function EffectiveMilli(pod: Pod): int {
    MilliValue(OrZero(EffectiveRequest(pod, CPU)))
  }

  lemma SurvivorsIn(pod: Pod, r: string)
    ensures (exists i :: 0 <= i < |Requests(pod.initContainers)| && r in Requests(pod.initContainers)[i]) <==>
            (exists i :: 0 <= i < |pod.initContainers| && r in pod.initContainers[i].requests)
  {
    if i :| 0 <= i < |pod.initContainers| && r in pod.initContainers[i].requests {
      assert r in Requests(pod.initContainers)[i];
    }
    if i :| 0 <= i < |Requests(pod.initContainers)| && r in Requests(pod.initContainers)[i] {
      assert r in pod.initContainers[i].requests;
    }
  }

  lemma MilliBefore(pod: Pod)
    requires Plain(pod, CPU, RECLAIMED_CPU) && PodRequest(pod, CPU).Some?
    ensures EffectiveMilli(pod) == if AppMilli(pod) > InitMilli(pod) then AppMilli(pod) else InitMilli(pod)
  {
    var apps, inits := Total(Requests(pod.containers), CPU), Requests(pod.initContainers);
    TotalLaw(pod.containers);
    RaisedLaw(apps, inits, CPU);
    RaisedLaw(None, inits, CPU);
    var a, i := OrZero(apps), OrZero(Raised(None, inits, CPU));
    if a <= i {
      RoundUpMonotone(a, i, MILLI);
    } else {
      RoundUpMonotone(i, a, MILLI);
    }
  }

  lemma MilliAfter(pod: Pod, encode: Encoder)
    requires Plain(pod, CPU, RECLAIMED_CPU)
    ensures EffectiveMilli(Rewrite(pod, encode)) ==
            if NativeSurvives(pod, CPU) then InitMilli(pod)
            else MilliSum(pod.containers) + OwnExtended(pod.containers, CPU, RECLAIMED_CPU)
  {
    var after := Rewrite(pod, encode);
    var inits := Requests(pod.initContainers);
    NativeAfter(pod.containers, CPU);
    RaisedLaw(Total(Requests(after.containers), CPU), inits, CPU);
    RaisedLaw(None, inits, CPU);
    SurvivorsIn(pod, CPU);
    ExtendedCPUAfter(pod.containers);
    TotalLaw(pod.containers);
    OwnExtendedLaw(pod.containers, CPU, RECLAIMED_CPU);
    if !NativeSurvives(pod, CPU) {
      assert PodRequest(after, CPU).None?;
      ValueOfUnits(MilliSum(pod.containers) + OwnExtended(pod.containers, CPU, RECLAIMED_CPU));
    }
  }

  /** A pod that asks for no CPU natively is read back as it was. */
  lemma NothingNative(pod: Pod)
    requires Plain(pod, CPU, RECLAIMED_CPU) && !NativeSurvives(pod, CPU) && Unset(pod.containers, CPU)
    ensures EffectiveMilli(pod) == MilliSum(pod.containers) + OwnExtended(pod.containers, CPU, RECLAIMED_CPU)
  {
    TotalLaw(pod.containers);
    SurvivorsIn(pod, CPU);
    NothingRaised(Total(Requests(pod.containers), CPU), Requests(pod.initContainers), CPU);
    OwnExtendedLaw(pod.containers, CPU, RECLAIMED_CPU);
    ValueOfUnits(ExtendedTotal(pod.containers, RECLAIMED_CPU));
  }

  /** What app containers alone ask for is given back when the round-ups of their requests to
      whole milli-cores, and what others ask of the extended resource, add less than one. */
  lemma AppsReadBack(pod: Pod)
    requires Plain(pod, CPU, RECLAIMED_CPU) && !NativeSurvives(pod, CPU) && !Unset(pod.containers, CPU)
    ensures var (sum, own) := (MilliSum(pod.containers), OwnExtended(pod.containers, CPU, RECLAIMED_CPU));
            EffectiveMilli(pod) == sum + own <==>
            own == 0 && sum * MILLI - OrZero(Total(Requests(pod.containers), CPU)) < MILLI
  {
    TotalLaw(pod.containers);
    SurvivorsIn(pod, CPU);
    NothingRaised(Total(Requests(pod.containers), CPU), Requests(pod.initContainers), CPU);
    OwnExtendedLaw(pod.containers, CPU, RECLAIMED_CPU);
    var (total, sum) := (OrZero(Total(Requests(pod.containers), CPU)), MilliSum(pod.containers));
    RoundUpLaw(total, MILLI);
    if sum * MILLI - total < MILLI {
      RoundUpIs(total, MILLI, sum);
    }
  }

  /** Reading back the CPU of a rewritten pod gives the original milli-cores exactly when
      - a native entry survived and the init containers alone already account for the total, or
      - none survived, the containers' separate round-ups to whole milli-cores add less than one
        milli-core in all, and no container that asks for no CPU asks for extended CPU, or
      - no container asks for CPU at all. */
  lemma ReadBackCPU(pod: Pod, encode: Encoder)
    requires Plain(pod, CPU, RECLAIMED_CPU)
    ensures EffectiveMilli(Rewrite(pod, encode)) == EffectiveMilli(pod) <==>
            if NativeSurvives(pod, CPU) then AppMilli(pod) <= InitMilli(pod)
            else
              || Unset(pod.containers, CPU)
              || (&& OwnExtended(pod.containers, CPU, RECLAIMED_CPU) == 0
                  && MilliSum(pod.containers) * MILLI - OrZero(Total(Requests(pod.containers), CPU)) < MILLI)
  {
    MilliAfter(pod, encode);
    if NativeSurvives(pod, CPU) {
      SurvivingAsks(pod, CPU);
      MilliBefore(pod);
    } else if Unset(pod.containers, CPU) {
      NothingNative(pod);
    } else {
      AppsReadBack(pod);
    }
  }

  /** A pod with an entry that survives asks for the resource. */
  lemma SurvivingAsks(pod: Pod, r: string)
    requires NativeSurvives(pod, r) && NonNegative(Requests(pod.initContainers), r)
    ensures PodRequest(pod, r).Some?
  {
    RaisedLaw(Total(Requests(pod.containers), r), Requests(pod.initContainers), r);
    SurvivorsIn(pod, r);
    if i :| 0 <= i < |pod.containers| && AsksZero(pod.containers[i], r) {
      TotalMentions(pod.containers, r, i);
    }
  }

  lemma {:induction false} TotalMentions(cs: seq<Container>, r: string, i: nat)
    requires i < |cs| && r in cs[i].requests
    ensures Total(Requests(cs), r).Some?
  {
    var n := |cs| - 1;
    RequestsPrefix(cs);
    assert Requests(cs)[n] == cs[n].requests;
    if i < n {
      TotalMentions(cs[..n], r, i);
    }
  }

  /** Whole milli-cores, as Kubernetes allows them, are read back exactly unless a container that
      asks for none of them asks for extended CPU beside one that does. */
  lemma ReadBackWholeMillis(pod: Pod, encode: Encoder)
    requires Plain(pod, CPU, RECLAIMED_CPU)
    requires !NativeSurvives(pod, CPU)
    requires forall i :: 0 <= i < |pod.containers| && CPU in pod.containers[i].requests ==>
             pod.containers[i].requests[CPU] % MILLI == 0
    ensures EffectiveMilli(Rewrite(pod, encode)) == EffectiveMilli(pod) <==>
            Unset(pod.containers, CPU) || OwnExtended(pod.containers, CPU, RECLAIMED_CPU) == 0
  {
    WholeMillisSum(pod.containers);
    ReadBackCPU(pod, encode);
  }

  lemma {:induction false} WholeMillisSum(cs: seq<Container>)
    requires NonNegative(Requests(cs), CPU)
    requires forall i :: 0 <= i < |cs| && CPU in cs[i].requests ==> cs[i].requests[CPU] % MILLI == 0
    ensures MilliSum(cs) * MILLI == OrZero(Total(Requests(cs), CPU))
  {
    if cs != [] {
      var n := |cs| - 1;
      RequestsPrefix(cs);
      WholeMillisSum(cs[..n]);
      assert Requests(cs)[n] == cs[n].requests;
      if CPU in cs[n].requests {
        var q := cs[n].requests[CPU];
        RoundUpIs(q, MILLI, q / MILLI);
      }
    }
  }

  /** The read-back is not always exact: an init container asking for 1m hides the 500m its
      app container asked for. */
  lemma ReadBackCanLose(encode: Encoder)
    ensures var app := Container("app", map[CPU := 500 * MILLI], map[]);
            var init := Container("init", map[CPU := 1 * MILLI], map[]);
            var pod := Pod("ns", "pod", "uid", map[], "", None, "", "", false, [app], [init]);
            EffectiveMilli(pod) == 500 && EffectiveMilli(Rewrite(pod, encode)) == 1
  {
    var app := Container("app", map[CPU := 500 * MILLI], map[]);
    var init := Container("init", map[CPU := 1 * MILLI], map[]);
    var pod := Pod("ns", "pod", "uid", map[], "", None, "", "", false, [app], [init]);
    MilliBefore(pod);
    MilliAfter(pod, encode);
    assert Requests([app])[..0] == [] && Requests([init])[..0] == [];
    assert Requests([app])[0] == app.requests && Requests([init])[0] == init.requests;
    assert Total(Requests([app])[..0], CPU) == None && Raised(None, Requests([init])[..0], CPU) == None;
    assert CPU in pod.initContainers[0].requests;
    ValueOfUnits(500);
    ValueOfUnits(1);
  }

  // ----- memory -----

  /** How many containers ask for memory. */
  function MemoryAskers(cs: seq<Container>): nat {
    if cs == [] then 0 else MemoryAskers(cs[..|cs| - 1]) + if MEMORY in cs[|cs| - 1].requests then 1 else 0
  }

  lemma MebibytesLaw(q: Quantity)
    requires q > 0
    ensures Value(q) - MIB < Mebibytes(q) * MIB < Value(q) + MIB
  {
    RoundUpLaw(q, NANO);
    GoDivBounds(Value(q), MIB);
  }

  /** Each container's memory request rounded up to whole bytes, summed. */
  function ByteSum(cs: seq<Container>): int {
    if cs == [] then 0
    else
      var c := cs[|cs| - 1];
      ByteSum(cs[..|cs| - 1]) + if MEMORY in c.requests then Value(c.requests[MEMORY]) else 0
  }

  ghost predicate NoZeroMemory(cs: seq<Container>) {
    forall i :: 0 <= i < |cs| && MEMORY in cs[i].requests ==> cs[i].requests[MEMORY] != 0
  }

  lemma {:induction false} BytesOfTotal(cs: seq<Container>)
    requires NonNegative(Requests(cs), MEMORY) && NoZeroMemory(cs)
    ensures var (t, n) := (Total(Requests(cs), MEMORY), MemoryAskers(cs));
            && (t.Some? <==> n > 0)
            && ByteSum(cs) * NANO - n * (NANO - 1) <= OrZero(t) <= ByteSum(cs) * NANO
  {
    if cs != [] {
      var k := |cs| - 1;
      RequestsPrefix(cs);
      BytesOfTotal(cs[..k]);
      assert Requests(cs)[k] == cs[k].requests;
      if MEMORY in cs[k].requests {
        RoundUpLaw(cs[k].requests[MEMORY], NANO);
      }
    }
  }

  lemma {:induction false} BytesOfMebibytes(cs: seq<Container>)
    requires NonNegative(Requests(cs), MEMORY) && NoZeroMemory(cs)
    ensures var n := MemoryAskers(cs);
            && ByteSum(cs) - n * (MIB - 1) <= MebibyteSum(cs) * MIB <= ByteSum(cs) + n * (MIB - 1)
            && MebibyteSum(cs) >= n
  {
    if cs != [] {
      var k := |cs| - 1;
      RequestsPrefix(cs);
      BytesOfMebibytes(cs[..k]);
      assert Requests(cs)[k] == cs[k].requests;
      if MEMORY in cs[k].requests {
        MebibytesLaw(cs[k].requests[MEMORY]);
      }
    }
  }

  lemma MemoryBefore(pod: Pod)
    requires Plain(pod, MEMORY, RECLAIMED_MEMORY) && !NativeSurvives(pod, MEMORY) && MemoryAskers(pod.containers) > 0
    ensures NoZeroMemory(pod.containers)
    ensures EffectiveRequest(pod, MEMORY) == Total(Requests(pod.containers), MEMORY)
  {
    var inits := Requests(pod.initContainers);
    SurvivorsIn(pod, MEMORY);
    assert NoZeroMemory(pod.containers);
    BytesOfTotal(pod.containers);
    NothingRaised(Total(Requests(pod.containers), MEMORY), inits, MEMORY);
  }

  /** What is read back of memory, in whole mebibytes, when no native entry survives. */
  function ReadMebibytes(cs: seq<Container>): int {
    MebibyteSum(cs) + OwnExtended(cs, MEMORY, RECLAIMED_MEMORY)
  }

  lemma MemoryAfter(pod: Pod, encode: Encoder)
    requires Plain(pod, MEMORY, RECLAIMED_MEMORY) && !NativeSurvives(pod, MEMORY)
    ensures ReadMebibytes(pod.containers) >= MemoryAskers(pod.containers)
    ensures EffectiveBytes(Rewrite(pod, encode)) == ReadMebibytes(pod.containers) * MIB
  {
    var after := Rewrite(pod, encode);
    SurvivorsIn(pod, MEMORY);
    NativeAfter(pod.containers, MEMORY);
    NothingRaised(Total(Requests(after.containers), MEMORY), Requests(pod.initContainers), MEMORY);
    ExtendedMemoryAfter(pod.containers);
    assert NoZeroMemory(pod.containers);
    BytesOfMebibytes(pod.containers);
    OwnExtendedLaw(pod.containers, MEMORY, RECLAIMED_MEMORY);
    ExtendedBytes(ReadMebibytes(pod.containers));
  }

  lemma ExtendedBytes(mebibytes: int)
    requires mebibytes >= 0
    ensures Value(if mebibytes > 0 then mebibytes * MIB * NANO else 0) == mebibytes * MIB
  {
    ValueOfUnits(mebibytes * MIB);
  }

  lemma {:induction false} NothingRaised(total: Option<Quantity>, inits: seq<Resources>, r: string)
    requires !exists i :: 0 <= i < |inits| && r in inits[i]
    ensures Raised(total, inits, r) == total
  {
    if inits != [] {
      NothingRaised(total, inits[..|inits| - 1], r);
    }
  }

  /** Amounts between n lost nano-units and none, and whole MiB within n of the bytes, meet. */
  lemma WithinMebibytes(t: Quantity, bytes: int, mebibytes: int, n: nat)
    requires n > 0 && t >= 0
    requires bytes * NANO - n * (NANO - 1) <= t <= bytes * NANO
    requires bytes - n * (MIB - 1) <= mebibytes * MIB <= bytes + n * (MIB - 1)
    ensures Value(t) - n * MIB < mebibytes * MIB < Value(t) + n * MIB
  {
    RoundUpLaw(t, NANO);
    assert bytes - n < Value(t) <= bytes;
  }

  /** The app containers' memory requests alone, and the largest of an init container, in bytes. */
  function AppBytes(pod: Pod): int {
    Value(OrZero(Total(Requests(pod.containers), MEMORY)))
  }

  function InitBytes(pod: Pod): int {
    Value(OrZero(Raised(None, Requests(pod.initContainers), MEMORY)))
  }

  function EffectiveBytes(pod: Pod): int {
    Value(OrZero(EffectiveRequest(pod, MEMORY)))
  }

  lemma BytesBefore(pod: Pod)
    requires Plain(pod, MEMORY, RECLAIMED_MEMORY) && PodRequest(pod, MEMORY).Some?
    ensures EffectiveBytes(pod) == if AppBytes(pod) > InitBytes(pod) then AppBytes(pod) else InitBytes(pod)
  {
    var apps, inits := Total(Requests(pod.containers), MEMORY), Requests(pod.initContainers);
    TotalNonNegative(pod.containers);
    RaisedLaw(apps, inits, MEMORY);
    RaisedLaw(None, inits, MEMORY);
    var a, i := OrZero(apps), OrZero(Raised(None, inits, MEMORY));
    if a <= i {
      RoundUpMonotone(a, i, NANO);
    } else {
      RoundUpMonotone(i, a, NANO);
    }
  }

  /** When a native entry survives, only the init containers are read back. */
  lemma SurvivingBytes(pod: Pod, encode: Encoder)
    requires Plain(pod, MEMORY, RECLAIMED_MEMORY) && NativeSurvives(pod, MEMORY)
    ensures EffectiveBytes(Rewrite(pod, encode)) == InitBytes(pod)
  {
    var inits := Requests(pod.initContainers);
    NativeAfter(pod.containers, MEMORY);
    RaisedLaw(Total(Requests(Rewrite(pod, encode).containers), MEMORY), inits, MEMORY);
    RaisedLaw(None, inits, MEMORY);
    SurvivorsIn(pod, MEMORY);
  }

  /** With none surviving, n >= 1 requests alone are read back strictly within n MiB. */
  lemma ReplacedBytes(pod: Pod)
    requires Plain(pod, MEMORY, RECLAIMED_MEMORY)
    requires !NativeSurvives(pod, MEMORY) && MemoryAskers(pod.containers) > 0
    ensures var (before, slack) := (EffectiveBytes(pod), MemoryAskers(pod.containers) * MIB);
            before == AppBytes(pod) && before - slack < MebibyteSum(pod.containers) * MIB < before + slack
  {
    MemoryBefore(pod);
    BytesOfTotal(pod.containers);
    BytesOfMebibytes(pod.containers);
    TotalNonNegative(pod.containers);
    WithinMebibytes(
      OrZero(Total(Requests(pod.containers), MEMORY)), ByteSum(pod.containers), MebibyteSum(pod.containers),
        MemoryAskers(pod.containers));
  }

  /** With n >= 1 containers asking for memory, what is read back is strictly within n MiB of
      the original exactly when
      - a native entry survived and the init containers alone come to within n MiB of what the
        app containers ask for, or
      - none survived, and containers that ask for no memory ask for no extended memory either,
        or for so little that all together comes to less than n MiB above the original. */
  lemma ReadBackMemory(pod: Pod, encode: Encoder)
    requires Plain(pod, MEMORY, RECLAIMED_MEMORY) && MemoryAskers(pod.containers) > 0
    ensures var (before, after, slack) :=
            (EffectiveBytes(pod), EffectiveBytes(Rewrite(pod, encode)), MemoryAskers(pod.containers) * MIB);
            before - slack < after < before + slack <==>
              if NativeSurvives(pod, MEMORY) then AppBytes(pod) - InitBytes(pod) < slack
              else
                || OwnExtended(pod.containers, MEMORY, RECLAIMED_MEMORY) == 0
                || ReadMebibytes(pod.containers) * MIB < AppBytes(pod) + slack
  {
    if NativeSurvives(pod, MEMORY) {
      SurvivingAsks(pod, MEMORY);
      BytesBefore(pod);
      SurvivingBytes(pod, encode);
    } else {
      MemoryAfter(pod, encode);
      ReplacedBytes(pod);
      OwnExtendedLaw(pod.containers, MEMORY, RECLAIMED_MEMORY);
      OwnMebibytes(EffectiveBytes(pod), MemoryAskers(pod.containers) * MIB, MebibyteSum(pod.containers),
                   OwnExtended(pod.containers, MEMORY, RECLAIMED_MEMORY), ReadMebibytes(pod.containers),
                   EffectiveBytes(Rewrite(pod, encode)));
    }
  }

  /** Own requests only ever add. */
  lemma OwnMebibytes(before: int, slack: int, sum: int, own: int, mebibytes: int, after: int)
    requires own >= 0 && before - slack < sum * MIB < before + slack
    requires mebibytes == sum + own && after == mebibytes * MIB
    ensures before - slack < after < before + slack <==> own == 0 || mebibytes * MIB < before + slack
  {
  }

  lemma {:induction false} MemoryAskersLaw(cs: seq<Container>)
    ensures MemoryAskers(cs) == 0 <==> Unset(cs, MEMORY)
    ensures Unset(cs, MEMORY) ==> MebibyteSum(cs) == 0 && Total(Requests(cs), MEMORY).None?
  {
    if cs != [] {
      var n := |cs| - 1;
      RequestsPrefix(cs);
      assert Requests(cs)[n] == cs[n].requests;
      MemoryAskersLaw(cs[..n]);
      assert Unset(cs, MEMORY) <==> Unset(cs[..n], MEMORY) && MEMORY !in cs[n].requests;
    }
  }

  /** With no container asking for memory, what is read back is exactly the original. */
  lemma ReadBackNoMemory(pod: Pod, encode: Encoder)
    requires Plain(pod, MEMORY, RECLAIMED_MEMORY) && MemoryAskers(pod.containers) == 0
    ensures EffectiveBytes(Rewrite(pod, encode)) == EffectiveBytes(pod)
  {
    MemoryAskersLaw(pod.containers);
    if NativeSurvives(pod, MEMORY) {
      SurvivingAsks(pod, MEMORY);
      BytesBefore(pod);
      SurvivingBytes(pod, encode);
    } else {
      MemoryAfter(pod, encode);
      OwnBytes(pod);
    }
  }

  lemma OwnBytes(pod: Pod)
    requires Plain(pod, MEMORY, RECLAIMED_MEMORY) && !NativeSurvives(pod, MEMORY) && Unset(pod.containers, MEMORY)
    requires Total(Requests(pod.containers), MEMORY).None?
    ensures EffectiveBytes(pod) == OwnExtended(pod.containers, MEMORY, RECLAIMED_MEMORY) * MIB
  {
    SurvivorsIn(pod, MEMORY);
    NothingRaised(Total(Requests(pod.containers), MEMORY), Requests(pod.initContainers), MEMORY);
    OwnExtendedLaw(pod.containers, MEMORY, RECLAIMED_MEMORY);
    ExtendedBytes(ExtendedTotal(pod.containers, RECLAIMED_MEMORY));
  }

  lemma {:induction false} TotalNonNegative(cs: seq<Container>)
    requires NonNegative(Requests(cs), MEMORY)
    ensures OrZero(Total(Requests(cs), MEMORY)) >= 0
  {
    if cs != [] {
      RequestsPrefix(cs);
      TotalNonNegative(cs[..|cs| - 1]);
      assert Requests(cs)[|cs| - 1] == cs[|cs| - 1].requests;
    }
  }

  // ----- admission -----

  datatype Settings = Settings(defaultLevel: string, rewriteReclaimed: bool)

  datatype Denial = NoCPURequest | FractionalCPU | ZeroMemoryLimit | PositivePriority | NUMAWithoutDedicated

  datatype Admission = Admitted(pod: Pod) | Denied(why: Denial)

  /** The level a pod is admitted at: its own, else what its shape says, else the default. */
  function AdmittedLevel(pod: Pod, settings: Settings): Level {
    var declared := DeclaredLevel(pod);
    if declared.Some? then declared.value
    else if LevelOf(pod) != SharedCores then LevelOf(pod)
    else
      var fallback := ParseLevel(settings.defaultLevel);
      if fallback.Some? then fallback.value else SharedCores
  }

  function DedicatedDenial(cs: seq<Container>): Option<Denial> {
    if cs == [] then None
    else if !NonZero(cs[0].requests, CPU) then Some(NoCPURequest)
    else if GoDiv(MilliValue(cs[0].requests[CPU]), 1000) * 1000 != MilliValue(cs[0].requests[CPU])
      then Some(FractionalCPU)
    else DedicatedDenial(cs[1..])
  }

  function ReclaimedDenial(pod: Pod): Option<Denial> {
    if exists i :: 0 <= i < |pod.containers|
                   && MEMORY in pod.containers[i].limits && pod.containers[i].limits[MEMORY] == 0
    then Some(ZeroMemoryLimit)
    else if pod.priority.Some? && pod.priority.value > 0 then Some(PositivePriority)
    else None
  }

  function Validate(pod: Pod, level: Level): Option<Denial> {
    var dedicated := if level == DedicatedCores then DedicatedDenial(pod.containers) else None;
    if dedicated.Some? then dedicated
    else
      var reclaimed := if level == ReclaimedCores then ReclaimedDenial(pod) else None;
      if reclaimed.Some? then reclaimed
      else if NUMA_BINDING in pod.annotations && pod.annotations[NUMA_BINDING] == "true" && level != DedicatedCores
        then Some(NUMAWithoutDedicated)
      else None
  }

  function Admit(pod: Pod, settings: Settings, encode: Encoder): Admission {
    var level := AdmittedLevel(pod, settings);
    var why := Validate(pod, level);
    if why.Some? then Denied(why.value)
    else
      var annotated := pod.(annotations := pod.annotations[QOS_LEVEL := LevelName(level)]);
      Admitted(if level == ReclaimedCores && settings.rewriteReclaimed then Rewrite(annotated, encode) else annotated)
  }

  lemma NamesParse(level: Level)
    ensures ParseLevel(LevelName(level)) == Some(level)
  {
  }

  lemma RewriteStaysValid(pod: Pod, encode: Encoder)
    requires Validate(pod, ReclaimedCores).None?
    ensures Validate(Rewrite(pod, encode), ReclaimedCores).None?
    ensures DeclaredLevel(Rewrite(pod, encode)) == DeclaredLevel(pod)
  {
    forall i | 0 <= i < |pod.containers|
      ensures var l := RewriteContainer(pod.containers[i]).limits; !(MEMORY in l && l[MEMORY] == 0)
    {
      var c := pod.containers[i];
      assert !(MEMORY in c.limits && c.limits[MEMORY] == 0);
    }
  }

  lemma LevelStays(pod: Pod, settings: Settings)
    requires DeclaredLevel(pod).Some?
    ensures AdmittedLevel(pod, settings) == DeclaredLevel(pod).value == LevelOf(pod)
  {
  }

  /** Annotating a pod with the level it was checked at does not change the check. */
  lemma AnnotateStaysValid(pod: Pod, level: Level)
    ensures var annotated := pod.(annotations := pod.annotations[QOS_LEVEL := LevelName(level)]);
            Validate(annotated, level) == Validate(pod, level) && DeclaredLevel(annotated) == Some(level)
  {
    NamesParse(level);
  }

  /** Admission is stable: an admitted pod carries the level it was checked at, and admitting
      it again admits it unchanged, so being called twice for one pod is harmless. */
  lemma AdmitTwice(pod: Pod, settings: Settings, encode: Encoder)
    requires Admit(pod, settings, encode).Admitted?
    ensures var once := Admit(pod, settings, encode).pod;
            && LevelOf(once) == AdmittedLevel(pod, settings)
            && Admit(once, settings, encode) == Admitted(once)
  {
    var level := AdmittedLevel(pod, settings);
    var annotated := pod.(annotations := pod.annotations[QOS_LEVEL := LevelName(level)]);
    AnnotateStaysValid(pod, level);
    var once := Admit(pod, settings, encode).pod;
    if level == ReclaimedCores && settings.rewriteReclaimed {
      RewriteStaysValid(annotated, encode);
      RewriteTwice(annotated, encode);
    }
    LevelStays(once, settings);
    assert once.annotations[QOS_LEVEL := LevelName(level)] == once.annotations;
  }
}
