/** What admission promises a dedicated pod: the cores it asks for, not rounded up behind its back. */
module DedicatedAdmission {
  import opened Numbers
  import opened Tiers
  import opened Pods
  import opened Webhook

  /** What rounding each container's request up to whole milli-cores adds in all. */
  function Shortfall(cs: seq<Container>): int {
    if cs == [] then 0
    else
      var c := cs[|cs| - 1];
      Shortfall(cs[..|cs| - 1]) + if CPU in c.requests then MilliValue(c.requests[CPU]) * MILLI - c.requests[CPU] else 0
  }

  /** The app containers' CPU requests together, and the largest of an init container. */
  function AppCPU(pod: Pod): Quantity {
    OrZero(Total(Requests(pod.containers), CPU))
  }

  function InitCPU(pod: Pod): Quantity {
    OrZero(Raised(None, Requests(pod.initContainers), CPU))
  }

  ghost predicate NonNegativeCPU(pod: Pod) {
    NonNegative(Requests(pod.containers), CPU) && NonNegative(Requests(pod.initContainers), CPU)
  }

  // ----- what the check on app containers establishes -----

  /** Asks for some CPU, in whole cores once rounded up to milli-cores. */
  predicate AsksWholeCores(c: Container) {
    NonZero(c.requests, CPU) && GoDiv(MilliValue(c.requests[CPU]), 1000) * 1000 == MilliValue(c.requests[CPU])
  }

  lemma {:induction false} DenialChecksAll(cs: seq<Container>)
    requires DedicatedDenial(cs).None?
    ensures forall i :: 0 <= i < |cs| ==> AsksWholeCores(cs[i])
  {
    if cs != [] {
      DenialChecksAll(cs[1..]);
      forall i | 1 <= i < |cs| ensures AsksWholeCores(cs[i]) {
        assert cs[i] == cs[1..][i - 1];
      }
    }
  }

  ghost predicate WholeCoreAskers(cs: seq<Container>) {
    forall i :: 0 <= i < |cs| ==> AsksWholeCores(cs[i])
  }

  /** The requests are whole cores, as rounded, less what the rounding added. */
  lemma {:induction false} AskedLessShortfall(cs: seq<Container>)
    requires NonNegative(Requests(cs), CPU) && WholeCoreAskers(cs)
    ensures OrZero(Total(Requests(cs), CPU)) == MilliSum(cs) * MILLI - Shortfall(cs)
    ensures 0 <= Shortfall(cs) <= |cs| * (MILLI - 1)
  {
    if cs != [] {
      var n := |cs| - 1;
      RequestsPrefix(cs);
      AskedLessShortfall(cs[..n]);
      assert Requests(cs)[n] == cs[n].requests;
      RoundUpLaw(cs[n].requests[CPU], MILLI);
    }
  }

  lemma {:induction false} ShortfallZero(cs: seq<Container>)
    requires NonNegative(Requests(cs), CPU) && WholeCoreAskers(cs)
    ensures Shortfall(cs) == 0 <==> EachWhole(cs)
  {
    if cs != [] {
      var n := |cs| - 1;
      RequestsPrefix(cs);
      ShortfallZero(cs[..n]);
      AskedLessShortfall(cs[..n]);
      assert Requests(cs)[n] == cs[n].requests;
      RoundUpLaw(cs[n].requests[CPU], MILLI);
      ShortByNothing(cs[n].requests[CPU]);
      EachWholeSnoc(cs);
    }
  }

  lemma {:induction false} EachWholeSnoc(cs: seq<Container>)
    requires cs != []
    ensures EachWhole(cs) <==> EachWhole(cs[..|cs| - 1]) && AsksExactCores(cs[|cs| - 1])
  {
    var n := |cs| - 1;
    if EachWhole(cs[..n]) && AsksExactCores(cs[n]) {
      forall i | 0 <= i < |cs| ensures AsksExactCores(cs[i]) {
        assert i < n ==> cs[i] == cs[..n][i];
      }
    }
    if EachWhole(cs) {
      forall i | 0 <= i < n ensures AsksExactCores(cs[..n][i]) {
        assert AsksExactCores(cs[i]);
      }
    }
  }

  lemma {:induction false} MilliSumWhole(cs: seq<Container>)
    requires NonNegative(Requests(cs), CPU) && WholeCoreAskers(cs)
    ensures MilliSum(cs) % 1000 == 0
  {
    if cs != [] {
      var n := |cs| - 1;
      RequestsPrefix(cs);
      MilliSumWhole(cs[..n]);
      assert Requests(cs)[n] == cs[n].requests;
      ShortByNothing(cs[n].requests[CPU]);
      RemainderAdds(MilliSum(cs[..n]), MilliValue(cs[n].requests[CPU]));
    }
  }

  lemma RemainderAdds(a: int, b: int)
    requires a % 1000 == 0 && b % 1000 == 0
    ensures (a + b) % 1000 == 0
  {
  }

  lemma ShortByNothing(q: Quantity)
    requires q >= 0 && GoDiv(MilliValue(q), 1000) * 1000 == MilliValue(q)
    ensures MilliValue(q) % 1000 == 0
    ensures MilliValue(q) * MILLI == q <==> q % NANO == 0
  {
    var (milli, cores) := (MilliValue(q), GoDiv(MilliValue(q), 1000));
    assert milli == cores * 1000;
    if milli * MILLI == q {
      DivExact(cores, NANO);
    }
    if q % NANO == 0 {
      assert q == q / NANO * 1000 * MILLI;
      RoundUpIs(q, MILLI, q / NANO * 1000);
    }
  }

  // ----- how the node sizes the pod -----

  /** The node gives a request exactly when it is a whole number of cores. */
  lemma ExactCores(pod: Pod, q: Quantity)
    requires EffectiveRequest(pod, CPU) == Some(q) && q >= 0
    ensures WholeCores(pod) * NANO == q <==> q % NANO == 0
  {
    WholeCoresLaw(pod, q);
  }

  lemma NoneAsked(pod: Pod)
    requires WholeCoreAskers(pod.containers) && PodRequest(pod, CPU).None?
    requires forall i :: 0 <= i < |pod.containers| ==> CPU !in pod.containers[i].requests
    ensures WholeCores(pod) == 0
  {
  }

  lemma AskedOfPod(pod: Pod)
    requires NonNegativeCPU(pod) && WholeCoreAskers(pod.containers)
    ensures var asked := if InitCPU(pod) > AppCPU(pod) then InitCPU(pod) else AppCPU(pod);
            && OrZero(PodRequest(pod, CPU)) == asked >= 0
            && (WholeCores(pod) * NANO == asked <==> asked % NANO == 0)
  {
    var inits := Requests(pod.initContainers);
    TotalLaw(pod.containers);
    RaisedLaw(Total(Requests(pod.containers), CPU), inits, CPU);
    RaisedLaw(None, inits, CPU);
    if PodRequest(pod, CPU).Some? {
      ExactCores(pod, PodRequest(pod, CPU).value);
    } else {
      NoneAsked(pod);
    }
  }

  /** A dedicated pod that was admitted gets exactly the CPU it asks for, no more, exactly when
      - no init container asks for more than the app containers together, and what rounding to
        milli-cores added to their requests is no core or a whole number of them, or
      - one does, and asks for whole cores.
      With fewer than a thousand app containers the first means that each asks for whole cores. */
  lemma AdmittedCores(pod: Pod, settings: Settings, encode: Encoder)
    requires Admit(pod, settings, encode).Admitted? && AdmittedLevel(pod, settings) == DedicatedCores
    requires NonNegativeCPU(pod)
    ensures var once := Admit(pod, settings, encode).pod;
            WholeCores(once) * NANO == OrZero(PodRequest(once, CPU)) <==>
            if InitCPU(pod) > AppCPU(pod) then InitCPU(pod) % NANO == 0 else Shortfall(pod.containers) % NANO == 0
    ensures |pod.containers| < 1000 ==>
              (Shortfall(pod.containers) % NANO == 0 <==> EachWhole(pod.containers))
  {
    var once := Admit(pod, settings, encode).pod;
    assert once.containers == pod.containers && once.initContainers == pod.initContainers;
    DenialChecksAll(pod.containers);
    AskedOfPod(once);
    AskedRemainder(pod.containers);
  }

  predicate AsksExactCores(c: Container) {
    CPU in c.requests && c.requests[CPU] % NANO == 0
  }

  /** Each container asks for whole cores, exactly. */
  ghost predicate EachWhole(cs: seq<Container>) {
    forall i :: 0 <= i < |cs| ==> AsksExactCores(cs[i])
  }

  lemma SmallRemainder(shortfall: int, n: nat)
    requires n < 1000 && 0 <= shortfall <= n * (MILLI - 1)
    ensures shortfall % NANO == 0 <==> shortfall == 0
  {
    assert shortfall < NANO;
  }

  lemma AskedRemainder(cs: seq<Container>)
    requires NonNegative(Requests(cs), CPU) && WholeCoreAskers(cs)
    ensures OrZero(Total(Requests(cs), CPU)) % NANO == 0 <==> Shortfall(cs) % NANO == 0
    ensures |cs| < 1000 ==> (Shortfall(cs) % NANO == 0 <==> EachWhole(cs))
  {
    AskedLessShortfall(cs);
    ShortfallZero(cs);
    MilliSumWhole(cs);
    RemainderOf(OrZero(Total(Requests(cs), CPU)), MilliSum(cs), Shortfall(cs));
    if |cs| < 1000 {
      SmallRemainder(Shortfall(cs), |cs|);
    }
  }

  lemma RemainderOf(asked: int, milli: int, shortfall: int)
    requires milli % 1000 == 0 && asked == milli * MILLI - shortfall
    ensures asked % NANO == 0 <==> shortfall % NANO == 0
  {
    var cores := milli / 1000;
    assert milli * MILLI == cores * NANO;
    var (q, r) := (shortfall / NANO, shortfall % NANO);
    assert asked == (cores - q) * NANO - r;
  }

  /** A pod of one core whose init container asks for 1500m is admitted, and gets two cores. */
  lemma InitRoundsUp(settings: Settings, encode: Encoder)
    ensures var app := Container("app", map[CPU := 1 * NANO], map[]);
            var init := Container("init", map[CPU := 1500 * MILLI], map[]);
            var pod := Pod("ns", "p", "u", map[QOS_LEVEL := "dedicated_cores"], "", None, "", "", false, [app], [init]);
            var admission := Admit(pod, settings, encode);
            && admission.Admitted? && WholeCores(admission.pod) == 2
            && PodRequest(admission.pod, CPU) == Some(1500 * MILLI)
  {
    var app := Container("app", map[CPU := 1 * NANO], map[]);
    var init := Container("init", map[CPU := 1500 * MILLI], map[]);
    var pod := Pod("ns", "p", "u", map[QOS_LEVEL := "dedicated_cores"], "", None, "", "", false, [app], [init]);
    RoundUpIs(1 * NANO, MILLI, 1000);
    assert [app][1..] == [] && DedicatedDenial([app]) == DedicatedDenial([]);
    assert Requests([app])[..0] == [] && Requests([init])[..0] == [];
    assert Requests([app])[0] == app.requests && Requests([init])[0] == init.requests;
    assert Total(Requests([app])[..0], CPU) == None && Total(Requests([app]), CPU) == Some(1 * NANO);
    assert Raised(Some(1 * NANO), Requests([init])[..0], CPU) == Some(1 * NANO);
    var once := Admit(pod, settings, encode).pod;
    assert PodRequest(once, CPU) == Some(1500 * MILLI);
    WholeCoresLaw(once, 1500 * MILLI);
  }
}
