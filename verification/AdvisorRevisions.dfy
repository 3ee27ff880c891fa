/** What the revision number of a recommendation says, over one tick and over many. */
module AdvisorRevisions {
  import opened Numbers
  import opened Tiers
  import opened AdvisorModel
  import opened AdvisorRuns
  import OrderStats

  // ----- one tick -----

  predicate WithinTwoPercent(before: int, after: int) {
    100 * Numbers.Abs(after - before) <= 2 * Numbers.Abs(before)
  }

  /** The pressure level is the same and neither offer moved by more than two percent. */
  predicate Immaterial(before: Recommendation, after: Recommendation) {
    && before.pressure.level == after.pressure.level
    && WithinTwoPercent(before.cpuMilli, after.cpuMilli) && WithinTwoPercent(before.memoryBytes, after.memoryBytes)
  }

  lemma SmallRatio(part: real, whole: real)
    requires whole > 0.0
    ensures part / whole <= 0.02 <==> part <= 0.02 * whole
  {
    var q := part / whole;
    assert part == whole * q;
    if q <= 0.02 {
      OrderStats.ScaleMonotone(whole, q, 0.02);
    } else {
      assert whole * (q - 0.02) > 0.0;
    }
  }

  lemma SmallDifference(a: int, b: int)
    ensures RelDiff(a, b) <= 0.02 <==> WithinTwoPercent(a, b)
  {
    if a != b && a != 0 {
      SmallRatio(Numbers.Abs(b - a) as real, Numbers.Abs(a) as real);
    }
  }

  /** A tick keeps the revision exactly when it is immaterial; otherwise it adds one. */
  lemma TickRevision(st: State, e: Event)
    requires e.Tick?
    ensures Step(st, e).revision == if Immaterial(st.last, Step(st, e).last) then st.revision else st.revision + 1
    ensures Step(st, e).last.revision == Step(st, e).revision
  {
    SmallDifference(st.last.cpuMilli, Step(st, e).last.cpuMilli);
    SmallDifference(st.last.memoryBytes, Step(st, e).last.memoryBytes);
  }

  // ----- a run of ticks -----

  /** Every tick of the run is immaterial against the one before it. */
  ghost predicate AllImmaterial(st: State, es: seq<Event>) {
    es == [] ||
    var n := |es| - 1;
    && AllImmaterial(st, es[..n])
    && (es[n].Tick? ==> Immaterial(Run(st, es[..n]).last, Run(st, es).last))
  }

  /** Over a run the revision never falls, and is unchanged exactly when every tick was
      immaterial against the one before it. */
  lemma {:induction false} RunRevision(st: State, es: seq<Event>)
    ensures Run(st, es).revision >= st.revision
    ensures Run(st, es).revision == st.revision <==> AllImmaterial(st, es)
  {
    if es != [] {
      var n := |es| - 1;
      RunRevision(st, es[..n]);
      if es[n].Tick? {
        TickRevision(Run(st, es[..n]), es[n]);
      } else {
        OnlyTicksDecide(Run(st, es[..n]), es[n]);
      }
    }
  }

  // ----- how far an unchanged revision lets an offer drift -----

  /** The part of a value that n changes of two percent can add up to. */
  function Compounded(n: nat): real {
    Pow(1.02, n) - 1.0
  }

  /** After n immaterial ticks the values are no further apart than n compounded changes. */
  ghost predicate Drifted(first: int, last: int, n: nat) {
    Numbers.Abs(last - first) as real <= Compounded(n) * Numbers.Abs(first) as real
  }

  lemma DriftReal(p: real, whole: real, drift: real, step: real, total: real)
    requires drift <= (p - 1.0) * whole && 100.0 * step <= 2.0 * (whole + drift) && total <= drift + step
    ensures total <= (1.02 * p - 1.0) * whole
  {
    var grown := p * whole;
    assert (p - 1.0) * whole == grown - whole;
    assert (1.02 * p - 1.0) * whole == 1.02 * grown - whole;
  }

  lemma Triangle(a: int, b: int, c: int)
    ensures Numbers.Abs(c - a) <= Numbers.Abs(b - a) + Numbers.Abs(c - b)
    ensures Numbers.Abs(b) <= Numbers.Abs(a) + Numbers.Abs(b - a)
  {
  }

  lemma DriftMore(first: int, middle: int, last: int, n: nat)
    requires Drifted(first, middle, n) && WithinTwoPercent(middle, last)
    ensures Drifted(first, last, n + 1)
  {
    Triangle(first, middle, last);
    DriftReal(Pow(1.02, n), Numbers.Abs(first) as real, Numbers.Abs(middle - first) as real,
              Numbers.Abs(last - middle) as real, Numbers.Abs(last - first) as real);
  }

  lemma DriftStays(first: int)
    ensures Drifted(first, first, 0)
  {
  }

  /** While the revision is unchanged the pressure level is too, and n ticks move an offer by no
      more than two percent compounded n times. */
  lemma UnchangedRevisionBoundsDrift(st: State, es: seq<Event>, r: Resource)
    requires Run(st, es).revision == st.revision
    ensures Run(st, es).last.pressure.level == st.last.pressure.level
    ensures Drifted(OfferOf(st.last, r), OfferOf(Run(st, es).last, r), Ticks(es))
  {
    RunRevision(st, es);
    ImmaterialDrift(st, es, r);
  }

  lemma {:induction false} ImmaterialDrift(st: State, es: seq<Event>, r: Resource)
    requires AllImmaterial(st, es)
    ensures Run(st, es).last.pressure.level == st.last.pressure.level
    ensures Drifted(OfferOf(st.last, r), OfferOf(Run(st, es).last, r), Ticks(es))
  {
    if es == [] {
      DriftStays(OfferOf(st.last, r));
    } else {
      var n := |es| - 1;
      ImmaterialDrift(st, es[..n], r);
      var (middle, after) := (Run(st, es[..n]).last, Run(st, es).last);
      if es[n].Tick? {
        DriftMore(OfferOf(st.last, r), OfferOf(middle, r), OfferOf(after, r), Ticks(es[..n]));
      } else {
        OnlyTicksDecide(Run(st, es[..n]), es[n]);
      }
    }
  }

  lemma OnlyTicksDecide(st: State, e: Event)
    requires !e.Tick?
    ensures Step(st, e).last == st.last && Step(st, e).revision == st.revision
  {
  }

  // ----- and that it does drift -----

  /** A node that was never sampled, under the default configuration. */
  predicate Idle(st: State) {
    && st.cfg == DEFAULT_CONFIG
    && st.protectedCPU.obs == [] && st.protectedMemory.obs == [] && st.nodeCPU.obs == []
    && st.nodeMemory.obs == [] && st.cpuPSI.obs == [] && st.memPSI.obs == []
    && st.last.memoryBytes == 0
  }

  lemma IdleTick(st: State, cpuAlloc: int, now: Time)
    requires Idle(st) && cpuAlloc > 400
    ensures var st' := Step(st, Tick(cpuAlloc, 0, now));
            && Idle(st') && st'.last.cpuMilli == Damp(25, st.last.cpuMilli, cpuAlloc * 50 / 100)
            && st'.last.pressure.level == NoPressure
  {
    assert ProtectedCPUAt(st, now) == 0;
    assert CPUTarget(st, cpuAlloc, now).0 == cpuAlloc * 50 / 100;
    assert PressureAt(st, cpuAlloc, 0, now).level == NoPressure;
  }

  function Settling(now: Time, n: nat): seq<Event> {
    seq(n, _ => Tick(20000, 0, now))
  }

  /** An idle node n ticks after its offer was nothing. */
  predicate Climbing(st: State, n: nat) {
    && Idle(st) && st.last.cpuMilli == DampTicks(25, 0, 10000, n)
    && (n > 0 ==> st.last.pressure.level == NoPressure)
  }

  lemma ClimbOn(st: State, now: Time, n: nat)
    requires n > 0 && Climbing(st, n - 1)
    ensures Climbing(Step(st, Tick(20000, 0, now)), n)
  {
    IdleTick(st, 20000, now);
  }

  lemma SettlingSnoc(st: State, now: Time, n: nat)
    requires n > 0
    ensures Run(st, Settling(now, n)) == Step(Run(st, Settling(now, n - 1)), Tick(20000, 0, now))
  {
    assert Settling(now, n)[..n - 1] == Settling(now, n - 1);
  }

  lemma {:induction false} SettlingRun(st: State, now: Time, n: nat)
    requires Climbing(st, 0)
    ensures Climbing(Run(st, Settling(now, n)), n)
  {
    if n > 0 {
      SettlingRun(st, now, n - 1);
      SettlingSnoc(st, now, n);
      ClimbOn(Run(st, Settling(now, n - 1)), now, n);
    }
  }

  /** The default configuration on an idle node of twenty cores, settled at ten; then its
      allocatable CPU shrinks twice, the offer drifts by three percent, and the revision stays. */
  lemma RevisionCanDrift(now: Time)
    ensures var settled := Run(New(DEFAULT_CONFIG), Settling(now, 10000));
            var drifted := Step(Step(settled, Tick(19700, 0, now)), Tick(19400, 0, now));
            drifted.revision == settled.revision && settled.last.cpuMilli == 10000 && drifted.last.cpuMilli == 9700
  {
    SettlingRun(New(DEFAULT_CONFIG), now, 10000);
    DampConverges(25, 0, 10000, 10000);
    Shrinking(Run(New(DEFAULT_CONFIG), Settling(now, 10000)), now);
  }

  lemma Shrinking(settled: State, now: Time)
    requires Idle(settled) && settled.last.cpuMilli == 10000 && settled.last.pressure.level == NoPressure
    ensures var drifted := Step(Step(settled, Tick(19700, 0, now)), Tick(19400, 0, now));
            drifted.revision == settled.revision && drifted.last.cpuMilli == 9700
  {
    var middle := Step(settled, Tick(19700, 0, now));
    IdleTick(settled, 19700, now);
    IdleTick(middle, 19400, now);
    TickRevision(settled, Tick(19700, 0, now));
    TickRevision(middle, Tick(19400, 0, now));
  }
}
