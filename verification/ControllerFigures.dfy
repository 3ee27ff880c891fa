/** What the controllers' figures are: when a profile counts as alive, and what is summed. */
module ControllerFigures {
  import opened Numbers
  import opened Tiers
  import opened Pods
  import opened Overcommit
  import opened PolicyRollup

  const SECOND_90: Time := 90_000_000_000

  /** A profile is stale when it was never reported, or more than ninety seconds ago; and ready when
      it was reported less than that ago. So just at ninety seconds it is neither. */
  lemma {:induction false} AliveLaw(p: Profile, now: Time)
    ensures Stale(p, now) <==> p.lastReport == 0 || now - p.lastReport > SECOND_90
    ensures Ready(p, now) <==> p.lastReport != 0 && now - p.lastReport < SECOND_90
    ensures !Stale(p, now) && !Ready(p, now) <==> p.lastReport != 0 && now - p.lastReport == SECOND_90
  {
  }

  /** What a fresh profile asks for: its amounts in millicores and bytes, never less than nothing. */
  lemma {:induction false} DesiredLaw(p: Profile, now: Time)
    ensures var (cpu, bytes) := Desired(p, now);
            && cpu >= 0 && bytes >= 0
            && (Stale(p, now) ==> cpu == 0 && bytes == 0)
            && (!Stale(p, now) ==>
                  && (cpu > 0 ==> "cpu" in p.reclaimable && cpu == MilliValue(p.reclaimable["cpu"]))
                  && (bytes > 0 ==> "memory" in p.reclaimable && bytes == Value(p.reclaimable["memory"]))
                  && ("cpu" in p.reclaimable && MilliValue(p.reclaimable["cpu"]) > 0 ==> cpu > 0)
                  && ("memory" in p.reclaimable && Value(p.reclaimable["memory"]) > 0 ==> bytes > 0))
  {
  }

  // ----- the rollup -----

  lemma {:induction false} OneSelected(item: Listed, hasSelector: bool)
    ensures Selected([item], hasSelector) == if !hasSelector || item.nodeMatches then [item.profile] else []
  {
    assert [item][..0] == [];
  }

  lemma {:induction false} SelectedSnoc(items: seq<Listed>, item: Listed, hasSelector: bool)
    ensures Selected(items + [item], hasSelector) == Selected(items, hasSelector) + Selected([item], hasSelector)
  {
    assert (items + [item])[..|items|] == items;
    OneSelected(item, hasSelector);
  }

  lemma {:induction false} SelectedAppend(items: seq<Listed>, more: seq<Listed>, hasSelector: bool)
    ensures Selected(items + more, hasSelector) == Selected(items, hasSelector) + Selected(more, hasSelector)
  {
    if more == [] {
      assert items + more == items;
    } else {
      var (front, last) := (more[..|more| - 1], more[|more| - 1]);
      SelectedAppend(items, front, hasSelector);
      assert items + more == (items + front) + [last] && more == front + [last];
      SelectedSnoc(items + front, last, hasSelector);
      SelectedSnoc(front, last, hasSelector);
      InThree(Selected(items, hasSelector), Selected(front, hasSelector), Selected([last], hasSelector));
    }
  }

  lemma {:induction false} InThree<T>(a: seq<T>, b: seq<T>, c: seq<T>)
    ensures (a + b) + c == a + (b + c)
  {
  }

  /** The profiles kept by a selector: all without one, and otherwise those of matching nodes. */
  lemma {:induction false} SelectedLaw(items: seq<Listed>, more: seq<Listed>, hasSelector: bool, item: Listed)
    ensures Selected(items + more, hasSelector) == Selected(items, hasSelector) + Selected(more, hasSelector)
    ensures Selected([item], hasSelector) == if !hasSelector || item.nodeMatches then [item.profile] else []
  {
    SelectedAppend(items, more, hasSelector);
    OneSelected(item, hasSelector);
  }

  /** One profile's part in the totals. */
  ghost function PartOf(p: Profile, now: Time): Totals {
    Totals(1,
           if p.lastReport != 0 && now - p.lastReport < SECOND_90 then 1 else 0,
           if p.pressure == NoPressure then 0 else 1,
           if "cpu" in p.reclaimable then MilliValue(p.reclaimable["cpu"]) else 0,
           if "memory" in p.reclaimable then Value(p.reclaimable["memory"]) else 0,
           if "cpu" in p.allocatable then MilliValue(p.allocatable["cpu"]) else 0)
  }

  ghost function Both(a: Totals, b: Totals): Totals {
    Totals(a.observed + b.observed, a.ready + b.ready, a.underPressure + b.underPressure,
           a.reclaimCPU + b.reclaimCPU, a.reclaimMem + b.reclaimMem, a.allocCPU + b.allocCPU)
  }

  lemma {:induction false} TotalsSnoc(ps: seq<Profile>, p: Profile, now: Time)
    ensures TotalsOf(ps + [p], now) == Both(TotalsOf(ps, now), PartOf(p, now))
  {
    var all := ps + [p];
    assert all[..|all| - 1] == ps && all[|all| - 1] == p;
    AliveLaw(p, now);
    assert ReadyCount(all, now) == ReadyCount(ps, now) + if Ready(p, now) then 1 else 0;
    assert PressedCount(all) == PressedCount(ps) + if p.pressure != NoPressure then 1 else 0;
    assert ReclaimCPU(all) == ReclaimCPU(ps) + MilliOf(p.reclaimable, CPU);
    assert ReclaimMem(all) == ReclaimMem(ps) + UnitsOf(p.reclaimable, MEMORY);
    assert AllocCPU(all) == AllocCPU(ps) + MilliOf(p.allocatable, CPU);
  }

  lemma {:induction false} OneTotal(p: Profile, now: Time)
    ensures TotalsOf([p], now) == PartOf(p, now)
  {
    NoTotals(now);
    TotalsSnoc([], p, now);
    assert [] + [p] == [p];
    BothNothing(PartOf(p, now));
  }

  const NOTHING := Totals(0, 0, 0, 0, 0, 0)

  lemma {:induction false} NoTotals(now: Time)
    ensures TotalsOf([], now) == NOTHING
  {
  }

  lemma {:induction false} BothNothing(t: Totals)
    ensures Both(NOTHING, t) == t
  {
  }

  /** However a cluster is split in two, its totals are those of the parts together; and one
      profile's are what it reports. */
  lemma {:induction false} TotalsAdd(ps: seq<Profile>, qs: seq<Profile>, now: Time)
    ensures TotalsOf(ps + qs, now) == Both(TotalsOf(ps, now), TotalsOf(qs, now))
    ensures forall p :: TotalsOf([p], now) == PartOf(p, now)
  {
    forall p ensures TotalsOf([p], now) == PartOf(p, now) {
      OneTotal(p, now);
    }
    if qs == [] {
      assert ps + qs == ps;
    } else {
      var (front, last) := (qs[..|qs| - 1], qs[|qs| - 1]);
      TotalsAdd(ps, front, now);
      assert ps + qs == (ps + front) + [last] && qs == front + [last];
      TotalsSnoc(ps + front, last, now);
      TotalsSnoc(front, last, now);
      BothAssociates(TotalsOf(ps, now), TotalsOf(front, now), PartOf(last, now));
    }
  }

  lemma {:induction false} BothAssociates(a: Totals, b: Totals, c: Totals)
    ensures Both(Both(a, b), c) == Both(a, Both(b, c))
  {
  }

  /** The overcommit percentage is what is offered of all allocatable CPU, rounded down. */
  lemma {:induction false} PercentLaw(ps: seq<Profile>, now: Time)
    requires ReclaimCPU(ps) >= 0
    ensures var t := TotalsOf(ps, now);
            if t.allocCPU <= 0 then OvercommitPercent(ps) == 0
            else OvercommitPercent(ps) * t.allocCPU <= 100 * t.reclaimCPU < (OvercommitPercent(ps) + 1) * t.allocCPU
  {
    if AllocCPU(ps) > 0 {
      GoDivBounds(ReclaimCPU(ps) * 100, AllocCPU(ps));
    }
  }
}
