/** The cluster-wide rollup of every node's profile. */
module PolicyRollup {
  import opened Numbers
  import opened Tiers
  import opened Pods
  import opened Overcommit

  const LIVENESS_WINDOW := 90 * SECOND

  /** A profile, and whether its node could be read and matches the policy's selector. */
  datatype Listed = Listed(profile: Profile, nodeMatches: bool)

  datatype Status = Status(observed: nat, ready: nat, underPressure: nat, reclaimCPU: int, reclaimMem: int,
    overcommitPercent: int)

  /** The profiles the policy covers. */
  function Selected(items: seq<Listed>, hasSelector: bool): seq<Profile> {
    if items == [] then []
    else
      var item := items[|items| - 1];
      Selected(items[..|items| - 1], hasSelector) + if hasSelector && !item.nodeMatches then [] else [item.profile]
  }

  predicate Ready(p: Profile, now: Time) {
    p.lastReport != 0 && now - p.lastReport < LIVENESS_WINDOW
  }

  function ReadyCount(ps: seq<Profile>, now: Time): nat {
    if ps == [] then 0 else ReadyCount(ps[..|ps| - 1], now) + if Ready(ps[|ps| - 1], now) then 1 else 0
  }

  /** Anything but the level "None" counts, an unset level included. */
  function PressedCount(ps: seq<Profile>): nat {
    if ps == [] then 0 else PressedCount(ps[..|ps| - 1]) + if ps[|ps| - 1].pressure != NoPressure then 1 else 0
  }

  function ReclaimCPU(ps: seq<Profile>): int {
    if ps == [] then 0 else ReclaimCPU(ps[..|ps| - 1]) + MilliOf(ps[|ps| - 1].reclaimable, CPU)
  }

  function ReclaimMem(ps: seq<Profile>): int {
    if ps == [] then 0 else ReclaimMem(ps[..|ps| - 1]) + UnitsOf(ps[|ps| - 1].reclaimable, MEMORY)
  }

  function AllocCPU(ps: seq<Profile>): int {
    if ps == [] then 0 else AllocCPU(ps[..|ps| - 1]) + MilliOf(ps[|ps| - 1].allocatable, CPU)
  }

  function OvercommitPercent(ps: seq<Profile>): int {
    if AllocCPU(ps) > 0 then GoDiv(ReclaimCPU(ps) * 100, AllocCPU(ps)) else 0
  }

  /** The running totals of the rollup loop. */
  datatype Totals = Totals(observed: nat, ready: nat, underPressure: nat, reclaimCPU: int, reclaimMem: int,
    allocCPU: int)

  ghost function TotalsOf(ps: seq<Profile>, now: Time): Totals {
    Totals(|ps|, ReadyCount(ps, now), PressedCount(ps), ReclaimCPU(ps), ReclaimMem(ps), AllocCPU(ps))
  }

  /** Recomputes the rollup over every profile in the cluster. */
  method Rollup(items: seq<Listed>, hasSelector: bool, now: Time) returns (s: Status)
    ensures var ps := Selected(items, hasSelector);
            s == Status(|ps|, ReadyCount(ps, now), PressedCount(ps), ReclaimCPU(ps), ReclaimMem(ps),
              OvercommitPercent(ps))
  {
    var t := Totals(0, 0, 0, 0, 0, 0);
    ghost var ps: seq<Profile> := [];
    for i := 0 to |items|
      invariant ps == Selected(items[..i], hasSelector)
      invariant t == TotalsOf(ps, now)
    {
      assert items[..i + 1][..i] == items[..i];
      if hasSelector && !items[i].nodeMatches {
        continue;
      }
      t := AddProfile(t, items[i].profile, now, ps);
      ps := ps + [items[i].profile];
    }
    assert items[..|items|] == items;
    var percent := 0;
    if t.allocCPU > 0 {
      percent := GoDiv(t.reclaimCPU * 100, t.allocCPU);
    }
    s := Status(t.observed, t.ready, t.underPressure, t.reclaimCPU, t.reclaimMem, percent);
  }

  /** One turn of the rollup loop. */
  method AddProfile(t: Totals, p: Profile, now: Time, ghost ps: seq<Profile>) returns (t': Totals)
    requires t == TotalsOf(ps, now)
    ensures t' == TotalsOf(ps + [p], now)
  {
    assert (ps + [p])[..|ps|] == ps;
    t' := t.(observed := t.observed + 1);
    if Ready(p, now) {
      t' := t'.(ready := t.ready + 1);
    }
    if p.pressure != NoPressure {
      t' := t'.(underPressure := t.underPressure + 1);
    }
    if CPU in p.reclaimable {
      t' := t'.(reclaimCPU := t.reclaimCPU + MilliValue(p.reclaimable[CPU]));
    }
    if MEMORY in p.reclaimable {
      t' := t'.(reclaimMem := t.reclaimMem + Value(p.reclaimable[MEMORY]));
    }
    if CPU in p.allocatable {
      t' := t'.(allocCPU := t.allocCPU + MilliValue(p.allocatable[CPU]));
    }
  }

  // ----- what the percentage means -----

  /** The node offers at most this percentage of what it can allocate. */
  predicate OffersAtMost(p: Profile, percent: int) {
    && MilliOf(p.allocatable, CPU) >= 0
    && 0 <= MilliOf(p.reclaimable, CPU)
    && MilliOf(p.reclaimable, CPU) * 100 <= MilliOf(p.allocatable, CPU) * percent
  }

  lemma {:induction false} SumsBounded(ps: seq<Profile>, percent: int)
    requires forall i :: 0 <= i < |ps| ==> OffersAtMost(ps[i], percent)
    ensures 0 <= ReclaimCPU(ps) && 0 <= AllocCPU(ps) && ReclaimCPU(ps) * 100 <= AllocCPU(ps) * percent
  {
    if ps != [] {
      var n := |ps| - 1;
      SumsBounded(ps[..n], percent);
      assert OffersAtMost(ps[n], percent);
      Distribute(AllocCPU(ps[..n]), MilliOf(ps[n].allocatable, CPU), percent);
    }
  }

  lemma Distribute(a: int, b: int, c: int)
    ensures (a + b) * c == a * c + b * c
  {
  }

  /** When no node offers more than a percentage, neither does the cluster. */
  lemma RollupBounded(ps: seq<Profile>, percent: int)
    requires percent >= 0 && forall i :: 0 <= i < |ps| ==> OffersAtMost(ps[i], percent)
    ensures 0 <= OvercommitPercent(ps) <= percent
  {
    SumsBounded(ps, percent);
    if AllocCPU(ps) > 0 {
      RatioBound(ReclaimCPU(ps) * 100, AllocCPU(ps), percent);
    }
  }

  lemma RatioBound(part: int, whole: int, percent: int)
    requires 0 <= part <= whole * percent && whole > 0
    ensures 0 <= GoDiv(part, whole) <= percent
  {
    GoDivBounds(part, whole);
    var q := GoDiv(part, whole);
    assert q >= percent + 1 ==> whole * q >= whole * (percent + 1);
  }

  /** Whatever the selector keeps, a bound on every listed node bounds the rollup. */
  lemma {:induction false} SelectedBounded(items: seq<Listed>, hasSelector: bool, percent: int)
    requires forall i :: 0 <= i < |items| ==> OffersAtMost(items[i].profile, percent)
    ensures forall i :: 0 <= i < |Selected(items, hasSelector)| ==>
            OffersAtMost(Selected(items, hasSelector)[i], percent)
  {
    if items != [] {
      SelectedBounded(items[..|items| - 1], hasSelector, percent);
    }
  }
}
