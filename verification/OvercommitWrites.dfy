/** How often the controller writes to a node, against how far the wanted amounts travel. */
module OvercommitWrites {
  import opened Numbers
  import opened Overcommit

  // ----- how an amount moves -----

  /** The amount last wanted, or what was advertised at the start. */
  function LastOf(start: int, wants: seq<int>): int {
    if wants == [] then start else wants[|wants| - 1]
  }

  /** The total variation of the wanted amounts, counted from what was advertised at the start. */
  function Travel(start: int, wants: seq<int>): nat {
    if wants == [] then 0
    else
      var n := |wants| - 1;
      Travel(start, wants[..n]) + Abs(wants[n] - LastOf(start, wants[..n]))
  }

  /** One if exactly one of the two amounts is zero. */
  function Crosses(a: int, b: int): nat {
    if (a == 0) != (b == 0) then 1 else 0
  }

  /** How often the wanted amount goes to zero or leaves it. */
  function Crossings(start: int, wants: seq<int>): nat {
    if wants == [] then 0
    else
      var n := |wants| - 1;
      Crossings(start, wants[..n]) + Crosses(LastOf(start, wants[..n]), wants[n])
  }

  function CPUWants(rounds: seq<Round>): seq<int> {
    if rounds == [] then []
    else
      var (n, r) := (|rounds| - 1, rounds[|rounds| - 1]);
      CPUWants(rounds[..n]) + [Desired(r.profile, r.now).0]
  }

  /** In mebibytes, as they are advertised. */
  function MemoryWants(rounds: seq<Round>): seq<int> {
    if rounds == [] then []
    else
      var (n, r) := (|rounds| - 1, rounds[|rounds| - 1]);
      MemoryWants(rounds[..n]) + [GoDiv(Desired(r.profile, r.now).1, MIB)]
  }

  // ----- writes -----

  /** How many rounds of a run write to the node. */
  function Writes(minMilli: int, minBytes: int, n: NodeStatus, rounds: seq<Round>): nat {
    if rounds == [] then 0
    else
      var (k, r) := (|rounds| - 1, rounds[|rounds| - 1]);
      var before := AfterRounds(minMilli, minBytes, n, rounds[..k]);
      Writes(minMilli, minBytes, n, rounds[..k]) + if AfterRound(minMilli, minBytes, before, r).1.Updated? then 1 else 0
  }

  /** An amount in units of its threshold. */
  function Scaled(amount: int, unit: int, threshold: int): real
    requires threshold > 0
  {
    (amount * unit) as real / threshold as real
  }

  lemma ScaledLaw(a: int, b: int, c: int, unit: int, threshold: int)
    requires threshold > 0 && unit > 0 && a <= b + c
    ensures Scaled(a, unit, threshold) <= Scaled(b, unit, threshold) + Scaled(c, unit, threshold)
    ensures a * unit >= threshold ==> Scaled(a, unit, threshold) >= 1.0
    ensures a >= 0 ==> Scaled(a, unit, threshold) >= 0.0
    ensures Scaled(0, unit, threshold) == 0.0
  {
    assert a * unit <= (b + c) * unit == b * unit + c * unit;
    Quotients((a * unit) as real, (b * unit) as real, (c * unit) as real, threshold as real);
    if a >= 0 {
      assert a * unit >= 0;
    }
  }

  lemma Quotients(a: real, b: real, c: real, t: real)
    requires t > 0.0 && a <= b + c
    ensures a / t <= b / t + c / t
    ensures a >= t ==> a / t >= 1.0
    ensures a >= 0.0 ==> a / t >= 0.0
  {
    assert (b + c) / t == b / t + c / t;
    assert ((b + c) - a) / t >= 0.0;
  }

  /** How far an advertised amount is from being written: its distance from the wanted one in
      thresholds, and one more if just one of them is zero. */
  function Pending(advertised: int, wanted: int, unit: int, threshold: int): real
    requires threshold > 0
  {
    Scaled(Abs(wanted - advertised), unit, threshold) + Crosses(advertised, wanted) as real
  }

  /** What an amount's movement can pay for. */
  function Paid(start: int, wants: seq<int>, unit: int, threshold: int): real
    requires threshold > 0
  {
    Scaled(Travel(start, wants), unit, threshold) + Crossings(start, wants) as real
  }

  /** Wanting another amount adds no more to what is pending than the movement pays for. */
  lemma PendingGrows(start: int, wants: seq<int>, w: int, advertised: int, unit: int, threshold: int)
    requires unit > 0 && threshold > 0
    ensures Pending(advertised, w, unit, threshold) - Pending(advertised, LastOf(start, wants), unit, threshold)
            <= Paid(start, wants + [w], unit, threshold) - Paid(start, wants, unit, threshold)
  {
    var last := LastOf(start, wants);
    assert (wants + [w])[..|wants|] == wants;
    ScaledLaw(Abs(w - advertised), Abs(last - advertised), Abs(w - last), unit, threshold);
    ScaledSum(Travel(start, wants), Abs(w - last), unit, threshold);
  }

  lemma ScaledSum(a: int, b: int, unit: int, threshold: int)
    requires threshold > 0
    ensures Scaled(a + b, unit, threshold) == Scaled(a, unit, threshold) + Scaled(b, unit, threshold)
  {
    assert (a + b) * unit == a * unit + b * unit;
    SumOfQuotients((a * unit) as real, (b * unit) as real, threshold as real);
  }

  lemma SumOfQuotients(a: real, b: real, t: real)
    requires t > 0.0
    ensures (a + b) / t == a / t + b / t
  {
  }

  lemma PendingLaw(advertised: int, wanted: int, unit: int, threshold: int)
    requires unit > 0 && threshold > 0
    ensures Pending(advertised, wanted, unit, threshold) >= 0.0 && Pending(wanted, wanted, unit, threshold) == 0.0
    ensures (advertised == 0) != (wanted == 0) || Abs(wanted - advertised) * unit >= threshold ==>
              Pending(advertised, wanted, unit, threshold) >= 1.0
  {
    ScaledLaw(Abs(wanted - advertised), Abs(wanted - advertised), 0, unit, threshold);
  }

  /** A round either leaves the node alone, or finds at least one whole write pending and leaves none. */
  lemma RoundSpends(minMilli: int, minBytes: int, n: NodeStatus, r: Round)
    requires minMilli > 0 && minBytes > 0
    ensures var ((n', outcome), (cpu, bytes)) :=
              (AfterRound(minMilli, minBytes, n, r), Desired(r.profile, r.now));
            var mib := GoDiv(bytes, MIB);
            if outcome.Updated? then
              && AdvertisedCPU(n') == cpu && AdvertisedMemory(n') == mib
              && Pending(AdvertisedCPU(n), cpu, 1, minMilli) + Pending(AdvertisedMemory(n), mib, MIB, minBytes) >= 1.0
            else n' == n
  {
    var (cpu, bytes) := Desired(r.profile, r.now);
    WholeValue(cpu);
    WholeValue(GoDiv(bytes, MIB));
    PendingLaw(AdvertisedCPU(n), cpu, 1, minMilli);
    PendingLaw(AdvertisedMemory(n), GoDiv(bytes, MIB), MIB, minBytes);
  }

  /** What is pending after a run, over both amounts. */
  function Debt(minMilli: int, minBytes: int, n: NodeStatus, cpu: int, mib: int): real
    requires minMilli > 0 && minBytes > 0
  {
    Pending(AdvertisedCPU(n), cpu, 1, minMilli) + Pending(AdvertisedMemory(n), mib, MIB, minBytes)
  }

  /** Writes so far and what is pending are covered by the movement of the two amounts. */
  lemma {:induction false} WritesAndDebt(minMilli: int, minBytes: int, n: NodeStatus, rounds: seq<Round>)
    requires minMilli > 0 && minBytes > 0
    ensures var (cpu, mib) := (AdvertisedCPU(n), AdvertisedMemory(n));
            Writes(minMilli, minBytes, n, rounds) as real
            + Debt(minMilli, minBytes, AfterRounds(minMilli, minBytes, n, rounds),
                   LastOf(cpu, CPUWants(rounds)), LastOf(mib, MemoryWants(rounds)))
            <= Paid(cpu, CPUWants(rounds), 1, minMilli) + Paid(mib, MemoryWants(rounds), MIB, minBytes)
  {
    var (cpu, mib) := (AdvertisedCPU(n), AdvertisedMemory(n));
    if rounds == [] {
      PendingLaw(cpu, cpu, 1, minMilli);
      PendingLaw(mib, mib, MIB, minBytes);
      ScaledLaw(0, 0, 0, 1, minMilli);
      ScaledLaw(0, 0, 0, MIB, minBytes);
    } else {
      var (k, r) := (|rounds| - 1, rounds[|rounds| - 1]);
      WritesAndDebt(minMilli, minBytes, n, rounds[..k]);
      var before := AfterRounds(minMilli, minBytes, n, rounds[..k]);
      var (wantCPU, bytes) := Desired(r.profile, r.now);
      var wantMiB := GoDiv(bytes, MIB);
      PendingGrows(cpu, CPUWants(rounds[..k]), wantCPU, AdvertisedCPU(before), 1, minMilli);
      PendingGrows(mib, MemoryWants(rounds[..k]), wantMiB, AdvertisedMemory(before), MIB, minBytes);
      RoundSpends(minMilli, minBytes, before, r);
      PendingLaw(wantCPU, wantCPU, 1, minMilli);
      PendingLaw(wantMiB, wantMiB, MIB, minBytes);
    }
  }

  /** Hysteresis over whole runs, refused patches included: a node is written no more often than
      its wanted amounts travel in thresholds, and go to zero or leave it, counted from what it
      advertised at the start. */
  lemma WritesBounded(minMilli: int, minBytes: int, n: NodeStatus, rounds: seq<Round>)
    requires minMilli > 0 && minBytes > 0
    ensures var (cpu, mib) := (CPUWants(rounds), MemoryWants(rounds));
            Writes(minMilli, minBytes, n, rounds) as real
            <= Scaled(Travel(AdvertisedCPU(n), cpu), 1, minMilli) + Crossings(AdvertisedCPU(n), cpu) as real
               + Scaled(Travel(AdvertisedMemory(n), mib), MIB, minBytes) + Crossings(AdvertisedMemory(n), mib) as real
  {
    WritesAndDebt(minMilli, minBytes, n, rounds);
    var after := AfterRounds(minMilli, minBytes, n, rounds);
    PendingLaw(AdvertisedCPU(after), LastOf(AdvertisedCPU(n), CPUWants(rounds)), 1, minMilli);
    PendingLaw(AdvertisedMemory(after), LastOf(AdvertisedMemory(n), MemoryWants(rounds)), MIB, minBytes);
  }
}
