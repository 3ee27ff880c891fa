/** Exactly which texts are read as CPU sets, and which are refused. */
module CpuSetGrammar {
  import opened CpuSetText

  // ----- parts -----

  /** The parts of a text, put together again with the separator between them. */
  function Rejoined(parts: seq<string>, c: char): string {
    if parts == [] then ""
    else if |parts| == 1 then parts[0]
    else parts[0] + [c] + Rejoined(parts[1..], c)
  }

  /** Splitting cuts a text at every separator, and nowhere else. */
  lemma {:induction false} SplitLaw(s: string, c: char)
    ensures Rejoined(Split(s, c), c) == s && Split(s, c) != []
    ensures forall i :: 0 <= i < |Split(s, c)| ==> Lacks(Split(s, c)[i], c)
    decreases |s|
  {
    var i := IndexOf(s, c);
    if i < |s| {
      SplitLaw(s[i + 1..], c);
      var rest := Split(s[i + 1..], c);
      assert ([s[..i]] + rest)[1..] == rest;
      assert s == s[..i] + [c] + s[i + 1..];
    }
  }

  // ----- numbers -----

  /** A decimal number within the range of int, with or without a sign. */
  ghost predicate IsNumber(s: string, n: int) {
    && -0x8000_0000_0000_0000 <= n < 0x8000_0000_0000_0000
    && (|| (Digits(s) && n == DigitsValue(s))
        || (s != "" && s[0] == '+' && Digits(s[1..]) && n == DigitsValue(s[1..]))
        || (s != "" && s[0] == '-' && Digits(s[1..]) && n == -DigitsValue(s[1..])))
  }

  ghost predicate Digits(s: string) {
    s != "" && forall i :: 0 <= i < |s| ==> '0' <= s[i] <= '9'
  }

  lemma {:induction false} AtoiLaw(s: string, n: int)
    ensures Atoi(s) == Num(n) <==> IsNumber(s, n)
  {
    if Digits(s) {
      assert '0' <= s[0] <= '9';
    }
  }

  // ----- what a part means -----

  /** A part, trimmed, is a range from one number to another that is not less. */
  ghost predicate IsSpan(part: string, lo: int, hi: int) {
    exists a, b :: IsSpanOf(part, a, b, lo, hi)
  }

  ghost predicate IsSpanOf(part: string, a: string, b: string, lo: int, hi: int) {
    part == a + "-" + b && Lacks(a, '-') && IsNumber(TrimSpace(a), lo) && IsNumber(TrimSpace(b), hi) && lo <= hi
  }

  ghost predicate IsSingle(part: string, n: int) {
    Lacks(part, '-') && IsNumber(part, n)
  }

  lemma {:induction false} NoDash(part: string)
    ensures IndexOf(part, '-') == |part| <==> Lacks(part, '-')
  {
    if Lacks(part, '-') {
      IndexOfAbsent(part, '-');
    }
  }

  lemma {:induction false} TrimTwice(s: string)
    ensures TrimSpace(TrimSpace(s)) == TrimSpace(s)
  {
    TrimLaw(s);
    var t := TrimSpace(s);
    if t != "" {
      assert TrimLeft(t) == t && TrimRight(t) == t;
    }
  }

  lemma {:induction false} SingleLaw(raw: string, n: int)
    requires IsSingle(TrimSpace(raw), n)
    ensures ReadPart(raw) == Ok({n})
  {
    var part := TrimSpace(raw);
    NoDash(part);
    TrimTwice(raw);
    assert part[..|part|] == part;
    AtoiLaw(part, n);
    assert Range(n, n) == {n};
  }

  lemma {:induction false} SpanLaw(raw: string, a: string, b: string, lo: int, hi: int)
    requires IsSpanOf(TrimSpace(raw), a, b, lo, hi)
    ensures ReadPart(raw) == Ok(Range(lo, hi))
  {
    var part := TrimSpace(raw);
    IndexOfAfter(a, '-', b);
    assert part[..|a|] == a && part[|a| + 1..] == b;
    AtoiLaw(TrimSpace(a), lo);
    AtoiLaw(TrimSpace(b), hi);
  }

  lemma {:induction false} SingleRead(raw: string) returns (n: int)
    requires ReadPart(raw).Ok? && TrimSpace(raw) != "" && Lacks(TrimSpace(raw), '-')
    ensures IsSingle(TrimSpace(raw), n)
  {
    var part := TrimSpace(raw);
    NoDash(part);
    TrimTwice(raw);
    assert part[..|part|] == part;
    n := Atoi(part).value;
    AtoiLaw(part, n);
  }

  lemma {:induction false} DashCut(part: string) returns (a: string, b: string)
    requires !Lacks(part, '-')
    ensures part == a + "-" + b && Lacks(a, '-')
  {
    NoDash(part);
    var dash := IndexOf(part, '-');
    a, b := part[..dash], part[dash + 1..];
  }

  lemma {:induction false} CutRead(raw: string, a: string, b: string)
    requires TrimSpace(raw) == a + "-" + b && Lacks(a, '-')
    ensures ReadPart(raw).Ok? ==>
              var (lo, hi) := (Atoi(TrimSpace(a)), Atoi(TrimSpace(b)));
              lo.Num? && hi.Num? && lo.value <= hi.value
  {
    var part := TrimSpace(raw);
    IndexOfAfter(a, '-', b);
    assert part[..|a|] == a && part[|a| + 1..] == b;
  }

  lemma {:induction false} SpanRead(raw: string) returns (lo: int, hi: int)
    requires ReadPart(raw).Ok? && TrimSpace(raw) != "" && !Lacks(TrimSpace(raw), '-')
    ensures IsSpan(TrimSpace(raw), lo, hi)
  {
    var a, b := DashCut(TrimSpace(raw));
    CutRead(raw, a, b);
    lo, hi := Atoi(TrimSpace(a)).value, Atoi(TrimSpace(b)).value;
    AtoiLaw(TrimSpace(a), lo);
    AtoiLaw(TrimSpace(b), hi);
    assert IsSpanOf(TrimSpace(raw), a, b, lo, hi);
  }

  /** A part that is read is blank, one number, or a range. */
  lemma {:induction false} ReadIsPart(raw: string)
    requires ReadPart(raw).Ok?
    ensures var part := TrimSpace(raw);
            part == "" || (exists n :: IsSingle(part, n)) || exists lo, hi :: IsSpan(part, lo, hi)
  {
    if TrimSpace(raw) != "" {
      if Lacks(TrimSpace(raw), '-') {
        var n := SingleRead(raw);
      } else {
        var lo, hi := SpanRead(raw);
      }
    }
  }

  /** A part is read exactly when it is blank, a number, or a range that does not descend; and it
      means no ids, that one, or all from one end to the other. */
  lemma {:induction false} PartLaw(raw: string)
    ensures var part := TrimSpace(raw);
            && (ReadPart(raw).Ok? <==>
                part == "" || (exists n :: IsSingle(part, n)) || exists lo, hi :: IsSpan(part, lo, hi))
            && (part == "" ==> ReadPart(raw) == Ok({}))
            && (forall n :: IsSingle(part, n) ==> ReadPart(raw) == Ok({n}))
            && (forall lo, hi :: IsSpan(part, lo, hi) ==> ReadPart(raw) == Ok(Range(lo, hi)))
  {
    var part := TrimSpace(raw);
    if ReadPart(raw).Ok? {
      ReadIsPart(raw);
    }
    forall n | IsSingle(part, n) ensures ReadPart(raw) == Ok({n}) {
      SingleLaw(raw, n);
    }
    forall lo, hi | IsSpan(part, lo, hi) ensures ReadPart(raw) == Ok(Range(lo, hi)) {
      var a, b :| IsSpanOf(part, a, b, lo, hi);
      SpanLaw(raw, a, b, lo, hi);
    }
  }

  // ----- what a list means -----

  /** A part that is read, and whose ids are all added in the end. */
  ghost predicate Passes(raw: string) {
    ReadPart(raw).Ok? && MAX_INT !in ReadPart(raw).cpus
  }

  /** The part is refused, and every one before it passes. */
  ghost predicate FirstRefused(parts: seq<string>, i: nat) {
    i < |parts| && ReadPart(parts[i]).Err? && forall j :: 0 <= j < i ==> Passes(parts[j])
  }

  lemma {:induction false} RefusedLater(parts: seq<string>, i: nat)
    requires parts != []
    ensures FirstRefused(parts, i + 1) <==> Passes(parts[0]) && FirstRefused(parts[1..], i)
  {
    if FirstRefused(parts, i + 1) {
      assert Passes(parts[0]);
      forall j | 0 <= j < i ensures Passes(parts[1..][j]) {
        assert Passes(parts[j + 1]);
      }
    }
    if Passes(parts[0]) && FirstRefused(parts[1..], i) {
      forall j | 0 <= j < i + 1 ensures Passes(parts[j]) {
        assert j > 0 ==> Passes(parts[1..][j - 1]);
      }
    }
  }

  lemma {:induction false} FirstPart(parts: seq<string>)
    requires parts != []
    ensures ParseParts(parts).Err? <==>
            ReadPart(parts[0]).Err? || (Passes(parts[0]) && ParseParts(parts[1..]).Err?)
  {
  }

  lemma {:induction false} RefusedAt(parts: seq<string>) returns (i: nat)
    requires ParseParts(parts).Err?
    ensures FirstRefused(parts, i)
  {
    FirstPart(parts);
    if ReadPart(parts[0]).Err? {
      i := 0;
    } else {
      var k := RefusedAt(parts[1..]);
      RefusedLater(parts, k);
      i := k + 1;
    }
  }

  lemma {:induction false} RefusedIsErr(parts: seq<string>, i: nat)
    requires FirstRefused(parts, i)
    ensures ParseParts(parts).Err?
    decreases i
  {
    FirstPart(parts);
    if i > 0 {
      RefusedLater(parts, i - 1);
      RefusedIsErr(parts[1..], i - 1);
    }
  }

  lemma {:induction false} PartsRefused(parts: seq<string>)
    ensures ParseParts(parts).Err? <==> exists i :: FirstRefused(parts, i)
  {
    if ParseParts(parts).Err? {
      var i := RefusedAt(parts);
    }
    if i :| FirstRefused(parts, i) {
      RefusedIsErr(parts, i);
    }
  }

  /** A text is refused exactly when some part of it is, and no part before that is refused or never
      ends. */
  lemma {:induction false} RefusedExactly(s: string)
    ensures var t := TrimSpace(s);
            Parse(s).Err? <==> t != "" && exists i :: FirstRefused(Split(t, ','), i)
  {
    var t := TrimSpace(s);
    PartsRefused(Split(t, ','));
    if t != "" {
      assert Parse(s) == ParseParts(Split(t, ','));
    }
  }
}
