/** Reading and writing CPU sets in the kernel's list format, character by character. */
module CpuSetText {
  import opened CpuSets

  const MAX_INT: int := 0x7FFF_FFFF_FFFF_FFFF

  datatype ParseError = BadElement | BadRangeEnd | Descending
  /** `Endless`: the loop that adds a part's ids never ends. */
  datatype Parsed = Ok(cpus: set<int>) | Err(error: ParseError) | Endless

  // ----- strings -----

  /** `unicode.IsSpace`. */
  predicate IsSpace(c: char) {
    var k := c as int;
    || 9 <= k <= 13 || k == 32 || k == 0x85 || k == 0xA0
    || k == 0x1680 || 0x2000 <= k <= 0x200A
    || k == 0x2028 || k == 0x2029 || k == 0x202F || k == 0x205F || k == 0x3000
  }

  function TrimLeft(s: string): string {
    if s != "" && IsSpace(s[0]) then TrimLeft(s[1..]) else s
  }

  function TrimRight(s: string): string {
    if s != "" && IsSpace(s[|s| - 1]) then TrimRight(s[..|s| - 1]) else s
  }

  function TrimSpace(s: string): string {
    TrimRight(TrimLeft(s))
  }

  /** The position of the first occurrence of c, or the length. */
  function IndexOf(s: string, c: char): (i: nat)
    ensures i <= |s|
    ensures i < |s| ==> s[i] == c
    ensures forall k :: 0 <= k < i ==> s[k] != c
  {
    if s == "" || s[0] == c then 0 else 1 + IndexOf(s[1..], c)
  }

  function Split(s: string, c: char): seq<string>
    decreases |s|
  {
    var i := IndexOf(s, c);
    if i == |s| then [s] else [s[..i]] + Split(s[i + 1..], c)
  }

  // ----- numbers -----

  predicate IsDigit(c: char) {
    '0' <= c <= '9'
  }

  function Decimal(n: nat): string {
    (if n < 10 then "" else Decimal(n / 10)) + [('0' as int + n % 10) as char]
  }

  function DigitsValue(s: string): int {
    if s == "" then 0 else 10 * DigitsValue(s[..|s| - 1]) + (s[|s| - 1] as int - '0' as int)
  }

  predicate AllDigits(s: string) {
    forall i :: 0 <= i < |s| ==> IsDigit(s[i])
  }

  datatype Number = NaN | Num(value: int)

  /** `strconv.Atoi`: an optional sign, then digits, within the range of int. */
  function Atoi(s: string): Number {
    var signed := s != "" && (s[0] == '-' || s[0] == '+');
    var digits := if signed then s[1..] else s;
    if digits == "" || !AllDigits(digits) then NaN
    else
      var v := DigitsValue(digits);
      var w := if signed && s[0] == '-' then -v else v;
      if -MAX_INT - 1 <= w <= MAX_INT then Num(w) else NaN
  }

  // ----- parsing -----

  function Range(lo: int, hi: int): (r: set<int>)
    ensures forall x :: x in r <==> lo <= x <= hi
    decreases if hi < lo then 0 else hi - lo + 1
  {
    if hi < lo then {} else Range(lo, hi - 1) + {hi}
  }

  /** What one part denotes. */
  function ReadPart(raw: string): Parsed {
    var part := TrimSpace(raw);
    if part == "" then Ok({})
    else
      var dash := IndexOf(part, '-');
      var start := Atoi(TrimSpace(part[..dash]));
      if start.NaN? then Err(BadElement)
      else if dash == |part| then Ok(Range(start.value, start.value))
      else
        var end := Atoi(TrimSpace(part[dash + 1..]));
        if end.NaN? then Err(BadRangeEnd)
        else if end.value < start.value then Err(Descending)
        else Ok(Range(start.value, end.value))
  }

  /** The union of what the parts denote, or the first error among them. */
  function ReadParts(parts: seq<string>): Parsed {
    if parts == [] then Ok({}) else Join(ReadPart(parts[0]), ReadParts(parts[1..]))
  }

  /** What a text denotes. */
  function Read(s: string): Parsed {
    var t := TrimSpace(s);
    if t == "" then Ok({}) else ReadParts(Split(t, ','))
  }

  /** What becomes of it when the ids are added one by one: the greatest of all has no successor. */
  function Added(r: Parsed): Parsed {
    if r.Ok? && MAX_INT in r.cpus then Endless else r
  }

  /** The parts in order, up to the first that fails or never ends. */
  function ParseParts(parts: seq<string>): Parsed {
    if parts == [] then Ok({}) else Join(Added(ReadPart(parts[0])), ParseParts(parts[1..]))
  }

  function Join(a: Parsed, b: Parsed): Parsed {
    if !a.Ok? then a else if !b.Ok? then b else Ok(a.cpus + b.cpus)
  }

  lemma JoinAssoc(a: Parsed, b: Parsed, c: Parsed)
    ensures Join(a, Join(b, c)) == Join(Join(a, b), c)
  {
    if a.Ok? && b.Ok? && c.Ok? {
      assert a.cpus + (b.cpus + c.cpus) == (a.cpus + b.cpus) + c.cpus;
    }
  }

  function Parse(s: string): Parsed {
    var t := TrimSpace(s);
    if t == "" then Ok({}) else ParseParts(Split(t, ','))
  }

  // ----- the loop counter -----

  /** A counter of the machine's width, which wraps around. */
  function Next(i: int): int {
    if i == MAX_INT then -MAX_INT - 1 else i + 1
  }

  function CounterAt(lo: int, n: nat): int {
    if n == 0 then lo else Next(CounterAt(lo, n - 1))
  }

  lemma {:induction false} CounterBounds(lo: int, n: nat)
    requires -MAX_INT - 1 <= lo <= MAX_INT
    ensures -MAX_INT - 1 <= CounterAt(lo, n) <= MAX_INT
    ensures lo + n <= MAX_INT ==> CounterAt(lo, n) == lo + n
  {
    if n > 0 {
      CounterBounds(lo, n - 1);
    }
  }

  /** Counting from lo on, the guard `i <= hi` ever fails exactly when hi is not the greatest. */
  lemma LoopEnds(lo: int, hi: int)
    requires -MAX_INT - 1 <= lo <= hi <= MAX_INT
    ensures (exists n: nat :: CounterAt(lo, n) > hi) <==> hi < MAX_INT
  {
    if hi < MAX_INT {
      CounterBounds(lo, hi + 1 - lo);
      assert CounterAt(lo, hi + 1 - lo) > hi;
    } else {
      forall n: nat ensures CounterAt(lo, n) <= hi {
        CounterBounds(lo, n);
      }
    }
  }

  /** The inner loop of parsing: adds lo, lo+1, ..., hi. */
  method AddRange(before: set<int>, lo: int, hi: int) returns (out: set<int>)
    requires -MAX_INT - 1 <= lo <= hi < MAX_INT
    ensures out == before + Range(lo, hi)
  {
    out := before;
    var i := lo;
    while i <= hi
      invariant lo <= i <= hi + 1
      invariant out == before + Range(lo, i - 1)
      decreases hi - i
    {
      out := out + {i};
      i := Next(i);
    }
  }

  /** One turn of the parsing loop: adds what a part denotes, or fails. A part that ends at the
      greatest id is where the program would loop for ever. */
  method AddPart(before: set<int>, raw: string) returns (r: Parsed)
    ensures r == Join(Ok(before), Added(ReadPart(raw)))
  {
    var part := TrimSpace(raw);
    if part == "" {
      return Ok(before);
    }
    var dash := IndexOf(part, '-');
    var start := Atoi(TrimSpace(part[..dash]));
    if start.NaN? {
      return Err(BadElement);
    }
    var end := start;
    if dash < |part| {
      end := Atoi(TrimSpace(part[dash + 1..]));
      if end.NaN? {
        return Err(BadRangeEnd);
      }
    }
    if end.value < start.value {
      return Err(Descending);
    }
    if end.value == MAX_INT {
      return Endless;
    }
    var out := AddRange(before, start.value, end.value);
    return Ok(out);
  }

  method ParseText(s: string) returns (r: Parsed)
    ensures r == Parse(s)
  {
    r := Ok({});
    var t := TrimSpace(s);
    if t == "" {
      return;
    }
    r := ParseList(Split(t, ','));
  }

  method ParseList(parts: seq<string>) returns (r: Parsed)
    ensures r == ParseParts(parts)
  {
    r := Ok({});
    assert parts[0..] == parts;
    for k := 0 to |parts|
      invariant r.Ok? && ParseParts(parts) == Join(r, ParseParts(parts[k..]))
    {
      assert parts[k..][0] == parts[k] && parts[k..][1..] == parts[k + 1..];
      JoinAssoc(r, Added(ReadPart(parts[k])), ParseParts(parts[k + 1..]));
      r := AddPart(r.cpus, parts[k]);
      if !r.Ok? {
        return;
      }
    }
    assert parts[|parts|..] == [];
  }

  // ----- printing -----

  datatype Item = One(id: int) | Span(lo: int, hi: int)

  function Printed(n: int): string {
    if n < 0 then "-" + Decimal(-n) else Decimal(n)
  }

  function ItemText(item: Item): string {
    match item
    case One(id) => Printed(id)
    case Span(lo, hi) => Printed(lo) + "-" + Printed(hi)
  }

  /** Comma-separated concatenation, with the empty text as unit. */
  function Comma(a: string, b: string): string {
    if a == "" then b else if b == "" then a else a + "," + b
  }

  function JoinAll(parts: seq<string>): string {
    if parts == [] then "" else Comma(parts[0], JoinAll(parts[1..]))
  }

  function Texts(items: seq<Item>): seq<string> {
    if items == [] then [] else [ItemText(items[0])] + Texts(items[1..])
  }

  lemma {:induction false} TextsAt(items: seq<Item>)
    ensures |Texts(items)| == |items|
    ensures forall i :: 0 <= i < |items| ==> Texts(items)[i] == ItemText(items[i])
  {
    if items != [] {
      TextsAt(items[1..]);
    }
  }

  function Text(items: seq<Item>): string {
    JoinAll(Texts(items))
  }

  /** The last index of the run of consecutive ids that starts at i. */
  function RunEnd(ids: seq<int>, i: nat): (j: nat)
    requires i < |ids|
    ensures i <= j < |ids|
    decreases |ids| - i
  {
    if i + 1 < |ids| && ids[i + 1] == ids[i] + 1 then RunEnd(ids, i + 1) else i
  }

  lemma {:induction false} RunEndLaw(ids: seq<int>, i: nat)
    requires i < |ids|
    ensures forall k :: i <= k <= RunEnd(ids, i) ==> ids[k] == ids[i] + (k - i)
    decreases |ids| - i
  {
    if i + 1 < |ids| && ids[i + 1] == ids[i] + 1 {
      RunEndLaw(ids, i + 1);
    }
  }

  function RunItems(lo: int, k: nat): seq<Item> {
    if k == 1 then [One(lo)] else if k == 2 then [One(lo), One(lo + 1)] else [Span(lo, lo + k - 1)]
  }

  /** The run that starts at index i. */
  function RunAt(ids: seq<int>, i: nat): seq<Item>
    requires i < |ids|
  {
    RunItems(ids[i], RunEnd(ids, i) - i + 1)
  }

  function NextRun(ids: seq<int>, i: nat): (j: nat)
    requires i < |ids|
    ensures i < j <= |ids|
  {
    RunEnd(ids, i) + 1
  }

  /** The runs from index i on: pairs are listed, longer runs become ranges. */
  function Items(ids: seq<int>, i: nat): seq<Item>
    requires i <= |ids|
    decreases |ids| - i
  {
    if i == |ids| then [] else RunAt(ids, i) + Items(ids, NextRun(ids, i))
  }

  function Render(s: set<int>): string {
    Text(Items(List(s), 0))
  }

  lemma CommaAssoc(a: string, b: string, c: string)
    ensures Comma(a, Comma(b, c)) == Comma(Comma(a, b), c)
  {
    if a != "" && b != "" && c != "" {
      assert a + "," + (b + "," + c) == (a + "," + b) + "," + c;
    }
  }

  lemma {:induction false} JoinAppend(a: seq<string>, b: seq<string>)
    ensures JoinAll(a + b) == Comma(JoinAll(a), JoinAll(b))
  {
    if a == [] {
      assert a + b == b;
    } else {
      JoinAppend(a[1..], b);
      assert (a + b)[1..] == a[1..] + b;
      CommaAssoc(a[0], JoinAll(a[1..]), JoinAll(b));
    }
  }

  /** The text of the runs from index i on. */
  function TextFrom(ids: seq<int>, i: nat): string
    requires i <= |ids|
    decreases |ids| - i
  {
    if i == |ids| then "" else Comma(Text(RunAt(ids, i)), TextFrom(ids, NextRun(ids, i)))
  }

  lemma {:induction false} TextFromItems(ids: seq<int>, i: nat)
    requires i <= |ids|
    ensures TextFrom(ids, i) == Text(Items(ids, i))
    decreases |ids| - i
  {
    if i < |ids| {
      TextFromItems(ids, NextRun(ids, i));
      TextAppend(RunAt(ids, i), Items(ids, NextRun(ids, i)));
    }
  }

  lemma TextsAppend(a: seq<Item>, b: seq<Item>)
    ensures Texts(a + b) == Texts(a) + Texts(b)
  {
    TextsAt(a);
    TextsAt(b);
    TextsAt(a + b);
    forall i | 0 <= i < |a + b| ensures Texts(a + b)[i] == (Texts(a) + Texts(b))[i] {
      assert (a + b)[i] == if i < |a| then a[i] else b[i - |a|];
    }
  }

  lemma TextAppend(a: seq<Item>, b: seq<Item>)
    ensures Text(a + b) == Comma(Text(a), Text(b))
  {
    TextsAppend(a, b);
    JoinAppend(Texts(a), Texts(b));
  }

  method RenderText(s: set<int>) returns (b: string)
    ensures b == Render(s)
  {
    TextFromItems(List(s), 0);
    b := RenderList(List(s));
  }

  method RenderList(ids: seq<int>) returns (b: string)
    ensures b == TextFrom(ids, 0)
  {
    if |ids| == 0 {
      return "";
    }
    b := "";
    var i := 0;
    while i < |ids|
      invariant 0 <= i <= |ids|
      invariant Comma(b, TextFrom(ids, i)) == TextFrom(ids, 0)
    {
      b, i := WriteRun(ids, b, i);
    }
  }

  /** One turn of the printing loop: writes the run at index i and moves past it. */
  method WriteRun(ids: seq<int>, b: string, i: nat) returns (longer: string, next: nat)
    requires i < |ids|
    ensures i < next <= |ids|
    ensures Comma(longer, TextFrom(ids, next)) == Comma(b, TextFrom(ids, i))
  {
    var j := LastOfRun(ids, i);
    longer := AppendRun(b, ids[i], ids[j], RunAt(ids, i));
    next := j + 1;
    OneRunWritten(ids, b, i, longer, next);
  }

  lemma OneRunWritten(ids: seq<int>, b: string, i: nat, longer: string, next: nat)
    requires i < |ids| && longer == Comma(b, Text(RunAt(ids, i))) && next == NextRun(ids, i)
    ensures Comma(longer, TextFrom(ids, next)) == Comma(b, TextFrom(ids, i))
  {
    CommaAssoc(b, Text(RunAt(ids, i)), TextFrom(ids, NextRun(ids, i)));
  }

  /** The inner loop: the end of the run that starts at index i. */
  method LastOfRun(ids: seq<int>, i: nat) returns (j: nat)
    requires i < |ids|
    ensures i <= j < |ids| && j + 1 == NextRun(ids, i) && ids[i] <= ids[j]
    ensures RunAt(ids, i) == RunItems(ids[i], ids[j] - ids[i] + 1)
  {
    j := i;
    while j + 1 < |ids| && ids[j + 1] == ids[j] + 1
      invariant i <= j < |ids|
      invariant RunEnd(ids, j) == RunEnd(ids, i)
    {
      j := j + 1;
    }
    RunEndLaw(ids, i);
  }

  /** Writes one run after what is already in the buffer. */
  method AppendRun(before: string, lo: int, hi: int, ghost run: seq<Item>) returns (b: string)
    requires lo <= hi && run == RunItems(lo, hi - lo + 1)
    ensures b == Comma(before, Text(run))
  {
    RunText(lo, hi - lo + 1);
    b := before;
    if |b| > 0 {
      b := b + ",";
    }
    if hi - lo == 0 {
      b := b + Printed(lo);
    } else if hi - lo == 1 {
      b := b + (Printed(lo) + "," + Printed(hi));
    } else {
      b := b + (Printed(lo) + "-" + Printed(hi));
    }
  }

  lemma RunText(lo: int, k: nat)
    requires k >= 1
    ensures Text(RunItems(lo, k)) != ""
    ensures k == 1 ==> Text(RunItems(lo, k)) == Printed(lo)
    ensures k == 2 ==> Text(RunItems(lo, k)) == Printed(lo) + "," + Printed(lo + 1)
    ensures k > 2 ==> Text(RunItems(lo, k)) == Printed(lo) + "-" + Printed(lo + k - 1)
  {
    JoinSmall(ItemText(RunItems(lo, k)[0]), Printed(lo + 1));
    TextsAt(RunItems(lo, k));
    if k == 2 {
      assert Texts(RunItems(lo, k)) == [Printed(lo), Printed(lo + 1)];
    } else {
      assert Texts(RunItems(lo, k)) == [ItemText(RunItems(lo, k)[0])];
    }
  }

  lemma JoinSmall(a: string, b: string)
    requires a != "" && b != ""
    ensures JoinAll([a]) == a && JoinAll([a, b]) == a + "," + b
  {
    assert JoinAll([a][1..]) == "" && JoinAll([b][1..]) == "";
    assert JoinAll([b]) == b && [a, b][1..] == [b];
  }

  // ----- reading back what was written -----

  lemma {:induction false} DecimalValue(n: nat)
    ensures Decimal(n) != "" && AllDigits(Decimal(n))
    ensures DigitsValue(Decimal(n)) == n
  {
    var last := [('0' as int + n % 10) as char];
    if n < 10 {
      assert "" + last == last && last[..0] == "";
      assert DigitsValue(last) == 10 * DigitsValue(last[..0]) + n;
    } else {
      DecimalValue(n / 10);
      var front := Decimal(n / 10);
      assert Decimal(n) == front + last;
      assert (front + last)[..|front|] == front;
    }
  }

  lemma AtoiDecimal(n: nat)
    requires n <= MAX_INT
    ensures Atoi(Decimal(n)) == Num(n)
  {
    DecimalValue(n);
  }

  ghost predicate Spaceless(s: string) {
    forall i :: 0 <= i < |s| ==> !IsSpace(s[i])
  }

  ghost predicate Lacks(s: string, c: char) {
    forall i :: 0 <= i < |s| ==> s[i] != c
  }

  lemma TrimNothing(s: string)
    requires Spaceless(s)
    ensures TrimSpace(s) == s
  {
  }

  lemma DigitsArePlain(s: string)
    requires AllDigits(s)
    ensures Spaceless(s) && Lacks(s, ',') && Lacks(s, '-')
  {
  }

  lemma {:induction false} IndexOfAbsent(s: string, c: char)
    requires Lacks(s, c)
    ensures IndexOf(s, c) == |s|
  {
    if s != "" {
      IndexOfAbsent(s[1..], c);
    }
  }

  lemma {:induction false} IndexOfAfter(a: string, c: char, b: string)
    requires Lacks(a, c)
    ensures IndexOf(a + [c] + b, c) == |a|
  {
    var s := a + [c] + b;
    if a != "" {
      IndexOfAfter(a[1..], c, b);
      assert s[1..] == a[1..] + [c] + b;
    }
  }

  ghost predicate ItemOk(item: Item) {
    match item
    case One(id) => 0 <= id <= MAX_INT
    case Span(lo, hi) => 0 <= lo <= hi <= MAX_INT
  }

  function Denotes(item: Item): set<int> {
    match item
    case One(id) => {id}
    case Span(lo, hi) => Range(lo, hi)
  }

  function DenotesAll(items: seq<Item>): set<int> {
    if items == [] then {} else Denotes(items[0]) + DenotesAll(items[1..])
  }

  lemma ItemReads(item: Item)
    requires ItemOk(item)
    ensures ItemText(item) != "" && Lacks(ItemText(item), ',') && Spaceless(ItemText(item))
    ensures ReadPart(ItemText(item)) == Ok(Denotes(item))
  {
    match item {
      case One(id) =>
        DecimalValue(id);
        DigitsArePlain(Decimal(id));
        OneReads(id, Decimal(id));
      case Span(lo, hi) =>
        DecimalValue(lo);
        DecimalValue(hi);
        DigitsArePlain(Decimal(lo));
        DigitsArePlain(Decimal(hi));
        PlainSpan(Decimal(lo), Decimal(hi));
        SpanReads(lo, hi, Decimal(lo), Decimal(hi));
    }
  }

  lemma PlainSpan(a: string, b: string)
    requires Spaceless(a) && Spaceless(b) && Lacks(a, ',') && Lacks(b, ',')
    ensures Spaceless(a + "-" + b) && Lacks(a + "-" + b, ',')
  {
  }

  lemma OneReads(id: nat, t: string)
    requires id <= MAX_INT && t == Decimal(id) && t != "" && Spaceless(t) && Lacks(t, '-')
    ensures ReadPart(t) == Ok({id})
  {
    AtoiDecimal(id);
    TrimNothing(t);
    IndexOfAbsent(t, '-');
    assert t[..|t|] == t;
    assert Range(id, id) == {id};
  }

  lemma SpanReads(lo: nat, hi: nat, a: string, b: string)
    requires lo <= hi <= MAX_INT && a == Decimal(lo) && b == Decimal(hi)
    requires Spaceless(a) && Lacks(a, '-') && Spaceless(b) && Spaceless(a + "-" + b)
    ensures ReadPart(a + "-" + b) == Ok(Range(lo, hi))
  {
    AtoiDecimal(lo);
    AtoiDecimal(hi);
    TrimNothing(a);
    TrimNothing(b);
    IndexOfAfter(a, '-', b);
    CutReads(a + "-" + b, a, b, lo, hi);
  }

  lemma CutReads(t: string, a: string, b: string, lo: nat, hi: nat)
    requires lo <= hi && t != "" && Spaceless(t)
    requires IndexOf(t, '-') == |a| < |t| && t[..|a|] == a && t[|a| + 1..] == b
    requires Atoi(TrimSpace(a)) == Num(lo) && Atoi(TrimSpace(b)) == Num(hi)
    ensures ReadPart(t) == Ok(Range(lo, hi))
  {
    TrimNothing(t);
  }

  lemma SplitHead(head: string, rest: string)
    requires Lacks(head, ',')
    ensures Split(head + "," + rest, ',') == [head] + Split(rest, ',')
  {
    IndexOfAfter(head, ',', rest);
    var t := head + "," + rest;
    assert t[..|head|] == head && t[|head| + 1..] == rest;
  }

  /** Splitting undoes joining, for parts that are not empty and hold no comma. */
  lemma {:induction false} SplitJoin(parts: seq<string>)
    requires parts != []
    requires forall i :: 0 <= i < |parts| ==> parts[i] != "" && Lacks(parts[i], ',') && Spaceless(parts[i])
    ensures Split(JoinAll(parts), ',') == parts
    ensures JoinAll(parts) != "" && Spaceless(JoinAll(parts))
  {
    assert parts == [parts[0]] + parts[1..];
    if |parts| == 1 {
      IndexOfAbsent(parts[0], ',');
    } else {
      SplitJoin(parts[1..]);
      SplitHead(parts[0], JoinAll(parts[1..]));
    }
  }

  lemma {:induction false} ReadTexts(items: seq<Item>)
    requires forall i :: 0 <= i < |items| ==> ItemOk(items[i])
    ensures ReadParts(Texts(items)) == Ok(DenotesAll(items))
  {
    if items != [] {
      ItemReads(items[0]);
      ReadTexts(items[1..]);
      assert Texts(items)[1..] == Texts(items[1..]);
    }
  }

  lemma ListDenotes(items: seq<Item>)
    requires forall i :: 0 <= i < |items| ==> ItemOk(items[i])
    ensures Read(Text(items)) == Ok(DenotesAll(items))
  {
    if items != [] {
      TextsAt(items);
      forall i | 0 <= i < |items| ensures var t := Texts(items)[i]; t != "" && Lacks(t, ',') && Spaceless(t) {
        ItemReads(items[i]);
      }
      SplitJoin(Texts(items));
      TrimNothing(Text(items));
      ReadTexts(items);
    }
  }

  lemma {:induction false} DenotesAppend(a: seq<Item>, b: seq<Item>)
    ensures DenotesAll(a + b) == DenotesAll(a) + DenotesAll(b)
  {
    if a == [] {
      assert a + b == b;
    } else {
      DenotesAppend(a[1..], b);
      assert (a + b)[1..] == a[1..] + b;
    }
  }

  lemma RunDenotes(lo: int, k: nat)
    requires k >= 1
    ensures DenotesAll(RunItems(lo, k)) == Range(lo, lo + k - 1)
  {
    var items := RunItems(lo, k);
    assert DenotesAll(items[|items|..]) == {};
    if k == 2 {
      assert items[1..] == [One(lo + 1)];
      assert items[1..][1..] == [];
    }
  }

  lemma RunElems(ids: seq<int>, i: nat)
    requires i < |ids|
    ensures var j := RunEnd(ids, i);
            && ids[j] == ids[i] + (j - i)
            && Elems(ids[i..]) == Range(ids[i], ids[j]) + Elems(ids[NextRun(ids, i)..])
  {
    var j := RunEnd(ids, i);
    var run := ids[i..j + 1];
    RunEndLaw(ids, i);
    assert ids[i..] == run + ids[j + 1..];
    ElemsAppend(run, ids[j + 1..]);
    forall x | x in Range(ids[i], ids[j]) ensures x in Elems(run) {
      assert run[x - ids[i]] == ids[i + (x - ids[i])] == x;
    }
  }

  ghost predicate AllOk(items: seq<Item>) {
    forall k :: 0 <= k < |items| ==> ItemOk(items[k])
  }

  ghost predicate Representable(ids: seq<int>) {
    forall k :: 0 <= k < |ids| ==> 0 <= ids[k] <= MAX_INT
  }

  lemma RunOk(ids: seq<int>, i: nat)
    requires i < |ids| && Representable(ids)
    ensures AllOk(RunAt(ids, i))
  {
    RunElems(ids, i);
  }

  lemma {:induction false} ItemsOk(ids: seq<int>, i: nat)
    requires i <= |ids| && Representable(ids)
    ensures AllOk(Items(ids, i))
    decreases |ids| - i
  {
    if i < |ids| {
      RunOk(ids, i);
      ItemsOk(ids, NextRun(ids, i));
    }
  }

  lemma FirstRunDenotes(ids: seq<int>, i: nat)
    requires i < |ids|
    ensures var j := RunEnd(ids, i);
            DenotesAll(Items(ids, i)) == Range(ids[i], ids[j]) + DenotesAll(Items(ids, NextRun(ids, i)))
  {
    RunAtDenotes(ids, i);
    DenotesAppend(RunAt(ids, i), Items(ids, NextRun(ids, i)));
  }

  lemma RunAtDenotes(ids: seq<int>, i: nat)
    requires i < |ids|
    ensures DenotesAll(RunAt(ids, i)) == Range(ids[i], ids[RunEnd(ids, i)])
  {
    var j := RunEnd(ids, i);
    RunDenotes(ids[i], j - i + 1);
    assert ids[i] + (j - i + 1) - 1 == ids[j] by {
      RunElems(ids, i);
    }
  }

  lemma {:induction false} ItemsDenote(ids: seq<int>, i: nat)
    requires i <= |ids|
    ensures DenotesAll(Items(ids, i)) == Elems(ids[i..])
    decreases |ids| - i
  {
    if i < |ids| {
      FirstRunDenotes(ids, i);
      RunElems(ids, i);
      ItemsDenote(ids, NextRun(ids, i));
    }
  }

  /** What is printed denotes the set it was printed from. */
  lemma PrintedDenotes(s: set<int>)
    requires forall x :: x in s ==> 0 <= x <= MAX_INT
    ensures Read(Render(s)) == Ok(s)
  {
    ListLaw(s);
    var ids := List(s);
    forall i | 0 <= i < |ids| ensures 0 <= ids[i] <= MAX_INT {
      assert ids[i] in Elems(ids);
    }
    ItemsOk(ids, 0);
    ItemsDenote(ids, 0);
    assert ids[0..] == ids;
    ListDenotes(Items(ids, 0));
  }

  // ----- what parsing can produce -----

  lemma TrimKeepsOut(s: string, c: char)
    requires Lacks(s, c)
    ensures Lacks(TrimSpace(s), c)
  {
    TrimLeftKeepsOut(s, c);
    TrimRightKeepsOut(TrimLeft(s), c);
  }

  lemma {:induction false} TrimLeftKeepsOut(s: string, c: char)
    requires Lacks(s, c)
    ensures Lacks(TrimLeft(s), c)
  {
    if s != "" && IsSpace(s[0]) {
      TrimLeftKeepsOut(s[1..], c);
    }
  }

  lemma {:induction false} TrimRightKeepsOut(s: string, c: char)
    requires Lacks(s, c)
    ensures Lacks(TrimRight(s), c)
  {
    if s != "" && IsSpace(s[|s| - 1]) {
      TrimRightKeepsOut(s[..|s| - 1], c);
    }
  }

  lemma {:induction false} DigitsNonNegative(s: string)
    requires AllDigits(s)
    ensures DigitsValue(s) >= 0
  {
    if s != "" {
      DigitsNonNegative(s[..|s| - 1]);
    }
  }

  lemma AtoiUnsigned(s: string)
    requires Lacks(s, '-') && Atoi(s).Num?
    ensures 0 <= Atoi(s).value <= MAX_INT
  {
    var digits := if s != "" && s[0] == '+' then s[1..] else s;
    DigitsNonNegative(digits);
  }

  lemma ReadPartIds(raw: string)
    ensures ReadPart(raw).Ok? ==> forall x :: x in ReadPart(raw).cpus ==> 0 <= x <= MAX_INT
  {
    var part := TrimSpace(raw);
    if part != "" {
      var dash := IndexOf(part, '-');
      TrimKeepsOut(part[..dash], '-');
      if Atoi(TrimSpace(part[..dash])).Num? {
        AtoiUnsigned(TrimSpace(part[..dash]));
      }
    }
  }

  lemma {:induction false} ReadPartsIds(parts: seq<string>)
    ensures ReadParts(parts).Ok? ==> forall x :: x in ReadParts(parts).cpus ==> 0 <= x <= MAX_INT
  {
    if parts != [] {
      ReadPartIds(parts[0]);
      ReadPartsIds(parts[1..]);
    }
  }

  /** What a text denotes are ids from zero up: a leading minus never parses. */
  lemma ReadIds(s: string)
    ensures Read(s).Ok? ==> forall x :: x in Read(s).cpus ==> 0 <= x <= MAX_INT
  {
    ReadPartsIds(Split(TrimSpace(s), ','));
  }

  // ----- parsing what a text denotes -----

  lemma {:induction false} PartsParse(parts: seq<string>)
    ensures ReadParts(parts).Ok? ==> ParseParts(parts) == Added(ReadParts(parts))
    ensures ParseParts(parts).Ok? ==> ParseParts(parts) == ReadParts(parts) && MAX_INT !in ParseParts(parts).cpus
  {
    if parts != [] {
      PartsParse(parts[1..]);
    }
  }

  /** Parsing gives what a text denotes, except that it never ends on a text that denotes the
      greatest id. */
  lemma Parses(s: string)
    ensures Read(s).Ok? ==> Parse(s) == Added(Read(s))
    ensures Parse(s).Ok? ==> Parse(s) == Read(s) && MAX_INT !in Parse(s).cpus
  {
    PartsParse(Split(TrimSpace(s), ','));
  }

  /** Any comma-separated list of ids and ascending ranges, overlapping or not and in any
      order, parses as the union of what its items denote, or never if that has the greatest id. */
  lemma ListReads(items: seq<Item>)
    requires forall i :: 0 <= i < |items| ==> ItemOk(items[i])
    ensures Parse(Text(items)) == if MAX_INT in DenotesAll(items) then Endless else Ok(DenotesAll(items))
  {
    ListDenotes(items);
    Parses(Text(items));
  }

  /** What is printed parses back as the same set exactly when the greatest id is not in it; with
      that id parsing never ends. */
  lemma RoundTrip(s: set<int>)
    requires forall x :: x in s ==> 0 <= x <= MAX_INT
    ensures Parse(Render(s)) == Ok(s) <==> MAX_INT !in s
    ensures MAX_INT in s ==> Parse(Render(s)) == Endless
  {
    PrintedDenotes(s);
    Parses(Render(s));
  }

  /** Whatever text is accepted, it gives ids from zero up, and never the greatest. */
  lemma ParseIds(s: string)
    ensures Parse(s).Ok? ==> forall x :: x in Parse(s).cpus ==> 0 <= x < MAX_INT
  {
    ReadIds(s);
    Parses(s);
  }

  /** Printing after parsing is a normal form: it keeps the meaning, and normalising twice
      changes nothing more. */
  lemma NormalForm(s: string)
    requires Parse(s).Ok?
    ensures Parse(Render(Parse(s).cpus)) == Parse(s)
    ensures Render(Parse(Render(Parse(s).cpus)).cpus) == Render(Parse(s).cpus)
  {
    ParseIds(s);
    RoundTrip(Parse(s).cpus);
  }

  /** Different sets print differently. */
  lemma RenderInjective(s: set<int>, t: set<int>)
    requires forall x :: x in s ==> 0 <= x <= MAX_INT
    requires forall x :: x in t ==> 0 <= x <= MAX_INT
    requires Render(s) == Render(t)
    ensures s == t
  {
    PrintedDenotes(s);
    PrintedDenotes(t);
  }

  // ----- white space -----

  /** White space in Unicode's sense: tab to carriage return, the blank, next line, and the spaces
      and separators beyond. */
  const SPACES: set<int> :=
    {0x9, 0xA, 0xB, 0xC, 0xD, 0x20, 0x85, 0xA0, 0x1680, 0x2000, 0x2001, 0x2002, 0x2003, 0x2004, 0x2005, 0x2006,
     0x2007, 0x2008, 0x2009, 0x200A, 0x2028, 0x2029, 0x202F, 0x205F, 0x3000}

  lemma {:induction false} SpaceLaw(c: char)
    ensures IsSpace(c) <==> c as int in SPACES
  {
  }

  /** Trimming takes white space off both ends, all of it, and nothing else. */
  lemma {:induction false} TrimLaw(s: string)
    ensures var t := TrimSpace(s);
            && (exists pre, post :: s == pre + t + post && AllSpace(pre) && AllSpace(post))
            && (t != "" ==> !IsSpace(t[0]) && !IsSpace(t[|t| - 1]))
  {
    var left := TrimLeft(s);
    var pre := LeftSpace(s);
    var post := RightSpace(left);
    assert s == pre + TrimRight(left) + post;
    if TrimRight(left) != "" {
      assert TrimRight(left)[0] == left[0];
    }
  }

  ghost predicate AllSpace(s: string) {
    forall i :: 0 <= i < |s| ==> IsSpace(s[i])
  }

  lemma {:induction false} LeftSpace(s: string) returns (pre: string)
    ensures s == pre + TrimLeft(s) && AllSpace(pre)
    ensures TrimLeft(s) != "" ==> !IsSpace(TrimLeft(s)[0])
  {
    pre := "";
    if s != "" && IsSpace(s[0]) {
      var rest := LeftSpace(s[1..]);
      pre := [s[0]] + rest;
      assert s == [s[0]] + s[1..];
    }
  }

  lemma {:induction false} RightSpace(s: string) returns (post: string)
    ensures s == TrimRight(s) + post && AllSpace(post)
    ensures TrimRight(s) != "" ==> !IsSpace(TrimRight(s)[|TrimRight(s)| - 1])
  {
    post := "";
    if s != "" && IsSpace(s[|s| - 1]) {
      var (front, last) := (s[..|s| - 1], s[|s| - 1]);
      var rest := RightSpace(front);
      SpaceAfter(front, TrimRight(front), rest, last);
      assert s == front + [last];
      post := rest + [last];
    }
  }

  lemma {:induction false} SpaceAfter(front: string, kept: string, post: string, c: char)
    requires front == kept + post && AllSpace(post) && IsSpace(c)
    ensures front + [c] == kept + (post + [c]) && AllSpace(post + [c])
  {
  }
}
