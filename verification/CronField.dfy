/** Parsing of one field of a cron expression, as the schedule preview does it, and
    the meaning of well-formed fields. */
module CronField {
  import opened Text

  // ------------------------------------------------------------------- parser

  datatype Num = NaN | Int(n: int)

  predicate IsDigit(c: char) {
    '0' <= c <= '9'
  }

  function Decimal(s: string): nat
    requires forall i :: 0 <= i < |s| ==> IsDigit(s[i])
  {
    if s == "" then 0
    else
      assert IsDigit(s[|s| - 1]);
      10 * Decimal(s[..|s| - 1]) + (s[|s| - 1] as int - '0' as int)
  }

  /** JavaScript's `Number` on strings of digits; the empty string is zero. */
  function Number(s: string): Num {
    if forall i :: 0 <= i < |s| ==> IsDigit(s[i]) then Int(Decimal(s)) else NaN
  }

  /** `Array.from({ length: hi - lo + 1 }, ...)`: no elements for a NaN or negative length. */
  function FromTo(lo: Num, hi: Num): seq<int> {
    if lo.NaN? || hi.NaN? || hi.n < lo.n then []
    else seq(hi.n - lo.n + 1, i => lo.n + i)
  }

  /** Keeps the values a whole number of steps from `start`; `% 0` and `% NaN` keep none. */
  function EveryStep(values: seq<int>, start: int, step: Num): seq<Num> {
    if values == [] then []
    else (if step.Int? && step.n != 0 && (values[0] - start) % step.n == 0 then [Int(values[0])] else [])
         + EveryStep(values[1..], start, step)
  }

  function Ints(values: seq<int>): (nums: seq<Num>)
    ensures |nums| == |values| && forall i :: 0 <= i < |values| ==> nums[i] == Int(values[i])
  {
    seq(|values|, i requires 0 <= i < |values| => Int(values[i]))
  }

  function ParsePart(part: string, min: int, max: int): seq<Num> {
    if '/' in part then
      var halves := Split(part, "/");
      var step := if |halves| > 1 then Number(halves[1]) else NaN;
      var bounds := if halves[0] == "*" then [Int(min), Int(max)] else Numbers(Split(halves[0], "-"));
      var end := if |bounds| > 1 then bounds[1] else NaN;
      EveryStep(FromTo(bounds[0], end), if bounds[0].Int? then bounds[0].n else 0, step)
    else if '-' in part then
      var bounds := Numbers(Split(part, "-"));
      Ints(FromTo(bounds[0], if |bounds| > 1 then bounds[1] else NaN))
    else [Number(part)]
  }

  function Numbers(parts: seq<string>): (nums: seq<Num>)
    ensures |nums| == |parts| && forall i :: 0 <= i < |parts| ==> nums[i] == Number(parts[i])
  {
    seq(|parts|, i requires 0 <= i < |parts| => Number(parts[i]))
  }

  function ParseParts(parts: seq<string>, min: int, max: int): seq<Num> {
    if parts == [] then [] else ParsePart(parts[0], min, max) + ParseParts(parts[1..], min, max)
  }

  function ParseField(field: string, min: int, max: int): seq<Num> {
    if field == "*" then Ints(FromTo(Int(min), Int(max)))
    else if "*/" <= field then EveryStep(FromTo(Int(min), Int(max)), min, Number(field[2..]))
    else ParseParts(Split(field, ","), min, max)
  }

  // ----------------------------------------------------------------- meaning

  datatype Part =
    | Value(n: nat)
    | Range(a: nat, b: nat)
    | SteppedRange(a: nat, b: nat, step: nat)
    | SteppedStar(step: nat)

  datatype Field = Star | List(parts: seq<Part>)

  predicate WellFormed(f: Field) {
    f.List? ==>
      f.parts != [] && forall i :: 0 <= i < |f.parts| ==> f.parts[i].SteppedRange? || f.parts[i].SteppedStar? ==> f.parts[i].step > 0
  }

  predicate PartDenotes(p: Part, v: int, min: int, max: int)
    requires p.SteppedRange? || p.SteppedStar? ==> p.step > 0
  {
    match p
    case Value(n) => v == n
    case Range(a, b) => a <= v <= b
    case SteppedRange(a, b, step) => a <= v <= b && (v - a) % step == 0
    case SteppedStar(step) => min <= v <= max && (v - min) % step == 0
  }

  predicate Denotes(f: Field, v: int, min: int, max: int)
    requires WellFormed(f)
  {
    match f
    case Star => min <= v <= max
    case List(parts) => exists i :: 0 <= i < |parts| && PartDenotes(parts[i], v, min, max)
  }

  function Digits(n: nat): string {
    (if n < 10 then "" else Digits(n / 10)) + [('0' as int + n % 10) as char]
  }

  function PrintPart(p: Part): string {
    match p
    case Value(n) => Digits(n)
    case Range(a, b) => Digits(a) + "-" + Digits(b)
    case SteppedRange(a, b, step) => Digits(a) + "-" + Digits(b) + "/" + Digits(step)
    case SteppedStar(step) => "*/" + Digits(step)
  }

  function PrintParts(parts: seq<Part>): (texts: seq<string>)
    ensures |texts| == |parts| && forall i :: 0 <= i < |parts| ==> texts[i] == PrintPart(parts[i])
  {
    seq(|parts|, i requires 0 <= i < |parts| => PrintPart(parts[i]))
  }

  function PrintField(f: Field): string {
    if f.Star? then "*" else Join(PrintParts(f.parts), ",")
  }

  // --------------------------------------------------------------- exactness

  lemma {:induction false} DigitsRoundTrip(n: nat)
    ensures Digits(n) != "" && (forall i :: 0 <= i < |Digits(n)| ==> IsDigit(Digits(n)[i]))
    ensures Number(Digits(n)) == Int(n)
  {
    var s := Digits(n);
    var last := ('0' as int + n % 10) as char;
    if n >= 10 {
      DigitsRoundTrip(n / 10);
      assert s[..|s| - 1] == Digits(n / 10);
    } else {
      assert s[..|s| - 1] == "" && Decimal("") == 0;
    }
    assert s[|s| - 1] == last && last as int - '0' as int == n % 10;
  }

  lemma {:induction false} NoDigit(n: nat, c: char)
    requires !IsDigit(c)
    ensures c !in Digits(n)
  {
    DigitsRoundTrip(n);
  }

  lemma {:induction false} InFromTo(lo: int, hi: int, v: int)
    ensures v in FromTo(Int(lo), Int(hi)) <==> lo <= v <= hi
  {
    if lo <= v <= hi {
      assert FromTo(Int(lo), Int(hi))[v - lo] == v;
    }
  }

  lemma {:induction false} InEveryStep(values: seq<int>, start: int, step: nat, v: int)
    requires step > 0
    ensures Int(v) in EveryStep(values, start, Int(step)) <==> v in values && (v - start) % step == 0
  {
    if values != [] {
      InEveryStep(values[1..], start, step, v);
      assert values == [values[0]] + values[1..];
    }
  }

  lemma {:induction false} InInts(values: seq<int>, v: int)
    ensures Int(v) in Ints(values) <==> v in values
  {
    if v in values {
      var i :| 0 <= i < |values| && values[i] == v;
      assert Ints(values)[i] == Int(v);
    }
  }

  lemma {:induction false} BoundsOf(a: nat, b: nat)
    ensures Numbers(Split(Digits(a) + "-" + Digits(b), "-")) == [Int(a), Int(b)]
  {
    NoDigit(a, '-');
    NoDigit(b, '-');
    SplitFirst(Digits(a), Digits(b), "-");
    SplitNone(Digits(b), "-");
    DigitsRoundTrip(a);
    DigitsRoundTrip(b);
  }

  lemma {:induction false} HalvesOf(range: string, step: nat)
    requires '/' !in range
    ensures Split(range + "/" + Digits(step), "/") == [range, Digits(step)]
  {
    NoDigit(step, '/');
    SplitFirst(range, Digits(step), "/");
    SplitNone(Digits(step), "/");
  }

  lemma {:induction false} RangeIsExact(a: nat, b: nat, v: int, min: int, max: int)
    ensures Int(v) in ParsePart(PrintPart(Range(a, b)), min, max) <==> a <= v <= b
  {
    NoDigit(a, '/');
    NoDigit(b, '/');
    var text := Digits(a) + "-" + Digits(b);
    assert text[|Digits(a)|] == '-' && '/' !in text;
    BoundsOf(a, b);
    InInts(FromTo(Int(a), Int(b)), v);
    InFromTo(a, b, v);
  }

  lemma {:induction false} SteppedRangeIsExact(a: nat, b: nat, step: nat, v: int, min: int, max: int)
    requires step > 0
    ensures Int(v) in ParsePart(PrintPart(SteppedRange(a, b, step)), min, max) <==>
            a <= v <= b && (v - a) % step == 0
  {
    NoDigit(a, '/');
    NoDigit(b, '/');
    var range := Digits(a) + "-" + Digits(b);
    var text := range + "/" + Digits(step);
    assert range[|Digits(a)|] == '-' && text[|range|] == '/';
    HalvesOf(range, step);
    BoundsOf(a, b);
    DigitsRoundTrip(step);
    InEveryStep(FromTo(Int(a), Int(b)), a, step, v);
    InFromTo(a, b, v);
  }

  lemma {:induction false} SteppedStarIsExact(step: nat, v: int, min: int, max: int)
    requires step > 0
    ensures Int(v) in ParsePart(PrintPart(SteppedStar(step)), min, max) <==>
            min <= v <= max && (v - min) % step == 0
  {
    var text := "*/" + Digits(step);
    assert text[1] == '/' && text == "*" + "/" + Digits(step);
    HalvesOf("*", step);
    DigitsRoundTrip(step);
    InEveryStep(FromTo(Int(min), Int(max)), min, step, v);
    InFromTo(min, max, v);
  }

  /** Parsing one printed part gives exactly the values it denotes. */
  lemma {:induction false} PartIsExact(p: Part, v: int, min: int, max: int)
    requires p.SteppedRange? || p.SteppedStar? ==> p.step > 0
    ensures Int(v) in ParsePart(PrintPart(p), min, max) <==> PartDenotes(p, v, min, max)
  {
    match p
    case Value(n) =>
      NoDigit(n, '/');
      NoDigit(n, '-');
      DigitsRoundTrip(n);
    case Range(a, b) => RangeIsExact(a, b, v, min, max);
    case SteppedRange(a, b, step) => SteppedRangeIsExact(a, b, step, v, min, max);
    case SteppedStar(step) => SteppedStarIsExact(step, v, min, max);
  }

  lemma {:induction false} PartsAreExact(parts: seq<Part>, v: int, min: int, max: int)
    requires forall i :: 0 <= i < |parts| ==> parts[i].SteppedRange? || parts[i].SteppedStar? ==> parts[i].step > 0
    ensures Int(v) in ParseParts(PrintParts(parts), min, max) <==>
            exists i :: 0 <= i < |parts| && PartDenotes(parts[i], v, min, max)
  {
    if parts != [] {
      PartIsExact(parts[0], v, min, max);
      PartsAreExact(parts[1..], v, min, max);
      assert PrintParts(parts)[1..] == PrintParts(parts[1..]);
      assert forall i :: 0 <= i < |parts| - 1 ==> parts[1..][i] == parts[i + 1];
    }
  }

  lemma {:induction false} NoComma(p: Part)
    ensures ',' !in PrintPart(p) && PrintPart(p) != ""
  {
    match p
    case Value(n) => NoDigit(n, ','); DigitsRoundTrip(n);
    case Range(a, b) => NoDigit(a, ','); NoDigit(b, ',');
    case SteppedRange(a, b, step) => NoDigit(a, ','); NoDigit(b, ','); NoDigit(step, ',');
    case SteppedStar(step) => NoDigit(step, ',');
  }

  /** The lists that the special case for a leading stepped star misreads. */
  predicate Misread(f: Field) {
    f.List? && |f.parts| > 1 && f.parts[0].SteppedStar?
  }

  lemma {:induction false} JoinHead(texts: seq<string>, sep: string)
    requires texts != [] && texts[0] != ""
    ensures Join(texts, sep) != "" && Join(texts, sep)[0] == texts[0][0]
    ensures |texts| > 1 ==> Join(texts, sep) == texts[0] + (sep + Join(texts[1..], sep))
  {
  }

  lemma {:induction false} FieldIsExact(f: Field, v: int, min: int, max: int)
    requires WellFormed(f) && !Misread(f)
    ensures Int(v) in ParseField(PrintField(f), min, max) <==> Denotes(f, v, min, max)
  {
    match f
    case Star =>
      InInts(FromTo(Int(min), Int(max)), v);
      InFromTo(min, max, v);
    case List(parts) =>
      var texts := PrintParts(parts);
      if parts[0].SteppedStar? {
        var step := parts[0].step;
        assert PrintField(f) == texts[0] == "*/" + Digits(step);
        assert PrintField(f)[2..] == Digits(step);
        DigitsRoundTrip(step);
        InEveryStep(FromTo(Int(min), Int(max)), min, step, v);
        InFromTo(min, max, v);
      } else {
        forall i | 0 <= i < |texts| ensures ',' !in texts[i] && texts[i] != "" { NoComma(parts[i]); }
        JoinHead(texts, ",");
        FirstIsDigit(parts[0]);
        assert PrintField(f)[0] != '*';
        SplitJoin(texts, ",");
        PartsAreExact(parts, v, min, max);
      }
  }

  lemma {:induction false} FirstIsDigit(p: Part)
    requires !p.SteppedStar?
    ensures PrintPart(p) != "" && IsDigit(PrintPart(p)[0])
  {
    match p
    case Value(n) => DigitsRoundTrip(n);
    case Range(a, b) => DigitsRoundTrip(a);
    case SteppedRange(a, b, step) => DigitsRoundTrip(a);
  }

  lemma {:induction false} MisreadIsEmpty(f: Field, min: int, max: int)
    requires WellFormed(f) && Misread(f) && min <= max
    ensures ParseField(PrintField(f), min, max) == []
    ensures Denotes(f, min, min, max)
  {
    var texts := PrintParts(f.parts);
    JoinHead(texts, ",");
    var step := f.parts[0].step;
    var text := PrintField(f);
    assert text == "*/" + (Digits(step) + ("," + Join(texts[1..], ",")));
    var rest := text[2..];
    assert rest == Digits(step) + ("," + Join(texts[1..], ","));
    assert rest[|Digits(step)|] == ',';
    assert Number(rest) == NaN;
    NothingStepsBy(FromTo(Int(min), Int(max)), min, NaN);
    assert PartDenotes(f.parts[0], min, min, max);
  }

  lemma {:induction false} NothingStepsBy(values: seq<int>, start: int, step: Num)
    requires step == NaN || step == Int(0)
    ensures EveryStep(values, start, step) == []
  {
    if values != [] {
      NothingStepsBy(values[1..], start, step);
    }
  }

  /** A part with step zero, which is not well-formed, parses to nothing. */
  lemma {:induction false} ZeroStepIsEmpty(p: Part, min: int, max: int)
    requires (p.SteppedRange? || p.SteppedStar?) && p.step == 0
    ensures ParsePart(PrintPart(p), min, max) == []
  {
    if p.SteppedRange? {
      ZeroSteppedRange(p.a, p.b, p.step, min, max);
    } else {
      ZeroSteppedStar(p.step, min, max);
    }
  }

  lemma {:induction false} ZeroSteppedRange(a: nat, b: nat, step: nat, min: int, max: int)
    requires step == 0
    ensures ParsePart(PrintPart(SteppedRange(a, b, step)), min, max) == []
  {
    NoDigit(a, '/');
    NoDigit(b, '/');
    var range := Digits(a) + "-" + Digits(b);
    var text := range + "/" + Digits(step);
    assert range[|Digits(a)|] == '-' && text[|range|] == '/';
    HalvesOf(range, step);
    BoundsOf(a, b);
    DigitsRoundTrip(step);
    NothingStepsBy(FromTo(Int(a), Int(b)), a, Int(step));
  }

  lemma {:induction false} ZeroSteppedStar(step: nat, min: int, max: int)
    requires step == 0
    ensures ParsePart(PrintPart(SteppedStar(step)), min, max) == []
  {
    var text := "*/" + Digits(step);
    assert text[1] == '/' && text == "*" + "/" + Digits(step);
    HalvesOf("*", step);
    DigitsRoundTrip(step);
    NothingStepsBy(FromTo(Int(min), Int(max)), min, Int(step));
  }

  /** Parsing a printed well-formed field gives exactly the set it denotes, unless
      the field is a list of several parts that begins with a stepped star. */
  lemma {:induction false} FieldSemantics(f: Field, min: int, max: int)
    requires WellFormed(f) && min <= max
    ensures (forall v :: Int(v) in ParseField(PrintField(f), min, max) <==> Denotes(f, v, min, max)) <==> !Misread(f)
  {
    if Misread(f) {
      MisreadIsEmpty(f, min, max);
      assert !(Int(min) in ParseField(PrintField(f), min, max) <==> Denotes(f, min, min, max));
    } else {
      forall v ensures Int(v) in ParseField(PrintField(f), min, max) <==> Denotes(f, v, min, max) {
        FieldIsExact(f, v, min, max);
      }
    }
  }
}
