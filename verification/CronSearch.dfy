/** The schedule preview: matching a minute against a cron expression, and the
    bounded search for the next runs. Time is counted in UTC minutes; the calendar
    that gives the date of a day number is arbitrary. */
module CronSearch {
  import opened CronField
  import opened Text

  const MAX_ATTEMPTS: nat := 100000
  const MINUTES_PER_DAY: nat := 1440

  datatype DateParts = DateParts(day: int, month: int, weekday: int)

  type Date = d: DateParts | 1 <= d.day <= 31 && 1 <= d.month <= 12 && 0 <= d.weekday <= 6
    witness DateParts(1, 1, 4)

  /** From day numbers to dates. */
  type Calendar = int -> Date

  function MinuteOf(t: int): int { t % 60 }
  function HourOf(t: int): int { t / 60 % 24 }
  function DayOf(t: int): int { t / MINUTES_PER_DAY }

  /** White space as JavaScript's `trim` and `\s` see it. */
  predicate IsSpace(c: char) {
    || c in {'\t', '\n', '\U{0B}', '\U{0C}', '\r', ' ', '\U{A0}', '\U{1680}'}
    || '\U{2000}' <= c <= '\U{200A}'
    || c in {'\U{2028}', '\U{2029}', '\U{202F}', '\U{205F}', '\U{3000}', '\U{FEFF}'}
  }

  function WordLength(s: string): (n: nat)
    ensures n <= |s|
  {
    if s == "" || IsSpace(s[0]) then 0 else 1 + WordLength(s[1..])
  }

  /** `expr.trim().split(/\s+/)`, without the one empty string it gives for a blank text. */
  function Words(s: string): seq<string>
    decreases |s|
  {
    if s == "" then []
    else if IsSpace(s[0]) then Words(s[1..])
    else [s[..WordLength(s)]] + Words(s[WordLength(s)..])
  }

  predicate FieldMatches(field: string, min: int, max: int, v: int) {
    Int(v) in ParseField(field, min, max)
  }

  predicate Matches(expr: string, cal: Calendar, t: int) {
    var words := Words(expr);
    && |words| >= 5
    && FieldMatches(words[0], 0, 59, MinuteOf(t))
    && FieldMatches(words[1], 0, 23, HourOf(t))
    && FieldMatches(words[2], 1, 31, cal(DayOf(t)).day)
    && FieldMatches(words[3], 1, 12, cal(DayOf(t)).month)
    && FieldMatches(words[4], 0, 6, cal(DayOf(t)).weekday)
  }

  function Schedule(expr: string, cal: Calendar): int -> bool {
    t => Matches(expr, cal, t)
  }

  // ------------------------------------------------------------------- search

  /** The due minutes among the first `k` after `now`, in order. */
  function Runs(due: int -> bool, now: int, k: nat): seq<int> {
    if k == 0 then []
    else Runs(due, now, k - 1) + if due(now + k) then [now + k] else []
  }

  lemma {:induction false} RunsAreTheDue(due: int -> bool, now: int, k: nat)
    ensures forall t :: t in Runs(due, now, k) <==> now < t <= now + k && due(t)
    ensures forall i, j :: 0 <= i < j < |Runs(due, now, k)| ==> Runs(due, now, k)[i] < Runs(due, now, k)[j]
  {
    if k > 0 {
      RunsAreTheDue(due, now, k - 1);
      var before := Runs(due, now, k - 1);
      forall i | 0 <= i < |before| ensures before[i] < now + k { assert before[i] in before; }
    }
  }

  lemma {:induction false} RunsGrow(due: int -> bool, now: int, j: nat, k: nat)
    requires j <= k
    ensures Runs(due, now, j) <= Runs(due, now, k)
  {
    if j < k {
      RunsGrow(due, now, j, k - 1);
    }
  }

  /** The first `count` due minutes among `limit` scanned ones. */
  function FirstRuns(due: int -> bool, now: int, count: int, limit: nat): seq<int> {
    var all := Runs(due, now, limit);
    if count <= 0 then [] else if count < |all| then all[..count] else all
  }

  /** Strictly increasing due minutes after `now`, none skipped before the last one,
      and too few only when all `limit` minutes were scanned. */
  ghost predicate IsPreview(due: int -> bool, now: int, count: int, limit: nat, runs: seq<int>) {
    && (forall i, j :: 0 <= i < j < |runs| ==> runs[i] < runs[j])
    && (forall t :: t in runs ==> now < t <= now + limit && due(t))
    && (forall t, i :: 0 <= i < |runs| && now < t <= runs[i] && due(t) ==> t in runs)
    && (|runs| < count ==> forall t :: now < t <= now + limit && due(t) ==> t in runs)
    && |runs| <= (if count < 0 then 0 else count)
  }

  lemma {:induction false} FirstRunsArePreview(due: int -> bool, now: int, count: int, limit: nat)
    ensures IsPreview(due, now, count, limit, FirstRuns(due, now, count, limit))
  {
    RunsAreTheDue(due, now, limit);
    var all, runs := Runs(due, now, limit), FirstRuns(due, now, count, limit);
    assert forall t :: t in runs ==> t in all;
    forall t, i | 0 <= i < |runs| && now < t <= runs[i] && due(t) ensures t in runs {
      assert runs[i] in runs;
      var j :| 0 <= j < |all| && all[j] == t;
      assert runs[i] == all[i] && j <= i;
      assert runs[j] == t;
    }
  }

  method Search(due: int -> bool, now: int, count: int, limit: nat) returns (runs: seq<int>)
    ensures runs == FirstRuns(due, now, count, limit)
  {
    runs := [];
    var cursor, attempts := now, 0;
    while |runs| < count && attempts < limit
      invariant attempts <= limit && cursor == now + attempts
      invariant runs == Runs(due, now, attempts)
      invariant |runs| <= count || runs == []
    {
      attempts := attempts + 1;
      cursor := cursor + 1;
      if due(cursor) {
        runs := runs + [cursor];
      }
    }
    RunsGrow(due, now, attempts, limit);
  }

  /** `nextRuns`. */
  method NextRuns(expr: string, cal: Calendar, now: int, count: int) returns (runs: seq<int>)
    ensures runs == FirstRuns(Schedule(expr, cal), now, count, MAX_ATTEMPTS)
    ensures IsPreview(Schedule(expr, cal), now, count, 100_000, runs)
  {
    runs := Search(Schedule(expr, cal), now, count, MAX_ATTEMPTS);
    FirstRunsArePreview(Schedule(expr, cal), now, count, MAX_ATTEMPTS);
  }

  // -------------------------------------------------- daily schedules suffice

  ghost predicate Daily(expr: string) {
    var words := Words(expr);
    |words| >= 5 && words[2] == "*" && words[3] == "*" && words[4] == "*"
  }

  /** The expression runs at `hour`:`minute` on whichever day. */
  ghost predicate RunsAt(expr: string, hour: int, minute: int) {
    && Daily(expr) && 0 <= hour < 24 && 0 <= minute < 60
    && FieldMatches(Words(expr)[0], 0, 59, minute) && FieldMatches(Words(expr)[1], 0, 23, hour)
  }

  lemma {:induction false} StarMatches(min: int, max: int, v: int)
    ensures FieldMatches("*", min, max, v) <==> min <= v <= max
  {
    FieldIsExact(Star, v, min, max);
  }

  lemma {:induction false} DailyMatches(expr: string, cal: Calendar, t: int)
    requires Daily(expr)
    ensures Matches(expr, cal, t) <==>
            FieldMatches(Words(expr)[0], 0, 59, MinuteOf(t)) && FieldMatches(Words(expr)[1], 0, 23, HourOf(t))
  {
    var date := cal(DayOf(t));
    StarMatches(1, 31, date.day);
    StarMatches(1, 12, date.month);
    StarMatches(0, 6, date.weekday);
  }

  lemma {:induction false} RunsAppend(due: int -> bool, now: int, a: nat, b: nat)
    ensures Runs(due, now, a + b) == Runs(due, now, a) + Runs(due, now + a, b)
    decreases b
  {
    if b > 0 {
      RunsAppend(due, now, a, b - 1);
      assert now + (a + b) == now + a + b;
    }
  }

  /** Within a day of any time there is a minute with the given clock reading. */
  lemma {:induction false} SomeMinuteOfDay(now: int, hour: int, minute: int) returns (t: int)
    requires 0 <= hour < 24 && 0 <= minute < 60
    ensures now < t <= now + MINUTES_PER_DAY && MinuteOf(t) == minute && HourOf(t) == hour
  {
    var day := now / 1440;
    t := ClockReading(day, hour, minute);
    if t <= now {
      t := ClockReading(day + 1, hour, minute);
    }
  }

  lemma {:induction false} ClockReading(day: int, hour: int, minute: int) returns (t: int)
    requires 0 <= hour < 24 && 0 <= minute < 60
    ensures t == 1440 * day + 60 * hour + minute && MinuteOf(t) == minute && HourOf(t) == hour && DayOf(t) == day
  {
    t := 1440 * day + 60 * hour + minute;
    var hours := 24 * day + hour;
    assert t == 60 * hours + minute;
    assert t / 60 == hours;
    assert hours % 24 == hour;
  }

  /** A due minute in every stretch of `period` minutes. */
  ghost predicate DueEvery(due: int -> bool, period: nat) {
    forall now: int :: DueWithin(due, now, period)
  }

  ghost predicate DueWithin(due: int -> bool, now: int, period: nat) {
    exists t :: now < t <= now + period && due(t)
  }

  lemma {:induction false} OneRunPerPeriod(due: int -> bool, now: int, period: nat, n: nat)
    requires DueEvery(due, period)
    ensures |Runs(due, now, period * n)| >= n
    decreases n
  {
    if n > 0 {
      var k := period * (n - 1);
      OneRunPerPeriod(due, now, period, n - 1);
      assert period * n == k + period;
      RunsAppend(due, now, k, period);
      assert DueWithin(due, now + k, period);
      var t :| now + k < t <= now + k + period && due(t);
      RunsAreTheDue(due, now + k, period);
      assert t in Runs(due, now + k, period);
    }
  }

  lemma {:induction false} DailyIsDueEveryDay(expr: string, cal: Calendar, hour: int, minute: int)
    requires RunsAt(expr, hour, minute)
    ensures DueEvery(Schedule(expr, cal), MINUTES_PER_DAY)
  {
    forall now: int ensures DueWithin(Schedule(expr, cal), now, MINUTES_PER_DAY) {
      var t := SomeMinuteOfDay(now, hour, minute);
      DailyMatches(expr, cal, t);
      assert Schedule(expr, cal)(t);
    }
  }

  /** A daily schedule has up to 69 runs to show, from every starting time. */
  lemma {:induction false} DailySchedulesSuffice(expr: string, cal: Calendar, now: int, hour: int, minute: int, count: nat)
    requires RunsAt(expr, hour, minute) && count <= 69
    ensures |FirstRuns(Schedule(expr, cal), now, count, MAX_ATTEMPTS)| == count
  {
    var due := Schedule(expr, cal);
    DailyIsDueEveryDay(expr, cal, hour, minute);
    OneRunPerPeriod(due, now, MINUTES_PER_DAY, 69);
    RunsGrow(due, now, MINUTES_PER_DAY * 69, MAX_ATTEMPTS);
  }

  lemma {:induction false} OnlyMatches(n: nat, v: int, min: int, max: int)
    ensures FieldMatches(Digits(n), min, max, v) <==> v == n
  {
    var f := List([Value(n)]);
    assert PrintParts(f.parts) == [Digits(n)];
    FieldIsExact(f, v, min, max);
    assert f.parts[0] == Value(n);
  }

  lemma {:induction false} ZeroMatches(min: int, max: int, v: int)
    ensures FieldMatches("0", min, max, v) <==> v == 0
  {
    assert Digits(0) == "0";
    OnlyMatches(0, v, min, max);
  }

  lemma {:induction false} MidnightRuns(expr: string, cal: Calendar, k: nat)
    requires Daily(expr) && Words(expr)[0] == "0" && Words(expr)[1] == "0"
    ensures |Runs(Schedule(expr, cal), 0, k)| == k / MINUTES_PER_DAY
  {
    if k > 0 {
      MidnightRuns(expr, cal, k - 1);
      DailyMatches(expr, cal, k);
      ZeroMatches(0, 59, MinuteOf(k));
      ZeroMatches(0, 23, HourOf(k));
      MidnightIff(k);
    }
  }

  lemma {:induction false} MidnightIff(t: nat)
    ensures MinuteOf(t) == 0 && HourOf(t) == 0 <==> t % 1440 == 0
  {
    assert t / 60 / 24 == t / 1440;
  }

  /** The bound is sharp: from midnight, a midnight schedule never shows 70 runs. */
  lemma {:induction false} SeventyAreTooMany(expr: string, cal: Calendar)
    requires Daily(expr) && Words(expr)[0] == "0" && Words(expr)[1] == "0"
    ensures |FirstRuns(Schedule(expr, cal), 0, 70, MAX_ATTEMPTS)| == 69
  {
    MidnightRuns(expr, cal, MAX_ATTEMPTS);
  }

  // ------------------------------------------------- meaning of whole expressions

  ghost predicate SpaceFree(s: string) {
    forall i :: 0 <= i < |s| ==> !IsSpace(s[i])
  }

  lemma {:induction false} WordLengthIs(w: string, rest: string)
    requires SpaceFree(w) && (rest == "" || IsSpace(rest[0]))
    ensures WordLength(w + rest) == |w|
  {
    if w == "" {
      assert w + rest == rest;
    } else {
      assert (w + rest)[1..] == w[1..] + rest;
      WordLengthIs(w[1..], rest);
    }
  }

  ghost predicate Blank(s: string) {
    forall i :: 0 <= i < |s| ==> IsSpace(s[i])
  }

  /** The words, each with the white space before it, and white space at the end. */
  function Layout(words: seq<string>, gaps: seq<string>, end: string): string
    requires |words| == |gaps|
  {
    if words == [] then end else gaps[0] + (words[0] + Layout(words[1..], gaps[1..], end))
  }

  ghost predicate IsLayout(words: seq<string>, gaps: seq<string>, end: string) {
    && |words| == |gaps| && Blank(end)
    && (forall i :: 0 <= i < |words| ==> words[i] != "" && SpaceFree(words[i]))
    && (forall i :: 0 <= i < |gaps| ==> Blank(gaps[i]))
    && (forall i :: 0 < i < |gaps| ==> gaps[i] != "")
  }

  lemma {:induction false} WordsAfterBlank(blank: string, rest: string)
    requires Blank(blank)
    ensures Words(blank + rest) == Words(rest)
  {
    if blank == "" {
      assert blank + rest == rest;
    } else {
      assert (blank + rest)[1..] == blank[1..] + rest;
      WordsAfterBlank(blank[1..], rest);
    }
  }

  /** Words are found however they are laid out: any white space before, between and
      after them. */
  lemma {:induction false} WordsOfLayout(words: seq<string>, gaps: seq<string>, end: string)
    requires IsLayout(words, gaps, end)
    ensures Words(Layout(words, gaps, end)) == words
  {
    if words == [] {
      assert end == end + "";
      WordsAfterBlank(end, "");
    } else {
      var w, rest := words[0], Layout(words[1..], gaps[1..], end);
      WordsAfterBlank(gaps[0], w + rest);
      if |words| > 1 {
        assert gaps[1..][0] == gaps[1] && rest[0] == gaps[1][0];
      }
      WordLengthIs(w, rest);
      assert (w + rest)[..|w|] == w && (w + rest)[|w|..] == rest;
      WordsOfLayout(words[1..], gaps[1..], end);
      assert words == [w] + words[1..];
    }
  }

  lemma {:induction false} JoinIsLayout(words: seq<string>, first: string)
    ensures words != [] ==> Layout(words, [first] + seq(|words| - 1, _ => " "), "") == first + Join(words, " ")
  {
    if words != [] {
      var gaps := [first] + seq(|words| - 1, _ => " ");
      if |words| == 1 {
        assert Layout(words[1..], gaps[1..], "") == "";
        assert words[0] + "" == words[0];
      } else {
        JoinIsLayout(words[1..], " ");
        assert gaps[1..] == [" "] + seq(|words| - 2, _ => " ");
        assert words[0] + (" " + Join(words[1..], " ")) == Join(words, " ");
      }
    }
  }

  lemma {:induction false} WordsOfJoin(words: seq<string>)
    requires forall i :: 0 <= i < |words| ==> words[i] != "" && SpaceFree(words[i])
    ensures Words(Join(words, " ")) == words
  {
    if words != [] {
      var gaps := [""] + seq(|words| - 1, _ => " ");
      JoinIsLayout(words, "");
      assert "" + Join(words, " ") == Join(words, " ");
      WordsOfLayout(words, gaps, "");
    }
  }

  lemma {:induction false} DigitsSpaceFree(n: nat)
    ensures SpaceFree(Digits(n)) && Digits(n) != ""
  {
    DigitsRoundTrip(n);
  }

  lemma {:induction false} PartSpaceFree(p: Part)
    ensures SpaceFree(PrintPart(p)) && PrintPart(p) != ""
  {
    match p
    case Value(n) => DigitsSpaceFree(n);
    case Range(a, b) => DigitsSpaceFree(a); DigitsSpaceFree(b);
    case SteppedRange(a, b, step) => DigitsSpaceFree(a); DigitsSpaceFree(b); DigitsSpaceFree(step);
    case SteppedStar(step) => DigitsSpaceFree(step);
  }

  lemma {:induction false} JoinSpaceFree(texts: seq<string>)
    requires texts != [] && forall i :: 0 <= i < |texts| ==> texts[i] != "" && SpaceFree(texts[i])
    ensures SpaceFree(Join(texts, ",")) && Join(texts, ",") != ""
  {
    if |texts| > 1 {
      JoinSpaceFree(texts[1..]);
    }
  }

  lemma {:induction false} FieldSpaceFree(f: Field)
    requires WellFormed(f)
    ensures SpaceFree(PrintField(f)) && PrintField(f) != ""
  {
    if f.List? {
      forall i | 0 <= i < |f.parts| ensures SpaceFree(PrintPart(f.parts[i])) && PrintPart(f.parts[i]) != "" {
        PartSpaceFree(f.parts[i]);
      }
      JoinSpaceFree(PrintParts(f.parts));
    }
  }

  /** What the preview takes a written-out field to mean: its set, or nothing if it is
      one of the lists that are misread. */
  predicate Reads(f: Field, v: int, min: int, max: int)
    requires WellFormed(f)
  {
    !Misread(f) && Denotes(f, v, min, max)
  }

  lemma {:induction false} FieldReads(f: Field, v: int, min: int, max: int)
    requires WellFormed(f) && min <= max
    ensures FieldMatches(PrintField(f), min, max, v) <==> Reads(f, v, min, max)
  {
    if Misread(f) {
      MisreadIsEmpty(f, min, max);
    } else {
      FieldIsExact(f, v, min, max);
    }
  }

  datatype Expression = Expression(minute: Field, hour: Field, day: Field, month: Field, weekday: Field) {
    function Words(): seq<string> {
      [PrintField(minute), PrintField(hour), PrintField(day), PrintField(month), PrintField(weekday)]
    }
    function Print(): string {
      Join(Words(), " ")
    }
    predicate Valid() {
      WellFormed(minute) && WellFormed(hour) && WellFormed(day) && WellFormed(month) && WellFormed(weekday)
    }
  }

  lemma {:induction false} PrintedWords(e: Expression)
    requires e.Valid()
    ensures Words(e.Print()) == e.Words()
  {
    FieldSpaceFree(e.minute);
    FieldSpaceFree(e.hour);
    FieldSpaceFree(e.day);
    FieldSpaceFree(e.month);
    FieldSpaceFree(e.weekday);
    WordsOfJoin(e.Words());
  }

  /** None of the fields is misread, and each denotes its part of the date and time. */
  predicate Means(e: Expression, minute: int, hour: int, date: Date)
    requires e.Valid()
  {
    && Reads(e.minute, minute, 0, 59)
    && Reads(e.hour, hour, 0, 23)
    && Reads(e.day, date.day, 1, 31)
    && Reads(e.month, date.month, 1, 12)
    && Reads(e.weekday, date.weekday, 0, 6)
  }

  /** However a written-out expression is laid out, and whatever follows its five fields,
      it matches as its plain form does. */
  lemma {:induction false} LayoutDoesNotMatter(e: Expression, more: seq<string>, gaps: seq<string>, end: string, cal: Calendar, t: int)
    requires e.Valid() && IsLayout(e.Words() + more, gaps, end)
    ensures Matches(Layout(e.Words() + more, gaps, end), cal, t) <==> Matches(e.Print(), cal, t)
  {
    WordsOfLayout(e.Words() + more, gaps, end);
    PrintedWords(e);
  }

  /** Fewer than five fields match nothing. */
  lemma {:induction false} FewerFieldsMatchNothing(words: seq<string>, gaps: seq<string>, end: string, cal: Calendar, t: int)
    requires IsLayout(words, gaps, end) && |words| < 5
    ensures !Matches(Layout(words, gaps, end), cal, t)
  {
    WordsOfLayout(words, gaps, end);
  }

  /** A written-out expression matches a minute iff it means it: minute and hour are
      those of the clock, and the date is that of the day, which changes at midnight. */
  lemma {:induction false} ExpressionSemantics(e: Expression, cal: Calendar, t: int)
    requires e.Valid()
    ensures Matches(e.Print(), cal, t) <==> Means(e, t % 60, t / 60 % 24, cal(t / 1440))
  {
    PrintedWords(e);
    var date := cal(DayOf(t));
    FieldReads(e.minute, MinuteOf(t), 0, 59);
    FieldReads(e.hour, HourOf(t), 0, 23);
    FieldReads(e.day, date.day, 1, 31);
    FieldReads(e.month, date.month, 1, 12);
    FieldReads(e.weekday, date.weekday, 0, 6);
  }

  // --------------------------------------------------------- the day-of-week rule

  /** The usual cron rule: when both day fields are restricted, either may match. */
  predicate MatchesEitherDay(expr: string, cal: Calendar, t: int) {
    var words := Words(expr);
    && |words| >= 5
    && FieldMatches(words[0], 0, 59, MinuteOf(t))
    && FieldMatches(words[1], 0, 23, HourOf(t))
    && FieldMatches(words[3], 1, 12, cal(DayOf(t)).month)
    && var byDay, byWeekday := FieldMatches(words[2], 1, 31, cal(DayOf(t)).day),
                               FieldMatches(words[4], 0, 6, cal(DayOf(t)).weekday);
       if words[2] == "*" then byWeekday
       else if words[4] == "*" then byDay
       else byDay || byWeekday
  }

  /** The preview requires all fields to match. It agrees with the usual rule on
      every minute if one of the day fields is a star. */
  lemma {:induction false} DayRulesAgree(expr: string, cal: Calendar, t: int)
    requires var words := Words(expr); |words| >= 5 ==> words[2] == "*" || words[4] == "*"
    ensures Matches(expr, cal, t) <==> MatchesEitherDay(expr, cal, t)
  {
    StarMatches(1, 31, cal(DayOf(t)).day);
    StarMatches(0, 6, cal(DayOf(t)).weekday);
  }

  /** On every minute of every calendar. */
  ghost predicate RulesAgree(expr: string) {
    forall cal: Calendar, t: int :: Matches(expr, cal, t) <==> MatchesEitherDay(expr, cal, t)
  }

  /** How much of its range a field matches. */
  datatype Extent = Nothing | Everything | Partly

  function ExtentOf(field: string, min: int, max: int): Extent {
    if forall v :: min <= v <= max ==> !FieldMatches(field, min, max, v) then Nothing
    else if forall v :: min <= v <= max ==> FieldMatches(field, min, max, v) then Everything
    else Partly
  }

  /** The fields leave the two rules no minute to disagree on. */
  predicate RulesCoincide(words: seq<string>) {
    || |words| < 5
    || words[2] == "*" || words[4] == "*"
    || ExtentOf(words[0], 0, 59).Nothing? || ExtentOf(words[1], 0, 23).Nothing? || ExtentOf(words[3], 1, 12).Nothing?
    || ExtentOf(words[2], 1, 31) == ExtentOf(words[4], 0, 6) != Partly
  }

  /** On a date that only one of the day fields matches the rules disagree. */
  lemma {:induction false} OneDayFieldDisagrees(expr: string, m: int, h: int, date: Date) returns (cal: Calendar, t: int)
    requires var words := Words(expr);
             && |words| >= 5 && words[2] != "*" && words[4] != "*"
             && 0 <= m <= 59 && FieldMatches(words[0], 0, 59, m)
             && 0 <= h <= 23 && FieldMatches(words[1], 0, 23, h)
             && FieldMatches(words[3], 1, 12, date.month)
             && (FieldMatches(words[2], 1, 31, date.day) <==> !FieldMatches(words[4], 0, 6, date.weekday))
    ensures !Matches(expr, cal, t) && MatchesEitherDay(expr, cal, t)
  {
    cal := (_: int) => date;
    t := ClockReading(0, h, m);
  }

  /** A date, in the given month, that one of two differing day fields matches alone. */
  lemma {:induction false} DifferingDate(day: string, weekday: string, month: int) returns (date: Date)
    requires 1 <= month <= 12
    requires !(ExtentOf(day, 1, 31) == ExtentOf(weekday, 0, 6) != Partly)
    ensures date.month == month
    ensures FieldMatches(day, 1, 31, date.day) <==> !FieldMatches(weekday, 0, 6, date.weekday)
  {
    match ExtentOf(day, 1, 31)
    case Everything =>
      var w :| 0 <= w <= 6 && !FieldMatches(weekday, 0, 6, w);
      date := DateParts(1, month, w);
    case Nothing =>
      var w :| 0 <= w <= 6 && FieldMatches(weekday, 0, 6, w);
      date := DateParts(1, month, w);
    case Partly =>
      var d :| 1 <= d <= 31 && FieldMatches(day, 1, 31, d);
      var d' :| 1 <= d' <= 31 && !FieldMatches(day, 1, 31, d');
      date := DateParts(if FieldMatches(weekday, 0, 6, 0) then d' else d, month, 0);
  }

  /** The preview and the usual rule agree on all minutes of all calendars iff the
      fields leave them nothing to disagree on, which a caller can tell from the text. */
  lemma {:induction false} DayRulesAgreeIff(expr: string)
    ensures RulesAgree(expr) <==> RulesCoincide(Words(expr))
  {
    var words := Words(expr);
    if RulesCoincide(words) {
      forall cal: Calendar, t: int ensures Matches(expr, cal, t) <==> MatchesEitherDay(expr, cal, t) {
        if |words| >= 5 && (words[2] == "*" || words[4] == "*") {
          DayRulesAgree(expr, cal, t);
        }
      }
    } else {
      var m :| 0 <= m <= 59 && FieldMatches(words[0], 0, 59, m);
      var h :| 0 <= h <= 23 && FieldMatches(words[1], 0, 23, h);
      var month :| 1 <= month <= 12 && FieldMatches(words[3], 1, 12, month);
      var date := DifferingDate(words[2], words[4], month);
      var cal, t := OneDayFieldDisagrees(expr, m, h, date);
    }
  }

  /** How much of its range a written-out field is taken to denote. */
  function WrittenExtent(f: Field, min: int, max: int): Extent
    requires WellFormed(f)
  {
    if forall v :: min <= v <= max ==> !Reads(f, v, min, max) then Nothing
    else if forall v :: min <= v <= max ==> Reads(f, v, min, max) then Everything
    else Partly
  }

  lemma {:induction false} PrintedExtent(f: Field, min: int, max: int)
    requires WellFormed(f) && min <= max
    ensures ExtentOf(PrintField(f), min, max) == WrittenExtent(f, min, max)
  {
    forall v ensures FieldMatches(PrintField(f), min, max, v) <==> Reads(f, v, min, max) {
      FieldReads(f, v, min, max);
    }
  }

  lemma {:induction false} OnlyStarPrintsStar(f: Field)
    requires WellFormed(f)
    ensures PrintField(f) == "*" <==> f.Star?
  {
    if f.List? {
      NoComma(f.parts[0]);
      JoinHead(PrintParts(f.parts), ",");
      if !f.parts[0].SteppedStar? {
        FirstIsDigit(f.parts[0]);
      } else {
        assert PrintParts(f.parts)[0][..2] == "*/";
      }
    }
  }

  /** The usual rule on a written-out expression. */
  lemma {:induction false} EitherDaySemantics(e: Expression, cal: Calendar, t: int)
    requires e.Valid()
    ensures MatchesEitherDay(e.Print(), cal, t) <==>
            && Reads(e.minute, MinuteOf(t), 0, 59)
            && Reads(e.hour, HourOf(t), 0, 23)
            && Reads(e.month, cal(DayOf(t)).month, 1, 12)
            && var byDay, byWeekday := Reads(e.day, cal(DayOf(t)).day, 1, 31), Reads(e.weekday, cal(DayOf(t)).weekday, 0, 6);
               if e.day.Star? then byWeekday else if e.weekday.Star? then byDay else byDay || byWeekday
  {
    PrintedWords(e);
    OnlyStarPrintsStar(e.day);
    OnlyStarPrintsStar(e.weekday);
    var date := cal(DayOf(t));
    FieldReads(e.minute, MinuteOf(t), 0, 59);
    FieldReads(e.hour, HourOf(t), 0, 23);
    FieldReads(e.day, date.day, 1, 31);
    FieldReads(e.month, date.month, 1, 12);
    FieldReads(e.weekday, date.weekday, 0, 6);
  }

  /** What `RulesCoincide` says of a written-out expression, in terms of what its
      fields denote: a day field is a star, or the day fields both denote their whole
      range or both nothing in it, or another field denotes nothing. */
  predicate WrittenRulesCoincide(e: Expression)
    requires e.Valid()
  {
    || e.day.Star? || e.weekday.Star?
    || WrittenExtent(e.minute, 0, 59).Nothing? || WrittenExtent(e.hour, 0, 23).Nothing?
    || WrittenExtent(e.month, 1, 12).Nothing?
    || WrittenExtent(e.day, 1, 31) == WrittenExtent(e.weekday, 0, 6) != Partly
  }

  lemma {:induction false} WrittenDayRulesAgreeIff(e: Expression)
    requires e.Valid()
    ensures RulesAgree(e.Print()) <==> WrittenRulesCoincide(e)
  {
    DayRulesAgreeIff(e.Print());
    PrintedWords(e);
    OnlyStarPrintsStar(e.day);
    OnlyStarPrintsStar(e.weekday);
    PrintedExtent(e.minute, 0, 59);
    PrintedExtent(e.hour, 0, 23);
    PrintedExtent(e.day, 1, 31);
    PrintedExtent(e.month, 1, 12);
    PrintedExtent(e.weekday, 0, 6);
  }

  function Only(n: nat): Field { List([Value(n)]) }

  lemma {:induction false} OnlyReads(n: nat, v: int, min: int, max: int)
    ensures WellFormed(Only(n)) && (Reads(Only(n), v, min, max) <==> v == n)
  {
    assert Only(n).parts[0] == Value(n);
  }

  /** An expression such as "0 0 13 * 5" with a day of the month and a weekday: at its
      time of day, on a date that only one of the two fits, the usual rule runs the job
      and the preview does not show it. */
  lemma {:induction false} LoneDayIsMissed(minute: nat, hour: nat, day: nat, weekday: nat, cal: Calendar, t: int)
    requires MinuteOf(t) == minute && HourOf(t) == hour
    requires cal(DayOf(t)).day == day <==> cal(DayOf(t)).weekday != weekday
    ensures var expr := Expression(Only(minute), Only(hour), Only(day), Star, Only(weekday)).Print();
            MatchesEitherDay(expr, cal, t) && !Matches(expr, cal, t)
  {
    var e := Expression(Only(minute), Only(hour), Only(day), Star, Only(weekday));
    var date := cal(DayOf(t));
    OnlyReads(minute, minute, 0, 59);
    OnlyReads(hour, hour, 0, 23);
    OnlyReads(day, date.day, 1, 31);
    OnlyReads(weekday, date.weekday, 0, 6);
    ExpressionSemantics(e, cal, t);
    EitherDaySemantics(e, cal, t);
  }
}
