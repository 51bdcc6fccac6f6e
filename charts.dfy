/** The timestamp handling of the battery-test report (`plot_battery_data`).

    A log holds one timestamp per sample, either `DD-MM-YYYY HH:MM:SS` or only `HH:MM:SS`. The
    report checks the log's columns, turns the timestamps into instants (inferring the day of
    time-only samples from the points where the clock goes backwards), sorts the samples by
    instant, and chooses the axis labels and the date range shown in the title. */
module Charts {
  import opened Wrappers
  import opened Text
  import opened Calendar

  // ---------------------------------------------------------------------------------------------
  // Columns

  const RequiredColumns: seq<string> := ["timestamp", "voltage", "current", "power", "capacity", "watthours"]

  /** The names in `names` that `columns` lacks, in the order of `names`. */
  function Absent(names: seq<string>, columns: seq<string>): (missing: seq<string>)
    ensures forall c :: c in missing <==> c in names && c !in columns
  {
    if names == [] then []
    else (if names[0] in columns then [] else [names[0]]) + Absent(names[1..], columns)
  }

  /** The required columns the log lacks. */
  function MissingColumns(columns: seq<string>): (missing: seq<string>)
    ensures forall c :: c in missing <==> c in RequiredColumns && c !in columns
    ensures missing == [] <==> forall c :: c in RequiredColumns ==> c in columns
  {
    var missing := Absent(RequiredColumns, columns);
    assert missing != [] ==> missing[0] in missing;
    missing
  }

  // ---------------------------------------------------------------------------------------------
  // The date test: `str.contains(r'\d{2}-\d{2}-\d{4}')`

  predicate DatePatternAt(s: string, i: nat)
    requires i + 10 <= |s|
  {
    IsDigit(s[i]) && IsDigit(s[i + 1]) && s[i + 2] == '-' && IsDigit(s[i + 3]) && IsDigit(s[i + 4])
    && s[i + 5] == '-' && AllDigits(s[i + 6..i + 10])
  }

  predicate HasDatePattern(s: string) {
    exists i: nat :: i + 10 <= |s| && DatePatternAt(s, i)
  }

  /** `has_date.any()`: some timestamp of the log carries a date. */
  predicate AnyHasDate(timestamps: seq<string>) {
    exists k :: 0 <= k < |timestamps| && HasDatePattern(timestamps[k])
  }

  // ---------------------------------------------------------------------------------------------
  // Clock and date texts

  lemma FixedTwo(n: nat)
    requires n < 100
    ensures Pow10(2) == 100
    ensures Fixed(n, 2) == [DigitChar(n / 10), DigitChar(n % 10)]
  {
    assert Pow10(1) == 10 && Pow10(2) == 100;
    var tens := n / 10;
    assert tens < 10 && tens / 10 == 0 && tens % 10 == tens;
    assert Fixed(tens, 1) == [DigitChar(tens)];
    assert Fixed(n, 2) == Fixed(tens, 1) + [DigitChar(n % 10)];
  }

  /** `"%02d" % n`. */
  function TwoDigits(n: nat): (s: string)
    requires n < 100
    ensures |s| == 2 && AllDigits(s)
  {
    FixedTwo(n);
    Fixed(n, 2)
  }

  /** `strftime('%H:%M:%S')`. */
  function ClockText(t: TimeOfDay): (s: string)
    ensures |s| == 8 && IsDigit(s[0])
  {
    TwoDigits(Hour(t)) + ":" + TwoDigits(Minute(t)) + ":" + TwoDigits(Second(t))
  }

  /** The number written by the two digits at s[i], s[i + 1]. */
  function TwoDigitsAt(s: string, i: nat): (n: nat)
    requires i + 2 <= |s| && IsDigit(s[i]) && IsDigit(s[i + 1])
    ensures n < 100
  {
    DigitValue(s[i]) * 10 + DigitValue(s[i + 1])
  }

  predicate ClockShape(s: string) {
    |s| == 8 && IsDigit(s[0]) && IsDigit(s[1]) && s[2] == ':' && IsDigit(s[3]) && IsDigit(s[4])
    && s[5] == ':' && IsDigit(s[6]) && IsDigit(s[7])
  }

  /** `to_datetime(s, format='%H:%M:%S')`, for zero-padded fields: None where pandas raises. */
  function ParseClock(s: string): (r: Option<TimeOfDay>)
  {
    if ClockShape(s) then
      var h, m, sec := TwoDigitsAt(s, 0), TwoDigitsAt(s, 3), TwoDigitsAt(s, 6);
      if h < 24 && m < 60 && sec < 60 then Some(h * 3600 + m * 60 + sec) else None
    else None
  }

  lemma DigitCharValue(c: char)
    requires IsDigit(c)
    ensures DigitChar(DigitValue(c)) == c
  {
  }

  lemma TwoDigitsRead(s: string, i: nat, n: nat)
    requires n < 100 && i + 2 <= |s| && s[i..i + 2] == TwoDigits(n)
    ensures IsDigit(s[i]) && IsDigit(s[i + 1]) && TwoDigitsAt(s, i) == n
  {
    FixedTwo(n);
    assert s[i] == DigitChar(n / 10) && s[i + 1] == DigitChar(n % 10);
  }

  lemma TwoDigitsWrite(s: string, i: nat)
    requires i + 2 <= |s| && IsDigit(s[i]) && IsDigit(s[i + 1])
    ensures s[i..i + 2] == TwoDigits(TwoDigitsAt(s, i))
  {
    var n := TwoDigitsAt(s, i);
    FixedTwo(n);
    DigitCharValue(s[i]);
    DigitCharValue(s[i + 1]);
    assert n / 10 == DigitValue(s[i]) && n % 10 == DigitValue(s[i + 1]);
  }

  /** Where the fields of a `HH:MM:SS`-shaped concatenation sit. */
  lemma FiveParts<T>(a: seq<T>, x: seq<T>, b: seq<T>, y: seq<T>, c: seq<T>)
    requires |a| == 2 && |x| == 1 && |b| == 2 && |y| == 1 && |c| == 2
    ensures var s := a + x + b + y + c;
      && |s| == 8 && s[0..2] == a && s[2] == x[0] && s[3..5] == b && s[5] == y[0] && s[6..8] == c
  {
  }

  /** Reading back a clock text gives the time it was made from. */
  lemma ClockRoundTrip(t: TimeOfDay)
    ensures ParseClock(ClockText(t)) == Some(t)
  {
    var s := ClockText(t);
    FiveParts(TwoDigits(Hour(t)), ":", TwoDigits(Minute(t)), ":", TwoDigits(Second(t)));
    TwoDigitsRead(s, 0, Hour(t));
    TwoDigitsRead(s, 3, Minute(t));
    TwoDigitsRead(s, 6, Second(t));
    ClockParts(t);
  }

  lemma ClockFields(h: nat, m: nat, sec: nat)
    requires h < 24 && m < 60 && sec < 60
    ensures (h * 3600 + m * 60 + sec) / 3600 == h
    ensures (h * 3600 + m * 60 + sec) / 60 % 60 == m
    ensures (h * 3600 + m * 60 + sec) % 60 == sec
  {
    assert h * 3600 + m * 60 + sec == (h * 60 + m) * 60 + sec;
    assert (h * 60 + m) * 60 + sec == h * 3600 + (m * 60 + sec);
  }

  /** The clock parser accepts only the canonical text of the time it returns. */
  lemma ClockCanonical(s: string)
    requires ParseClock(s).Some?
    ensures ClockText(ParseClock(s).value) == s
  {
    var t := ParseClock(s).value;
    ClockFields(TwoDigitsAt(s, 0), TwoDigitsAt(s, 3), TwoDigitsAt(s, 6));
    TwoDigitsWrite(s, 0);
    TwoDigitsWrite(s, 3);
    TwoDigitsWrite(s, 6);
    assert s == s[0..2] + ":" + s[3..5] + ":" + s[6..8];
  }

  predicate DateTimeShape(s: string) {
    |s| == 19 && IsDigit(s[0]) && IsDigit(s[1]) && s[2] == '-' && IsDigit(s[3]) && IsDigit(s[4])
    && s[5] == '-' && AllDigits(s[6..10]) && s[10] == ' '
  }

  /** `to_datetime(s, format='%d-%m-%Y %H:%M:%S')`, for zero-padded fields: None where pandas
      raises. */
  function ParseDateTime(s: string): (r: Option<Instant>)
  {
    if DateTimeShape(s) then
      var d := Date(DigitsValue(s[6..10]), TwoDigitsAt(s, 3), TwoDigitsAt(s, 0));
      var clock := ParseClock(s[11..]);
      if ValidDate(d) && clock.Some? then Some(Instant(d, clock.value)) else None
    else None
  }

  /** The log's own timestamp format, `DD-MM-YYYY HH:MM:SS`. */
  function DateTimeText(x: Instant): (s: string)
    requires x.date.year < 10000
    ensures |s| == 19
  {
    FixedTwo(x.date.day);
    FixedTwo(x.date.month);
    assert Pow10(4) == 10000;
    TwoDigits(x.date.day) + "-" + TwoDigits(x.date.month) + "-" + Fixed(x.date.year, 4) + " "
    + ClockText(x.time)
  }

  /** A timestamp in the log's format reads back as the instant it was written from. */
  lemma DateTimeRoundTrip(x: Instant)
    requires x.date.year < 10000
    ensures ParseDateTime(DateTimeText(x)) == Some(x)
  {
    var s := DateTimeText(x);
    assert Pow10(4) == 10000;
    TwoDigitsRead(s, 0, x.date.day);
    TwoDigitsRead(s, 3, x.date.month);
    assert s[6..10] == Fixed(x.date.year, 4);
    FixedValue(x.date.year, 4);
    assert s[11..] == ClockText(x.time);
    ClockRoundTrip(x.time);
  }

  /** Dated log timestamps take the dated branch; time-only ones, being too short, never do. */
  lemma DatePatternDetects(x: Instant, t: TimeOfDay)
    requires x.date.year < 10000
    ensures HasDatePattern(DateTimeText(x))
    ensures !HasDatePattern(ClockText(t))
  {
    var s := DateTimeText(x);
    assert Pow10(4) == 10000;
    assert s[6..10] == Fixed(x.date.year, 4);
    TwoDigitsRead(s, 0, x.date.day);
    TwoDigitsRead(s, 3, x.date.month);
    assert DatePatternAt(s, 0);
  }

  /** Every text the dated parser accepts carries the date pattern, so a dated log always takes
      the dated branch. */
  lemma ParsedDateTimeDetected(s: string)
    ensures ParseDateTime(s).Some? ==> HasDatePattern(s)
  {
    if ParseDateTime(s).Some? {
      assert DatePatternAt(s, 0);
    }
  }

  /** `strftime('%d.%m.%y')`: day, month and the year within its century. */
  function ShortDateText(d: CalendarDate): string
  {
    TwoDigits(d.day) + "." + TwoDigits(d.month) + "." + TwoDigits(d.year % 100)
  }

  /** `strftime('%d.%m.%Y')`. */
  function LongDateText(d: CalendarDate): (s: string)
    ensures |s| >= 7
  {
    TwoDigits(d.day) + "." + TwoDigits(d.month) + "." + NatText(d.year)
  }

  /** Different dates have different long texts. */
  lemma LongDateTextInjective(a: CalendarDate, b: CalendarDate)
    requires LongDateText(a) == LongDateText(b)
    ensures a == b
  {
    var s := LongDateText(a);
    assert s[0..2] == TwoDigits(a.day) == TwoDigits(b.day);
    assert s[3..5] == TwoDigits(a.month) == TwoDigits(b.month);
    assert s[6..] == NatText(a.year) == NatText(b.year);
    TwoDigitsRead(s, 0, a.day);
    TwoDigitsRead(s, 0, b.day);
    TwoDigitsRead(s, 3, a.month);
    TwoDigitsRead(s, 3, b.month);
    NatTextInjective(a.year, b.year);
  }

  // ---------------------------------------------------------------------------------------------
  // Parsing a whole column

  /** `to_datetime` over a column: every entry parsed, or the first entry that does not parse. */
  function ParseAll<T>(texts: seq<string>, parse: string -> Option<T>): (r: Result<seq<T>, nat>)
    ensures r.Success? ==>
      |r.value| == |texts| && forall i :: 0 <= i < |texts| ==> parse(texts[i]) == Some(r.value[i])
    ensures r.Failure? ==>
      r.error < |texts| && parse(texts[r.error]).None? && forall i :: 0 <= i < r.error ==> parse(texts[i]).Some?
  {
    if texts == [] then Success([])
    else match parse(texts[0])
      case None => Failure(0)
      case Some(x) =>
        match ParseAll(texts[1..], parse)
        case Failure(k) => Failure(k + 1)
        case Success(rest) => Success([x] + rest)
  }

  // ---------------------------------------------------------------------------------------------
  // Day-rollover inference for time-only logs

  /** Number of strict decreases of the clock among samples 1..i. */
  function Drops(times: seq<TimeOfDay>, i: nat): nat
    requires i < |times|
  {
    if i == 0 then 0 else Drops(times, i - 1) + (if times[i] < times[i - 1] then 1 else 0)
  }

  /** The samples j in 1..i whose time is earlier than the previous sample's. */
  function DropSet(times: seq<TimeOfDay>, i: nat): set<nat>
    requires i < |times|
  {
    set j: nat | 1 <= j <= i && DropAt(times, j)
  }

  /** Sample j's clock is earlier than sample j - 1's. */
  predicate DropAt(times: seq<TimeOfDay>, j: nat)
    requires 1 <= j < |times|
  {
    times[j] < times[j - 1]
  }

  /** The day offset of a sample is the number of rollovers up to it. */
  lemma {:induction false} DropsCount(times: seq<TimeOfDay>, i: nat)
    requires i < |times|
    ensures Drops(times, i) == |DropSet(times, i)|
  {
    if i == 0 {
      assert DropSet(times, 0) == {};
    } else {
      DropsCount(times, i - 1);
      if times[i] < times[i - 1] {
        assert DropSet(times, i) == DropSet(times, i - 1) + {i};
      } else {
        assert DropSet(times, i) == DropSet(times, i - 1);
      }
    }
  }

  /** The instants the rollover loop builds from `base` (today): sample i is on the day
      `base + Drops(times, i)`, at its own time. */
  function InferredInstants(times: seq<TimeOfDay>, base: CalendarDate): (r: seq<Instant>)
    ensures |r| == |times|
  {
    seq(|times|, i requires 0 <= i < |times| => Instant(AddDays(base, Drops(times, i)), times[i]))
  }

  /** The rollover loop. It fails, as `times.iloc[0]` does, on an empty column. */
  method InferDates(times: seq<TimeOfDay>, base: CalendarDate) returns (r: Option<seq<Instant>>)
    ensures times == [] ==> r == None
    ensures times != [] ==> r == Some(InferredInstants(times, base))
  {
    if times == [] {
      return None;
    }
    var current := base;
    var previous := times[0];
    var instants := [];
    ghost var days := 0;
    for i := 0 to |times|
      invariant instants == InferredInstants(times, base)[..i]
      invariant i == 0 ==> previous == times[0] && days == 0
      invariant i > 0 ==> previous == times[i - 1] && days == Drops(times, i - 1)
      invariant current == AddDays(base, days)
    {
      var t := times[i];
      if i > 0 {
        RolloverDay(times, base, i, days);
      }
      if t < previous {
        current := NextDate(current);
        days := days + 1;
      }
      InferredExtend(times, base, i, instants, days);
      instants := instants + [Instant(current, t)];
      previous := t;
    }
    assert InferredInstants(times, base)[..|times|] == InferredInstants(times, base);
    return Some(instants);
  }

  /** One step of the rollover loop: the day moves on exactly when the clock went back. */
  lemma RolloverDay(times: seq<TimeOfDay>, base: CalendarDate, i: nat, days: nat)
    requires 0 < i < |times| && days == Drops(times, i - 1)
    ensures Drops(times, i) == if times[i] < times[i - 1] then days + 1 else days
    ensures AddDays(base, days + 1) == NextDate(AddDays(base, days))
  {
  }

  /** One step of the rollover loop: the instants so far, extended by sample i on the current day. */
  lemma InferredExtend(times: seq<TimeOfDay>, base: CalendarDate, i: nat, instants: seq<Instant>, days: nat)
    requires i < |times|
    requires instants == InferredInstants(times, base)[..i]
    requires days == Drops(times, i)
    ensures instants + [Instant(AddDays(base, days), times[i])] == InferredInstants(times, base)[..i + 1]
  {
  }

  /** The first sample is dated `base`, and the day number of sample i is `base`'s plus the
      number of rollovers up to i. */
  lemma InferredDays(times: seq<TimeOfDay>, base: CalendarDate, i: nat)
    requires i < |times|
    ensures InferredInstants(times, base)[0].date == base
    ensures DayNumber(InferredInstants(times, base)[i].date) == DayNumber(base) + |DropSet(times, i)|
  {
    AddDaysCounts(base, Drops(times, i));
    DropsCount(times, i);
  }

  /** At a rollover the date moves to the next day and the instant strictly increases; otherwise
      the date stays and the instant does not decrease. */
  lemma InferredStep(times: seq<TimeOfDay>, base: CalendarDate, i: nat)
    requires 0 < i < |times|
    ensures var r := InferredInstants(times, base);
      if times[i] < times[i - 1] then r[i].date == NextDate(r[i - 1].date) && InstantBefore(r[i - 1], r[i])
      else r[i].date == r[i - 1].date && InstantAtMost(r[i - 1], r[i])
  {
    var r := InferredInstants(times, base);
    var days := Drops(times, i - 1);
    assert r[i - 1] == Instant(AddDays(base, days), times[i - 1]);
    assert r[i] == Instant(AddDays(base, Drops(times, i)), times[i]);
    RolloverDay(times, base, i, days);
  }

  /** As a count of seconds, `day * 86400 + t`, consecutive inferred instants are the clock
      difference apart, plus one whole day at a rollover: never decreasing, and strictly
      increasing across a rollover. */
  lemma InferredSeconds(times: seq<TimeOfDay>, base: CalendarDate, i: nat)
    requires 0 < i < |times|
    ensures var r := InferredInstants(times, base);
      if times[i] < times[i - 1] then Seconds(r[i]) - Seconds(r[i - 1]) == SecondsPerDay + times[i] - times[i - 1] > 0
      else Seconds(r[i]) - Seconds(r[i - 1]) == times[i] - times[i - 1] >= 0
  {
    var r := InferredInstants(times, base);
    InferredStep(times, base, i);
    if times[i] < times[i - 1] {
      NextDateCounts(r[i - 1].date);
    }
  }

  // ---------------------------------------------------------------------------------------------
  // Order

  predicate Sorted(s: seq<Instant>) {
    forall i, j :: 0 <= i < j < |s| ==> InstantAtMost(s[i], s[j])
  }

  lemma AtMostTransitive(a: Instant, b: Instant, c: Instant)
    requires InstantAtMost(a, b) && InstantAtMost(b, c)
    ensures InstantAtMost(a, c)
  {
  }

  lemma AtMostAntisymmetric(a: Instant, b: Instant)
    requires InstantAtMost(a, b) && InstantAtMost(b, a)
    ensures a == b
  {
  }

  /** A sequence whose neighbours are in order is sorted. */
  lemma {:induction false} SortedFromSteps(s: seq<Instant>)
    requires forall i :: 0 < i < |s| ==> InstantAtMost(s[i - 1], s[i])
    ensures Sorted(s)
  {
    if |s| > 1 {
      var init := s[..|s| - 1];
      SortedFromSteps(init);
      forall i | 0 <= i < |s| - 1
        ensures InstantAtMost(s[i], s[|s| - 1])
      {
        if i < |s| - 2 {
          assert InstantAtMost(init[i], init[|s| - 2]);
          AtMostTransitive(s[i], s[|s| - 2], s[|s| - 1]);
        }
      }
    }
  }

  /** The inferred instants are already in order, so the later sort leaves them as they are. */
  lemma InferredSorted(times: seq<TimeOfDay>, base: CalendarDate)
    ensures Sorted(InferredInstants(times, base))
  {
    forall i | 0 < i < |times|
      ensures InstantAtMost(InferredInstants(times, base)[i - 1], InferredInstants(times, base)[i])
    {
      InferredStep(times, base, i);
    }
    SortedFromSteps(InferredInstants(times, base));
  }

  /** Inserting x into a sorted sequence. */
  function Insert(x: Instant, s: seq<Instant>): (r: seq<Instant>)
    requires Sorted(s)
    ensures Sorted(r) && multiset(r) == multiset(s) + multiset{x} && |r| == |s| + 1
  {
    if s == [] then [x]
    else if InstantAtMost(x, s[0]) then
      BelowHead(x, s);
      PrependSorted(x, s);
      [x] + s
    else
      var rest := Insert(x, s[1..]);
      BelowInserted(x, s, rest);
      PrependSorted(s[0], rest);
      assert s == [s[0]] + s[1..];
      [s[0]] + rest
  }

  /** A sorted sequence with one more instant in front, at most all of it, is sorted. */
  lemma PrependSorted(y: Instant, s: seq<Instant>)
    requires Sorted(s) && forall j :: 0 <= j < |s| ==> InstantAtMost(y, s[j])
    ensures Sorted([y] + s)
  {
    var r := [y] + s;
    forall i, j | 0 <= i < j < |r| ensures InstantAtMost(r[i], r[j]) {
      assert r[j] == s[j - 1];
      if i > 0 { assert r[i] == s[i - 1]; }
    }
  }

  /** An instant at most the head of a sorted sequence is at most all of it. */
  lemma BelowHead(x: Instant, s: seq<Instant>)
    requires Sorted(s) && s != [] && InstantAtMost(x, s[0])
    ensures forall j :: 0 <= j < |s| ==> InstantAtMost(x, s[j])
  {
    forall j | 0 <= j < |s| ensures InstantAtMost(x, s[j]) {
      if j > 0 { AtMostTransitive(x, s[0], s[j]); }
    }
  }

  /** The head of a sorted sequence, earlier than x, is at most every instant of the tail with x
      inserted. */
  lemma BelowInserted(x: Instant, s: seq<Instant>, rest: seq<Instant>)
    requires Sorted(s) && s != [] && !InstantAtMost(x, s[0])
    requires multiset(rest) == multiset(s[1..]) + multiset{x}
    ensures forall j :: 0 <= j < |rest| ==> InstantAtMost(s[0], rest[j])
  {
    forall j | 0 <= j < |rest| ensures InstantAtMost(s[0], rest[j]) {
      assert rest[j] in multiset(rest);
      if rest[j] != x {
        assert rest[j] in multiset(s[1..]);
        var k :| 0 <= k < |s[1..]| && s[1..][k] == rest[j];
        assert s[k + 1] == rest[j];
      }
    }
  }

  /** `sort_values('datetime')`, as an insertion sort; any sort gives the same sequence (see
      SortedUnique). */
  function SortInstants(s: seq<Instant>): (r: seq<Instant>)
    ensures Sorted(r) && multiset(r) == multiset(s) && |r| == |s|
  {
    if s == [] then []
    else
      assert s == s[..|s| - 1] + [s[|s| - 1]];
      Insert(s[|s| - 1], SortInstants(s[..|s| - 1]))
  }

  /** Two sorted arrangements of the same samples are equal: the result of sorting does not depend
      on the algorithm, nor on its stability. */
  lemma {:induction false} SortedUnique(a: seq<Instant>, b: seq<Instant>)
    requires Sorted(a) && Sorted(b) && multiset(a) == multiset(b)
    ensures a == b
  {
    assert |a| == |multiset(a)| == |multiset(b)| == |b|;
    if a != [] {
      SortedHeads(a, b);
      TailMultiset(a);
      TailMultiset(b);
      SortedUnique(a[1..], b[1..]);
      assert a == [a[0]] + a[1..] && b == [b[0]] + b[1..];
    }
  }

  /** Two non-empty sorted arrangements of the same samples start with the same sample. */
  lemma SortedHeads(a: seq<Instant>, b: seq<Instant>)
    requires Sorted(a) && Sorted(b) && multiset(a) == multiset(b) && a != [] && b != []
    ensures a[0] == b[0]
  {
    assert a[0] in multiset(b);
    var k :| 0 <= k < |b| && b[k] == a[0];
    assert b[0] in multiset(a);
    var m :| 0 <= m < |a| && a[m] == b[0];
    assert InstantAtMost(b[0], a[0]) by { if k > 0 { assert InstantAtMost(b[0], b[k]); } }
    assert InstantAtMost(a[0], b[0]) by { if m > 0 { assert InstantAtMost(a[0], a[m]); } }
    AtMostAntisymmetric(a[0], b[0]);
  }

  lemma TailMultiset(a: seq<Instant>)
    requires a != []
    ensures multiset(a[1..]) == multiset(a) - multiset{a[0]}
  {
    assert a == [a[0]] + a[1..];
  }

  /** Sorting a sequence that is already in order changes nothing. */
  lemma SortKeepsSorted(s: seq<Instant>)
    requires Sorted(s)
    ensures SortInstants(s) == s
  {
    SortedUnique(SortInstants(s), s);
  }

  // ---------------------------------------------------------------------------------------------
  // Labels and the title date range

  /** `data['datetime'].dt.date.nunique() > 1`. */
  predicate MultiDay(s: seq<Instant>) {
    exists i, j :: 0 <= i < |s| && 0 <= j < |s| && s[i].date != s[j].date
  }

  /** In a sorted run the samples span several dates exactly when the first and last dates differ. */
  lemma SortedMultiDay(s: seq<Instant>)
    requires Sorted(s) && s != []
    ensures MultiDay(s) <==> s[0].date != s[|s| - 1].date
  {
    if s[0].date == s[|s| - 1].date {
      forall i | 0 <= i < |s| ensures s[i].date == s[0].date {
        if 0 < i < |s| - 1 {
          assert InstantAtMost(s[0], s[i]) && InstantAtMost(s[i], s[|s| - 1]);
        }
      }
    }
  }

  /** The prefix that marks a sample from an earlier day in a time-only log ("(yesterday)" in
      Russian, then a line break). */
  const YesterdayMark := "(\U{0432}\U{0447}\U{0435}\U{0440}\U{0430})<br>"

  function DatedLabel(x: Instant): string
  {
    ShortDateText(x.date) + "<br>" + ClockText(x.time)
  }

  function MarkedLabel(x: Instant, last: Date): string {
    if DateBefore(x.date, last) then YesterdayMark + ClockText(x.time) else ClockText(x.time)
  }

  /** The x-axis labels: the clock alone within one day; otherwise date and clock for a dated log,
      and the clock, marked when the sample's date is before the last sample's, for a time-only
      log. */
  function TimeLabels(s: seq<Instant>, dated: bool): (labels: seq<string>)
    ensures |labels| == |s|
  {
    if !MultiDay(s) then seq(|s|, i requires 0 <= i < |s| => ClockText(s[i].time))
    else if dated then seq(|s|, i requires 0 <= i < |s| => DatedLabel(s[i]))
    else seq(|s|, i requires 0 <= i < |s| => MarkedLabel(s[i], s[|s| - 1].date))
  }

  /** Two digits at s[i], s[i + 1] that write n. */
  predicate ShowsTwoDigits(s: string, i: nat, n: nat) {
    i + 2 <= |s| && IsDigit(s[i]) && IsDigit(s[i + 1]) && TwoDigitsAt(s, i) == n
  }

  /** In a dated log spanning several days, label i shows sample i's day, month and two-digit
      year, then after the line break a clock that reads back as the sample's time. */
  lemma DatedLabelShows(s: seq<Instant>, i: nat)
    requires MultiDay(s) && i < |s|
    ensures var shown := TimeLabels(s, true)[i];
      |shown| == 20
      && ShowsTwoDigits(shown, 0, s[i].date.day)
      && ShowsTwoDigits(shown, 3, s[i].date.month)
      && ShowsTwoDigits(shown, 6, s[i].date.year % 100)
      && shown[8..12] == "<br>"
      && ParseClock(shown[12..]) == Some(s[i].time)
  {
    var x := s[i];
    var shown := TimeLabels(s, true)[i];
    assert shown == DatedLabel(x);
    var day, month, year := TwoDigits(x.date.day), TwoDigits(x.date.month), TwoDigits(x.date.year % 100);
    var clock := ClockText(x.time);
    assert shown == day + "." + month + "." + year + "<br>" + clock;
    assert shown[0..2] == day && shown[3..5] == month && shown[6..8] == year;
    assert shown[8..12] == "<br>" && shown[12..] == clock;
    TwoDigitsRead(shown, 0, x.date.day);
    TwoDigitsRead(shown, 3, x.date.month);
    TwoDigitsRead(shown, 6, x.date.year % 100);
    ClockRoundTrip(x.time);
  }

  predicate StartsWith(s: string, prefix: string) {
    |prefix| <= |s| && s[..|prefix|] == prefix
  }

  /** When all samples share a date, every label is the bare clock, dated log or not. */
  lemma OneDayPlainLabels(s: seq<Instant>, dated: bool)
    requires forall i :: 0 <= i < |s| ==> s[i].date == s[0].date
    ensures forall i :: 0 <= i < |s| ==> TimeLabels(s, dated)[i] == ClockText(s[i].time)
  {
  }

  /** In a time-only log spanning several days, a label carries the mark exactly when its sample's
      date is before the last sample's; so the last label is never marked. */
  lemma MarkedIffEarlier(s: seq<Instant>)
    requires MultiDay(s)
    ensures forall i :: 0 <= i < |s| ==>
      (StartsWith(TimeLabels(s, false)[i], YesterdayMark) <==> DateBefore(s[i].date, s[|s| - 1].date))
    ensures !StartsWith(TimeLabels(s, false)[|s| - 1], YesterdayMark)
  {
    forall i | 0 <= i < |s|
      ensures StartsWith(TimeLabels(s, false)[i], YesterdayMark) <==> DateBefore(s[i].date, s[|s| - 1].date)
    {
      var c := ClockText(s[i].time);
      if DateBefore(s[i].date, s[|s| - 1].date) {
        assert TimeLabels(s, false)[i] == YesterdayMark + c;
      } else {
        assert TimeLabels(s, false)[i] == c;
        assert c[0] != YesterdayMark[0];
      }
    }
  }

  /** The date range in the title: the first date, then ` - ` and the last date when they differ. */
  function DateRange(s: seq<Instant>): (range: string)
    requires s != []
  {
    var first := LongDateText(s[0].date);
    if s[0].date == s[|s| - 1].date then first else first + " - " + LongDateText(s[|s| - 1].date)
  }

  /** The title shows a single date exactly when the first and last samples share it; otherwise it
      shows both, first to last. For the sorted samples the report uses, the two dates bound every
      sample's date, and a single date is shown exactly when the log spans one day. */
  lemma DateRangeShape(s: seq<Instant>)
    requires s != []
    ensures DateRange(s) == LongDateText(s[0].date) <==> s[0].date == s[|s| - 1].date
    ensures s[0].date != s[|s| - 1].date ==>
      DateRange(s) == LongDateText(s[0].date) + " - " + LongDateText(s[|s| - 1].date)
    ensures Sorted(s) ==> forall i :: 0 <= i < |s| ==>
      !DateBefore(s[i].date, s[0].date) && !DateBefore(s[|s| - 1].date, s[i].date)
    ensures Sorted(s) ==> (DateRange(s) == LongDateText(s[0].date) <==> !MultiDay(s))
  {
    if Sorted(s) {
      SortedMultiDay(s);
      forall i | 0 <= i < |s| ensures !DateBefore(s[i].date, s[0].date) && !DateBefore(s[|s| - 1].date, s[i].date) {
        if 0 < i {
          assert InstantAtMost(s[0], s[i]);
        }
        if i < |s| - 1 {
          assert InstantAtMost(s[i], s[|s| - 1]);
        }
      }
    }
  }


  // ---------------------------------------------------------------------------------------------
  // The report

  /** Why the report is not drawn: the fixed missing-columns error, the index of the first
      timestamp that does not parse, or an empty time-only column. */
  datatype PlotError = MissingColumnsError | BadTimestamp(index: nat) | NoSamples

  /** What the report shows about time: the samples' instants in plotting order, the x-axis
      labels, and the date range of the title. */
  datatype Report = Report(instants: seq<Instant>, labels: seq<string>, dateRange: string)

  function Summary(s: seq<Instant>, dated: bool): (r: Report)
    requires s != []
  {
    Report(s, TimeLabels(s, dated), DateRange(s))
  }

  /** `plot_battery_data` up to the figure: the column check, the date test, the parse (with
      rollover inference for a time-only log), the sort, the labels and the title range. Every
      exception the body raises ends the call with an error. */
  method PlotBatteryData(columns: seq<string>, timestamps: seq<string>, today: CalendarDate)
    returns (r: Result<Report, PlotError>)
    ensures MissingColumns(columns) != [] ==> r == Failure(MissingColumnsError)
    ensures MissingColumns(columns) == [] && AnyHasDate(timestamps) ==>
      match ParseAll(timestamps, ParseDateTime)
      case Failure(k) => r == Failure(BadTimestamp(k))
      case Success(xs) => r == Success(Summary(SortInstants(xs), true))
    ensures MissingColumns(columns) == [] && !AnyHasDate(timestamps) ==>
      match ParseAll(timestamps, ParseClock)
      case Failure(k) => r == Failure(BadTimestamp(k))
      case Success(ts) =>
        if ts == [] then r == Failure(NoSamples)
        else r == Success(Summary(InferredInstants(ts, today), false))
    ensures r.Success? ==>
      Sorted(r.value.instants) && |r.value.instants| == |timestamps| && |r.value.labels| == |timestamps|
  {
    var missing := MissingColumns(columns);
    if missing != [] {
      return Failure(MissingColumnsError);
    }
    var dated := AnyHasDate(timestamps);
    var instants: seq<Instant>;
    if dated {
      var parsed := ParseAll(timestamps, ParseDateTime);
      if parsed.Failure? {
        return Failure(BadTimestamp(parsed.error));
      }
      instants := parsed.value;
    } else {
      var parsed := ParseAll(timestamps, ParseClock);
      if parsed.Failure? {
        return Failure(BadTimestamp(parsed.error));
      }
      var inferred := InferDates(parsed.value, today);
      if inferred.None? {
        return Failure(NoSamples);
      }
      instants := inferred.value;
      InferredSorted(parsed.value, today);
    }
    var sorted := SortInstants(instants);
    if !dated {
      SortKeepsSorted(instants);
    }
    r := Success(Summary(sorted, dated));
  }
}
