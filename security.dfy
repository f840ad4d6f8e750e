/**
 * The Security dashboard's data pipeline: the corporate and natural week
 * numbers, the comparison date, the enumeration of the selected date range,
 * the raw series (one point per day with a value per production line) and
 * the grouping of that series into week or month buckets by a running
 * pairwise average.
 */
module Security {
  import opened Common
  import opened Calendar
  import opened Config

  // ---------------------------------------------------------------- weeks

  /**
   * The first Sunday on or after the first of January of `y`: where the
   * corporate year starts. It falls within the first seven days.
   */
  function FirstSunday(y: int): (r: Date)
    ensures Valid(r) && r.year == y && r.month == 1 && 1 <= r.day <= 7
    ensures Weekday(r) == 0
    ensures forall k :: 1 <= k < r.day ==> Weekday(Date(y, 1, k)) != 0
  {
    var w := Weekday(Date(y, 1, 1));
    var r := Date(y, 1, 1 + (7 - w) % 7);
    forall k | 1 <= k <= r.day
      ensures Weekday(Date(y, 1, k)) == 0 <==> k == r.day
    {
      SundayOffset(DaysBeforeYear(y) + 4, k - 1);
    }
    r
  }

  /** `j` days after a day with number `a - 4` is a Sunday exactly at the offset the first Sunday has. */
  lemma SundayOffset(a: int, j: int)
    requires 0 <= j < 7
    ensures (a + j) % 7 == 0 <==> j == (7 - a % 7) % 7
  {
    var w := a % 7;
    assert a == 7 * (a / 7) + w;
    assert (a + j) % 7 == (w + j) % 7;
  }

  /** Corporate week: whole weeks elapsed since the year's first Sunday, plus one; 0 or less before that Sunday. */
  function CorporateWeek(d: Date): int
    requires Valid(d)
  {
    (DayNumber(d) - DayNumber(FirstSunday(d.year))) / 7 + 1
  }

  /**
   * `getCorporateWeek`: walks from the first of January to the first Sunday,
   * then counts whole weeks (`Math.floor` of a day difference over seven).
   */
  method GetCorporateWeek(d: Date) returns (week: int)
    requires Valid(d)
    ensures week == CorporateWeek(d)
  {
    var start := Date(d.year, 1, 1);
    while Weekday(start) != 0
      invariant Valid(start) && start.year == d.year && start.month == 1
      invariant 1 <= start.day <= FirstSunday(d.year).day
      decreases FirstSunday(d.year).day - start.day
    {
      start := NextDay(start);
    }
    week := (DayNumber(d) - DayNumber(start)) / 7 + 1;
  }

  /**
   * Week `k` is exactly the seven days starting `7 * (k - 1)` days after the
   * first Sunday: week 1 is the epoch and the six days after it, and every
   * day before the epoch has week 0 or less.
   */
  lemma CorporateWeekIs(d: Date, k: int)
    requires Valid(d)
    ensures var epoch := DayNumber(FirstSunday(d.year));
      CorporateWeek(d) == k <==> epoch + 7 * (k - 1) <= DayNumber(d) < epoch + 7 * k
  {
  }

  lemma CorporateWeekBeforeEpoch(d: Date)
    requires Valid(d) && DayNumber(d) < DayNumber(FirstSunday(d.year))
    ensures CorporateWeek(d) <= 0
  {
    CorporateWeekIs(d, CorporateWeek(d));
  }

  /** Within one year the corporate week never decreases. */
  lemma CorporateWeekMonotone(d1: Date, d2: Date)
    requires Valid(d1) && Valid(d2) && d1.year == d2.year
    requires DayNumber(d1) <= DayNumber(d2)
    ensures CorporateWeek(d1) <= CorporateWeek(d2)
  {
    CorporateWeekIs(d1, CorporateWeek(d1));
    CorporateWeekIs(d2, CorporateWeek(d2));
  }

  /**
   * The natural week of the month: the ceiling of (day of month + weekday of
   * the first of the month) over seven.
   */
  function NaturalWeek(d: Date): (week: int)
    requires Valid(d)
    ensures 7 * (week - 1) < d.day + Weekday(Date(d.year, d.month, 1)) <= 7 * week
    ensures 1 <= week <= 6
  {
    (d.day + Weekday(Date(d.year, d.month, 1)) + 6) / 7
  }

  // ---------------------------------------------------------------- comparison

  datatype ComparisonMode = NoComparison | PreviousWeek | PreviousYear

  /**
   * `getComparisonData`: the same date, the date a week earlier, or the same
   * month and day a year earlier (29 February rolls over to 1 March).
   */
  function ComparisonDate(d: Date, mode: ComparisonMode): (r: Date)
    requires Valid(d)
    ensures Valid(r)
    ensures mode == NoComparison ==> r == d
    ensures mode == PreviousWeek ==> DayNumber(r) == DayNumber(d) - 7
    ensures mode == PreviousYear ==> r.year == d.year - 1
  {
    match mode
    case NoComparison => d
    case PreviousWeek => DaysEarlier(d, 7)
    case PreviousYear =>
      if d.day <= DaysInMonth(d.year - 1, d.month) then Date(d.year - 1, d.month, d.day)
      else Date(d.year - 1, 3, 1)
  }

  /** Moving the year changes the days before a month only through February. */
  lemma {:induction false} MonthShift(y: int, z: int, m: int)
    requires 1 <= m <= 12
    ensures DaysBeforeMonth(y, m) - DaysBeforeMonth(z, m) ==
      if m >= 3 then DaysInMonth(y, 2) - DaysInMonth(z, 2) else 0
  {
    if m > 1 {
      MonthShift(y, z, m - 1);
    }
  }

  /**
   * The previous-year comparison lies 365 or 366 days back: the month and day
   * are kept where they exist, and 29 February maps to 1 March, a year minus
   * one day back.
   */
  lemma PreviousYearDistance(d: Date)
    requires Valid(d)
    ensures var r := ComparisonDate(d, PreviousYear);
      365 <= DayNumber(d) - DayNumber(r) <= 366 &&
      (Valid(Date(d.year - 1, d.month, d.day)) ==> r.month == d.month && r.day == d.day) &&
      (!Valid(Date(d.year - 1, d.month, d.day)) ==> d.month == 2 && d.day == 29 && r == Date(d.year - 1, 3, 1))
  {
    if d.day <= DaysInMonth(d.year - 1, d.month) {
      SameDayLastYear(d);
    } else {
      LeapDayLastYear(d.year);
    }
  }

  /** A date that exists a year earlier lies 365 or 366 days after it. */
  lemma SameDayLastYear(d: Date)
    requires Valid(d) && d.day <= DaysInMonth(d.year - 1, d.month)
    ensures 365 <= DayNumber(d) - DayNumber(Date(d.year - 1, d.month, d.day)) <= 366
  {
    YearLength(d.year - 1);
    MonthShift(d.year, d.year - 1, d.month);
  }

  /** 29 February lies exactly 365 days after 1 March of the year before. */
  lemma LeapDayLastYear(y: int)
    requires Valid(Date(y, 2, 29)) && !Valid(Date(y - 1, 2, 29))
    ensures DayNumber(Date(y, 2, 29)) - DayNumber(Date(y - 1, 3, 1)) == 365
  {
    YearLength(y - 1);
    assert DaysBeforeMonth(y, 2) == 31;
    assert DaysBeforeMonth(y - 1, 2) == 31;
    assert DaysBeforeMonth(y - 1, 3) == 59;
  }

  // ---------------------------------------------------------------- date range

  /** `n` consecutive days starting at `start`. */
  function DaysFrom(start: Date, n: nat): (days: seq<Date>)
    requires Valid(start)
    ensures |days| == n
    ensures forall i :: 0 <= i < n ==> Valid(days[i]) && DayNumber(days[i]) == DayNumber(start) + i
    decreases n
  {
    if n == 0 then []
    else
      var rest := DaysFrom(NextDay(start), n - 1);
      assert forall i :: 1 <= i < n ==> ([start] + rest)[i] == rest[i - 1];
      [start] + rest
  }

  /** Number of days from `start` through `end`, none when `start` is later. */
  function DayCount(start: Date, end: Date): nat
    requires Valid(start) && Valid(end)
  {
    if DayNumber(start) <= DayNumber(end) then DayNumber(end) - DayNumber(start) + 1 else 0
  }

  /** The dates of the selected range, `start` through `end` inclusive. */
  function DateRange(start: Date, end: Date): (days: seq<Date>)
    requires Valid(start) && Valid(end)
    ensures forall i :: 0 <= i < |days| ==> Valid(days[i])
  {
    DaysFrom(start, DayCount(start, end))
  }

  lemma {:induction false} DaysFromConsecutive(start: Date, n: nat)
    requires Valid(start)
    ensures forall i :: 0 <= i < n - 1 ==> DaysFrom(start, n)[i + 1] == NextDay(DaysFrom(start, n)[i])
    decreases n
  {
    if n > 1 {
      var rest := DaysFrom(NextDay(start), n - 1);
      DaysFromConsecutive(NextDay(start), n - 1);
      var days := [start] + rest;
      assert rest[0] == NextDay(start);
      forall i | 0 <= i < n - 1
        ensures days[i + 1] == NextDay(days[i])
      {
        if i > 0 {
          assert days[i + 1] == rest[i] && days[i] == rest[i - 1];
        }
      }
    }
  }

  /**
   * The range is consecutive ascending days from `start` to `end` inclusive:
   * `end - start + 1` of them, or none when `start` is after `end`.
   */
  lemma DateRangeSpans(start: Date, end: Date)
    requires Valid(start) && Valid(end)
    ensures var days := DateRange(start, end);
      |days| == (if DayNumber(start) <= DayNumber(end) then DayNumber(end) - DayNumber(start) + 1 else 0) &&
      (|days| > 0 ==> days[0] == start && DayNumber(days[|days| - 1]) == DayNumber(end)) &&
      (forall i :: 0 <= i < |days| ==> Valid(days[i]) && DayNumber(days[i]) == DayNumber(start) + i) &&
      (forall i :: 0 <= i < |days| - 1 ==> days[i + 1] == NextDay(days[i]))
  {
    DaysFromConsecutive(start, DayCount(start, end));
  }

  /** The `dates` memo: pushes each day from `start` while it is not after `end`. */
  method EnumerateDays(start: Date, end: Date) returns (days: seq<Date>)
    requires Valid(start) && Valid(end)
    ensures days == DateRange(start, end)
  {
    days := [];
    var current := start;
    while DayNumber(current) <= DayNumber(end)
      invariant Valid(current)
      invariant DayNumber(current) == DayNumber(start) + |days|
      invariant days + DaysFrom(current, DayCount(current, end)) == DateRange(start, end)
      decreases DayNumber(end) - DayNumber(current)
    {
      ghost var n := DayCount(current, end);
      assert DaysFrom(current, n) == [current] + DaysFrom(NextDay(current), n - 1);
      assert days + [current] + DaysFrom(NextDay(current), n - 1) == days + DaysFrom(current, n);
      days := days + [current];
      current := NextDay(current);
    }
  }

  // ---------------------------------------------------------------- raw series

  /** `filteredLines`: every line for "all", otherwise the selected one alone. */
  function FilteredLines(selected: string): (lines: seq<string>)
    ensures 1 <= |lines| <= 4
    ensures forall l :: l in lines <==> (if selected == "all" then l in Lines else l == selected)
  {
    if selected == "all" then Lines else [selected]
  }

  /** A column of a chart row: a line's value or its comparison value. */
  datatype Field = LineValue(line: string) | LineComparison(line: string)

  /** The week or month a row is grouped under. */
  datatype GroupKey = WeekKey(week: int) | MonthKey(year: int, month: int)

  /** One row of the chart and table. */
  datatype ChartRow = ChartRow(date: Date, groupKey: Option<GroupKey>, values: map<Field, real>)

  /** The stored value of a line on a date, 0 when there is none (`|| 0`). */
  function Stored(data: map<string, map<Date, real>>, line: string, date: Date): real
    requires line in data
  {
    if date in data[line] then data[line][date] else 0.0
  }

  /**
   * The values of one data point: every line's stored value and, when a
   * comparison is selected, its value on the comparison date.
   */
  function LineValues(lines: seq<string>, data: map<string, map<Date, real>>, date: Date, mode: ComparisonMode)
    : (m: map<Field, real>)
    requires Valid(date) && forall l :: l in lines ==> l in data
    ensures forall f :: f in m <==> f.line in lines && (f.LineValue? || mode != NoComparison)
    ensures forall l :: l in lines ==> m[LineValue(l)] == Stored(data, l, date)
    ensures mode != NoComparison ==>
      forall l :: l in lines ==> m[LineComparison(l)] == Stored(data, l, ComparisonDate(date, mode))
  {
    var fields := (set l | l in lines :: LineValue(l)) +
      (if mode == NoComparison then {} else set l | l in lines :: LineComparison(l));
    assert forall f: Field :: f in fields <==> f.line in lines && (f.LineValue? || mode != NoComparison) by {
      forall f: Field | f.line in lines && (f.LineValue? || mode != NoComparison)
        ensures f in fields
      {
        if f.LineValue? {
          assert f == LineValue(f.line);
        } else {
          assert f == LineComparison(f.line);
        }
      }
    }
    map f | f in fields :: FieldValue(data, date, mode, f)
  }

  /** The value `chartData` writes into one field of a data point. */
  function FieldValue(data: map<string, map<Date, real>>, date: Date, mode: ComparisonMode, f: Field): real
    requires Valid(date) && f.line in data
  {
    match f
    case LineValue(l) => Stored(data, l, date)
    case LineComparison(l) => Stored(data, l, ComparisonDate(date, mode))
  }

  /** The raw series: one ungrouped point per date, in date order. */
  function RawChartData(dates: seq<Date>, lines: seq<string>, data: map<string, map<Date, real>>, mode: ComparisonMode)
    : (rows: seq<ChartRow>)
    requires forall i :: 0 <= i < |dates| ==> Valid(dates[i])
    requires forall l :: l in lines ==> l in data
    ensures |rows| == |dates|
    ensures forall i :: 0 <= i < |rows| ==>
      rows[i].date == dates[i] && rows[i].groupKey == None &&
      rows[i].values == LineValues(lines, data, dates[i], mode)
  {
    seq(|dates|, i requires 0 <= i < |dates| => ChartRow(dates[i], None, LineValues(lines, data, dates[i], mode)))
  }

  // ---------------------------------------------------------------- grouping

  datatype GroupBy = ByDay | ByWeek | ByMonth
  datatype DateType = Natural | Corporate

  predicate AllValid(rows: seq<ChartRow>) {
    forall i :: 0 <= i < |rows| ==> Valid(rows[i].date)
  }

  /** The bucket of a date; the month key depends only on its year and month. */
  function KeyOf(d: Date, groupBy: GroupBy, dateType: DateType): GroupKey
    requires Valid(d) && groupBy != ByDay
  {
    if groupBy == ByMonth then MonthKey(d.year, d.month)
    else if dateType == Natural then WeekKey(NaturalWeek(d))
    else WeekKey(CorporateWeek(d))
  }

  /** The index of the first row already carrying `key` (the `find`). */
  function FindGroup(acc: seq<ChartRow>, key: GroupKey): (r: Option<nat>)
    ensures r.Some? ==> r.value < |acc| && acc[r.value].groupKey == Some(key)
    ensures r.Some? ==> forall k :: 0 <= k < r.value ==> acc[k].groupKey != Some(key)
    ensures r.None? <==> forall k :: 0 <= k < |acc| ==> acc[k].groupKey != Some(key)
  {
    if acc == [] then None
    else if acc[0].groupKey == Some(key) then Some(0)
    else match FindGroup(acc[1..], key)
      case None => None
      case Some(j) => Some(j + 1)
  }

  /** Folding `item` into its group: every shared field becomes the mean of the two values. */
  function Merge(group: ChartRow, item: ChartRow): ChartRow {
    group.(values := map f | f in group.values ::
      if f in item.values then (group.values[f] + item.values[f]) / 2.0 else group.values[f])
  }

  /** One step of the `reduce`: merge into the existing group, or open a new one. */
  function Step(acc: seq<ChartRow>, item: ChartRow, key: GroupKey): seq<ChartRow> {
    match FindGroup(acc, key)
    case Some(j) => acc[j := Merge(acc[j], item)]
    case None => acc + [item.(groupKey := Some(key))]
  }

  /** The grouped rows of `data`, folded from the left. */
  function GroupSpec(data: seq<ChartRow>, groupBy: GroupBy, dateType: DateType): seq<ChartRow>
    requires AllValid(data) && groupBy != ByDay
  {
    if data == [] then []
    else
      var last := data[|data| - 1];
      Step(GroupSpec(data[..|data| - 1], groupBy, dateType), last, KeyOf(last.date, groupBy, dateType))
  }

  /** `groupData`: the input itself for daily grouping, the folded groups otherwise. */
  function Grouped(data: seq<ChartRow>, groupBy: GroupBy, dateType: DateType): seq<ChartRow>
    requires AllValid(data)
  {
    if groupBy == ByDay then data else GroupSpec(data, groupBy, dateType)
  }

  /** The key computation of the `reduce`, calling `getCorporateWeek` for corporate weeks. */
  method ComputeKey(d: Date, groupBy: GroupBy, dateType: DateType) returns (key: GroupKey)
    requires Valid(d) && groupBy != ByDay
    ensures key == KeyOf(d, groupBy, dateType)
  {
    if groupBy == ByMonth {
      key := MonthKey(d.year, d.month);
    } else if dateType == Natural {
      key := WeekKey(NaturalWeek(d));
    } else {
      var week := GetCorporateWeek(d);
      key := WeekKey(week);
    }
  }

  /** `acc.find(g => g.groupKey === key)`, as a linear scan. */
  method Find(acc: seq<ChartRow>, key: GroupKey) returns (r: Option<nat>)
    ensures r == FindGroup(acc, key)
  {
    var j := 0;
    while j < |acc| && acc[j].groupKey != Some(key)
      invariant 0 <= j <= |acc|
      invariant forall k :: 0 <= k < j ==> acc[k].groupKey != Some(key)
    {
      j := j + 1;
    }
    r := if j < |acc| then Some(j) else None;
  }

  /** The `groupData` reduce: each row joins the group it finds or opens a new one. */
  method GroupData(data: seq<ChartRow>, groupBy: GroupBy, dateType: DateType) returns (out: seq<ChartRow>)
    requires AllValid(data)
    ensures out == Grouped(data, groupBy, dateType)
    ensures groupBy == ByDay ==> out == data
  {
    if groupBy == ByDay {
      return data;
    }
    out := [];
    for i := 0 to |data|
      invariant out == GroupSpec(data[..i], groupBy, dateType)
    {
      var item := data[i];
      var key := ComputeKey(item.date, groupBy, dateType);
      var found := Find(out, key);
      assert data[..i + 1][..i] == data[..i];
      if found.Some? {
        out := out[found.value := Merge(out[found.value], item)];
      } else {
        out := out + [item.(groupKey := Some(key))];
      }
    }
    assert data[..|data|] == data;
  }

  // ---------------------------------------------------------------- grouping properties

  /** The group keys of the grouped rows, in order. */
  function KeysOf(rows: seq<ChartRow>): seq<Option<GroupKey>> {
    seq(|rows|, i requires 0 <= i < |rows| => rows[i].groupKey)
  }

  /** The key of every input row, in input order. */
  function KeySeq(data: seq<ChartRow>, groupBy: GroupBy, dateType: DateType): seq<Option<GroupKey>>
    requires AllValid(data) && groupBy != ByDay
  {
    seq(|data|, i requires 0 <= i < |data| => Some(KeyOf(data[i].date, groupBy, dateType)))
  }

  lemma StepShape(acc: seq<ChartRow>, item: ChartRow, key: GroupKey)
    ensures var next := Step(acc, item, key);
      KeysOf(next) == (if Some(key) in KeysOf(acc) then KeysOf(acc) else KeysOf(acc) + [Some(key)]) &&
      (forall i :: 0 <= i < |next| ==> next[i].date == (if i < |acc| then acc[i].date else item.date))
  {
    var next := Step(acc, item, key);
    match FindGroup(acc, key)
    case Some(j) =>
      assert KeysOf(acc)[j] == Some(key);
      assert KeysOf(next) == KeysOf(acc);
    case None =>
      assert Some(key) !in KeysOf(acc);
      assert KeysOf(next) == KeysOf(acc) + [Some(key)];
  }

  lemma KeySeqPrefix(data: seq<ChartRow>, groupBy: GroupBy, dateType: DateType)
    requires AllValid(data) && groupBy != ByDay && data != []
    ensures var last := data[|data| - 1];
      KeySeq(data, groupBy, dateType) ==
        KeySeq(data[..|data| - 1], groupBy, dateType) + [Some(KeyOf(last.date, groupBy, dateType))]
  {
  }

  /**
   * Grouping yields exactly one row per distinct key of the input, in the
   * order the keys are first seen.
   */
  lemma {:induction false} GroupKeysDistinct(data: seq<ChartRow>, groupBy: GroupBy, dateType: DateType)
    requires AllValid(data) && groupBy != ByDay
    ensures KeysOf(GroupSpec(data, groupBy, dateType)) == Distinct(KeySeq(data, groupBy, dateType))
  {
    if data != [] {
      var init, last := data[..|data| - 1], data[|data| - 1];
      GroupKeysDistinct(init, groupBy, dateType);
      KeySeqPrefix(data, groupBy, dateType);
      StepShape(GroupSpec(init, groupBy, dateType), last, KeyOf(last.date, groupBy, dateType));
    }
  }

  lemma FirstIndexAppend<T>(s: seq<T>, y: T, x: T)
    requires x in s + [y]
    ensures FirstIndex(s + [y], x) == if x in s then FirstIndex(s, x) else |s|
  {
    var i := FirstIndex(s + [y], x);
    if x in s {
      var k := FirstIndex(s, x);
      assert (s + [y])[k] == x;
    }
  }

  /** Each row of `out` carries a key of `keys` and the date of the first input row with that key. */
  predicate DatesFirstSeen(out: seq<ChartRow>, data: seq<ChartRow>, keys: seq<Option<GroupKey>>)
    requires |keys| == |data|
  {
    forall i :: 0 <= i < |out| ==>
      out[i].groupKey in keys && out[i].date == data[FirstIndex(keys, out[i].groupKey)].date
  }

  lemma FirstSeenStep(
    acc: seq<ChartRow>, init: seq<ChartRow>, initKeys: seq<Option<GroupKey>>, item: ChartRow, key: GroupKey)
    requires |initKeys| == |init| && DatesFirstSeen(acc, init, initKeys)
    requires Some(key) in KeysOf(acc) <==> Some(key) in initKeys
    ensures DatesFirstSeen(Step(acc, item, key), init + [item], initKeys + [Some(key)])
  {
    var out, data, keys := Step(acc, item, key), init + [item], initKeys + [Some(key)];
    StepShape(acc, item, key);
    forall i | 0 <= i < |out|
      ensures out[i].groupKey in keys && out[i].date == data[FirstIndex(keys, out[i].groupKey)].date
    {
      assert KeysOf(out)[i] == out[i].groupKey;
      if i < |acc| {
        assert KeysOf(acc)[i] == acc[i].groupKey;
        FirstIndexAppend(initKeys, Some(key), acc[i].groupKey);
      } else {
        FirstIndexAppend(initKeys, Some(key), Some(key));
      }
    }
  }

  /** Every group keeps the date of the first input row that opened it. */
  lemma {:induction false} GroupDatesFirstSeen(data: seq<ChartRow>, groupBy: GroupBy, dateType: DateType)
    requires AllValid(data) && groupBy != ByDay
    ensures DatesFirstSeen(GroupSpec(data, groupBy, dateType), data, KeySeq(data, groupBy, dateType))
  {
    if data != [] {
      var init, last := data[..|data| - 1], data[|data| - 1];
      var key := KeyOf(last.date, groupBy, dateType);
      GroupDatesFirstSeen(init, groupBy, dateType);
      GroupKeysDistinct(init, groupBy, dateType);
      KeySeqPrefix(data, groupBy, dateType);
      assert init + [last] == data;
      FirstSeenStep(GroupSpec(init, groupBy, dateType), init, KeySeq(init, groupBy, dateType), last, key);
    }
  }

  /** A field of `row` lies within [lo, hi]. */
  predicate FieldWithin(row: ChartRow, f: Field, lo: real, hi: real) {
    f in row.values ==> lo <= row.values[f] <= hi
  }

  /** Every row of the group `key` has field `f` within [lo, hi]. */
  predicate GroupWithin(rows: seq<ChartRow>, key: GroupKey, f: Field, lo: real, hi: real) {
    forall i :: 0 <= i < |rows| && rows[i].groupKey == Some(key) ==> FieldWithin(rows[i], f, lo, hi)
  }

  /** A step touches only the rows of its own key, and any row it adds has that key. */
  lemma StepKeepsOthers(acc: seq<ChartRow>, item: ChartRow, key: GroupKey, other: GroupKey, f: Field, lo: real, hi: real)
    requires other != key && GroupWithin(acc, other, f, lo, hi)
    ensures GroupWithin(Step(acc, item, key), other, f, lo, hi)
  {
    var next := Step(acc, item, key);
    forall i | 0 <= i < |next| && next[i].groupKey == Some(other)
      ensures FieldWithin(next[i], f, lo, hi)
    {
      assert i < |acc| && next[i] == acc[i];
    }
  }

  /** Averaging two values within [lo, hi] stays within [lo, hi]. */
  lemma StepWithin(acc: seq<ChartRow>, item: ChartRow, key: GroupKey, f: Field, lo: real, hi: real)
    requires GroupWithin(acc, key, f, lo, hi) && FieldWithin(item, f, lo, hi)
    ensures GroupWithin(Step(acc, item, key), key, f, lo, hi)
  {
  }

  /**
   * The running pairwise average keeps every merged value between the least
   * and the greatest value its group's input rows hold for that field.
   */
  lemma {:induction false} GroupValuesWithin(
    data: seq<ChartRow>, groupBy: GroupBy, dateType: DateType, key: GroupKey, f: Field, lo: real, hi: real)
    requires AllValid(data) && groupBy != ByDay
    requires forall j :: 0 <= j < |data| && KeyOf(data[j].date, groupBy, dateType) == key ==>
      FieldWithin(data[j], f, lo, hi)
    ensures GroupWithin(GroupSpec(data, groupBy, dateType), key, f, lo, hi)
  {
    if data != [] {
      var init, last := data[..|data| - 1], data[|data| - 1];
      var k := KeyOf(last.date, groupBy, dateType);
      assert forall j :: 0 <= j < |init| ==> init[j] == data[j];
      GroupValuesWithin(init, groupBy, dateType, key, f, lo, hi);
      var acc := GroupSpec(init, groupBy, dateType);
      if k == key {
        StepWithin(acc, last, k, f, lo, hi);
      } else {
        StepKeepsOthers(acc, last, k, key, f, lo, hi);
      }
    }
  }

  // ---------------------------------------------------------------- pipeline

  /** `chartData`: enumerate the range, build the raw series, then group it. */
  method ChartData(
    start: Date, end: Date, selectedLine: string, data: map<string, map<Date, real>>,
    mode: ComparisonMode, groupBy: GroupBy, dateType: DateType)
    returns (rows: seq<ChartRow>)
    requires Valid(start) && Valid(end)
    requires forall l :: l in FilteredLines(selectedLine) ==> l in data
    ensures rows == Grouped(RawChartData(DateRange(start, end), FilteredLines(selectedLine), data, mode), groupBy, dateType)
  {
    var dates := EnumerateDays(start, end);
    var raw := RawChartData(dates, FilteredLines(selectedLine), data, mode);
    rows := GroupData(raw, groupBy, dateType);
  }
}
