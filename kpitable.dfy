/**
 * The KPI entry grid of an area: a week of dates (today first), a cell per
 * metric, line, shift and date holding the text typed into it, the
 * corrective-action trigger on an entry below the near-miss target, and the
 * per-line total of the three shifts.
 */
module KPITable {
  import opened Common
  import opened Calendar
  import opened Config

  /** The shifts of a production day. */
  const Shifts: seq<string> := ["T1", "T2", "T3"]

  /** The seven dates of the grid: today and each of the six days before it. */
  function DateWindow(today: Date): (dates: seq<Date>)
    requires Valid(today)
    ensures |dates| == 7 && dates[0] == today
    ensures forall i :: 0 <= i < 7 ==> Valid(dates[i]) && DayNumber(dates[i]) == DayNumber(today) - i
  {
    seq(7, i requires 0 <= i < 7 => DaysEarlier(today, i))
  }

  /** Each date of the window is the day before the previous one. */
  lemma DateWindowSteps(today: Date)
    requires Valid(today)
    ensures forall i :: 0 <= i < 6 ==> DateWindow(today)[i + 1] == PrevDay(DateWindow(today)[i])
  {
    forall i | 0 <= i < 6
      ensures DateWindow(today)[i + 1] == PrevDay(DateWindow(today)[i])
    {
      DaysEarlierStep(today, i);
    }
  }

  /**
   * A cell of the grid. The source joins the four parts with '-' into one
   * string, which is not injective; the key here is the tuple itself.
   */
  datatype CellKey = CellKey(metric: string, line: string, shift: string, date: Date)

  /** `Number(text)` of the source: None stands for NaN. */
  type Parser = string -> Option<real>

  /** The first metric of the area with the given id (`metrics.find`). */
  function FindMetric(metrics: seq<MetricConfig>, id: string): (r: Option<MetricConfig>)
    ensures r.Some? ==> r.value.id == id && r.value in metrics
    ensures r.None? <==> forall i :: 0 <= i < |metrics| ==> metrics[i].id != id
    ensures metrics != [] && metrics[0].id == id ==> r == Some(metrics[0])
  {
    if metrics == [] then None
    else if metrics[0].id == id then Some(metrics[0])
    else FindMetric(metrics[1..], id)
  }

  /**
   * The corrective-action trigger: the typed value is a number below the
   * target of the area's near-miss metric. NaN compares false, and an area
   * without that metric never triggers.
   */
  predicate Triggers(metrics: seq<MetricConfig>, parsed: Option<real>) {
    var nearMiss := FindMetric(metrics, NearMissId);
    nearMiss.Some? && parsed.Some? && parsed.value < nearMiss.value.target
  }

  /**
   * With the shipped configuration only the Safety area triggers, and exactly
   * on a number below 80, whichever of its metrics is being edited.
   */
  lemma TriggersByArea(i: int, parsed: Option<real>)
    requires 0 <= i < |KpiAreas|
    ensures Triggers(KpiAreas[i].metrics, parsed) <==>
      KpiAreas[i].name == Safety && parsed.Some? && parsed.value < 80.0
  {
    var metrics := KpiAreas[i].metrics;
    assert |metrics| == 2;
    if KpiAreas[i].name != Safety {
      assert metrics[0].id != NearMissId && metrics[1].id != NearMissId;
    }
  }

  /** The metric shown in the corrective-action dialog. */
  datatype SelectedMetric = SelectedMetric(name: string, value: real, target: real)

  /** The number a cell contributes to a total: missing or non-numeric text counts as 0. */
  function CellNumber(table: map<CellKey, string>, parse: Parser, key: CellKey): real {
    if key in table && parse(table[key]).Some? then parse(table[key]).value else 0.0
  }

  /** The `reduce` over the given shifts, added from the left. */
  function SumShifts(table: map<CellKey, string>, parse: Parser, metric: string, line: string, date: Date, shifts: seq<string>)
    : real
  {
    if shifts == [] then 0.0
    else
      SumShifts(table, parse, metric, line, date, shifts[..|shifts| - 1]) +
      CellNumber(table, parse, CellKey(metric, line, shifts[|shifts| - 1], date))
  }

  /** The total row of a line on a date: the sum of its three shift cells. */
  function ShiftTotal(table: map<CellKey, string>, parse: Parser, metric: string, line: string, date: Date): (total: real)
    ensures total == CellNumber(table, parse, CellKey(metric, line, "T1", date)) +
      CellNumber(table, parse, CellKey(metric, line, "T2", date)) +
      CellNumber(table, parse, CellKey(metric, line, "T3", date))
  {
    var t1 := CellNumber(table, parse, CellKey(metric, line, "T1", date));
    var t2 := CellNumber(table, parse, CellKey(metric, line, "T2", date));
    assert Shifts[..2] == ["T1", "T2"] && ["T1", "T2"][..1] == ["T1"] && ["T1"][..0] == [];
    assert SumShifts(table, parse, metric, line, date, ["T1"]) == t1;
    assert SumShifts(table, parse, metric, line, date, ["T1", "T2"]) == t1 + t2;
    SumShifts(table, parse, metric, line, date, Shifts)
  }

  /** What a total cell shows: the number when positive, '-' otherwise. */
  datatype TotalCell = Dash | Amount(value: real)

  function TotalDisplay(total: real): (cell: TotalCell)
    ensures cell.Amount? ==> cell.value == total && total > 0.0
    ensures cell.Dash? <==> total <= 0.0
  {
    if total > 0.0 then Amount(total) else Dash
  }

  /** A line with no entries for a date shows '-' in its total row. */
  lemma EmptyTotalIsDash(table: map<CellKey, string>, parse: Parser, metric: string, line: string, date: Date)
    requires forall s :: s in Shifts ==> CellKey(metric, line, s, date) !in table
    ensures TotalDisplay(ShiftTotal(table, parse, metric, line, date)) == Dash
  {
    assert CellKey(metric, line, Shifts[0], date) !in table;
    assert CellKey(metric, line, Shifts[1], date) !in table;
    assert CellKey(metric, line, Shifts[2], date) !in table;
  }

  /** Writing one cell changes the number of that cell and of no other. */
  lemma CellAfterEdit(table: map<CellKey, string>, parse: Parser, key: CellKey, text: string, other: CellKey)
    ensures CellNumber(table[key := text], parse, other) ==
      CellNumber(table, parse, other) +
      (if other == key then CellNumber(table[key := text], parse, key) - CellNumber(table, parse, key) else 0.0)
  {
  }

  /**
   * Writing one cell moves the sum over distinct shifts by the change of that
   * cell's number when its shift is among them, and leaves every other sum
   * alone.
   */
  lemma {:induction false} SumShiftsAfterEdit(
    table: map<CellKey, string>, parse: Parser, key: CellKey, text: string,
    metric: string, line: string, date: Date, shifts: seq<string>)
    requires forall i, j :: 0 <= i < j < |shifts| ==> shifts[i] != shifts[j]
    ensures SumShifts(table[key := text], parse, metric, line, date, shifts) ==
      SumShifts(table, parse, metric, line, date, shifts) +
      (if key.metric == metric && key.line == line && key.date == date && key.shift in shifts
       then CellNumber(table[key := text], parse, key) - CellNumber(table, parse, key)
       else 0.0)
  {
    if shifts != [] {
      var init, last := shifts[..|shifts| - 1], shifts[|shifts| - 1];
      SumShiftsAfterEdit(table, parse, key, text, metric, line, date, init);
      CellAfterEdit(table, parse, key, text, CellKey(metric, line, last, date));
      assert shifts == init + [last];
      assert last !in init;
    }
  }

  /**
   * An edit changes the total row of its own metric, line and date by the
   * change of the edited cell, and no other total row.
   */
  lemma TotalAfterEdit(
    table: map<CellKey, string>, parse: Parser, key: CellKey, text: string,
    metric: string, line: string, date: Date)
    requires key.shift in Shifts
    ensures var after := table[key := text];
      ShiftTotal(after, parse, metric, line, date) ==
        ShiftTotal(table, parse, metric, line, date) +
        (if key.metric == metric && key.line == line && key.date == date
         then CellNumber(after, parse, key) - CellNumber(table, parse, key) else 0.0)
  {
    SumShiftsAfterEdit(table, parse, key, text, metric, line, date, Shifts);
  }

  /** The grid of one area, with the state of its corrective-action dialog. */
  class KPITableView {
    const config: AreaConfig
    var tableData: map<CellKey, string>
    var showCorrectiveAction: bool
    var selectedMetric: Option<SelectedMetric>
    var selectedLine: string
    var selectedDate: Option<Date>

    constructor (config: AreaConfig)
      ensures this.config == config
      ensures tableData == map[] && !showCorrectiveAction && selectedMetric == None
      ensures selectedLine == "" && selectedDate == None
    {
      this.config := config;
      tableData := map[];
      showCorrectiveAction := false;
      selectedMetric := None;
      selectedLine := "";
      selectedDate := None;
    }

    /**
     * `handleCellChange`: stores the typed text under its cell, and opens the
     * dialog with the near-miss metric, the parsed value, the line and the
     * date when the value is below the near-miss target.
     */
    method HandleCellChange(parse: Parser, metric: string, line: string, shift: string, date: Date, text: string)
      modifies this
      ensures tableData == old(tableData)[CellKey(metric, line, shift, date) := text]
      ensures forall k :: k in old(tableData) && k != CellKey(metric, line, shift, date) ==>
        k in tableData && tableData[k] == old(tableData)[k]
      ensures Triggers(config.metrics, parse(text)) ==>
        var nearMiss := FindMetric(config.metrics, NearMissId).value;
        showCorrectiveAction && selectedLine == line && selectedDate == Some(date) &&
        selectedMetric == Some(SelectedMetric(nearMiss.name, parse(text).value, nearMiss.target))
      ensures !Triggers(config.metrics, parse(text)) ==>
        showCorrectiveAction == old(showCorrectiveAction) && selectedMetric == old(selectedMetric) &&
        selectedLine == old(selectedLine) && selectedDate == old(selectedDate)
    {
      var numValue := parse(text);
      var metricConfig := FindMetric(config.metrics, NearMissId);
      if metricConfig.Some? && numValue.Some? && numValue.value < metricConfig.value.target {
        selectedMetric := Some(SelectedMetric(metricConfig.value.name, numValue.value, metricConfig.value.target));
        selectedLine := line;
        selectedDate := Some(date);
        showCorrectiveAction := true;
      }
      tableData := tableData[CellKey(metric, line, shift, date) := text];
    }

    /** The dialog's `onClose`: hides it, keeping the entered values and the last selection. */
    method CloseCorrectiveAction()
      modifies this
      ensures !showCorrectiveAction
      ensures tableData == old(tableData) && selectedMetric == old(selectedMetric)
      ensures selectedLine == old(selectedLine) && selectedDate == old(selectedDate)
    {
      showCorrectiveAction := false;
    }
  }

  /**
   * Where `Number` reads the empty text as 0, as JavaScript's does, clearing a
   * cell of the Safety area opens the corrective-action dialog.
   */
  lemma ClearingSafetyCellTriggers(parse: Parser)
    requires parse("") == Some(0.0)
    ensures Triggers(KpiAreas[0].metrics, parse(""))
  {
    TriggersByArea(0, parse(""));
  }
}
