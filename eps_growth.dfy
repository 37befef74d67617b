/** The growth engine of `get_eps_yoy_growth_summary`: year-over-year EPS
    comparisons between report dates of the same calendar month. */
module EpsGrowth {
  import opened Wrappers
  import opened Text
  import opened Dates
  import opened Stats
  import opened Sorting

  /** One line item of the quarterly income statement: its name and one
      value per report date (`None` is NaN). */
  datatype MetricRow = MetricRow(name: string, values: seq<Option<real>>)

  /** The quarterly income statement: report dates as columns, line items as rows. */
  datatype Statement = Statement(dates: seq<Date>, rows: seq<MetricRow>)

  /** `df.empty`: no rows or no columns. */
  predicate IsEmpty(st: Statement) {
    |st.rows| == 0 || |st.dates| == 0
  }

  /** A report date with the row's value there. */
  datatype Cell = Cell(date: Date, value: Option<real>)

  /** A report date with a present EPS value. */
  datatype Entry = Entry(date: Date, eps: real)

  function CellKey(c: Cell): real {
    Key(c.date)
  }

  function EntryKey(e: Entry): real {
    Key(e.date)
  }

  /** The row's values against the column dates. */
  function Cells(dates: seq<Date>, values: seq<Option<real>>): (cs: seq<Cell>)
    ensures |cs| == if |dates| <= |values| then |dates| else |values|
    ensures forall i :: 0 <= i < |cs| ==> cs[i] == Cell(dates[i], values[i])
  {
    var n := if |dates| <= |values| then |dates| else |values|;
    seq(n, i requires 0 <= i < n => Cell(dates[i], values[i]))
  }

  /** `dropna`: the present values, in order. */
  function DropMissing(cs: seq<Cell>): (es: seq<Entry>)
    ensures forall e :: e in es <==> Cell(e.date, Some(e.eps)) in cs
    decreases |cs|
  {
    if cs == [] then []
    else
      var front, last := cs[..|cs| - 1], cs[|cs| - 1];
      assert cs == front + [last];
      DropMissing(front) + (match last.value case Some(v) => [Entry(last.date, v)] case None => [])
  }

  /** One EPS row after the columns are put in date order and NaNs dropped. */
  function Series(dates: seq<Date>, row: MetricRow): seq<Entry> {
    DropMissing(SortBy(Cells(dates, row.values), CellKey))
  }

  /** The row label contains "EPS", ignoring case. */
  predicate IsEpsRow(row: MetricRow) {
    ContainsIgnoreCase(row.name, "EPS")
  }

  /** The EPS rows, in statement order. */
  function EpsRows(rows: seq<MetricRow>): (r: seq<MetricRow>)
    ensures forall row :: row in r <==> row in rows && IsEpsRow(row)
    ensures forall row :: multiset(r)[row] == if IsEpsRow(row) then multiset(rows)[row] else 0
    decreases |rows|
  {
    if rows == [] then []
    else
      var front, last := rows[..|rows| - 1], rows[|rows| - 1];
      assert rows == front + [last];
      assert multiset(rows) == multiset(front) + multiset{last};
      EpsRows(front) + (if IsEpsRow(last) then [last] else [])
  }

  /** The quarter label of a report month. */
  function QuarterName(m: Month): string {
    if m == 3 then "Q1"
    else if m == 6 then "Q2"
    else if m == 9 then "Q3"
    else if m == 12 then "Q4"
    else "M" + NatToString(m)
  }

  /** A quarter-end month is labelled `Q` and its quarter number; any other
      month `M` and its number, which reads back as the month. */
  lemma QuarterNameShape(m: Month)
    ensures |QuarterName(m)| >= 2
    ensures QuarterName(m)[0] == 'Q' <==> m % 3 == 0
    ensures QuarterName(m)[0] == 'Q' ==> QuarterName(m) == ['Q', DigitChar(m / 3)]
    ensures QuarterName(m)[0] != 'Q' ==>
      QuarterName(m)[0] == 'M' && AllDigits(QuarterName(m)[1..]) && ParseNat(QuarterName(m)[1..]) == m
  {
    if m % 3 != 0 {
      var digits := NatToString(m);
      assert QuarterName(m)[1..] == digits;
      ParseNatToString(m);
    }
  }

  /** Year-over-year growth in percent: undefined when the previous value is
      zero and the current one is not (the infinite sentinel becomes null). */
  function Growth(previous: real, current: real): (g: Option<real>)
    ensures previous != 0.0 ==> g.Some?
    ensures previous != 0.0 ==> (g.value > 0.0 <==> current > previous)
    ensures previous != 0.0 ==> (g.value < 0.0 <==> current < previous)
    ensures previous == 0.0 ==> (g.None? <==> current != 0.0)
    ensures previous == 0.0 && current == 0.0 ==> g == Some(0.0)
  {
    if previous != 0.0 then
      var magnitude := if previous < 0.0 then -previous else previous;
      var ratio := (current - previous) / magnitude;
      assert ratio > 0.0 <==> current > previous by {
        assert ratio * magnitude == current - previous;
      }
      assert ratio < 0.0 <==> current < previous by {
        assert ratio * magnitude == current - previous;
      }
      Some(ratio * 100.0)
    else if current == 0.0 then Some(0.0)
    else None
  }

  /** One entry of `Details`. */
  datatype Comparison = Comparison(
    metric: string,
    quarter: string,
    currentDate: Date,
    currentEps: real,
    previousDate: Date,
    previousEps: real,
    epsChange: real,
    yoyGrowth: Option<real>)

  function Compare(metric: string, quarter: string, previous: Entry, current: Entry): Comparison {
    Comparison(metric, quarter, current.date, current.eps, previous.date, previous.eps,
               current.eps - previous.eps, Growth(previous.eps, current.eps))
  }

  predicate OneYearApart(previous: Entry, current: Entry) {
    current.date.year - previous.date.year == 1
  }

  /** The comparisons among the first n entries of a sorted month group:
      each neighbouring pair exactly one year apart. */
  function PairsUpTo(metric: string, quarter: string, g: seq<Entry>, n: nat): seq<Comparison>
    requires n <= |g|
  {
    if n < 2 then []
    else
      PairsUpTo(metric, quarter, g, n - 1)
      + (if OneYearApart(g[n - 2], g[n - 1]) then [Compare(metric, quarter, g[n - 2], g[n - 1])] else [])
  }

  lemma PairsStep(metric: string, quarter: string, g: seq<Entry>, i: nat)
    requires 1 <= i < |g|
    ensures PairsUpTo(metric, quarter, g, i + 1) == PairsUpTo(metric, quarter, g, i)
      + (if OneYearApart(g[i - 1], g[i]) then [Compare(metric, quarter, g[i - 1], g[i])] else [])
  {
  }

  /** A month group yields one comparison per neighbouring pair exactly one
      year apart, and nothing else. */
  lemma {:induction false} PairsUpToSpec(metric: string, quarter: string, g: seq<Entry>, n: nat, c: Comparison)
    requires n <= |g|
    ensures c in PairsUpTo(metric, quarter, g, n) <==>
      exists i :: 1 <= i < n && OneYearApart(g[i - 1], g[i]) && c == Compare(metric, quarter, g[i - 1], g[i])
  {
    if n >= 2 {
      PairsUpToSpec(metric, quarter, g, n - 1, c);
      if c in PairsUpTo(metric, quarter, g, n) && c !in PairsUpTo(metric, quarter, g, n - 1) {
        assert OneYearApart(g[n - 2], g[n - 1]) && c == Compare(metric, quarter, g[n - 2], g[n - 1]);
      }
    }
  }

  /** March 2022, March 2023 and March 2025: the one-year step is paired
      with +50% growth, the two-year gap is not paired. */
  lemma PairingExample()
    ensures PairsUpTo("Diluted EPS", "Q1",
      [Entry(Date(2022, 3, 31), 1.0), Entry(Date(2023, 3, 31), 1.5), Entry(Date(2025, 3, 31), 2.0)], 3)
      == [Comparison("Diluted EPS", "Q1", Date(2023, 3, 31), 1.5, Date(2022, 3, 31), 1.0, 0.5, Some(50.0))]
  {
    assert Growth(1.0, 1.5) == Some(50.0);
  }

  /** The growth policy on its edge cases. */
  lemma GrowthExamples()
    ensures Growth(0.0, 2.0) == None && Growth(0.0, 0.0) == Some(0.0)
    ensures Growth(-2.0, -1.0) == Some(50.0) && Growth(2.0, 1.0) == Some(-50.0)
  {
  }

  /** The months of a series in order of first appearance: the key order of
      the dictionary `setdefault` builds. */
  function MonthsInOrder(s: seq<Entry>): (ms: seq<Month>)
    ensures forall m :: m in ms <==> exists i :: 0 <= i < |s| && s[i].date.month == m
    ensures forall i, j :: 0 <= i < j < |ms| ==> ms[i] != ms[j]
    decreases |s|
  {
    if s == [] then []
    else
      var front := s[..|s| - 1];
      var p := MonthsInOrder(front);
      assert forall i :: 0 <= i < |front| ==> front[i] == s[i];
      if s[|s| - 1].date.month in p then p else p + [s[|s| - 1].date.month]
  }

  /** The entries of month `m`, in series order: the list appended to under key m. */
  function OfMonth(s: seq<Entry>, m: Month): (g: seq<Entry>)
    ensures forall e :: e in g <==> e in s && e.date.month == m
    decreases |s|
  {
    if s == [] then []
    else
      var front, last := s[..|s| - 1], s[|s| - 1];
      assert s == front + [last];
      OfMonth(front, m) + (if last.date.month == m then [last] else [])
  }

  /** One more entry of the series: its month joins the key order if new. */
  lemma MonthsStep(s: seq<Entry>, k: nat)
    requires k < |s|
    ensures MonthsInOrder(s[..k + 1]) ==
      var p := MonthsInOrder(s[..k]);
      if s[k].date.month in p then p else p + [s[k].date.month]
  {
    assert s[..k + 1][..k] == s[..k];
  }

  /** One more entry of the series: it is appended to its month's list. */
  lemma OfMonthStep(s: seq<Entry>, k: nat, m: Month)
    requires k < |s|
    ensures OfMonth(s[..k + 1], m) == OfMonth(s[..k], m) + (if s[k].date.month == m then [s[k]] else [])
  {
    assert s[..k + 1][..k] == s[..k];
  }

  /** A month that has not appeared has an empty list. */
  lemma OfMonthAbsent(s: seq<Entry>, m: Month)
    requires m !in MonthsInOrder(s)
    ensures OfMonth(s, m) == []
  {
    if OfMonth(s, m) != [] {
      assert OfMonth(s, m)[0] in OfMonth(s, m);
    }
  }

  /** The comparisons of one month group after it is sorted by date. */
  function GroupComparisons(metric: string, m: Month, group: seq<Entry>): seq<Comparison> {
    var g := SortBy(group, EntryKey);
    PairsUpTo(metric, QuarterName(m), g, |g|)
  }

  /** The lists of a sequence of lists, one after another. */
  function Flatten<T>(xss: seq<seq<T>>): seq<T>
    decreases |xss|
  {
    if xss == [] then [] else Flatten(xss[..|xss| - 1]) + xss[|xss| - 1]
  }

  lemma FlattenSnoc<T>(xss: seq<seq<T>>, ys: seq<T>)
    ensures Flatten(xss + [ys]) == Flatten(xss) + ys
  {
    assert (xss + [ys])[..|xss|] == xss;
  }

  lemma {:induction false} FlattenMember<T>(xss: seq<seq<T>>, x: T)
    ensures x in Flatten(xss) <==> exists i :: 0 <= i < |xss| && x in xss[i]
    decreases |xss|
  {
    if xss != [] {
      var front := xss[..|xss| - 1];
      FlattenMember(front, x);
      if x in Flatten(front) {
        var i :| 0 <= i < |front| && x in front[i];
        assert x in xss[i];
      }
      if exists i :: 0 <= i < |xss| && x in xss[i] {
        var i :| 0 <= i < |xss| && x in xss[i];
        if i < |front| {
          assert x in front[i];
        }
      }
    }
  }

  /** The comparisons of each month group, in key order. */
  function MonthGroupsComparisons(metric: string, s: seq<Entry>, months: seq<Month>): (r: seq<seq<Comparison>>)
    ensures |r| == |months|
    decreases |months|
  {
    if months == [] then []
    else
      var m := months[|months| - 1];
      MonthGroupsComparisons(metric, s, months[..|months| - 1]) + [GroupComparisons(metric, m, OfMonth(s, m))]
  }

  lemma {:induction false} MonthGroupsComparisonsAt(metric: string, s: seq<Entry>, months: seq<Month>, j: nat)
    requires j < |months|
    ensures MonthGroupsComparisons(metric, s, months)[j] == GroupComparisons(metric, months[j], OfMonth(s, months[j]))
    decreases |months|
  {
    var front := months[..|months| - 1];
    if j < |months| - 1 {
      MonthGroupsComparisonsAt(metric, s, front, j);
      assert front[j] == months[j];
    }
  }

  /** All comparisons of one EPS row, month group by month group. */
  function SeriesComparisons(metric: string, s: seq<Entry>): seq<Comparison> {
    Flatten(MonthGroupsComparisons(metric, s, MonthsInOrder(s)))
  }

  /** The comparisons of each row. */
  function PerRowComparisons(dates: seq<Date>, rows: seq<MetricRow>): (r: seq<seq<Comparison>>)
    ensures |r| == |rows|
    decreases |rows|
  {
    if rows == [] then []
    else
      var row := rows[|rows| - 1];
      PerRowComparisons(dates, rows[..|rows| - 1]) + [SeriesComparisons(row.name, Series(dates, row))]
  }

  lemma {:induction false} PerRowComparisonsAt(dates: seq<Date>, rows: seq<MetricRow>, k: nat)
    requires k < |rows|
    ensures PerRowComparisons(dates, rows)[k] == SeriesComparisons(rows[k].name, Series(dates, rows[k]))
    decreases |rows|
  {
    var front := rows[..|rows| - 1];
    if k < |rows| - 1 {
      PerRowComparisonsAt(dates, front, k);
      assert front[k] == rows[k];
    }
  }

  /** Every comparison of the statement, EPS row by EPS row. */
  function StatementComparisons(st: Statement): seq<Comparison> {
    Flatten(PerRowComparisons(st.dates, EpsRows(st.rows)))
  }

  /** What every comparison of a month group is: a pair of entries of that
      month, one year apart, with its change and growth. */
  lemma GroupFacts(metric: string, m: Month, group: seq<Entry>, c: Comparison)
    requires forall e :: e in group ==> e.date.month == m
    requires c in GroupComparisons(metric, m, group)
    ensures c.metric == metric && c.quarter == QuarterName(m)
    ensures c.currentDate.month == m && c.previousDate.month == m
    ensures c.currentDate.year == c.previousDate.year + 1
    ensures c.epsChange == c.currentEps - c.previousEps
    ensures c.yoyGrowth == Growth(c.previousEps, c.currentEps)
    ensures Entry(c.previousDate, c.previousEps) in group && Entry(c.currentDate, c.currentEps) in group
  {
    var g := SortBy(group, EntryKey);
    PairsUpToSpec(metric, QuarterName(m), g, |g|, c);
    var i :| 1 <= i < |g| && OneYearApart(g[i - 1], g[i]) && c == Compare(metric, QuarterName(m), g[i - 1], g[i]);
    SortByMultiset(group, EntryKey);
    assert g[i] in multiset(g) && g[i - 1] in multiset(g);
    assert g[i] in group && g[i - 1] in group;
  }

  /** A row's comparisons are exactly those of its month groups. */
  lemma SeriesComparisonsSpec(metric: string, s: seq<Entry>, c: Comparison)
    ensures c in SeriesComparisons(metric, s) <==>
      exists j :: 0 <= j < |MonthsInOrder(s)|
        && c in GroupComparisons(metric, MonthsInOrder(s)[j], OfMonth(s, MonthsInOrder(s)[j]))
  {
    var months := MonthsInOrder(s);
    var groups := MonthGroupsComparisons(metric, s, months);
    FlattenMember(groups, c);
    forall j | 0 <= j < |months|
      ensures groups[j] == GroupComparisons(metric, months[j], OfMonth(s, months[j]))
    {
      MonthGroupsComparisonsAt(metric, s, months, j);
    }
  }

  /** A statement's comparisons are exactly those of its EPS rows. */
  lemma StatementComparisonsSpec(st: Statement, c: Comparison)
    ensures c in StatementComparisons(st) <==>
      exists k :: 0 <= k < |EpsRows(st.rows)|
        && c in SeriesComparisons(EpsRows(st.rows)[k].name, Series(st.dates, EpsRows(st.rows)[k]))
  {
    var rows := EpsRows(st.rows);
    var perRow := PerRowComparisons(st.dates, rows);
    FlattenMember(perRow, c);
    forall k | 0 <= k < |rows|
      ensures perRow[k] == SeriesComparisons(rows[k].name, Series(st.dates, rows[k]))
    {
      PerRowComparisonsAt(st.dates, rows, k);
    }
  }

  /** Every comparison of the statement comes from an EPS row and pairs two
      report dates of the same month exactly one year apart (a two-year gap
      is never paired), under that month's quarter label, with
      EPS_Change = current - previous and the growth policy applied. */
  lemma ComparisonFacts(st: Statement)
    ensures forall c :: c in StatementComparisons(st) ==>
      && ContainsIgnoreCase(c.metric, "EPS")
      && c.currentDate.month == c.previousDate.month
      && c.quarter == QuarterName(c.currentDate.month)
      && c.currentDate.year == c.previousDate.year + 1
      && c.epsChange == c.currentEps - c.previousEps
      && c.yoyGrowth == Growth(c.previousEps, c.currentEps)
  {
    forall c | c in StatementComparisons(st)
      ensures ContainsIgnoreCase(c.metric, "EPS")
      ensures c.currentDate.month == c.previousDate.month
      ensures c.quarter == QuarterName(c.currentDate.month)
      ensures c.currentDate.year == c.previousDate.year + 1
      ensures c.epsChange == c.currentEps - c.previousEps
      ensures c.yoyGrowth == Growth(c.previousEps, c.currentEps)
    {
      StatementComparisonsSpec(st, c);
      var rows := EpsRows(st.rows);
      var k :| 0 <= k < |rows| && c in SeriesComparisons(rows[k].name, Series(st.dates, rows[k]));
      var row := rows[k];
      assert row in rows;
      var series := Series(st.dates, row);
      SeriesComparisonsSpec(row.name, series, c);
      var months := MonthsInOrder(series);
      var j :| 0 <= j < |months| && c in GroupComparisons(row.name, months[j], OfMonth(series, months[j]));
      GroupFacts(row.name, months[j], OfMonth(series, months[j]), c);
    }
  }

  /** Dropping missing values keeps date order. */
  lemma {:induction false} DropMissingSorted(cs: seq<Cell>)
    requires SortedBy(cs, CellKey)
    ensures SortedBy(DropMissing(cs), EntryKey)
    decreases |cs|
  {
    if cs != [] {
      var front, last := cs[..|cs| - 1], cs[|cs| - 1];
      assert SortedBy(front, CellKey);
      DropMissingSorted(front);
      var d := DropMissing(front);
      forall k | 0 <= k < |d| ensures EntryKey(d[k]) <= CellKey(last) {
        assert Cell(d[k].date, Some(d[k].eps)) in front;
      }
    }
  }

  /** A month group taken from a date-ordered series is date-ordered. */
  lemma {:induction false} OfMonthSorted(s: seq<Entry>, m: Month)
    requires SortedBy(s, EntryKey)
    ensures SortedBy(OfMonth(s, m), EntryKey)
    decreases |s|
  {
    if s != [] {
      var front, last := s[..|s| - 1], s[|s| - 1];
      assert SortedBy(front, EntryKey);
      OfMonthSorted(front, m);
      var g := OfMonth(front, m);
      forall k | 0 <= k < |g| ensures EntryKey(g[k]) <= EntryKey(last) {
        assert g[k] in front;
      }
    }
  }

  /** The columns are sorted by date before grouping, so every month group
      is already in date order and sorting it changes nothing. */
  lemma GroupsArriveSorted(dates: seq<Date>, row: MetricRow, m: Month)
    ensures SortBy(OfMonth(Series(dates, row), m), EntryKey) == OfMonth(Series(dates, row), m)
  {
    var cs := Cells(dates, row.values);
    SortBySorted(cs, CellKey);
    DropMissingSorted(SortBy(cs, CellKey));
    OfMonthSorted(Series(dates, row), m);
    SortByOfSorted(OfMonth(Series(dates, row), m), EntryKey);
  }

  /** The JSON summary. `variance` is the square of `Standard_Deviation`. */
  datatype EpsSummary = EpsSummary(
    ticker: string,
    totalComparisons: nat,
    averageGrowth: Option<real>,
    maxGrowth: Option<real>,
    minGrowth: Option<real>,
    variance: Option<real>,
    details: seq<Comparison>)

  function Growths(cs: seq<Comparison>): (gs: seq<Option<real>>)
    ensures |gs| == |cs|
    ensures forall i :: 0 <= i < |cs| ==> gs[i] == cs[i].yoyGrowth
  {
    seq(|cs|, i requires 0 <= i < |cs| => cs[i].yoyGrowth)
  }

  /** Total counts every comparison; the statistics use only the defined
      growth values and are all null when there are none. */
  function Summarize(ticker: string, cs: seq<Comparison>): (r: EpsSummary)
    ensures r.details == cs && r.totalComparisons == |cs|
    ensures r.averageGrowth.None? <==> forall i :: 0 <= i < |cs| ==> cs[i].yoyGrowth.None?
    ensures r.averageGrowth.None? ==> r.maxGrowth.None? && r.minGrowth.None? && r.variance.None?
    ensures r.averageGrowth.Some? ==>
      r.minGrowth.Some? && r.maxGrowth.Some? && r.minGrowth.value <= r.averageGrowth.value <= r.maxGrowth.value
    ensures r.maxGrowth.Some? ==> forall i :: 0 <= i < |cs| && cs[i].yoyGrowth.Some? ==>
      cs[i].yoyGrowth.value <= r.maxGrowth.value
    ensures r.minGrowth.Some? ==> forall i :: 0 <= i < |cs| && cs[i].yoyGrowth.Some? ==>
      r.minGrowth.value <= cs[i].yoyGrowth.value
    ensures r.variance.Some? ==> r.variance.value >= 0.0
    ensures Aggregate(r.averageGrowth, r.maxGrowth, r.minGrowth) == AggregateOf(Growths(cs))
    ensures r.variance == SampleVariance(Present(Growths(cs)))
  {
    var gs := Growths(cs);
    var agg := AggregateOf(gs);
    GrowthsUndefined(cs);
    GrowthsBounded(cs);
    EpsSummary(ticker, |cs|, agg.mean, agg.max, agg.min, SampleVariance(Present(gs)), cs)
  }

  /** No defined growth: no mean, and too few values for a spread. */
  lemma GrowthsUndefined(cs: seq<Comparison>)
    ensures AggregateOf(Growths(cs)).mean.None? <==> forall i :: 0 <= i < |cs| ==> cs[i].yoyGrowth.None?
    ensures AggregateOf(Growths(cs)).mean.None? ==> SampleVariance(Present(Growths(cs))).None?
  {
    PresentEmpty(Growths(cs));
  }

  /** The maximum and minimum growth bound every defined growth. */
  lemma GrowthsBounded(cs: seq<Comparison>)
    ensures AggregateOf(Growths(cs)).max.Some? ==> forall i :: 0 <= i < |cs| && cs[i].yoyGrowth.Some? ==>
      cs[i].yoyGrowth.value <= AggregateOf(Growths(cs)).max.value
    ensures AggregateOf(Growths(cs)).min.Some? ==> forall i :: 0 <= i < |cs| && cs[i].yoyGrowth.Some? ==>
      AggregateOf(Growths(cs)).min.value <= cs[i].yoyGrowth.value
  {
    var gs := Growths(cs);
    assert forall i :: 0 <= i < |cs| ==> gs[i] == cs[i].yoyGrowth;
  }

  function NoStatementMessage(ticker: string): string {
    "No income statement data for '" + ticker + "'"
  }

  const NoEpsRowsMessage := "No EPS-related rows found in income statement"
  const NotEnoughMessage := "Not enough data for YoY EPS growth calculation"

  /** Groups a series by report month, appending each entry to the list of
      its month and recording months in order of first appearance. */
  method GroupByMonth(series: seq<Entry>) returns (groups: map<Month, seq<Entry>>, months: seq<Month>)
    ensures months == MonthsInOrder(series)
    ensures forall m :: m in groups <==> m in months
    ensures forall m :: m in groups ==> groups[m] == OfMonth(series, m)
  {
    groups, months := map[], [];
    for k := 0 to |series|
      invariant months == MonthsInOrder(series[..k])
      invariant forall m :: m in groups <==> m in months
      invariant forall m :: m in groups ==> groups[m] == OfMonth(series[..k], m)
    {
      var e := series[k];
      MonthsStep(series, k);
      forall m ensures OfMonth(series[..k + 1], m) == OfMonth(series[..k], m) + (if e.date.month == m then [e] else []) {
        OfMonthStep(series, k, m);
      }
      if e.date.month !in groups {
        OfMonthAbsent(series[..k], e.date.month);
        months := months + [e.date.month];
        groups := groups[e.date.month := []];
      }
      groups := groups[e.date.month := groups[e.date.month] + [e]];
    }
    assert series[..|series|] == series;
  }

  /** The comparisons of one EPS row: group by month, then handle each
      month group in key order. */
  method RowComparisons(metric: string, series: seq<Entry>) returns (results: seq<Comparison>)
    ensures results == SeriesComparisons(metric, series)
  {
    var groups, months := GroupByMonth(series);
    results := [];
    for j := 0 to |months|
      invariant results == Flatten(MonthGroupsComparisons(metric, series, months[..j]))
    {
      var month := months[j];
      MonthGroupsStep(metric, series, months, j);
      results := AppendGroupComparisons(results, metric, month, groups[month]);
    }
    assert months[..|months|] == months;
  }

  /** One more month handled: its group's comparisons follow the earlier ones. */
  lemma MonthGroupsStep(metric: string, series: seq<Entry>, months: seq<Month>, j: nat)
    requires j < |months|
    ensures Flatten(MonthGroupsComparisons(metric, series, months[..j + 1]))
            == Flatten(MonthGroupsComparisons(metric, series, months[..j]))
               + GroupComparisons(metric, months[j], OfMonth(series, months[j]))
  {
    assert months[..j + 1][..j] == months[..j];
    FlattenSnoc(MonthGroupsComparisons(metric, series, months[..j]),
                GroupComparisons(metric, months[j], OfMonth(series, months[j])));
  }

  /** One more EPS row handled: its comparisons follow the earlier rows'. */
  lemma PerRowStep(dates: seq<Date>, rows: seq<MetricRow>, k: nat)
    requires k < |rows|
    ensures Flatten(PerRowComparisons(dates, rows[..k + 1]))
            == Flatten(PerRowComparisons(dates, rows[..k]))
               + SeriesComparisons(rows[k].name, Series(dates, rows[k]))
  {
    assert rows[..k + 1][..k] == rows[..k];
    FlattenSnoc(PerRowComparisons(dates, rows[..k]), SeriesComparisons(rows[k].name, Series(dates, rows[k])));
  }

  /** One month group: sort it by date in place, then append a comparison
      for each neighbouring pair exactly one year apart. */
  method AppendGroupComparisons(results: seq<Comparison>, metric: string, month: Month, data: seq<Entry>)
    returns (extended: seq<Comparison>)
    ensures extended == results + GroupComparisons(metric, month, data)
  {
    var quarter := QuarterName(month);
    var a := new Entry[|data|](i requires 0 <= i < |data| => data[i]);
    assert a[..] == data;
    SortInPlace(a, EntryKey);
    var g := a[..];
    extended := results;
    if g != [] {
      for i := 1 to |g|
        invariant extended == results + PairsUpTo(metric, quarter, g, i)
      {
        PairsStep(metric, quarter, g, i);
        if g[i].date.year - g[i - 1].date.year == 1 {
          extended := extended + [Compare(metric, quarter, g[i - 1], g[i])];
        }
      }
    }
  }

  /** `get_eps_yoy_growth_summary` once the quarterly income statement has
      been fetched (`None` when the provider returned none). */
  method EpsYoYGrowthSummary(ticker: string, statement: Option<Statement>) returns (r: Result<EpsSummary>)
    ensures statement.None? || IsEmpty(statement.value) ==> r == Err(NoStatementMessage(ticker))
    ensures statement.Some? && !IsEmpty(statement.value) && EpsRows(statement.value.rows) == [] ==>
      r == Err(NoEpsRowsMessage)
    ensures statement.Some? && !IsEmpty(statement.value) && EpsRows(statement.value.rows) != []
      && StatementComparisons(statement.value) == []
      ==> r == Err(NotEnoughMessage)
    ensures r.Ok? <==> statement.Some? && !IsEmpty(statement.value) && StatementComparisons(statement.value) != []
    ensures r.Ok? ==> r.value == Summarize(ticker, StatementComparisons(statement.value))
  {
    if statement.None? || IsEmpty(statement.value) {
      return Err(NoStatementMessage(ticker));
    }
    var st := statement.value;
    var epsRows := EpsRows(st.rows);
    if epsRows == [] {
      return Err(NoEpsRowsMessage);
    }
    var results := [];
    for k := 0 to |epsRows|
      invariant results == Flatten(PerRowComparisons(st.dates, epsRows[..k]))
    {
      var row := epsRows[k];
      PerRowStep(st.dates, epsRows, k);
      var rowResults := RowComparisons(row.name, Series(st.dates, row));
      results := results + rowResults;
    }
    assert epsRows[..|epsRows|] == epsRows;
    if results == [] {
      return Err(NotEnoughMessage);
    }
    r := Ok(Summarize(ticker, results));
  }
}
