/**
 * The four callbacks of the dashboard, each a pipeline over the shared
 * table: year filter, continent filter, the panel's own narrowing, the
 * positions to highlight and the title. Each returns as data what the
 * callback hands to the plotting library.
 */
module Callbacks {
  import opened Table
  import opened Largest
  import opened GroupSum
  import opened Titles
  import opened Selection
  import opened Traces

  /**
   * A drawn panel: the rows it plots, `selected_points` (positions in `rows`),
   * the selected points each per-continent trace receives (`None`: no
   * override) and its title.
   */
  datatype Figure = Figure(rows: seq<Record>, highlights: seq<nat>, tracePoints: Option<seq<seq<nat>>>, title: string)

  /** The pie panel: the grouped frame it plots and its title. */
  datatype PieFigure = PieFigure(slices: seq<Slice>, title: string)

  /** The number of rows the bar chart keeps. */
  const TopCount: nat := 15

  /** `(dff['year'] >= years[0]) & (dff['year'] <= years[1])` */
  function InYears(years: YearRange): Record -> bool {
    (x: Record) => years.lo <= x.year <= years.hi
  }

  /** `dff['year'] == years[1]` */
  function InYear(year: int): Record -> bool {
    (x: Record) => x.year == year
  }

  /** `dff['continent'].isin(selected_continents)` */
  function InContinents(continents: seq<Continent>): Record -> bool {
    (x: Record) => x.continent in continents
  }

  /** `dff['country'].isin(countries_to_show)` */
  function InCountries(countries: set<Country>): Record -> bool {
    (x: Record) => x.country in countries
  }

  /** The continent filter, applied only when some continent is selected. */
  function ByContinents(rows: seq<Record>, continents: seq<Continent>): seq<Record> {
    if continents == [] then rows else Filter(rows, InContinents(continents))
  }

  /**
   * The rows of the line chart for a resolved country set (empty: no country
   * filter): the table rows inside the year range, of a selected continent
   * (any, when none is selected) and of a resolved country, in table order.
   */
  function LineRows(table: seq<Record>, years: YearRange, continents: seq<Continent>, countries: set<Country>)
    : (r: seq<Record>)
    ensures r == Filter(table, LineKeeps(years, continents, countries))
  {
    var inRange := Filter(table, InYears(years));
    var inContinents := ByContinents(inRange, continents);
    var keep := LineKeeps(years, continents, countries);
    var first := (x: Record) => years.lo <= x.year <= years.hi && (continents == [] || x.continent in continents);
    ByContinentsAfterFilter(table, InYears(years), continents, first);
    if countries == {} then
      FilterSameMask(table, first, keep);
      inContinents
    else
      FilterFilter(table, first, InCountries(countries), keep);
      Filter(inContinents, InCountries(countries))
  }

  /**
   * `update_line_chart`: a row is drawn iff it lies in `[years[0], years[1]]`,
   * has a selected continent (when any) and a resolved country (when any);
   * the rows keep table order; nothing is highlighted; the title names the
   * y-axis column.
   */
  function UpdateLineChart(
    table: seq<Record>, dropdown: seq<Country>, yAxis: string, years: YearRange,
    continents: seq<Continent>, bubble: Payload, bar: Payload, trigger: Trigger): (f: Figure)
    ensures var countries := LineCountries(trigger, dropdown, bubble, bar);
            && f.rows == Filter(table, LineKeeps(years, continents, countries))
            && IsSubsequence(f.rows, table)
            && (forall x :: x in f.rows <==>
                  && x in table
                  && years.lo <= x.year <= years.hi
                  && (continents == [] || x.continent in continents)
                  && (countries == {} || x.country in countries))
            && f.highlights == [] && f.tracePoints == None
            && f.title == LineTitle(yAxis)
  {
    var countries := LineCountries(trigger, dropdown, bubble, bar);
    FilterIsSubsequence(table, LineKeeps(years, continents, countries));
    Figure(LineRows(table, years, continents, countries), [], None, LineTitle(yAxis))
  }

  /**
   * The rows of the year `years[1]`, narrowed to the selected continents, what
   * the other three panels start from: the table rows of that year and a
   * selected continent (any, when none is selected), in table order.
   */
  function SnapshotRows(table: seq<Record>, years: YearRange, continents: seq<Continent>): (r: seq<Record>)
    ensures r == Filter(table, SnapshotKeeps(years.hi, continents))
  {
    ByContinentsAfterFilter(table, InYear(years.hi), continents, SnapshotKeeps(years.hi, continents));
    ByContinents(Filter(table, InYear(years.hi)), continents)
  }

  /**
   * `if selected_points: for trace in fig.data: trace.selectedpoints =
   * selected_points`: when there is something to highlight, every
   * per-continent trace receives the positions computed over the whole frame
   * (as written; see `Traces` for what each trace should receive); otherwise
   * the figure keeps no override.
   */
  function TracePoints(rows: seq<Record>, selection: Option<seq<Country>>): (r: Option<seq<seq<nat>>>)
    ensures r.Some? <==> ChartHighlights(rows, selection) != []
    ensures r.Some? ==> |r.value| == |TraceContinents(rows)|
    ensures r.Some? ==> forall t :: 0 <= t < |r.value| ==> r.value[t] == ChartHighlights(rows, selection)
  {
    var highlights := ChartHighlights(rows, selection);
    if highlights == [] then None else Some(SelectedPointsAsWritten(rows, highlights))
  }

  /**
   * `update_bubble_chart`: the table rows of year `years[1]` and a selected
   * continent, in table order; the highlights are ascending and mark exactly
   * the rows whose country the source that fired selected; when there are
   * any, every trace receives them; the title carries `years[1]`. The axis and
   * size choices only shape the drawing.
   */
  function UpdateBubbleChart(
    table: seq<Record>, years: YearRange, continents: seq<Continent>,
    line: Payload, bar: Payload, dropdown: seq<Country>, trigger: Trigger): (f: Figure)
    ensures var sel := ChartSelection(trigger, dropdown, line, bar, TopCountriesChart);
            && f.rows == Filter(table, SnapshotKeeps(years.hi, continents))
            && IsSubsequence(f.rows, table)
            && (forall x :: x in f.rows <==>
                  x in table && x.year == years.hi && (continents == [] || x.continent in continents))
            && (forall k, l :: 0 <= k < l < |f.highlights| ==> f.highlights[k] < f.highlights[l])
            && (forall i: nat :: i in f.highlights <==> sel.Some? && i < |f.rows| && f.rows[i].country in sel.value)
            && (f.tracePoints.Some? <==> f.highlights != [])
            && (f.tracePoints.Some? ==> |f.tracePoints.value| == |TraceContinents(f.rows)|)
            && (f.tracePoints.Some? ==> forall t :: 0 <= t < |f.tracePoints.value| ==> f.tracePoints.value[t] == f.highlights)
            && f.title == BubbleTitle(years)
  {
    var rows := SnapshotRows(table, years, continents);
    FilterIsSubsequence(table, SnapshotKeeps(years.hi, continents));
    var selection := ChartSelection(trigger, dropdown, line, bar, TopCountriesChart);
    Figure(rows, ChartHighlights(rows, selection), TracePoints(rows, selection), BubbleTitle(years))
  }

  /**
   * `update_top_countries_chart`: `min(15, n)` of the `n` table rows of year
   * `years[1]` and a selected continent, by non-increasing population, none
   * left out outranking one drawn; the highlights are ascending and mark
   * exactly the drawn rows whose country the source that fired selected; when
   * there are any, every trace receives them; the title carries `years[1]`.
   */
  function UpdateTopCountriesChart(
    table: seq<Record>, years: YearRange, continents: seq<Continent>,
    line: Payload, bubble: Payload, dropdown: seq<Country>, trigger: Trigger): (f: Figure)
    ensures var snapshot := Filter(table, SnapshotKeeps(years.hi, continents));
            var sel := ChartSelection(trigger, dropdown, line, bubble, BubbleChart);
            && f.rows == NLargest(snapshot, TopCount)
            && |f.rows| == (if |snapshot| < 15 then |snapshot| else 15)
            && ByPopDesc(f.rows)
            && multiset(f.rows) <= multiset(snapshot)
            && (forall x :: x in f.rows ==>
                  x in table && x.year == years.hi && (continents == [] || x.continent in continents))
            && (forall x, y :: x in multiset(snapshot) - multiset(f.rows) && y in f.rows ==> x.pop <= y.pop)
            && (forall k, l :: 0 <= k < l < |f.highlights| ==> f.highlights[k] < f.highlights[l])
            && (forall i: nat :: i in f.highlights <==> sel.Some? && i < |f.rows| && f.rows[i].country in sel.value)
            && (f.tracePoints.Some? <==> f.highlights != [])
            && (f.tracePoints.Some? ==> |f.tracePoints.value| == |TraceContinents(f.rows)|)
            && (f.tracePoints.Some? ==> forall t :: 0 <= t < |f.tracePoints.value| ==> f.tracePoints.value[t] == f.highlights)
            && f.title == BarTitle(years)
  {
    var snapshot := SnapshotRows(table, years, continents);
    var rows := NLargest(snapshot, TopCount);
    TopRowsFromSnapshot(table, years.hi, continents, rows);
    var selection := ChartSelection(trigger, dropdown, line, bubble, BubbleChart);
    Figure(rows, ChartHighlights(rows, selection), TracePoints(rows, selection), BarTitle(years))
  }

  /**
   * `update_pie_chart`: one slice per continent among the table rows of year
   * `years[1]` and a selected continent, in ascending name order and each
   * once; a slice holds the population of that continent's rows; the slices
   * add up to the population of all those rows; the title carries `years[1]`.
   */
  function UpdatePieChart(table: seq<Record>, years: YearRange, continents: seq<Continent>): (f: PieFigure)
    ensures var snapshot := Filter(table, SnapshotKeeps(years.hi, continents));
            && Ascending(Continents(f.slices))
            && (forall i, j :: 0 <= i < j < |f.slices| ==> f.slices[i].continent != f.slices[j].continent)
            && (forall c :: c in Continents(f.slices) <==> exists x :: x in snapshot && x.continent == c)
            && (forall i :: 0 <= i < |f.slices| ==>
                  f.slices[i].pop == TotalPop(Filter(snapshot, OfContinent(f.slices[i].continent))))
            && SlicesPop(f.slices) == TotalPop(snapshot)
            && f.title == PieTitle(years)
  {
    var snapshot := SnapshotRows(table, years, continents);
    var slices := GroupByContinent(snapshot);
    AscendingDistinct(Continents(slices));
    GroupByContinentKeepsTotal(snapshot);
    PieFigure(slices, PieTitle(years))
  }

  // ---------------------------------------------------------------------------
  // Row derivation, stated as one mask over the whole table
  // ---------------------------------------------------------------------------

  /** The line chart's rows, as a single test on a table row. */
  function LineKeeps(years: YearRange, continents: seq<Continent>, countries: set<Country>): Record -> bool {
    (x: Record) =>
      && years.lo <= x.year <= years.hi
      && (continents == [] || x.continent in continents)
      && (countries == {} || x.country in countries)
  }

  /** The year-snapshot panels' rows, as a single test on a table row. */
  function SnapshotKeeps(year: int, continents: seq<Continent>): Record -> bool {
    (x: Record) => x.year == year && (continents == [] || x.continent in continents)
  }

  /** Rows drawn from the snapshot are table rows of that year and a selected continent. */
  lemma TopRowsFromSnapshot(table: seq<Record>, year: int, continents: seq<Continent>, rows: seq<Record>)
    requires forall x :: x in rows ==> x in Filter(table, SnapshotKeeps(year, continents))
    ensures forall x :: x in rows ==> x in table && x.year == year && (continents == [] || x.continent in continents)
  {
  }

  /** A continent filter after a mask `p` is the mask `p` and the continent test. */
  lemma {:induction false} ByContinentsAfterFilter(
    s: seq<Record>, p: Record -> bool, continents: seq<Continent>, both: Record -> bool)
    requires forall x :: both(x) == (p(x) && (continents == [] || x.continent in continents))
    ensures ByContinents(Filter(s, p), continents) == Filter(s, both)
  {
    if continents == [] {
      FilterSameMask(s, p, both);
    } else {
      FilterFilter(s, p, InContinents(continents), both);
    }
  }

  // ---------------------------------------------------------------------------
  // The line chart
  // ---------------------------------------------------------------------------

  /**
   * A chart that fires with a payload replaces the dropdown: the line chart
   * then shows the countries of that payload only, or, for a payload with no
   * point, every country of the year range and continents.
   */
  lemma LineChartFollowsFiringChart(
    table: seq<Record>, dropdown: seq<Country>, yAxis: string, years: YearRange,
    continents: seq<Continent>, bubble: Payload, bar: Payload, trigger: Trigger)
    requires (trigger == BubbleChart && bubble.Some?) || (trigger == TopCountriesChart && bar.Some?)
    ensures var f := UpdateLineChart(table, dropdown, yAxis, years, continents, bubble, bar, trigger);
            var chosen := if trigger == BubbleChart then bubble.value else bar.value;
            forall x :: x in f.rows <==>
              && x in table
              && years.lo <= x.year <= years.hi
              && (continents == [] || x.continent in continents)
              && (chosen == [] || x.country in chosen)
  {
    var chosen := if trigger == BubbleChart then bubble.value else bar.value;
    var countries := LineCountries(trigger, dropdown, bubble, bar);
    assert countries == Elems(chosen);
    assert chosen == [] <==> countries == {} by {
      if chosen != [] { assert chosen[0] in countries; }
    }
  }

  // ---------------------------------------------------------------------------
  // The bubble and bar charts
  // ---------------------------------------------------------------------------

  /**
   * A country ranked below the top 15, each of whose rows in the snapshot is
   * outranked by at least 15 snapshot rows, is not drawn by the bar chart, so
   * a selection naming it highlights none of its rows; no position is out of
   * range.
   */
  lemma AbsentCountryNotHighlighted(
    table: seq<Record>, years: YearRange, continents: seq<Continent>,
    line: Payload, bubble: Payload, dropdown: seq<Country>, trigger: Trigger, c: Country)
    requires var snapshot := Filter(table, SnapshotKeeps(years.hi, continents));
             forall x :: x in snapshot && x.country == c ==> |Filter(snapshot, Outranks(x))| >= TopCount
    ensures var f := UpdateTopCountriesChart(table, years, continents, line, bubble, dropdown, trigger);
            && (forall x :: x in f.rows ==> x.country != c)
            && (forall i :: i in f.highlights ==> i < |f.rows|)
            && (forall i :: 0 <= i < |f.rows| && i in f.highlights ==> f.rows[i].country != c)
  {
    var snapshot := Filter(table, SnapshotKeeps(years.hi, continents));
    var f := UpdateTopCountriesChart(table, years, continents, line, bubble, dropdown, trigger);
    forall x | x in f.rows ensures x.country != c {
      if x.country == c {
        OutrankedRowsKept(snapshot, f.rows, x);
      }
    }
    forall i | 0 <= i < |f.rows| && i in f.highlights ensures f.rows[i].country != c {
      assert f.rows[i] in f.rows;
    }
  }

  /**
   * The rows the bubble, bar and pie charts draw depend on `years[1]` and the
   * continents only: not on `years[0]`, on the dropdown's countries, on the
   * other charts' selections or on which element fired.
   */
  lemma SnapshotPanelsIgnoreSelections(
    table: seq<Record>, years: YearRange, years': YearRange, continents: seq<Continent>,
    line: Payload, line': Payload, other: Payload, other': Payload,
    dropdown: seq<Country>, dropdown': seq<Country>, trigger: Trigger, trigger': Trigger)
    requires years.hi == years'.hi
    ensures UpdateBubbleChart(table, years, continents, line, other, dropdown, trigger).rows
         == UpdateBubbleChart(table, years', continents, line', other', dropdown', trigger').rows
    ensures UpdateTopCountriesChart(table, years, continents, line, other, dropdown, trigger).rows
         == UpdateTopCountriesChart(table, years', continents, line', other', dropdown', trigger').rows
    ensures UpdatePieChart(table, years, continents) == UpdatePieChart(table, years', continents)
  {
  }

  /** A missing or empty selection highlights nothing. */
  lemma NoSelectionNoHighlights(rows: seq<Record>, selection: Option<seq<Country>>)
    requires selection == None || selection == Some([])
    ensures ChartHighlights(rows, selection) == []
  {
    if selection.Some? {
      HighlightsOfNothing(rows);
    }
  }

  /**
   * A highlight source of the bubble chart counts only when its own element
   * fired and its value is truthy; any other trigger (the year slider, the
   * continent dropdown, the first call) leaves the chart without highlights,
   * and so does a source that fired with its selection cleared.
   */
  lemma BubbleHighlightsNeedFiringSource(
    table: seq<Record>, years: YearRange, continents: seq<Continent>,
    line: Payload, bar: Payload, dropdown: seq<Country>, trigger: Trigger)
    requires || (trigger != CountryDropdown && trigger != LineChart && trigger != TopCountriesChart)
             || (trigger == CountryDropdown && dropdown == [])
             || (trigger == LineChart && (line == None || line == Some([])))
             || (trigger == TopCountriesChart && (bar == None || bar == Some([])))
    ensures UpdateBubbleChart(table, years, continents, line, bar, dropdown, trigger).highlights == []
  {
    NoSelectionNoHighlights(
      SnapshotRows(table, years, continents),
      ChartSelection(trigger, dropdown, line, bar, TopCountriesChart));
  }

  /** The same rule for the bar chart, whose third source is the bubble chart. */
  lemma TopCountriesHighlightsNeedFiringSource(
    table: seq<Record>, years: YearRange, continents: seq<Continent>,
    line: Payload, bubble: Payload, dropdown: seq<Country>, trigger: Trigger)
    requires || (trigger != CountryDropdown && trigger != LineChart && trigger != BubbleChart)
             || (trigger == CountryDropdown && dropdown == [])
             || (trigger == LineChart && (line == None || line == Some([])))
             || (trigger == BubbleChart && (bubble == None || bubble == Some([])))
    ensures UpdateTopCountriesChart(table, years, continents, line, bubble, dropdown, trigger).highlights == []
  {
    NoSelectionNoHighlights(
      NLargest(SnapshotRows(table, years, continents), TopCount),
      ChartSelection(trigger, dropdown, line, bubble, BubbleChart));
  }
}
