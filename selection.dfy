/**
 * Which control fired (`ctx.triggered_id`), the selections the charts
 * report, and how a selection becomes the highlighted positions of a panel.
 */
module Selection {
  import opened Table

  /** The input elements of the callbacks; `Initial` is the first call, when no element fired. */
  datatype Trigger =
    | CountryDropdown
    | YAxisDropdown
    | YearSlider
    | ContinentDropdown
    | BubbleXDropdown
    | BubbleYDropdown
    | BubbleSizeDropdown
    | LineChart
    | BubbleChart
    | TopCountriesChart
    | Initial

  /** The element id `ctx.triggered_id` carries for each trigger. */
  function ElementId(t: Trigger): (id: Option<string>)
    ensures id.None? <==> t == Initial
  {
    match t
    case CountryDropdown => Some("country-dropdown")
    case YAxisDropdown => Some("y-axis-dropdown")
    case YearSlider => Some("year-slider")
    case ContinentDropdown => Some("continent-dropdown")
    case BubbleXDropdown => Some("bubble-x-dropdown")
    case BubbleYDropdown => Some("bubble-y-dropdown")
    case BubbleSizeDropdown => Some("bubble-size-dropdown")
    case LineChart => Some("line-chart")
    case BubbleChart => Some("bubble-chart")
    case TopCountriesChart => Some("top-countries-chart")
    case Initial => None
  }

  /** Distinct elements have distinct ids, so comparing triggers is comparing the ids the callbacks test. */
  lemma ElementIdInjective(s: Trigger, t: Trigger)
    ensures ElementId(s) == ElementId(t) <==> s == t
  {
  }

  /**
   * A chart's `selectedData`: `None`, or a payload whose points name these
   * countries. A payload is truthy even when it holds no point.
   */
  type Payload = Option<seq<Country>>

  /**
   * `[i for i, country in enumerate(dff['country']) if country in selected]`:
   * the positions of the rows whose country is selected, ascending.
   */
  function Highlights(rows: seq<Record>, selected: seq<Country>): (r: seq<nat>)
    ensures forall k :: 0 <= k < |r| ==> r[k] < |rows|
    ensures forall k, l :: 0 <= k < l < |r| ==> r[k] < r[l]
    ensures forall i: nat :: i in r <==> i < |rows| && rows[i].country in selected
  {
    if rows == [] then []
    else
      var last := |rows| - 1;
      var front := Highlights(rows[..last], selected);
      assert forall i :: 0 <= i < last ==> rows[..last][i] == rows[i];
      front + (if rows[last].country in selected then [last] else [])
  }

  /** An empty selection highlights no position. */
  lemma {:induction false} HighlightsOfNothing(rows: seq<Record>)
    ensures Highlights(rows, []) == []
  {
    if rows != [] {
      HighlightsOfNothing(rows[..|rows| - 1]);
    }
  }

  /**
   * The countries a bubble or bar callback highlights: the first source,
   * dropdown, then line chart, then `other` (the remaining chart, element
   * `otherId`), whose element fired and whose value is truthy; `None` when no
   * source applies. Only the element that fired can supply the selection, so
   * the order of the tests makes no difference: the trigger alone decides.
   */
  function ChartSelection(trigger: Trigger, dropdown: seq<Country>, line: Payload, other: Payload, otherId: Trigger)
    : (sel: Option<seq<Country>>)
    requires otherId == BubbleChart || otherId == TopCountriesChart
    ensures trigger == CountryDropdown ==> sel == if dropdown == [] then None else Some(dropdown)
    ensures trigger == LineChart ==> sel == line
    ensures trigger == otherId ==> sel == other
    ensures trigger != CountryDropdown && trigger != LineChart && trigger != otherId ==> sel == None
  {
    if dropdown != [] && ElementId(trigger) == Some("country-dropdown") then Some(dropdown)
    else if line.Some? && ElementId(trigger) == Some("line-chart") then line
    else if other.Some? && ElementId(trigger) == ElementId(otherId) then other
    else None
  }

  /** `selected_points`: the positions to highlight, empty when no source applies. */
  function ChartHighlights(rows: seq<Record>, selection: Option<seq<Country>>): seq<nat> {
    match selection
    case None => []
    case Some(countries) => Highlights(rows, countries)
  }

  /** The elements of a list, as a set. */
  function Elems(s: seq<Country>): set<Country> {
    set c | c in s
  }

  /**
   * `countries_to_show` of the line chart: the dropdown's countries, replaced
   * outright (not merged) by the bubble chart's selection when it fired with a
   * payload, and by the bar chart's when that fired with a payload; a chart
   * that did not fire has no say.
   */
  function LineCountries(trigger: Trigger, dropdown: seq<Country>, bubble: Payload, bar: Payload): (shown: set<Country>)
    ensures trigger == BubbleChart && bubble.Some? ==> forall c :: c in shown <==> c in bubble.value
    ensures trigger == TopCountriesChart && bar.Some? ==> forall c :: c in shown <==> c in bar.value
    ensures !(trigger == BubbleChart && bubble.Some?) && !(trigger == TopCountriesChart && bar.Some?)
            ==> forall c :: c in shown <==> c in dropdown
  {
    var fromDropdown := Elems(dropdown);
    var afterBubble := if bubble.Some? && ElementId(trigger) == Some("bubble-chart") then Elems(bubble.value) else fromDropdown;
    if bar.Some? && ElementId(trigger) == Some("top-countries-chart") then Elems(bar.value) else afterBubble
  }
}
