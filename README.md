# Dashboard callbacks: cross-panel filtering and highlighting

A Dafny model of the four callbacks of a Dash dashboard over one shared
table of country records (country, continent, year, population). The
dashboard draws four panels:

- a line chart over the years;
- a bubble chart of one year;
- a bar chart of the 15 most populous countries of that year;
- a pie chart of population by continent.

Every callback reads the year range slider and the continent dropdown, and
derives its panel's rows from them. The bubble, bar and pie titles carry
`years[1]`; the line chart's title names the y-axis column instead.

- The line, bubble and bar callbacks also read the country dropdown, the
  selections of the other charts and the id of the element that fired
  (`ctx.triggered_id`).
- Only the bubble and bar callbacks compute positions to highlight. The line
  callback narrows its rows to the resolved countries instead.
- The pie callback reads nothing else, and highlights nothing.

Every callback is a straight pipeline of pure operations over a sequence of
records, so the model is functional: datatypes, functions and lemmas.

- `Table` (table.dfy): the `Record` row, the slider pair `YearRange`, and
  `Filter`, the order-preserving boolean-mask selection `dff[mask]`, with its
  laws (membership, subsequence, composition of masks).
- `Largest` (largest.dfy): `nlargest(15, 'pop')` as a stable sort by
  non-increasing population followed by a prefix.
- `GroupSum` (group_sum.dfy): `groupby('continent')['pop'].sum()`. Its keys
  come in ascending code-point order, as pandas sorts them.
- `Titles` (titles.dfy): the four title f-strings, with the decimal rendering
  of the year and its parser.
- `Selection` (selection.dfy): the element ids, the selection payloads, the
  resolution of which source supplies the highlighted countries, and the
  highlight positions.
- `Traces` (traces.dfy): how the highlight positions are handed to the
  per-continent traces of the bubble and bar charts (see Findings).
- `Callbacks` (callbacks.dfy): `UpdateLineChart`, `UpdateBubbleChart`,
  `UpdateTopCountriesChart` and `UpdatePieChart`, whose contracts state what
  each panel draws and highlights, and lemmas relating the callbacks'
  behaviour across inputs.

Inputs are modelled as follows:

- `ctx.triggered_id` becomes an explicit `Trigger` parameter. `Initial`
  stands for the first call, when no element fired.
- A chart's `selectedData` is a `Payload`: `None`, or `Some(countries)` with
  the countries its points name (`customdata[0]` or `x`). A payload is truthy
  even when it holds no point. This matters for the line chart: when the
  bubble or bar chart fires with an empty payload, `countries_to_show`
  becomes the empty set. The dropdown's countries are then dropped and no
  country filter is applied (`LineChartFollowsFiringChart`).
- The dropdowns' `None` value is the empty list; both are falsy in the same
  way.

Three properties of the code that the model makes explicit:

- Each of the bubble and bar callbacks tests its selection sources in a fixed
  order, but every test also requires the trigger to be that source's own
  element. So at most one test can pass, and the order makes no difference
  (`Selection.ChartSelection`).
- A selection cleared in one chart leaves the bubble and bar charts without
  highlights (`BubbleHighlightsNeedFiringSource`,
  `TopCountriesHighlightsNeedFiringSource`). The line chart behaves
  differently. A cleared payload that is still present shows every country. A
  `None` payload falls back to the dropdown's countries.
- The callbacks validate no column name and do not rely on one row per
  (country, year). Neither does the model.

## Model

| member | source | states |
|---|---|---|
| Table.Filter | dash/main.py:134 | a masked selection holds exactly the rows of the input that pass the mask, and is no longer than the input |
| Table.FilterIsSubsequence | dash/main.py:130-138 | a masked selection is an order-preserving subsequence of the frame it selects from |
| Table.FilterFilter | dash/main.py:133-138 | two masks applied in turn select exactly what their conjunction selects |
| Table.FilterAppend | dash/main.py:134 | masking a concatenation masks each part |
| Table.FilterKeepsAll | dash/main.py:137-138 | a mask every row passes leaves the frame unchanged |
| Table.FilterSameMask | dash/main.py:156-157 | masks that agree on every row of a frame select the same rows of it |
| Largest.SortByPop | dash/main.py:245 | the sort is a permutation of its input, ordered by non-increasing population |
| Largest.SortByPopStable | dash/main.py:245 | the sort is stable: rows with equal population keep their input order |
| Largest.NLargest | dash/main.py:245 | `nlargest(n, 'pop')` keeps min(n, len) rows of the input (a sub-multiset), by non-increasing population, and no row left out has a greater population than a row kept |
| Largest.OutrankedRowsKept | dash/main.py:245 | when no row left out outranks a row kept, every row more populous than a kept row is kept too, so fewer rows outrank it than are kept |
| Largest.NLargestKeepsFirst | dash/main.py:245 | ties at the cut are settled as `keep='first'`: of the rows sharing a population, the kept ones are the earliest in the input |
| GroupSum.GroupKeys | dash/main.py:294 | the group keys are exactly the continents present, strictly ascending (so each once) |
| GroupSum.GroupByContinent | dash/main.py:294 | one slice per continent present, ascending by name, each holding the total population of that continent's rows |
| GroupSum.GroupByContinentKeepsTotal | dash/main.py:294 | the slices add up to the total population of the grouped rows |
| GroupSum.AscendingDistinct | dash/main.py:294 | ascending group keys are pairwise distinct |
| Titles.IntToStringRoundTrip | dash/main.py:197 | the decimal rendering of the year in a title parses back to the same year |
| Titles.LineTitle | dash/main.py:160 | the line chart's title carries the y-axis column name verbatim between the fixed words, so it can be read back |
| Titles.BubbleTitle | dash/main.py:197 | the bubble chart's title is the fixed words followed by `years[1]`, which reads back exactly |
| Titles.BarTitle | dash/main.py:248 | the same for the bar chart's title |
| Titles.PieTitle | dash/main.py:297 | the same for the pie chart's title |
| Selection.ElementId | dash/main.py:147 | every trigger but the first call carries an element id |
| Selection.ElementIdInjective | dash/main.py:147 | distinct elements have distinct ids, so comparing triggers is comparing ids |
| Selection.Highlights | dash/main.py:203-204 | the highlight positions are strictly increasing, each below the number of rows, and position i is present iff row i's country is selected |
| Selection.HighlightsOfNothing | dash/main.py:214 | an empty selection yields no position |
| Selection.ChartSelection | dash/main.py:202-212 | a source supplies the selection only when its own element fired and its value is truthy, so the trigger alone decides it: the dropdown's countries when non-empty, the line chart's payload, the other chart's payload, or none |
| Selection.LineCountries | dash/main.py:141-154 | the chart that fired with a payload replaces the dropdown's countries outright; otherwise the dropdown's countries are shown |
| Callbacks.ByContinentsAfterFilter | dash/main.py:137-138 | the optional continent filter after a mask is the mask and the continent test |
| Callbacks.LineRows | dash/main.py:133-157 | the line chart's rows are the table masked once by year range, continents and resolved countries |
| Callbacks.SnapshotRows | dash/main.py:186-191 | the snapshot rows are the table masked once by `year == years[1]` and continents |
| Callbacks.TracePoints | dash/main.py:214-216 | there is a per-trace override iff something is highlighted, and then every trace receives the whole-frame positions |
| Callbacks.UpdateLineChart | dash/main.py:129-167 | the drawn rows are exactly the table masked once, repeated records included; a row is drawn iff it lies in [years[0], years[1]], has a selected continent (when any) and a resolved country (when any); rows keep table order; no highlight; the title names the y-axis |
| Callbacks.LineChartFollowsFiringChart | dash/main.py:146-157 | when a chart fires with a payload, the line chart shows that payload's countries only, or every country when the payload is empty |
| Callbacks.UpdateBubbleChart | dash/main.py:181-222 | the bubble chart draws exactly the table rows of `years[1]` and the selected continents, in order, as one mask over the table (repeated records included); highlights are ascending and mark exactly the rows whose country the firing source selected; every trace receives them when there are any |
| Callbacks.UpdateTopCountriesChart | dash/main.py:233-275 | the bar chart draws exactly `NLargest` of the snapshot rows, so ties at the cut follow `keep='first'` (`NLargestKeepsFirst`); it draws min(15, n) snapshot rows by non-increasing population, none left out outranking one drawn; highlights mark exactly the drawn rows of selected countries; every trace receives them when there are any |
| Callbacks.AbsentCountryNotHighlighted | dash/main.py:245-264 | a country each of whose snapshot rows is outranked by at least 15 snapshot rows is not drawn by the bar chart, so no highlight falls on it, and no position is out of range |
| Callbacks.SnapshotPanelsIgnoreSelections | dash/main.py:183-192 | the bubble, bar and pie rows depend on `years[1]` and the continents only, not on `years[0]`, selections, dropdown countries or the trigger |
| Callbacks.NoSelectionNoHighlights | dash/main.py:214 | no selection, or an empty one, highlights nothing |
| Callbacks.BubbleHighlightsNeedFiringSource | dash/main.py:202-216 | with no source whose element fired and whose value is truthy (the slider fired, the first call, a cleared selection), the bubble chart highlights nothing |
| Callbacks.TopCountriesHighlightsNeedFiringSource | dash/main.py:254-268 | the same for the bar chart |
| Callbacks.UpdatePieChart | dash/main.py:283-300 | one slice per distinct continent of the snapshot rows, ascending; each holds that continent's total population; the slices add up to the snapshot's total; the title carries `years[1]` |
| Traces.TraceContinents | dash/main.py:194 | the traces are exactly the continents present, each once, in order of their first row in the frame |
| Traces.SelectedPointsAsWritten | dash/main.py:215-216 | as written, every trace receives the positions computed over the whole frame |
| Traces.SelectedPointsPerTrace | dash/main.py:215-216 | corrected: point j of a trace is selected iff that point's own country is selected |
| Traces.OneContinentAgrees | dash/main.py:267-268 | with a single continent the positions as written are the right ones |
| Traces.AsWrittenMissesSelectedCountry | dash/main.py:215-216 | a two-continent frame where the selected country is not highlighted as written, and is highlighted when corrected |

## Findings

| source | as written | input that shows it | evidently intended | confidence | as-written member | corrected member |
|---|---|---|---|---|---|---|
| dash/main.py:215-216 | every per-continent trace of the bubble chart (and the bar chart, 267-268) gets `selected_points`, which are positions in the whole frame. A trace's `selectedpoints` are positions within that trace | rows China/Asia then France/Europe, France selected: `selected_points == [1]`. France is point 0 of the Europe trace, so it is not highlighted | each trace highlights its own points whose country is selected | high, not executed | Traces.SelectedPointsAsWritten | Traces.SelectedPointsPerTrace |

The callbacks model the code as written: `Callbacks.TracePoints` gives every
trace the whole-frame positions. `Traces.SelectedPointsPerTrace` is the
corrected assignment, and `Traces.OneContinentAgrees` shows that the two agree
when the frame holds one continent.

## Left out

- The CSV fetch, the app construction and startup (dash/main.py:8, 10, 302-303). These are I/O and process plumbing.
- The layout and the option lists of the dropdowns and the slider, including `numeric_columns` (dash/main.py:13-117). These build the UI.
- Plotly figure building and styling: `px.line`, `px.scatter`, `px.bar`, `px.pie`, log axis, sizes, transitions, `clickmode`, `categoryorder`. These are foreign rendering calls. The figures are returned as data: rows, positions, title.
- The bubble chart's axis and size choices (`x_axis`, `y_axis`, `size`). They only shape the drawing, so they are not parameters.
- The `gdpPercap` and `lifeExp` columns. They are floating point and only drawn. `pop` is a `nat`.
- Parsing the raw `selectedData` dictionaries (`points`, `customdata[0]`, `x`). The payloads are taken as extracted country lists.
- Dash's callback scheduling and the `ctx` global. The trigger is a parameter.
- The `selected-data` div and the `filter-store`. No callback reads or writes them.
- `years is None`: the bubble, bar and pie callbacks index `years[1]` in their titles unconditionally (dash/main.py:197, 248, 297), while the line callback skips its year filter and still draws (dash/main.py:133). The slider value is always a pair here, so neither case is modelled. `lo <= hi` is not required: the code does not need it, and with `lo > hi` the line chart is empty.
- A cleared y-axis dropdown (`None`). The line title takes the column name as a string.
- The order of the pie slices on screen. The pie drawing orders slices itself; the model keeps pandas' key order.
