# Area chart composer, modelled in Dafny

This project models the logic of the `AreaChart` component of react-vizgrammar
(`src/components/AreaChart.jsx`): the static composer `getAreaChartComponent`,
the style and label decisions of `getComponent`, and the legend gate of
`render`.

The composer walks the chart definitions in order and, inside each, the keys
of `dataSetNames` in `_.keys` order. Every series yields one legend entry
`{ name, symbol: { fill }, chartIndex }`; the fill is `#d3d3d3` for a series
named in the ignore array and the series' own colour otherwise. A series that
is not ignored also yields one drawable group (area plus point markers). A
chart whose mode is `'stacked'` contributes one stacking container holding its
groups, even when that container is empty; a chart in any other mode
contributes its groups directly. For each group, `getComponent` chooses the
area fill opacity and the marker radius, each a per-chart override behind `||`
with a default of 0.1 and 4. It also chooses the tooltip label format: a date
on a time scale with a configured `tipTimeFormat`, the raw x value when
`isNaN(x)`, and otherwise x to two decimals. `render` passes the legend on only
when `config.legend === true`.

Layout:

- `js.dfy` (module `Js`): JavaScript values, truthiness and the value-returning `||`.
- `area_chart_component.dfy` (module `AreaChartComponent`): the configuration
  records, the drawable datatype and the decisions of `getComponent`.
- `area_chart.dfy` (module `AreaChart`): the composer as a method with nested
  loops (`GetAreaChartComponent`). Recursive functions specify it (`Legend`,
  `Drawables`, `Compose`), the lemmas state what the composition guarantees,
  and `Render` models the legend gate.

Modelling choices:

- The composer pushes into local arrays inside nested `forEach` loops, so it is
  a method with nested `while` loops. Its postcondition equates its result
  with `Compose`, which is defined chart by chart from the end so that each
  iteration extends the prefix by one step.
- `getComponent` reads `config.charts[chartIndex].style`. When `config.charts`
  has no entry for a chart that still has a non-ignored series, JavaScript
  throws a TypeError. The model returns `TypeError` in that case rather than
  forbidding it by a precondition. A chart whose every series is ignored never
  reaches `getComponent` and so does not throw.
- Membership in the ignore array stands for both `_.indexOf(...) > -1` and
  `_.indexOf(...) === -1` (its negation).
- JavaScript values are `Js.Value`. `Undefined` stands for both `undefined` and
  `null`. Numbers are exact rationals (`real`), so the defaults 0.1 and 4 are
  exact, and `NaN` is a separate constructor. The `||` operator returns one of
  its operands, so a string override such as `"0.5"` reaches the chart
  unchanged.
- A mode other than `'stacked'` is treated like `'normal'`. The code compares
  with `'stacked'` only, and the model follows the code.
- A group's data is represented by its dataset name, because
  `dataSets[dsName]` passes through untouched.

## Model

| member | source | states |
|---|---|---|
| `Js.Or` | src/components/AreaChart.jsx:84 | `a \|\| b` yields `a` exactly when `a` is truthy and `b` otherwise, and the result is truthy iff either operand is |
| `AreaChartComponent.FillOpacity` | src/components/AreaChart.jsx:83-85 | the area opacity is the chart's `style.fillOpacity` when a style exists and that value is truthy, otherwise 0.1; it is never falsy |
| `AreaChartComponent.MarkRadius` | src/components/AreaChart.jsx:119-122 | the marker radius is the chart's `style.markRadius` when a style exists and that value is truthy, otherwise 4; it is never falsy |
| `AreaChartComponent.StyleSetting` | src/components/AreaChart.jsx:83-85 | the shared `style ? style.field \|\| DEFAULT : DEFAULT` pattern (also lines 119-122): the override when a style exists and the field is truthy, the default otherwise, never falsy when the default is truthy |
| `AreaChartComponent.ZeroOverridesFallBack` | src/components/AreaChart.jsx:26-27 | overrides of 0 are falsy and fall back to the defaults 0.1 and 4 |
| `AreaChartComponent.ChooseLabeler` | src/components/AreaChart.jsx:93-109 | the time-format label function is chosen exactly when `xScale` is `'time'` and `tipTimeFormat` is truthy, and it uses that format |
| `AreaChartComponent.Label` | src/components/AreaChart.jsx:94-108 | a tooltip carries `config.x`, the chart's `y` title and the point's y; its x part is a date under the time labeler, raw when `isNaN(x)`, and two decimals otherwise |
| `AreaChartComponent.LabelBranches` | src/components/AreaChart.jsx:94-108 | from the inputs alone: each of the three label formats applies exactly under its condition |
| `AreaChartComponent.Component` | src/components/AreaChart.jsx:72-135 | the drawable of a series is a group keyed by its chart index, carrying its dataset, its colour, the chart's opacity and radius (both truthy) and exactly the labeler `ChooseLabeler` picks: the time labeler, carrying `config.tipTimeFormat`, exactly on a time scale with a format |
| `AreaChart.ChartLegend` | src/components/AreaChart.jsx:46-51 | one legend entry per series of a chart, in series order, each with the series name, its fill and the chart index |
| `AreaChart.Legend` | src/components/AreaChart.jsx:44-51 | the legend has exactly as many entries as there are series keys across all charts |
| `AreaChart.LegendAt` | src/components/AreaChart.jsx:44-51 | about `Legend`: series `k` of chart `i` is legend entry `SeriesCount(charts[..i]) + k` (chart order, then series order), with its name, chart index `i`, and fill grey if ignored and its own colour if not |
| `AreaChart.GreyExactlyWhenIgnored` | src/components/AreaChart.jsx:49 | about `Fill`, the legend colour of line 49, which has no contract of its own: for a series whose colour is not grey, its legend fill is `#d3d3d3` exactly when its name is in the ignore array |
| `AreaChart.Visible` | src/components/AreaChart.jsx:52-56 | the series that reach `getComponent` are exactly the chart's series whose names are not ignored |
| `AreaChart.VisibleAppend` | src/components/AreaChart.jsx:52-56 | filtering keeps series order: the visible series of `a + b` are those of `a` followed by those of `b` |
| `AreaChart.LocalComponents` | src/components/AreaChart.jsx:45-57 | `localChartComp`: when it is built, it has at most one element per series, and every element is a group of this chart whose dataset is not ignored |
| `AreaChart.VisibleNoneWhenAllIgnored` | src/components/AreaChart.jsx:52-56 | when every series of a chart is ignored, none of them is drawn |
| `AreaChart.LocalComponentsThrows` | src/components/AreaChart.jsx:52-56 | about `LocalComponents`: building a chart's groups throws exactly when the chart has no `config.charts` entry and some series of it is not ignored |
| `AreaChart.LocalComponentsVisible` | src/components/AreaChart.jsx:45-57 | about `LocalComponents`: a chart's local components are one `getComponent` group per entry of `Visible`, position by position, hence one per non-ignored series in series order (with `VisibleAppend`) |
| `AreaChart.EmptyStackWhenAllIgnored` | src/components/AreaChart.jsx:59-64 | a stacked chart whose every series is ignored still pushes one stack, which is empty |
| `AreaChart.ChartDrawablesShape` | src/components/AreaChart.jsx:59-67 | about `ChartDrawables`, what one chart appends to `chartComponents`: it is `[Stack(id, localChartComp)]` for a stacked chart and `localChartComp` otherwise; so a stacked chart adds exactly one stack, with the chart's id, holding its non-ignored groups in order; any other chart adds those groups unwrapped |
| `AreaChart.MissingConfigThrows` | src/components/AreaChart.jsx:44-68 | about `Drawables` (`chartComponents`): the composition throws exactly when some non-ignored series belongs to a chart without a `config.charts` entry |
| `AreaChart.DrawablesCount` | src/components/AreaChart.jsx:44-68 | about `Drawables`: `\|chartComponents\|` is the number of stacked charts plus the number of non-ignored series in the other charts |
| `AreaChart.VisibleNamed` | src/components/AreaChart.jsx:52-56 | a chart has a non-ignored series called `name` exactly when it has a series called `name` and `name` is not in the ignore array |
| `AreaChart.ChartDrawsExactlyVisible` | src/components/AreaChart.jsx:52-67 | within one chart's contribution, with stacks opened, a dataset is drawn exactly when it is a non-ignored series of that chart |
| `AreaChart.DrawnExactlyWhenNotIgnored` | src/components/AreaChart.jsx:44-68 | about `Drawables`: across all charts, with stacks opened, chart `i` draws dataset `name` exactly when `name` is a series of chart `i` and is not ignored |
| `AreaChart.GetAreaChartComponent` | src/components/AreaChart.jsx:40-70 | the nested loops return exactly `Compose`, the model of the returned `{ chartComponents, legendComponents }`: `Drawables` and `Legend` as specified by the lemmas above, or the TypeError |
| `AreaChart.Render` | src/components/AreaChart.jsx:137-166 | render fails exactly when the composer throws; the legend is passed on exactly when `config.legend` is the boolean `true`, and the drawables are the composer's |
| `AreaChart.LegendNeedsStrictTrue` | src/components/AreaChart.jsx:153-160 | a truthy `legend` setting other than `true` (say the string `"true"`) shows no legend |

## Left out

- Victory primitives (`VictoryArea`, `VictoryScatter`, `VictoryTooltip`, `VictoryGroup`, `VictoryStack`) and JSX construction: foreign UI library calls, represented only by the `Group` and `Stack` constructors.
- Date formatting (`timeFormat`), `Number(...).toFixed(2)` and the numeric coercion inside `isNaN`: foreign formatting on floating point. The model keeps which format applies; `Label` takes the verdict of `isNaN(d.x)` as a parameter.
- Animation settings, tooltip styling constants and the click-event wiring (`onClick` mutation): presentation only, with no decision beyond `config.animate ?`.
- The React lifecycle, the constructor's handler binding, `BaseChart` and its state (`chartArray`, `dataSets`, `xScale`, `ignoreArray`): `BaseChart` is not part of this model, so `Render` receives that state as a parameter.
- `ChartContainer` and `LegendComponent`, and the props passed through to them (`width`, `height`, `yDomain`, `config`): the model keeps only which children the container receives.
- The dataset points: `dataSets[dsName]` passes through with no logic applied, and a missing key is not checked.
- The React `key` strings (`area-group-${chartIndex}`, `area-group-${chart.id}`) are kept only as the chart index of a group and the id of a stack.
- `AreaChart.Visible`: its own contract states membership only; the order of the filtered series is stated separately by `VisibleAppend`.
