/**
 * The decisions `AreaChart.getComponent` takes when it builds the drawable
 * for one series: the fill opacity of the area, the radius of the point
 * markers (each a per-chart override with a default behind `||`), and which
 * of the three tooltip label formats is used. The charting primitives
 * themselves are abstract constructors.
 */
module AreaChartComponent {
  import opened Js

  const DEFAULT_MARK_RADIUS: Value := Num(4.0)
  const DEFAULT_AREA_FILL_OPACITY: Value := Num(0.1)
  const TIME_SCALE := "time"

  datatype Option<T> = None | Some(value: T)

  /** `config.charts[i].style`: the overrides a chart may carry. */
  datatype ChartStyle = ChartStyle(fillOpacity: Value, markRadius: Value)

  /** `config.charts[i]`: the y-axis title and the optional style object (`None` when absent). */
  datatype ChartConfig = ChartConfig(y: string, style: Option<ChartStyle>)

  /** The parts of the chart configuration the area chart reads. */
  datatype Config = Config(x: string, charts: seq<ChartConfig>, tipTimeFormat: Value, legend: Value)

  /** One data point of a series. */
  datatype Point = Point(x: Value, y: Value)

  /** The label function handed to the scatter markers, chosen once per series. */
  datatype Labeler = TimeLabeler(format: Value) | NumberLabeler

  /** How the x part of a tooltip is written: as a date, raw, or to two decimals. */
  datatype XText = TimeFormatted(format: Value, x: Value) | Raw(x: Value) | TwoDecimals(x: Value)

  /** A tooltip `<xTitle>:<x text>` over `<yTitle>:<y to two decimals>`. */
  datatype Tooltip = Tooltip(xTitle: string, x: XText, yTitle: string, y: Value)

  /** What getComponent decides for one series: area opacity, marker radius, label function. */
  datatype Look = Look(fillOpacity: Value, markRadius: Value, labeler: Labeler)

  /**
   * A drawable element: the area-plus-markers group of one series (its data
   * stands for `dataSets[dataSet]`), or a stacking container around groups.
   */
  datatype Drawable =
    | Group(chartIndex: nat, dataSet: string, color: string, look: Look)
    | Stack(id: string, items: seq<Drawable>)

  /** The override when the chart has a style whose field is truthy, the default otherwise. */
  function StyleSetting(style: Option<ChartStyle>, field: ChartStyle -> Value, default: Value): (r: Value)
    requires Truthy(default)
    ensures Truthy(r)
    ensures style.Some? && Truthy(field(style.value)) ==> r == field(style.value)
    ensures style.None? || !Truthy(field(style.value)) ==> r == default
  {
    if style.Some? then Or(field(style.value), default) else default
  }

  /** Fill opacity of a chart's areas. */
  function FillOpacity(c: ChartConfig): (r: Value)
    ensures Truthy(r)
    ensures c.style.Some? && Truthy(c.style.value.fillOpacity) ==> r == c.style.value.fillOpacity
    ensures c.style.None? || !Truthy(c.style.value.fillOpacity) ==> r == DEFAULT_AREA_FILL_OPACITY
  {
    StyleSetting(c.style, (s: ChartStyle) => s.fillOpacity, DEFAULT_AREA_FILL_OPACITY)
  }

  /** Radius of a chart's point markers. */
  function MarkRadius(c: ChartConfig): (r: Value)
    ensures Truthy(r)
    ensures c.style.Some? && Truthy(c.style.value.markRadius) ==> r == c.style.value.markRadius
    ensures c.style.None? || !Truthy(c.style.value.markRadius) ==> r == DEFAULT_MARK_RADIUS
  {
    StyleSetting(c.style, (s: ChartStyle) => s.markRadius, DEFAULT_MARK_RADIUS)
  }

  /** A falsy override such as 0 does not reach the chart: both settings fall back to their defaults. */
  lemma ZeroOverridesFallBack(c: ChartConfig)
    requires c.style == Some(ChartStyle(Num(0.0), Num(0.0)))
    ensures FillOpacity(c) == Num(0.1) && MarkRadius(c) == Num(4.0)
  {
  }

  /** The label function: time formatting only on a time scale with a configured format. */
  function ChooseLabeler(xScale: string, tipTimeFormat: Value): (l: Labeler)
    ensures l.TimeLabeler? <==> xScale == TIME_SCALE && Truthy(tipTimeFormat)
    ensures l.TimeLabeler? ==> l.format == tipTimeFormat
  {
    if xScale == TIME_SCALE && Truthy(tipTimeFormat) then TimeLabeler(tipTimeFormat) else NumberLabeler
  }

  /**
   * The tooltip a labeler produces for point `d` of chart `chartIndex`;
   * `xIsNaN` is the verdict of `isNaN(d.x)`, whose numeric coercion is not
   * modelled.
   */
  function Label(config: Config, chartIndex: nat, l: Labeler, d: Point, xIsNaN: bool): (t: Tooltip)
    requires chartIndex < |config.charts|
    ensures t.xTitle == config.x && t.yTitle == config.charts[chartIndex].y && t.y == d.y
    ensures t.x.x == d.x
    ensures t.x.TimeFormatted? <==> l.TimeLabeler?
    ensures t.x.TimeFormatted? ==> t.x.format == l.format
    ensures t.x.Raw? <==> l.NumberLabeler? && xIsNaN
    ensures t.x.TwoDecimals? <==> l.NumberLabeler? && !xIsNaN
  {
    var x :=
      match l
      case TimeLabeler(format) => TimeFormatted(format, d.x)
      case NumberLabeler => if xIsNaN then Raw(d.x) else TwoDecimals(d.x);
    Tooltip(config.x, x, config.charts[chartIndex].y, d.y)
  }

  /** The tooltip of a point: which of the three formats applies, from the inputs alone. */
  lemma LabelBranches(config: Config, chartIndex: nat, xScale: string, d: Point, xIsNaN: bool)
    requires chartIndex < |config.charts|
    ensures var t := Label(config, chartIndex, ChooseLabeler(xScale, config.tipTimeFormat), d, xIsNaN);
      && (t.x == TimeFormatted(config.tipTimeFormat, d.x) <==> xScale == TIME_SCALE && Truthy(config.tipTimeFormat))
      && (t.x == Raw(d.x) <==> !(xScale == TIME_SCALE && Truthy(config.tipTimeFormat)) && xIsNaN)
      && (t.x == TwoDecimals(d.x) <==> !(xScale == TIME_SCALE && Truthy(config.tipTimeFormat)) && !xIsNaN)
  {
  }

  /**
   * The drawable of one series, as getComponent builds it. Reading
   * `config.charts[chartIndex]` requires the entry to exist.
   */
  function Component(config: Config, chartIndex: nat, xScale: string, dataSet: string, color: string): (g: Drawable)
    requires chartIndex < |config.charts|
    ensures g.Group? && g.chartIndex == chartIndex && g.dataSet == dataSet && g.color == color
    ensures Truthy(g.look.fillOpacity) && Truthy(g.look.markRadius)
    ensures g.look.fillOpacity == FillOpacity(config.charts[chartIndex])
    ensures g.look.markRadius == MarkRadius(config.charts[chartIndex])
    ensures g.look.labeler == ChooseLabeler(xScale, config.tipTimeFormat)
    ensures g.look.labeler.TimeLabeler? <==> xScale == TIME_SCALE && Truthy(config.tipTimeFormat)
    ensures g.look.labeler.TimeLabeler? ==> g.look.labeler.format == config.tipTimeFormat
  {
    var c := config.charts[chartIndex];
    Group(chartIndex, dataSet, color, Look(FillOpacity(c), MarkRadius(c), ChooseLabeler(xScale, config.tipTimeFormat)))
  }
}
