/**
 * The chart/legend composer of the area chart (`AreaChart.getAreaChartComponent`)
 * and the legend gate of `AreaChart.render`.
 *
 * For every chart definition, in order, and every series of it, in key
 * order, the composer emits one legend entry (grey when the series is
 * ignored) and, for a series that is not ignored, one drawable group. A
 * chart in "stacked" mode contributes a single stacking container around its
 * groups; any other chart contributes its groups directly.
 *
 * The composer itself is the method `GetAreaChartComponent`; the recursive
 * functions `Legend`, `Drawables` and `Compose` specify it, and the lemmas
 * below state what they guarantee.
 */
module AreaChart {
  import opened Js
  import opened AreaChartComponent

  const STACKED := "stacked"
  const IGNORED_FILL := "#d3d3d3"

  /** One key of a chart's `dataSetNames`: the dataset name and its colour. */
  datatype Series = Series(name: string, color: string)

  /** A chart definition; `series` lists the keys of `dataSetNames` in `_.keys` order. */
  datatype ChartDef = ChartDef(id: string, mode: string, series: seq<Series>)

  /** An entry of `legendComponents`: `{ name, symbol: { fill }, chartIndex }`. */
  datatype LegendEntry = LegendEntry(name: string, fill: string, chartIndex: nat)

  /** `{ chartComponents, legendComponents }`. */
  datatype Output = Output(chartComponents: seq<Drawable>, legendComponents: seq<LegendEntry>)

  /**
   * A composition either completes or throws the TypeError of reading
   * `.style` from a missing `config.charts[chartIndex]`.
   */
  datatype Result<T> = Ok(value: T) | TypeError

  // ---------------------------------------------------------------------
  // Specification of the composer
  // ---------------------------------------------------------------------

  /** The legend symbol colour of a series. */
  function Fill(s: Series, ignore: seq<string>): string {
    if s.name in ignore then IGNORED_FILL else s.color
  }

  /** The legend entries one chart contributes: one per series, in series order. */
  function ChartLegend(series: seq<Series>, chartIndex: nat, ignore: seq<string>): (r: seq<LegendEntry>)
    ensures |r| == |series|
    ensures forall k :: 0 <= k < |series| ==> r[k] == LegendEntry(series[k].name, Fill(series[k], ignore), chartIndex)
    decreases |series|
  {
    if series == [] then []
    else
      var last := series[|series| - 1];
      ChartLegend(series[..|series| - 1], chartIndex, ignore) + [LegendEntry(last.name, Fill(last, ignore), chartIndex)]
  }

  /** The number of series keys across all chart definitions. */
  function SeriesCount(charts: seq<ChartDef>): nat {
    if charts == [] then 0 else SeriesCount(charts[..|charts| - 1]) + |charts[|charts| - 1].series|
  }

  /** `legendComponents` for a list of chart definitions. */
  function Legend(charts: seq<ChartDef>, ignore: seq<string>): (r: seq<LegendEntry>)
    ensures |r| == SeriesCount(charts)
    decreases |charts|
  {
    if charts == [] then []
    else
      var n := |charts| - 1;
      Legend(charts[..n], ignore) + ChartLegend(charts[n].series, n, ignore)
  }

  /** The series of a chart that are not ignored, in series order. */
  function Visible(series: seq<Series>, ignore: seq<string>): (r: seq<Series>)
    ensures |r| <= |series|
    ensures forall s :: s in r <==> s in series && s.name !in ignore
    decreases |series|
  {
    if series == [] then []
    else
      var last := series[|series| - 1];
      Visible(series[..|series| - 1], ignore) + (if last.name in ignore then [] else [last])
  }

  /** A chart whose every series is ignored has nothing to draw. */
  lemma {:induction false} VisibleNoneWhenAllIgnored(series: seq<Series>, ignore: seq<string>)
    requires forall k :: 0 <= k < |series| ==> series[k].name in ignore
    ensures Visible(series, ignore) == []
    decreases |series|
  {
    if series != [] {
      var n := |series| - 1;
      var init := series[..n];
      assert series[n].name in ignore;
      forall k | 0 <= k < |init|
        ensures init[k].name in ignore
      {
        assert init[k] == series[k];
      }
      VisibleNoneWhenAllIgnored(init, ignore);
    }
  }

  /** Filtering keeps order: the visible series of `a + b` are those of `a` followed by those of `b`. */
  lemma {:induction false} VisibleAppend(a: seq<Series>, b: seq<Series>, ignore: seq<string>)
    ensures Visible(a + b, ignore) == Visible(a, ignore) + Visible(b, ignore)
    decreases |b|
  {
    if b == [] {
      assert a + b == a;
    } else {
      var n := |b| - 1;
      assert (a + b)[..|a + b| - 1] == a + b[..n];
      VisibleAppend(a, b[..n], ignore);
    }
  }

  /** `localChartComp`: the groups of one chart's non-ignored series, or the TypeError of building one. */
  function LocalComponents(series: seq<Series>, chartIndex: nat, xScale: string, config: Config, ignore: seq<string>)
    : (r: Result<seq<Drawable>>)
    ensures r.Ok? ==> |r.value| <= |series|
    ensures r.Ok? ==> forall j :: 0 <= j < |r.value| ==>
      r.value[j].Group? && r.value[j].chartIndex == chartIndex && r.value[j].dataSet !in ignore
    decreases |series|
  {
    if series == [] then Ok([])
    else
      var last := series[|series| - 1];
      match LocalComponents(series[..|series| - 1], chartIndex, xScale, config, ignore)
      case TypeError => TypeError
      case Ok(local) =>
        if last.name in ignore then Ok(local)
        else if chartIndex < |config.charts| then Ok(local + [Component(config, chartIndex, xScale, last.name, last.color)])
        else TypeError
  }

  /** What one chart appends to `chartComponents`. */
  function ChartDrawables(chart: ChartDef, chartIndex: nat, xScale: string, config: Config, ignore: seq<string>)
    : Result<seq<Drawable>>
  {
    match LocalComponents(chart.series, chartIndex, xScale, config, ignore)
    case TypeError => TypeError
    case Ok(local) => Ok(if chart.mode == STACKED then [Stack(chart.id, local)] else local)
  }

  /** `chartComponents` for a list of chart definitions. */
  function Drawables(charts: seq<ChartDef>, xScale: string, config: Config, ignore: seq<string>): Result<seq<Drawable>>
    decreases |charts|
  {
    if charts == [] then Ok([])
    else
      var n := |charts| - 1;
      match Drawables(charts[..n], xScale, config, ignore)
      case TypeError => TypeError
      case Ok(done) =>
        match ChartDrawables(charts[n], n, xScale, config, ignore)
        case TypeError => TypeError
        case Ok(more) => Ok(done + more)
  }

  /** The result of `getAreaChartComponent`. */
  function Compose(charts: seq<ChartDef>, xScale: string, config: Config, ignore: seq<string>): Result<Output> {
    match Drawables(charts, xScale, config, ignore)
    case TypeError => TypeError
    case Ok(d) => Ok(Output(d, Legend(charts, ignore)))
  }

  /** Some non-ignored series belongs to a chart that has no entry in `config.charts`. */
  predicate MissingChartConfig(charts: seq<ChartDef>, config: Config, ignore: seq<string>) {
    exists i, k :: 0 <= i < |charts| && |config.charts| <= i && 0 <= k < |charts[i].series| && charts[i].series[k].name !in ignore
  }

  /** The number of charts in stacked mode. */
  function StackedCount(charts: seq<ChartDef>): nat {
    if charts == [] then 0
    else StackedCount(charts[..|charts| - 1]) + (if charts[|charts| - 1].mode == STACKED then 1 else 0)
  }

  /** The number of non-ignored series in charts that are not stacked. */
  function FlatVisibleCount(charts: seq<ChartDef>, ignore: seq<string>): nat {
    if charts == [] then 0
    else
      var last := charts[|charts| - 1];
      FlatVisibleCount(charts[..|charts| - 1], ignore) + (if last.mode == STACKED then 0 else |Visible(last.series, ignore)|)
  }

  /** One iteration of the inner loop: series `k` extends the chart's legend entries and groups. */
  lemma SeriesStep(series: seq<Series>, k: nat, chartIndex: nat, xScale: string, config: Config, ignore: seq<string>)
    requires k < |series|
    ensures ChartLegend(series[..k + 1], chartIndex, ignore)
         == ChartLegend(series[..k], chartIndex, ignore) + [LegendEntry(series[k].name, Fill(series[k], ignore), chartIndex)]
    ensures LocalComponents(series[..k], chartIndex, xScale, config, ignore).Ok? && series[k].name in ignore ==>
      LocalComponents(series[..k + 1], chartIndex, xScale, config, ignore) == LocalComponents(series[..k], chartIndex, xScale, config, ignore)
    ensures LocalComponents(series[..k], chartIndex, xScale, config, ignore).Ok? && series[k].name !in ignore
            && chartIndex < |config.charts| ==>
      LocalComponents(series[..k + 1], chartIndex, xScale, config, ignore)
      == Ok(LocalComponents(series[..k], chartIndex, xScale, config, ignore).value
            + [Component(config, chartIndex, xScale, series[k].name, series[k].color)])
  {
    assert series[..k + 1][..k] == series[..k];
  }

  /** One iteration of the outer loop: chart `i` extends the legend and the drawables. */
  lemma ChartStep(charts: seq<ChartDef>, i: nat, xScale: string, config: Config, ignore: seq<string>)
    requires i < |charts|
    ensures Legend(charts[..i + 1], ignore) == Legend(charts[..i], ignore) + ChartLegend(charts[i].series, i, ignore)
    ensures Drawables(charts[..i], xScale, config, ignore).Ok? && ChartDrawables(charts[i], i, xScale, config, ignore).Ok? ==>
      Drawables(charts[..i + 1], xScale, config, ignore)
      == Ok(Drawables(charts[..i], xScale, config, ignore).value + ChartDrawables(charts[i], i, xScale, config, ignore).value)
  {
    assert charts[..i + 1][..i] == charts[..i];
  }

  // ---------------------------------------------------------------------
  // The composer
  // ---------------------------------------------------------------------

  /** `AreaChart.getAreaChartComponent`: the nested loops that push legend entries and drawables. */
  method GetAreaChartComponent(chartArray: seq<ChartDef>, xScale: string, config: Config, ignoreArray: seq<string>)
    returns (r: Result<Output>)
    ensures r == Compose(chartArray, xScale, config, ignoreArray)
  {
    var chartComponents: seq<Drawable> := [];
    var legendComponents: seq<LegendEntry> := [];
    var chartIndex := 0;
    while chartIndex < |chartArray|
      invariant 0 <= chartIndex <= |chartArray|
      invariant Drawables(chartArray[..chartIndex], xScale, config, ignoreArray) == Ok(chartComponents)
      invariant legendComponents == Legend(chartArray[..chartIndex], ignoreArray)
    {
      var chart := chartArray[chartIndex];
      var localChartComp: seq<Drawable> := [];
      var k := 0;
      while k < |chart.series|
        invariant 0 <= k <= |chart.series|
        invariant LocalComponents(chart.series[..k], chartIndex, xScale, config, ignoreArray) == Ok(localChartComp)
        invariant legendComponents
               == Legend(chartArray[..chartIndex], ignoreArray) + ChartLegend(chart.series[..k], chartIndex, ignoreArray)
      {
        var dsName := chart.series[k].name;
        var color := chart.series[k].color;
        SeriesStep(chart.series, k, chartIndex, xScale, config, ignoreArray);
        legendComponents := legendComponents
                            + [LegendEntry(dsName, if dsName in ignoreArray then IGNORED_FILL else color, chartIndex)];
        if dsName !in ignoreArray {
          if chartIndex >= |config.charts| {
            // `config.charts[chartIndex].style` reads a property of undefined
            MissingConfigThrows(chartArray, xScale, config, ignoreArray);
            assert MissingChartConfig(chartArray, config, ignoreArray) by {
              assert chartArray[chartIndex].series[k].name !in ignoreArray;
            }
            return TypeError;
          }
          localChartComp := localChartComp + [Component(config, chartIndex, xScale, dsName, color)];
        }
        k := k + 1;
      }
      assert chart.series[..k] == chart.series;
      ChartStep(chartArray, chartIndex, xScale, config, ignoreArray);
      if chart.mode == STACKED {
        chartComponents := chartComponents + [Stack(chart.id, localChartComp)];
      } else {
        chartComponents := chartComponents + localChartComp;
      }
      chartIndex := chartIndex + 1;
    }
    assert chartArray[..chartIndex] == chartArray;
    return Ok(Output(chartComponents, legendComponents));
  }

  // ---------------------------------------------------------------------
  // What the composition guarantees
  // ---------------------------------------------------------------------

  /** Legend entries of the charts before chart `i` come first. */
  lemma {:induction false} SeriesCountPrefix(charts: seq<ChartDef>, i: nat)
    requires i < |charts|
    ensures SeriesCount(charts[..i]) + |charts[i].series| <= SeriesCount(charts)
    decreases |charts|
  {
    var n := |charts| - 1;
    if i < n {
      assert charts[..n][..i] == charts[..i];
      SeriesCountPrefix(charts[..n], i);
    } else {
      assert charts[..i] == charts[..n];
    }
  }

  /**
   * Series `k` of chart `i` owns legend position `SeriesCount(charts[..i]) + k`:
   * the legend lists the charts in order and each chart's series in order,
   * and the entry records the series name, its chart index, and a fill that
   * is grey when the series is ignored and its own colour otherwise.
   */
  lemma {:induction false} LegendAt(charts: seq<ChartDef>, ignore: seq<string>, i: nat, k: nat)
    requires i < |charts| && k < |charts[i].series|
    ensures SeriesCount(charts[..i]) + k < |Legend(charts, ignore)|
    ensures var e := Legend(charts, ignore)[SeriesCount(charts[..i]) + k];
      && e.name == charts[i].series[k].name
      && e.chartIndex == i
      && (charts[i].series[k].name in ignore ==> e.fill == IGNORED_FILL)
      && (charts[i].series[k].name !in ignore ==> e.fill == charts[i].series[k].color)
    decreases |charts|
  {
    var n := |charts| - 1;
    var init := charts[..n];
    assert Legend(charts, ignore) == Legend(init, ignore) + ChartLegend(charts[n].series, n, ignore);
    if i < n {
      assert init[..i] == charts[..i];
      assert init[i] == charts[i];
      SeriesCountPrefix(init, i);
      LegendAt(init, ignore, i, k);
    } else {
      assert charts[..i] == init;
    }
  }

  /** With a colour other than grey, a legend entry is grey exactly when its series is ignored. */
  lemma GreyExactlyWhenIgnored(charts: seq<ChartDef>, ignore: seq<string>, i: nat, k: nat)
    requires i < |charts| && k < |charts[i].series|
    requires charts[i].series[k].color != IGNORED_FILL
    ensures SeriesCount(charts[..i]) + k < |Legend(charts, ignore)|
    ensures Legend(charts, ignore)[SeriesCount(charts[..i]) + k].fill == IGNORED_FILL
        <==> charts[i].series[k].name in ignore
  {
    LegendAt(charts, ignore, i, k);
  }

  /**
   * Building one chart's groups throws exactly when the chart has no
   * configuration entry and some series of it is not ignored.
   */
  lemma {:induction false} LocalComponentsThrows(series: seq<Series>, chartIndex: nat, xScale: string, config: Config, ignore: seq<string>)
    ensures LocalComponents(series, chartIndex, xScale, config, ignore).TypeError?
        <==> |config.charts| <= chartIndex && exists k :: 0 <= k < |series| && series[k].name !in ignore
    decreases |series|
  {
    if series != [] {
      var n := |series| - 1;
      var init := series[..n];
      LocalComponentsThrows(init, chartIndex, xScale, config, ignore);
      if exists k :: 0 <= k < |series| && series[k].name !in ignore {
        var k :| 0 <= k < |series| && series[k].name !in ignore;
        if k < n {
          assert init[k] == series[k];
        }
      } else {
        forall k | 0 <= k < |init|
          ensures init[k].name in ignore
        {
          assert init[k] == series[k];
        }
      }
    }
  }

  /** The groups of one chart are those of its non-ignored series, in series order. */
  lemma {:induction false} LocalComponentsVisible(series: seq<Series>, chartIndex: nat, xScale: string, config: Config, ignore: seq<string>)
    requires LocalComponents(series, chartIndex, xScale, config, ignore).Ok?
    ensures var local := LocalComponents(series, chartIndex, xScale, config, ignore).value;
      var visible := Visible(series, ignore);
      && |local| == |visible|
      && forall j :: 0 <= j < |local| ==>
           chartIndex < |config.charts| && local[j] == Component(config, chartIndex, xScale, visible[j].name, visible[j].color)
    decreases |series|
  {
    if series != [] {
      var n := |series| - 1;
      var init := series[..n];
      var last := series[n];
      LocalComponentsVisible(init, chartIndex, xScale, config, ignore);
      assert Visible(series, ignore) == Visible(init, ignore) + (if last.name in ignore then [] else [last]);
    }
  }

  /** A stacked chart whose every series is ignored still contributes one, empty, stack. */
  lemma EmptyStackWhenAllIgnored(chart: ChartDef, chartIndex: nat, xScale: string, config: Config, ignore: seq<string>)
    requires chart.mode == STACKED
    requires forall k :: 0 <= k < |chart.series| ==> chart.series[k].name in ignore
    ensures ChartDrawables(chart, chartIndex, xScale, config, ignore) == Ok([Stack(chart.id, [])])
  {
    LocalComponentsThrows(chart.series, chartIndex, xScale, config, ignore);
    LocalComponentsVisible(chart.series, chartIndex, xScale, config, ignore);
    VisibleNoneWhenAllIgnored(chart.series, ignore);
  }

  /**
   * A stacked chart contributes exactly one stack of its non-ignored groups;
   * any other chart contributes those groups themselves.
   */
  lemma ChartDrawablesShape(chart: ChartDef, chartIndex: nat, xScale: string, config: Config, ignore: seq<string>)
    requires ChartDrawables(chart, chartIndex, xScale, config, ignore).Ok?
    ensures var local := LocalComponents(chart.series, chartIndex, xScale, config, ignore).value;
      ChartDrawables(chart, chartIndex, xScale, config, ignore).value
      == if chart.mode == STACKED then [Stack(chart.id, local)] else local
    ensures var more := ChartDrawables(chart, chartIndex, xScale, config, ignore).value;
      var visible := Visible(chart.series, ignore);
      && (chart.mode == STACKED ==>
            |more| == 1 && more[0].Stack? && more[0].id == chart.id && |more[0].items| == |visible|
            && forall j :: 0 <= j < |visible| ==> more[0].items[j].Group? && more[0].items[j].dataSet == visible[j].name)
      && (chart.mode != STACKED ==>
            |more| == |visible|
            && forall j :: 0 <= j < |visible| ==> more[j].Group? && more[j].dataSet == visible[j].name)
  {
    LocalComponentsVisible(chart.series, chartIndex, xScale, config, ignore);
  }

  /** The composition throws exactly when a non-ignored series has no chart configuration to read. */
  lemma {:induction false} MissingConfigThrows(charts: seq<ChartDef>, xScale: string, config: Config, ignore: seq<string>)
    ensures Drawables(charts, xScale, config, ignore).TypeError? <==> MissingChartConfig(charts, config, ignore)
    decreases |charts|
  {
    if charts != [] {
      var n := |charts| - 1;
      var init := charts[..n];
      MissingConfigThrows(init, xScale, config, ignore);
      LocalComponentsThrows(charts[n].series, n, xScale, config, ignore);
      if MissingChartConfig(charts, config, ignore) {
        var i, k :| 0 <= i < |charts| && |config.charts| <= i && 0 <= k < |charts[i].series| && charts[i].series[k].name !in ignore;
        if i < n {
          assert init[i] == charts[i];
          assert MissingChartConfig(init, config, ignore);
        } else {
          assert LocalComponents(charts[n].series, n, xScale, config, ignore).TypeError?;
        }
      }
    }
  }

  /**
   * `|chartComponents|` is the number of stacked charts plus the number of
   * non-ignored series in the other charts.
   */
  lemma {:induction false} DrawablesCount(charts: seq<ChartDef>, xScale: string, config: Config, ignore: seq<string>)
    requires Drawables(charts, xScale, config, ignore).Ok?
    ensures |Drawables(charts, xScale, config, ignore).value| == StackedCount(charts) + FlatVisibleCount(charts, ignore)
    decreases |charts|
  {
    if charts != [] {
      var n := |charts| - 1;
      DrawablesCount(charts[..n], xScale, config, ignore);
      LocalComponentsVisible(charts[n].series, n, xScale, config, ignore);
    }
  }

  /** The elements of a drawable sequence with every stack replaced by its items. */
  function Groups(d: seq<Drawable>): seq<Drawable>
    decreases |d|
  {
    if d == [] then []
    else
      var last := d[|d| - 1];
      Groups(d[..|d| - 1]) + (if last.Stack? then last.items else [last])
  }

  /** Opening stacks distributes over concatenation. */
  lemma {:induction false} GroupsAppend(a: seq<Drawable>, b: seq<Drawable>)
    ensures Groups(a + b) == Groups(a) + Groups(b)
    decreases |b|
  {
    if b == [] {
      assert a + b == a;
    } else {
      var n := |b| - 1;
      assert (a + b)[..|a + b| - 1] == a + b[..n];
      GroupsAppend(a, b[..n]);
    }
  }

  /** A sequence of groups has no stack to open. */
  lemma {:induction false} GroupsOfGroups(d: seq<Drawable>)
    requires forall j :: 0 <= j < |d| ==> d[j].Group?
    ensures Groups(d) == d
    decreases |d|
  {
    if d != [] {
      var n := |d| - 1;
      GroupsOfGroups(d[..n]);
      assert d[..n] + [d[n]] == d;
    }
  }

  /** After opening the stacks, `d` holds a group of chart `i` for dataset `name`. */
  predicate Draws(d: seq<Drawable>, i: nat, name: string) {
    exists g :: g in Groups(d) && g.Group? && g.chartIndex == i && g.dataSet == name
  }

  /** Chart `chart` has a series called `name`. */
  predicate HasSeries(chart: ChartDef, name: string) {
    exists k :: 0 <= k < |chart.series| && chart.series[k].name == name
  }

  /** The drawables of two consecutive parts draw what either part draws. */
  lemma DrawsAppend(a: seq<Drawable>, b: seq<Drawable>, i: nat, name: string)
    ensures Draws(a + b, i, name) <==> Draws(a, i, name) || Draws(b, i, name)
  {
    GroupsAppend(a, b);
  }

  /** Opening a chart's contribution yields its local groups, stacked or not. */
  lemma ChartGroups(chart: ChartDef, chartIndex: nat, xScale: string, config: Config, ignore: seq<string>)
    requires ChartDrawables(chart, chartIndex, xScale, config, ignore).Ok?
    ensures Groups(ChartDrawables(chart, chartIndex, xScale, config, ignore).value)
         == LocalComponents(chart.series, chartIndex, xScale, config, ignore).value
  {
    var local := LocalComponents(chart.series, chartIndex, xScale, config, ignore).value;
    LocalComponentsVisible(chart.series, chartIndex, xScale, config, ignore);
    GroupsOfGroups(local);
    if chart.mode == STACKED {
      assert [Stack(chart.id, local)][..0] == [];
    }
  }

  /** Groups that follow a list of series one for one name exactly those series. */
  lemma GroupsNameSeries(local: seq<Drawable>, visible: seq<Series>, chartIndex: nat, i: nat, name: string)
    requires |local| == |visible|
    requires forall j :: 0 <= j < |local| ==>
      local[j].Group? && local[j].chartIndex == chartIndex && local[j].dataSet == visible[j].name
    ensures (exists g :: g in local && g.Group? && g.chartIndex == i && g.dataSet == name)
        <==> i == chartIndex && exists s :: s in visible && s.name == name
  {
  }

  /** Some non-ignored series of a chart is called `name` exactly when the chart has such a series and `name` is not ignored. */
  lemma VisibleNamed(chart: ChartDef, ignore: seq<string>, name: string)
    ensures (exists s :: s in Visible(chart.series, ignore) && s.name == name) <==> name !in ignore && HasSeries(chart, name)
  {
  }

  /** Within one chart, a dataset is drawn exactly when it is a series of the chart that is not ignored. */
  lemma ChartDrawsExactlyVisible(chart: ChartDef, chartIndex: nat, xScale: string, config: Config, ignore: seq<string>,
                                 i: nat, name: string)
    requires ChartDrawables(chart, chartIndex, xScale, config, ignore).Ok?
    ensures Draws(ChartDrawables(chart, chartIndex, xScale, config, ignore).value, i, name)
        <==> i == chartIndex && name !in ignore && HasSeries(chart, name)
  {
    var local := LocalComponents(chart.series, chartIndex, xScale, config, ignore).value;
    var visible := Visible(chart.series, ignore);
    ChartGroups(chart, chartIndex, xScale, config, ignore);
    LocalComponentsVisible(chart.series, chartIndex, xScale, config, ignore);
    GroupsNameSeries(local, visible, chartIndex, i, name);
    VisibleNamed(chart, ignore, name);
  }

  /**
   * A series is drawn exactly when it is not ignored: after opening the
   * stacks, the drawables hold a group of chart `i` for dataset `name`
   * exactly when `name` is a series of chart `i` that is not ignored.
   */
  lemma {:induction false} DrawnExactlyWhenNotIgnored(charts: seq<ChartDef>, xScale: string, config: Config, ignore: seq<string>,
                                                      i: nat, name: string)
    requires Drawables(charts, xScale, config, ignore).Ok?
    ensures Draws(Drawables(charts, xScale, config, ignore).value, i, name)
        <==> i < |charts| && name !in ignore && HasSeries(charts[i], name)
    decreases |charts|
  {
    if charts != [] {
      var n := |charts| - 1;
      var init := charts[..n];
      DrawnExactlyWhenNotIgnored(init, xScale, config, ignore, i, name);
      ChartDrawsExactlyVisible(charts[n], n, xScale, config, ignore, i, name);
      DrawsAppend(Drawables(init, xScale, config, ignore).value, ChartDrawables(charts[n], n, xScale, config, ignore).value, i, name);
      if i < n {
        assert init[i] == charts[i];
      }
    }
  }

  // ---------------------------------------------------------------------
  // render
  // ---------------------------------------------------------------------

  /** The parts of `this.state` that render reads (filled in by the base chart). */
  datatype ChartState = ChartState(chartArray: seq<ChartDef>, xScale: string, ignoreArray: seq<string>)

  /** The chart container's children: the optional legend and the drawables. */
  datatype Container = Container(legend: Option<seq<LegendEntry>>, charts: seq<Drawable>)

  /** `render`: the legend is emitted only when `config.legend === true`. */
  function Render(config: Config, state: ChartState): (r: Result<Container>)
    ensures r.TypeError? <==> MissingChartConfig(state.chartArray, config, state.ignoreArray)
    ensures r.Ok? ==> (r.value.legend.Some? <==> config.legend == Bool(true))
    ensures r.Ok? && r.value.legend.Some? ==> r.value.legend.value == Legend(state.chartArray, state.ignoreArray)
    ensures r.Ok? ==> Drawables(state.chartArray, state.xScale, config, state.ignoreArray) == Ok(r.value.charts)
  {
    MissingConfigThrows(state.chartArray, state.xScale, config, state.ignoreArray);
    match Compose(state.chartArray, state.xScale, config, state.ignoreArray)
    case TypeError => TypeError
    case Ok(out) =>
      Ok(Container(if config.legend == Bool(true) then Some(out.legendComponents) else None, out.chartComponents))
  }

  /** A truthy `legend` setting that is not the boolean `true` (say the string "true") shows no legend. */
  lemma LegendNeedsStrictTrue(config: Config, state: ChartState)
    requires Truthy(config.legend) && config.legend != Bool(true)
    requires Render(config, state).Ok?
    ensures Render(config, state).value.legend == None
  {
  }
}
