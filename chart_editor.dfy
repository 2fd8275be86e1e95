/** Opening the chart editor on a widget's chart (`editChartInWidgetAction`)
    and loading a wrapped chart into the board (`editWrapChartWidget`). */
module ChartEditor {
  import opened Records
  import opened Board

  const DefaultChartName: string := "widget_chart"
  const WidgetContainer: string := "widget"

  /** The action's parameters; `chartName` is optional and defaults to
      `DefaultChartName`. */
  datatype EditChartProps = EditChartProps(
    orgId: string,
    widgetId: string,
    chartName: Option<string>,
    dataChartId: string,
    chartType: ChartType)

  /** The copy of `dataChart` the editor receives: its view attached from
      the view table, and its name replaced by `chartName` for a widget
      chart. Nothing else changes. */
  function WithViewDataChart(dataChart: DataChart, viewMap: map<string, ChartDataView>,
                             chartType: ChartType, chartName: string): (r: DataChart)
    ensures r.view == Lookup(viewMap, dataChart.viewId)
    ensures r.name == if chartType == WidgetChartType then chartName else dataChart.name
    ensures r.(view := dataChart.view, name := dataChart.name) == dataChart
  {
    dataChart.(view := Lookup(viewMap, dataChart.viewId),
               name := if chartType == WidgetChartType then chartName else dataChart.name)
  }

  /** `editChartInWidgetAction(props)`: one `changeChartEditorProps` whose
      props open the editor in widget mode on the derived chart and carry
      the widget, chart, organisation and chart type through. */
  function EditChartInWidgetAction(props: EditChartProps, board: BoardState): (log: seq<Command>)
    requires props.dataChartId in board.dataChartMap
    ensures |log| == 1 && log[0].ChangeChartEditorProps?
    ensures var p := log[0].props;
            var dataChart := board.dataChartMap[props.dataChartId];
            && p.container == WidgetContainer
            && p.widgetId == props.widgetId
            && p.dataChartId == props.dataChartId
            && p.orgId == props.orgId
            && p.chartType == props.chartType
            && p.originChart.id == dataChart.id
            && p.originChart.viewId == dataChart.viewId
            && p.originChart.config == dataChart.config
            && p.originChart.view == Lookup(board.viewMap, dataChart.viewId)
  {
    var chartName := props.chartName.GetOr(DefaultChartName);
    var dataChart := board.dataChartMap[props.dataChartId];
    var withViewDataChart := WithViewDataChart(dataChart, board.viewMap, props.chartType, chartName);
    var editorProps := ChartEditorBaseProps(props.widgetId, props.dataChartId, props.orgId,
                                            props.chartType, WidgetContainer, withViewDataChart);
    [ChangeChartEditorProps(editorProps)]
  }

  /** The name the editor shows: the given chart name, or the default when
      none is given, for a widget chart; the chart's own name for a data
      chart. An empty chart name is kept, since only an absent one is
      defaulted. */
  lemma EditorChartName(props: EditChartProps, board: BoardState)
    requires props.dataChartId in board.dataChartMap
    ensures var name := EditChartInWidgetAction(props, board)[0].props.originChart.name;
            && (props.chartType == DataChartType ==> name == board.dataChartMap[props.dataChartId].name)
            && (props.chartType == WidgetChartType && props.chartName.Some? ==> name == props.chartName.value)
            && (props.chartType == WidgetChartType && props.chartName.None? ==> name == DefaultChartName)
  {
  }

  /** `editWrapChartWidget`: three commands. The widget's data is fetched
      exactly once, and only after the chart has been put into the chart
      table and then its view into the view table; nothing else is
      dispatched. */
  function EditWrapChartWidget(widgetId: string, dataChart: DataChart, view: ChartDataView): (log: seq<Command>)
    ensures |log| == 3
    ensures forall c :: c in log ==> c in {SetDataChartMap([dataChart]), SetViewMap([view]), GetEditWidgetDataAsync(widgetId)}
    ensures exists k :: 0 <= k < |log| && log[k] == GetEditWidgetDataAsync(widgetId)
                        && forall m :: 0 <= m < |log| && m != k ==> !log[m].GetEditWidgetDataAsync?
    ensures forall k :: 0 <= k < |log| && log[k].GetEditWidgetDataAsync? ==>
              exists i, j :: 0 <= i < j < k && log[i] == SetDataChartMap([dataChart]) && log[j] == SetViewMap([view])
  {
    var dataCharts := [dataChart];
    var viewViews := [view];
    var log := [SetDataChartMap(dataCharts), SetViewMap(viewViews), GetEditWidgetDataAsync(widgetId)];
    assert log[0] == SetDataChartMap([dataChart]) && log[1] == SetViewMap([view]);
    assert log[2] == GetEditWidgetDataAsync(widgetId);
    assert forall m :: 0 <= m < |log| && m != 2 ==> !log[m].GetEditWidgetDataAsync? by {
      forall m | 0 <= m < |log| && m != 2 ensures !log[m].GetEditWidgetDataAsync? {
        assert m == 0 || m == 1;
      }
    }
    log
  }
}
