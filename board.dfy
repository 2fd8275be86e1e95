/** The dashboard editor's state as the widget-tree actions read it, the
    commands those actions dispatch, and the selection queries they share. */
module Board {
  import opened Records

  /** A JSON payload the actions pass through without inspecting it (a
      filter form, a chart configuration). */
  datatype Payload = Payload(entries: Record<string>)

  /** One slot of a container widget. `childWidgetId` is "" when the slot
      holds no widget (the code tests it for truthiness only). */
  datatype ContainerItem = ContainerItem(tabId: string, name: string, childWidgetId: string)

  /** A binding between widgets; `sourceId` is "" when it names none. */
  datatype Relation = Relation(id: string, sourceId: string, targetId: string)

  /** A data view a filter widget is related to. */
  datatype RelatedView = RelatedView(viewId: string, fieldValue: string)

  /** `WidgetFilterTypes`: where a filter widget is placed. Every member of
      the enumeration is a non-empty string, so none of them is falsy;
      `OtherFilterType("")` is not a value the enumeration has, and is not
      an input of the model. */
  datatype WidgetFilterType = Free | OtherFilterType(name: string)

  /** `FilterWidgetContent`. */
  datatype FilterWidgetContent = FilterWidgetContent(
    filterType: WidgetFilterType,
    relatedViews: seq<RelatedView>,
    fieldValueType: string,
    widgetFilter: Payload)

  /** A widget's `config.content`, tagged by `config.type`: `container`
      widgets carry an `itemMap`, `filter` widgets a filter content, and the
      other widget types a content these actions never inspect. The
      `widgetType` of `OtherContent` is therefore never `"container"` or
      `"filter"`; such a value is not an input of the model. */
  datatype WidgetContent =
    | ContainerContent(itemMap: Record<ContainerItem>)
    | FilterContent(filter: FilterWidgetContent)
    | OtherContent(widgetType: string, payload: Payload)

  datatype WidgetConfig = WidgetConfig(name: string, index: int, content: WidgetContent)
  {
    /** `config.type === 'container'`. */
    predicate IsContainer()
    {
      content.ContainerContent?
    }
  }

  /** A widget record. `parentId` is "" for a widget that is not nested in a
      container (the code tests it for truthiness only). */
  datatype Widget = Widget(
    id: string,
    dashboardId: string,
    parentId: string,
    config: WidgetConfig,
    relations: seq<Relation>)
  {
    /** `!widget.parentId`. */
    predicate IsTopLevel()
    {
      parentId == ""
    }
  }

  /** The editor's per-widget selection flag. */
  datatype WidgetInfo = WidgetInfo(id: string, selected: bool)

  /** The parts of the edit board the actions read: the selection record and
      the present widget record of the undo history. */
  datatype EditBoardState = EditBoardState(
    widgetInfoRecord: Record<WidgetInfo>,
    widgetRecord: Record<Widget>)

  /** A chart's data view. */
  datatype ChartDataView = ChartDataView(id: string, name: string)

  /** A data chart; `view` is the view attached to it, if any. */
  datatype DataChart = DataChart(
    id: string,
    name: string,
    viewId: string,
    view: Option<ChartDataView>,
    config: Payload)

  /** The viewer board's lookup tables. */
  datatype BoardState = BoardState(
    dataChartMap: map<string, DataChart>,
    viewMap: map<string, ChartDataView>)

  /** `'dataChart' | 'widgetChart'`. */
  datatype ChartType = DataChartType | WidgetChartType

  /** `ChartEditorBaseProps`. */
  datatype ChartEditorBaseProps = ChartEditorBaseProps(
    widgetId: string,
    dataChartId: string,
    orgId: string,
    chartType: ChartType,
    container: string,
    originChart: DataChart)

  /** The arguments given to the widget-config factory `createInitWidgetConfig`. */
  datatype InitWidgetConfig = InitWidgetConfig(
    name: string,
    widgetType: string,
    content: FilterWidgetContent,
    boardType: string)

  /** The arguments given to the widget factory `createWidget`; `relations`
    is passed on as the caller gave it, possibly `undefined`. */
  datatype NewWidget = NewWidget(
    id: string,
    dashboardId: string,
    config: InitWidgetConfig,
    relations: Option<seq<Relation>>)

  /** The payload of `changeFilterPanel`. */
  datatype FilterPanelState = FilterPanelState(panelType: string, widgetId: string)

  /** The commands the actions dispatch, with their payloads. */
  datatype Command =
    | DeleteWidgets(ids: seq<string>)
    | ChangeTwoWidgetIndex(curId: string, targetId: string)
    | AddWidgetsToEditBoard(widgets: seq<NewWidget>)
    | ChangeFilterPanel(panel: FilterPanelState)
    | ChangeChartEditorProps(props: ChartEditorBaseProps)
    | SetDataChartMap(dataCharts: seq<DataChart>)
    | SetViewMap(views: seq<ChartDataView>)
    | GetEditWidgetDataAsync(widgetId: string)

  /** The ids of the selected widget infos, in record order (a filter
      followed by a map). */
  function SelectedIds(infos: seq<WidgetInfo>): (ids: seq<string>)
    ensures |ids| <= |infos|
  {
    if infos == [] then []
    else (if infos[0].selected then [infos[0].id] else []) + SelectedIds(infos[1..])
  }

  /** An id is selected exactly when some selected widget info carries it. */
  lemma {:induction false} SelectedIdsMembers(infos: seq<WidgetInfo>, x: string)
    ensures x in SelectedIds(infos) <==> exists i :: 0 <= i < |infos| && infos[i].selected && infos[i].id == x
  {
    if infos != [] {
      SelectedIdsMembers(infos[1..], x);
      if exists i :: 0 <= i < |infos| && infos[i].selected && infos[i].id == x {
        var i :| 0 <= i < |infos| && infos[i].selected && infos[i].id == x;
        if i > 0 { assert infos[1..][i - 1] == infos[i]; }
      }
      if exists i :: 0 <= i < |infos[1..]| && infos[1..][i].selected && infos[1..][i].id == x {
        var i :| 0 <= i < |infos[1..]| && infos[1..][i].selected && infos[1..][i].id == x;
        assert infos[i + 1] == infos[1..][i];
      }
    }
  }

  /** The selection of the board, in the order of its widget-info record. */
  function SelectedIdsOf(board: EditBoardState): seq<string>
  {
    SelectedIds(Values(board.widgetInfoRecord))
  }

  /** Selecting over a concatenation selects over each part in turn: the
      selection keeps record order and drops nothing. */
  lemma {:induction false} SelectedIdsAppend(a: seq<WidgetInfo>, b: seq<WidgetInfo>)
    ensures SelectedIds(a + b) == SelectedIds(a) + SelectedIds(b)
  {
    if a == [] {
      assert a + b == b;
    } else {
      assert (a + b)[0] == a[0];
      assert (a + b)[1..] == a[1..] + b;
      SelectedIdsAppend(a[1..], b);
    }
  }

  /** `find(info => info.selected)`: the first selected widget info. */
  function FirstSelected(infos: seq<WidgetInfo>): (r: Option<WidgetInfo>)
    ensures r.Some? <==> exists i :: 0 <= i < |infos| && infos[i].selected
    ensures r.Some? ==> exists i :: 0 <= i < |infos| && infos[i] == r.value && r.value.selected
                          && forall j :: 0 <= j < i ==> !infos[j].selected
  {
    if infos == [] then None
    else if infos[0].selected then Some(infos[0])
    else
      var rest := FirstSelected(infos[1..]);
      assert (exists i :: 0 <= i < |infos| && infos[i].selected) ==> rest.Some? by {
        if exists i :: 0 <= i < |infos| && infos[i].selected {
          var i :| 0 <= i < |infos| && infos[i].selected;
          assert infos[1..][i - 1].selected;
        }
      }
      assert rest.Some? ==> exists i :: 0 <= i < |infos| && infos[i] == rest.value && rest.value.selected
                              && forall j :: 0 <= j < i ==> !infos[j].selected by {
        if rest.Some? {
          var i :| 0 <= i < |infos[1..]| && infos[1..][i] == rest.value && rest.value.selected
                   && forall j :: 0 <= j < i ==> !infos[1..][j].selected;
          assert infos[i + 1] == rest.value;
          forall j | 0 <= j < i + 1 ensures !infos[j].selected {
            if j > 0 { assert infos[j] == infos[1..][j - 1]; }
          }
        }
      }
      rest
  }

  /** The widget `find` picks is the one whose id heads the selected ids, and
      it finds one exactly when some widget is selected. */
  lemma {:induction false} FirstSelectedHeadsSelectedIds(infos: seq<WidgetInfo>)
    ensures FirstSelected(infos).Some? <==> SelectedIds(infos) != []
    ensures FirstSelected(infos).Some? ==> SelectedIds(infos)[0] == FirstSelected(infos).value.id
  {
    if infos != [] && !infos[0].selected {
      FirstSelectedHeadsSelectedIds(infos[1..]);
    }
  }
}
