/** Creating or updating a filter widget from the filter panel's form
    (`updateWidgetFilterAction`). */
module FilterWidget {
  import opened Records
  import opened Board

  const DefaultFilterName: string := "newFilter"
  const FilterWidgetType: string := "filter"
  const HidePanel: string := "hide"

  /** The action's parameters. `filterName` and `filterPositionType` are the
      optional ones; `relations` is tested with `?.`, so an absent list is
      handled as well. */
  datatype FilterParams = FilterParams(
    boardId: string,
    boardType: string,
    relations: Option<seq<Relation>>,
    filterName: Option<string>,
    fieldValueType: string,
    filterPositionType: Option<WidgetFilterType>,
    views: seq<RelatedView>,
    widgetFilter: Payload)

  /** `s || fallback` for an optional string: the fallback replaces both an
      absent and an empty string. */
  function OrElse(s: Option<string>, fallback: string): string
  {
    if s.Some? && s.value != "" then s.value else fallback
  }

  /** The precondition of `relations?.[0].sourceId`: an absent list
      short-circuits, an empty one throws. */
  predicate RelationsReadable(relations: Option<seq<Relation>>)
  {
    relations.None? || relations.value != []
  }

  /** `relations?.[0].sourceId || uuidv4()`, with the generated id passed in
      as `freshId`: the first relation's source widget when it names one,
      the generated id when the list is absent or its first relation names
      no source. */
  function FilterWidgetId(relations: Option<seq<Relation>>, freshId: string): (id: string)
    requires RelationsReadable(relations)
    ensures relations.Some? && relations.value[0].sourceId != "" ==> id == relations.value[0].sourceId
    ensures relations.None? || relations.value[0].sourceId == "" ==> id == freshId
  {
    match relations
    case None => freshId
    case Some(rs) => if rs[0].sourceId != "" then rs[0].sourceId else freshId
  }

  /** `updateWidgetFilterAction(params)`: the commands dispatched, in order.
      First the new widget is added, built from the parameters with their
      defaults; then the filter panel is hidden. */
  function UpdateWidgetFilterAction(p: FilterParams, freshId: string): (log: seq<Command>)
    requires RelationsReadable(p.relations)
    ensures |log| == 2 && log[0].AddWidgetsToEditBoard? && |log[0].widgets| == 1
    ensures var w := log[0].widgets[0];
            && (p.relations.Some? && p.relations.value[0].sourceId != "" ==> w.id == p.relations.value[0].sourceId)
            && (p.relations.None? || p.relations.value[0].sourceId == "" ==> w.id == freshId)
            && w.dashboardId == p.boardId
            && w.relations == p.relations
            && w.config.name == (if p.filterName.Some? && p.filterName.value != "" then p.filterName.value
                                 else DefaultFilterName)
            && w.config.widgetType == FilterWidgetType
            && w.config.boardType == p.boardType
            && w.config.content.filterType == p.filterPositionType.GetOr(Free)
            && w.config.content.relatedViews == p.views
            && w.config.content.fieldValueType == p.fieldValueType
            && w.config.content.widgetFilter == p.widgetFilter
    ensures log[1] == ChangeFilterPanel(FilterPanelState(HidePanel, ""))
  {
    var content := FilterWidgetContent(p.filterPositionType.GetOr(Free), p.views, p.fieldValueType, p.widgetFilter);
    var widgetConf := InitWidgetConfig(OrElse(p.filterName, DefaultFilterName), FilterWidgetType, content, p.boardType);
    var widgetId := FilterWidgetId(p.relations, freshId);
    var widget := NewWidget(widgetId, p.boardId, widgetConf, p.relations);
    [AddWidgetsToEditBoard([widget]), ChangeFilterPanel(FilterPanelState(HidePanel, ""))]
  }

  /** When the first relation names a source widget the action updates that
      widget: what it dispatches does not depend on the generated id. */
  lemma UpdateReusesSourceId(p: FilterParams, freshId1: string, freshId2: string)
    requires p.relations.Some? && p.relations.value != [] && p.relations.value[0].sourceId != ""
    ensures UpdateWidgetFilterAction(p, freshId1) == UpdateWidgetFilterAction(p, freshId2)
    ensures UpdateWidgetFilterAction(p, freshId1)[0].widgets[0].id == p.relations.value[0].sourceId
  {
  }
}
