# Dashboard editor widget actions, modelled in Dafny

This project models the action creators of datart's dashboard editor. They
decide what to dispatch when the user deletes the selected widgets, brings a
widget to the front or sends it to the back, saves a filter widget, or opens
the chart editor on a widget's chart. The editor state is a flat record from
widget id to widget, plus a record of selection flags.

Each action is modelled as what it dispatches. A dispatch appends a
`Board.Command` to a log, and the log is returned. The reducers that consume
the commands stay abstract.

- `records.dfy`: `Option`, and `Record<V>`. A `Record<V>` is a JavaScript
  object used as a dictionary, written as its entries in enumeration order, so
  that `Object.values` and `r[k]` mean what they mean in the code. This holds
  for entry lists whose keys are distinct, as an object's keys are.
- `board.dfy`: the widget, widget-info, chart and command types. It also holds
  the two selection queries the actions share: the selected ids and the first
  selected info.
- `delete_widgets.dfy`: `deleteWidgetsAction`. This is a method whose nested
  loops gather the container children as the `forEach`/`push` code does. It is
  proved against the function `ChildWidgetIds`, and lemmas characterise that
  function.
- `widget_position.dfy`: `widgetToPositionAction`. It models the top-level
  filter and the stable sort by `config.index` (insertion sort), then the
  choice of the target and the swap command.
- `filter_widget.dfy`: `updateWidgetFilterAction`.
- `chart_editor.dfy`: `editChartInWidgetAction` and `editWrapChartWidget`.

Modelling conventions:

- **Falsy strings.** The code tests `parentId`, `childWidgetId`, `sourceId` and
  the selected `id` only for truthiness. These are modelled as strings, with
  `""` standing for both "absent" and "empty".
- **`filterName` and `chartName`.** These are `Option<string>`, because the
  code treats them differently:
  - `filterName || 'newFilter'` replaces an empty name as well as a missing one.
  - The default parameter `chartName = 'widget_chart'` replaces only a missing name.
- **Widget content.** A widget's content is a tagged union selected by its
  type, so `config.type === 'container'` holds exactly when the content has an
  `itemMap`.
- **Crashes become preconditions.** Where the code dereferences `undefined` and
  throws, the model says the caller must avoid it:
  - every selected id has an entry in the widget record (`widgetMap[id].config`);
  - at least one top-level widget exists (`sortedWidgets[0].id`);
  - `relations`, when given, is non-empty (`relations?.[0].sourceId` throws on `[]`; an absent list short-circuits to the generated id);
  - `dataChartId` is in the chart table (the immer recipe would read `draft.viewId` of `undefined`).
- **Behaviours kept as written.** Three behaviours of the code that a reader
  might not expect, and that the model keeps:
  - With no top-level widget, reordering throws; it is not a no-op.
  - The widget being moved is the first selected widget, whether or not it is top-level.
  - A confirmed deletion dispatches only the selected ids, not the gathered child ids.

  Whether the `deleteWidgets` reducer removes the children itself is not part
  of this model. For that reason the third point is recorded as behaviour, not
  as a defect.

## Model

| member | source | states |
|---|---|---|
| `Board.SelectedIds` | frontend/src/app/pages/DashBoardPage/pages/BoardEditor/slice/actions.ts:48-50 | there are no more selected ids than widget infos |
| `Board.SelectedIdsMembers` | frontend/src/app/pages/DashBoardPage/pages/BoardEditor/slice/actions.ts:48-50 | an id is selected exactly when some widget info with that id has `selected` set |
| `Board.SelectedIdsAppend` | frontend/src/app/pages/DashBoardPage/pages/BoardEditor/slice/actions.ts:48-50 | selecting over a concatenation is the concatenation of the selections, so record order is kept and nothing is dropped or merged |
| `Board.FirstSelected` | frontend/src/app/pages/DashBoardPage/pages/BoardEditor/slice/actions.ts:91-93 | `find` returns an info exactly when one is selected, and the one it returns is selected and has no selected info before it |
| `Board.FirstSelectedHeadsSelectedIds` | frontend/src/app/pages/DashBoardPage/pages/BoardEditor/slice/actions.ts:91-93 | `curId` of the reorder action is the first of the `selectedIds` of the delete action, and it exists exactly when the selection is non-empty |
| `DeleteWidgets.ItemChildIds` | frontend/src/app/pages/DashBoardPage/pages/BoardEditor/slice/actions.ts:57-61 | a container pushes at most one id per item |
| `DeleteWidgets.ItemChildIdsMembers` | frontend/src/app/pages/DashBoardPage/pages/BoardEditor/slice/actions.ts:57-61 | the ids pushed for one container are exactly the non-empty `childWidgetId`s of its items |
| `DeleteWidgets.PushItemChildIds` | frontend/src/app/pages/DashBoardPage/pages/BoardEditor/slice/actions.ts:57-61 | the inner `forEach` leaves the gathered list extended by exactly the container's child ids, in item order |
| `DeleteWidgets.WidgetChildIds` | frontend/src/app/pages/DashBoardPage/pages/BoardEditor/slice/actions.ts:55-62 | one selected widget contributes nothing unless it is a container, and never an empty id; its exact value is given by `WidgetChildIdsMembers` |
| `DeleteWidgets.WidgetChildIdsMembers` | frontend/src/app/pages/DashBoardPage/pages/BoardEditor/slice/actions.ts:55-62 | a selected widget contributes `x` exactly when it is a container with an item naming `x`; it contributes nothing exactly when it holds no child; a non-container contributes nothing |
| `DeleteWidgets.ChildWidgetIds` | frontend/src/app/pages/DashBoardPage/pages/BoardEditor/slice/actions.ts:52-63 | the gathered list never holds an empty id; its members, emptiness and order are given by `ChildWidgetIdsMembers`, `ChildWidgetIdsEmpty` and `ChildWidgetIdsAppend` |
| `DeleteWidgets.ChildWidgetIdsAppend` | frontend/src/app/pages/DashBoardPage/pages/BoardEditor/slice/actions.ts:54-63 | the gathered list for a concatenated selection is the concatenation of the lists: it follows selection order and is not de-duplicated |
| `DeleteWidgets.ChildWidgetIdsMembers` | frontend/src/app/pages/DashBoardPage/pages/BoardEditor/slice/actions.ts:52-63 | an id is gathered exactly when some selected container has an item naming it |
| `DeleteWidgets.ChildWidgetIdsEmpty` | frontend/src/app/pages/DashBoardPage/pages/BoardEditor/slice/actions.ts:52-64 | nothing is gathered exactly when no selected widget is a container with an item naming a widget |
| `DeleteWidgets.ChildWidgetIdsKeepsDuplicates` | frontend/src/app/pages/DashBoardPage/pages/BoardEditor/slice/actions.ts:54-63 | whenever two selected containers name the same child, that child is gathered at least twice |
| `DeleteWidgets.DeleteWidgetsAction` | frontend/src/app/pages/DashBoardPage/pages/BoardEditor/slice/actions.ts:46-83 | the dialog is shown exactly when child ids are gathered; otherwise exactly one `deleteWidgets(selectedIds)` is dispatched; after confirmation also exactly one `deleteWidgets(selectedIds)` (the selection, not the children); after cancel nothing |
| `WidgetPosition.TopLevelWidgets` | frontend/src/app/pages/DashBoardPage/pages/BoardEditor/slice/actions.ts:95-96 | a widget is kept exactly when it is in the record and has no `parentId` |
| `WidgetPosition.TopLevelWidgetsAppend` | frontend/src/app/pages/DashBoardPage/pages/BoardEditor/slice/actions.ts:95-96 | filtering a concatenation is the concatenation of the filtered parts, so the kept widgets keep record order and multiplicity |
| `WidgetPosition.Insert` | frontend/src/app/pages/DashBoardPage/pages/BoardEditor/slice/actions.ts:97-99 | inserting into an index-sorted list gives an index-sorted list one longer, headed by the new widget or the old head |
| `WidgetPosition.SortByIndex` | frontend/src/app/pages/DashBoardPage/pages/BoardEditor/slice/actions.ts:97-99 | the sorted list is ascending by `config.index` and as long as the input |
| `WidgetPosition.SortByIndexMembers` | frontend/src/app/pages/DashBoardPage/pages/BoardEditor/slice/actions.ts:97-99 | a widget is in the sorted list exactly when it is in the input |
| `WidgetPosition.InsertPermutes` | frontend/src/app/pages/DashBoardPage/pages/BoardEditor/slice/actions.ts:97-99 | insertion adds exactly one occurrence of the new widget (multiset) |
| `WidgetPosition.SortByIndexPermutes` | frontend/src/app/pages/DashBoardPage/pages/BoardEditor/slice/actions.ts:97-99 | the sorted list is a permutation of the input (multiset equality) |
| `WidgetPosition.InsertLast` | frontend/src/app/pages/DashBoardPage/pages/BoardEditor/slice/actions.ts:97-99 | inserting into a sorted list changes its last element only when the new index is strictly the largest (the sort is stable) |
| `WidgetPosition.SortByIndexFirst` | frontend/src/app/pages/DashBoardPage/pages/BoardEditor/slice/actions.ts:97-104 | the first sorted widget has the smallest index of the input, and every input widget before it has a larger index (the earliest of the smallest) |
| `WidgetPosition.SortByIndexLast` | frontend/src/app/pages/DashBoardPage/pages/BoardEditor/slice/actions.ts:97-102 | the last sorted widget has the largest index of the input, and every input widget after it has a smaller index (the latest of the largest) |
| `WidgetPosition.TargetWidget` | frontend/src/app/pages/DashBoardPage/pages/BoardEditor/slice/actions.ts:95-105 | the target is a top-level widget of the record, with the maximum `config.index` among top-level widgets for `top` and the minimum for `bottom` |
| `WidgetPosition.TargetTieBreak` | frontend/src/app/pages/DashBoardPage/pages/BoardEditor/slice/actions.ts:95-105 | among top-level widgets tied on the extreme index, `top` takes the latest in record order and `bottom` the earliest |
| `WidgetPosition.CurrentId` | frontend/src/app/pages/DashBoardPage/pages/BoardEditor/slice/actions.ts:91-93 | `curId` exists exactly when some widget is selected, and it is the first of the selected ids collected by the delete action |
| `WidgetPosition.WidgetToPositionAction` | frontend/src/app/pages/DashBoardPage/pages/BoardEditor/slice/actions.ts:86-108 | nothing is dispatched exactly when no widget is selected, the selected id is empty, or it equals the target id; otherwise exactly one `changeTwoWidgetIndex` from the first selected id to the target id |
| `WidgetPosition.SingleTopLevelIsNoop` | frontend/src/app/pages/DashBoardPage/pages/BoardEditor/slice/actions.ts:100-106 | with one top-level widget that is also the selected one, both positions dispatch nothing |
| `FilterWidget.FilterWidgetId` | frontend/src/app/pages/DashBoardPage/pages/BoardEditor/slice/actions.ts:146 | the id is the first relation's `sourceId` when that is non-empty, and the generated id when the list is absent or its first relation names no source |
| `FilterWidget.UpdateWidgetFilterAction` | frontend/src/app/pages/DashBoardPage/pages/BoardEditor/slice/actions.ts:110-160 | two commands, in order: add-widget of one filter widget, then `changeFilterPanel({type: 'hide', widgetId: ''})`; the widget has type `filter`, content type `filterPositionType` or `Free`, name `filterName` or `'newFilter'` (an empty name is replaced as well), id the first relation's `sourceId` or, when that is empty or the list is absent, the fresh id, and the given views, value type, form, board and relations (absent ones passed on as absent) |
| `FilterWidget.UpdateReusesSourceId` | frontend/src/app/pages/DashBoardPage/pages/BoardEditor/slice/actions.ts:146-153 | when the first relation names a source widget, its id is reused and the dispatched commands do not depend on the generated id |
| `ChartEditor.WithViewDataChart` | frontend/src/app/pages/DashBoardPage/pages/BoardEditor/slice/actions.ts:184-187 | the copy's `view` is `viewMap[viewId]` (absent when the table lacks it); its name is `chartName` for a widget chart and unchanged otherwise; every other field is unchanged |
| `ChartEditor.EditChartInWidgetAction` | frontend/src/app/pages/DashBoardPage/pages/BoardEditor/slice/actions.ts:163-197 | exactly one `changeChartEditorProps`, with `container: 'widget'`, `widgetId`, `dataChartId`, `orgId` and `chartType` copied through, and the looked-up chart with its view attached |
| `ChartEditor.EditorChartName` | frontend/src/app/pages/DashBoardPage/pages/BoardEditor/slice/actions.ts:177-186 | the editor's chart name is the chart's own for a data chart; for a widget chart it is the given name (even an empty one), or `'widget_chart'` when none is given |
| `ChartEditor.EditWrapChartWidget` | frontend/src/app/pages/DashBoardPage/pages/BoardEditor/slice/actions.ts:198-207 | exactly three commands are dispatched, all of them table or fetch commands; the widget's data is fetched exactly once, and only after the chart table and then the view table have been set |

## Left out

- The confirmation dialog (antd `Modal.confirm`), its title and its text. The user's answer is a parameter of `DeleteWidgetsAction`.
- The reset `childWidgetIds = []` in the cancel handler. It writes a local that nothing reads afterwards. The model performs it, but it has no observable effect.
- The reducers behind `deleteWidgets`, `changeTwoWidgetIndex`, `addWidgetsToEditBoard`, `changeFilterPanel`, `changeChartEditorProps`, `setDataChartMap` and `setViewMap`. Their code is not part of this model, so only the commands and their payloads are modelled, not their effect on the board. "Cancel leaves the board unchanged" is therefore stated as "nothing is dispatched".
- `uuidv4`. It is randomness; the id it would return is the `freshId` parameter. That this id is new to the widget record is the generator's promise, not something the model proves.
- The widget factories `createInitWidgetConfig` and `createWidget`. Their code is not part of this model, so the dispatched widget is the record of arguments given to them (`InitWidgetConfig`, `NewWidget`).
- The effect of `getEditWidgetDataAsync`. It is a network fetch; only the command is modelled.
- The async thunk machinery and `getState`. The state is passed in as a value, and `dispatch` appends to the returned log.
- Immer's `produce`. It is modelled as a functional record update.
- The undo history of the edit board. Only its `present` widget record is modelled.
- Fields of widgets, charts, views and form payloads that these actions neither read nor set. They are omitted or carried as an uninterpreted `Payload`.
- `config.index`. It is modelled as an integer; the fractional and NaN values a JavaScript number allows are not.
- `frontend/src/app/pages/StoryBoardPage/Editor/StorySetting.tsx`. It is a form component whose only logic copies the form values into `config.autoPlay`, so there is nothing to verify.
- `server/src/main/java/datart/server/service/impl/SysServiceImpl.java`. It is configuration wiring.
