/** Deleting the selected widgets, with a confirmation when a selected
    container still holds widgets (`deleteWidgetsAction`). */
module DeleteWidgets {
  import opened Records
  import opened Board

  /** The user's answer to the confirmation dialog. */
  datatype ConfirmAnswer = Confirmed | Cancelled

  /** The truthy `childWidgetId`s of the items, in order, duplicates kept. */
  function ItemChildIds(items: seq<ContainerItem>): (ids: seq<string>)
    ensures |ids| <= |items|
    ensures "" !in ids
  {
    if items == [] then []
    else
      var last := items[|items| - 1];
      ItemChildIds(items[..|items| - 1]) + (if last.childWidgetId != "" then [last.childWidgetId] else [])
  }

  /** One more item extends the list by its child id when it names one. */
  lemma ItemChildIdsStep(items: seq<ContainerItem>, j: nat)
    requires j < |items|
    ensures ItemChildIds(items[..j + 1])
            == ItemChildIds(items[..j]) + (if items[j].childWidgetId != "" then [items[j].childWidgetId] else [])
  {
    assert items[..j + 1][..j] == items[..j];
  }

  /** The ids pushed for a container's items are exactly their non-empty
      `childWidgetId`s. */
  lemma {:induction false} ItemChildIdsMembers(items: seq<ContainerItem>, x: string)
    ensures x in ItemChildIds(items) <==> x != "" && exists j :: 0 <= j < |items| && items[j].childWidgetId == x
  {
    if items != [] {
      var init := items[..|items| - 1];
      ItemChildIdsMembers(init, x);
      assert forall j :: 0 <= j < |init| ==> init[j] == items[j];
      if exists j :: 0 <= j < |items| && items[j].childWidgetId == x {
        var j :| 0 <= j < |items| && items[j].childWidgetId == x;
        if j < |init| { assert init[j].childWidgetId == x; }
      }
    }
  }

  /** The child ids one selected widget contributes: those of its `itemMap`
      items when it is a container, none otherwise. */
  function WidgetChildIds(w: Widget): (ids: seq<string>)
    ensures !w.config.IsContainer() ==> ids == []
    ensures "" !in ids
  {
    match w.config.content
    case ContainerContent(itemMap) => ItemChildIds(Values(itemMap))
    case _ => []
  }

  /** Every id names an entry of the widget record (`widgetMap[id]` is
      dereferenced for each selected id). */
  predicate AllPresent(ids: seq<string>, widgets: Record<Widget>)
  {
    forall i :: 0 <= i < |ids| ==> HasKey(widgets, ids[i])
  }

  /** `childWidgetIds` as the `forEach` loops leave it: the child ids of the
      selected containers, selection by selection. */
  function ChildWidgetIds(ids: seq<string>, widgets: Record<Widget>): (gathered: seq<string>)
    requires AllPresent(ids, widgets)
    ensures "" !in gathered
  {
    if ids == [] then []
    else ChildWidgetIds(ids[..|ids| - 1], widgets) + WidgetChildIds(Get(widgets, ids[|ids| - 1]).value)
  }

  /** The gathered list of a longer prefix of the selection extends that of
      the shorter one by the next widget's children. */
  lemma ChildWidgetIdsStep(ids: seq<string>, widgets: Record<Widget>, i: nat)
    requires AllPresent(ids, widgets) && i < |ids|
    ensures AllPresent(ids[..i], widgets) && AllPresent(ids[..i + 1], widgets)
    ensures ChildWidgetIds(ids[..i + 1], widgets)
            == ChildWidgetIds(ids[..i], widgets) + WidgetChildIds(Get(widgets, ids[i]).value)
  {
    assert forall k :: 0 <= k < i + 1 ==> ids[..i + 1][k] == ids[k];
    assert ids[..i + 1][..i] == ids[..i];
  }

  /** The widget stored under `id` is a container and one of its items
      names a widget. */
  predicate HoldsWidget(widgets: Record<Widget>, id: string)
  {
    && HasKey(widgets, id)
    && var w := Get(widgets, id).value;
    && w.config.content.ContainerContent?
    && exists j :: 0 <= j < |w.config.content.itemMap| && w.config.content.itemMap[j].1.childWidgetId != ""
  }

  /** The widget stored under `id` is a container and one of its items
      names the widget `x`. */
  predicate HoldsChild(widgets: Record<Widget>, id: string, x: string)
  {
    && HasKey(widgets, id)
    && var w := Get(widgets, id).value;
    && w.config.content.ContainerContent?
    && x != ""
    && exists j :: 0 <= j < |w.config.content.itemMap| && w.config.content.itemMap[j].1.childWidgetId == x
  }

  /** What a single selected widget contributes: the named children of a
      container; nothing for any other widget type. */
  lemma WidgetChildIdsMembers(widgets: Record<Widget>, id: string, x: string)
    requires HasKey(widgets, id)
    ensures var w := Get(widgets, id).value;
            && (x in WidgetChildIds(w) <==> HoldsChild(widgets, id, x))
            && (WidgetChildIds(w) == [] <==> !HoldsWidget(widgets, id))
            && (!w.config.IsContainer() ==> WidgetChildIds(w) == [])
  {
    var w := Get(widgets, id).value;
    if w.config.content.ContainerContent? {
      var m := w.config.content.itemMap;
      var vs := Values(m);
      ItemChildIdsMembers(vs, x);
      if WidgetChildIds(w) != [] {
        ItemChildIdsMembers(vs, WidgetChildIds(w)[0]);
      }
      if HoldsWidget(widgets, id) {
        var j :| 0 <= j < |m| && m[j].1.childWidgetId != "";
        ItemChildIdsMembers(vs, m[j].1.childWidgetId);
        assert vs[j].childWidgetId in WidgetChildIds(w);
      }
      if WidgetChildIds(w) != [] {
        var y := WidgetChildIds(w)[0];
        assert y in WidgetChildIds(w);
        var j :| 0 <= j < |vs| && vs[j].childWidgetId == y;
        assert m[j].1.childWidgetId != "";
      }
      if x in WidgetChildIds(w) {
        var j :| 0 <= j < |vs| && vs[j].childWidgetId == x;
        assert m[j].1.childWidgetId == x;
      }
      if HoldsChild(widgets, id, x) {
        var j :| 0 <= j < |m| && m[j].1.childWidgetId == x;
        assert vs[j].childWidgetId == x;
      }
    }
  }

  /** The gathered list is the concatenation of the lists of the parts: it
      follows selection order and is not de-duplicated. */
  lemma {:induction false} ChildWidgetIdsAppend(a: seq<string>, b: seq<string>, widgets: Record<Widget>)
    requires AllPresent(a, widgets) && AllPresent(b, widgets)
    ensures AllPresent(a + b, widgets)
    ensures ChildWidgetIds(a + b, widgets) == ChildWidgetIds(a, widgets) + ChildWidgetIds(b, widgets)
  {
    assert AllPresent(a + b, widgets) by {
      forall i | 0 <= i < |a + b| ensures HasKey(widgets, (a + b)[i]) {
        if i < |a| { assert (a + b)[i] == a[i]; } else { assert (a + b)[i] == b[i - |a|]; }
      }
    }
    if b != [] {
      var n := |b| - 1;
      var b' := b[..n];
      assert AllPresent(b', widgets)
             && ChildWidgetIds(b, widgets) == ChildWidgetIds(b', widgets) + WidgetChildIds(Get(widgets, b[n]).value) by {
        ChildWidgetIdsStep(b, widgets, n);
        assert b[..n + 1] == b;
      }
      assert (a + b)[..|a + b| - 1] == a + b';
      assert (a + b)[|a + b| - 1] == b[n];
      ChildWidgetIdsAppend(a, b', widgets);
    } else {
      assert a + b == a;
    }
  }

  /** A widget id is gathered exactly when some selected container holds it. */
  lemma {:induction false} ChildWidgetIdsMembers(ids: seq<string>, widgets: Record<Widget>, x: string)
    requires AllPresent(ids, widgets)
    ensures x in ChildWidgetIds(ids, widgets) <==> exists i :: 0 <= i < |ids| && HoldsChild(widgets, ids[i], x)
  {
    if ids != [] {
      var init := ids[..|ids| - 1];
      var last := ids[|ids| - 1];
      assert forall i :: 0 <= i < |init| ==> init[i] == ids[i];
      ChildWidgetIdsMembers(init, widgets, x);
      WidgetChildIdsMembers(widgets, last, x);
      if HoldsChild(widgets, last, x) {
        assert HoldsChild(widgets, ids[|ids| - 1], x);
      }
    }
  }

  /** The gathered list is empty exactly when no selected widget is a
      container with an item that names a widget; in particular a selection
      without containers gathers nothing. */
  lemma {:induction false} ChildWidgetIdsEmpty(ids: seq<string>, widgets: Record<Widget>)
    requires AllPresent(ids, widgets)
    ensures ChildWidgetIds(ids, widgets) == [] <==> forall i :: 0 <= i < |ids| ==> !HoldsWidget(widgets, ids[i])
  {
    if ids != [] {
      var n := |ids| - 1;
      var init := ids[..n];
      var last := WidgetChildIds(Get(widgets, ids[n]).value);
      assert AllPresent(init, widgets) && ChildWidgetIds(ids, widgets) == ChildWidgetIds(init, widgets) + last by {
        ChildWidgetIdsStep(ids, widgets, n);
        assert ids[..n + 1] == ids;
      }
      assert last == [] <==> !HoldsWidget(widgets, ids[n]) by {
        WidgetChildIdsMembers(widgets, ids[n], "");
      }
      ChildWidgetIdsEmpty(init, widgets);
      if ChildWidgetIds(ids, widgets) == [] {
        forall i | 0 <= i < |ids| ensures !HoldsWidget(widgets, ids[i]) {
          if i < n { assert init[i] == ids[i]; }
        }
      } else if ChildWidgetIds(init, widgets) != [] {
        var i :| 0 <= i < n && HoldsWidget(widgets, init[i]);
        assert init[i] == ids[i];
      } else {
        assert HoldsWidget(widgets, ids[n]);
      }
    }
  }

  /** The gathered list is not de-duplicated: a child named by two selected
      containers is gathered (at least) twice. */
  lemma ChildWidgetIdsKeepsDuplicates(ids: seq<string>, widgets: Record<Widget>, i: nat, j: nat, x: string)
    requires AllPresent(ids, widgets) && i < j < |ids|
    requires HoldsChild(widgets, ids[i], x) && HoldsChild(widgets, ids[j], x)
    ensures multiset(ChildWidgetIds(ids, widgets))[x] >= 2
  {
    var front, back := ids[..j], ids[j..];
    assert ids == front + back;
    assert AllPresent(front, widgets) && AllPresent(back, widgets) by {
      assert forall k :: 0 <= k < |front| ==> front[k] == ids[k];
      assert forall k :: 0 <= k < |back| ==> back[k] == ids[j + k];
    }
    ChildWidgetIdsAppend(front, back, widgets);
    assert front[i] == ids[i] && back[0] == ids[j];
    ChildWidgetIdsMembers(front, widgets, x);
    ChildWidgetIdsMembers(back, widgets, x);
    assert multiset(ChildWidgetIds(ids, widgets))
           == multiset(ChildWidgetIds(front, widgets)) + multiset(ChildWidgetIds(back, widgets));
  }

  /** Every selected widget has an entry in the widget record. */
  predicate SelectionPresent(board: EditBoardState)
  {
    AllPresent(SelectedIdsOf(board), board.widgetRecord)
  }

  /** The inner `forEach` over a container's items: pushes each truthy
      `childWidgetId` onto the list gathered so far. */
  method PushItemChildIds(gathered: seq<string>, items: seq<ContainerItem>) returns (pushed: seq<string>)
    ensures pushed == gathered + ItemChildIds(items)
  {
    pushed := gathered;
    var j := 0;
    while j < |items|
      invariant 0 <= j <= |items|
      invariant pushed == gathered + ItemChildIds(items[..j])
    {
      ItemChildIdsStep(items, j);
      if items[j].childWidgetId != "" {
        pushed := pushed + [items[j].childWidgetId];
      }
      j := j + 1;
    }
    assert items[..j] == items;
  }

  /** `deleteWidgetsAction`: the commands dispatched, and whether the
      confirmation dialog was shown. Without children to cascade it deletes
      the selection at once; otherwise it asks, deletes the selection (and
      only the selection) on confirmation and dispatches nothing on cancel. */
  method DeleteWidgetsAction(board: EditBoardState, answer: ConfirmAnswer)
    returns (log: seq<Command>, confirmShown: bool)
    requires SelectionPresent(board)
    ensures confirmShown <==> ChildWidgetIds(SelectedIdsOf(board), board.widgetRecord) != []
    ensures !confirmShown ==> log == [DeleteWidgets(SelectedIdsOf(board))]
    ensures confirmShown && answer == Confirmed ==> log == [DeleteWidgets(SelectedIdsOf(board))]
    ensures confirmShown && answer == Cancelled ==> log == []
  {
    var selectedIds := SelectedIds(Values(board.widgetInfoRecord));
    var widgetMap := board.widgetRecord;
    var childWidgetIds: seq<string> := [];
    var i := 0;
    while i < |selectedIds|
      invariant 0 <= i <= |selectedIds|
      invariant AllPresent(selectedIds[..i], widgetMap)
      invariant childWidgetIds == ChildWidgetIds(selectedIds[..i], widgetMap)
    {
      var id := selectedIds[i];
      var w := Get(widgetMap, id).value;
      ChildWidgetIdsStep(selectedIds, widgetMap, i);
      if w.config.IsContainer() {
        childWidgetIds := PushItemChildIds(childWidgetIds, Values(w.config.content.itemMap));
      }
      i := i + 1;
    }
    assert selectedIds[..i] == selectedIds;
    if |childWidgetIds| == 0 {
      log, confirmShown := [DeleteWidgets(selectedIds)], false;
      return;
    }
    confirmShown := true;
    match answer
    case Confirmed =>
      log := [DeleteWidgets(selectedIds)];
    case Cancelled =>
      childWidgetIds := [];
      log := [];
  }
}
