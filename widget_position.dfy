/** Bringing the selected widget to the front or sending it to the back
    (`widgetToPositionAction`). */
module WidgetPosition {
  import opened Records
  import opened Board

  /** `'top' | 'bottom'`. */
  datatype Position = Top | Bottom

  /** `filter(item => !item.parentId)`: the widgets not nested in a
      container, in their original order. */
  function TopLevelWidgets(ws: seq<Widget>): (r: seq<Widget>)
    ensures |r| <= |ws|
    ensures forall w :: w in r <==> w in ws && w.IsTopLevel()
  {
    if ws == [] then []
    else
      assert ws == [ws[0]] + ws[1..];
      (if ws[0].IsTopLevel() then [ws[0]] else []) + TopLevelWidgets(ws[1..])
  }

  /** Filtering a concatenation filters each part in turn: the kept widgets
      stay in record order, each as often as it occurs. */
  lemma {:induction false} TopLevelWidgetsAppend(a: seq<Widget>, b: seq<Widget>)
    ensures TopLevelWidgets(a + b) == TopLevelWidgets(a) + TopLevelWidgets(b)
  {
    if a == [] {
      assert a + b == b;
    } else {
      assert (a + b)[0] == a[0];
      assert (a + b)[1..] == a[1..] + b;
      TopLevelWidgetsAppend(a[1..], b);
    }
  }

  /** Ascending by `config.index`. */
  predicate SortedByIndex(s: seq<Widget>)
  {
    forall i, j :: 0 <= i < j < |s| ==> s[i].config.index <= s[j].config.index
  }

  /** Inserts `x` before the first element whose index is not smaller, so
      that it stays ahead of the widgets it ties with that came after it. */
  function Insert(x: Widget, s: seq<Widget>): (r: seq<Widget>)
    ensures |r| == |s| + 1
    ensures r[0] == x || (s != [] && r[0] == s[0])
    ensures SortedByIndex(s) ==> SortedByIndex(r)
  {
    if s == [] || x.config.index <= s[0].config.index then
      [x] + s
    else
      var rest := Insert(x, s[1..]);
      assert SortedByIndex(s) ==> SortedByIndex([s[0]] + rest) by {
        if SortedByIndex(s) {
          assert SortedByIndex(s[1..]);
          assert s[0].config.index <= rest[0].config.index;
        }
      }
      [s[0]] + rest
  }

  /** `sort((w1, w2) => w1.config.index - w2.config.index)`: a stable sort
      by index, as JavaScript's `Array.prototype.sort` is. */
  function SortByIndex(s: seq<Widget>): (r: seq<Widget>)
    ensures |r| == |s|
    ensures SortedByIndex(r)
  {
    if s == [] then [] else Insert(s[0], SortByIndex(s[1..]))
  }

  lemma {:induction false} InsertPermutes(x: Widget, s: seq<Widget>)
    ensures multiset(Insert(x, s)) == multiset(s) + multiset{x}
  {
    if !(s == [] || x.config.index <= s[0].config.index) {
      InsertPermutes(x, s[1..]);
      assert s == [s[0]] + s[1..];
    }
  }

  /** Sorting reorders the widgets and neither drops nor duplicates any. */
  lemma {:induction false} SortByIndexPermutes(s: seq<Widget>)
    ensures multiset(SortByIndex(s)) == multiset(s)
  {
    if s != [] {
      var rest := SortByIndex(s[1..]);
      SortByIndexPermutes(s[1..]);
      InsertPermutes(s[0], rest);
      assert s == [s[0]] + s[1..];
    }
  }

  /** A widget is in the sorted list exactly when it is in the input. */
  lemma SortByIndexMembers(s: seq<Widget>)
    ensures forall w :: w in SortByIndex(s) <==> w in s
  {
    SortByIndexPermutes(s);
    forall w ensures w in SortByIndex(s) <==> w in s {
      assert w in SortByIndex(s) <==> w in multiset(SortByIndex(s));
      assert w in s <==> w in multiset(s);
    }
  }

  function Last(s: seq<Widget>): Widget
    requires s != []
  {
    s[|s| - 1]
  }

  /** Inserting into a sorted list changes its last element only when the
      new widget's index is strictly larger than every other. */
  lemma {:induction false} InsertLast(x: Widget, t: seq<Widget>)
    requires SortedByIndex(t) && t != []
    ensures Last(Insert(x, t)) == if x.config.index > Last(t).config.index then x else Last(t)
  {
    if x.config.index <= t[0].config.index {
      assert x.config.index <= Last(t).config.index;
    } else if |t| > 1 {
      assert SortedByIndex(t[1..]);
      InsertLast(x, t[1..]);
    }
  }

  /** `w` has the smallest index of `s`, and it occurs in `s` at a place
      before which only widgets of larger index come. */
  predicate EarliestOfSmallest(s: seq<Widget>, w: Widget)
  {
    && (forall j :: 0 <= j < |s| ==> w.config.index <= s[j].config.index)
    && exists i :: 0 <= i < |s| && s[i] == w && forall j :: 0 <= j < i ==> s[j].config.index > s[i].config.index
  }

  /** The first widget after sorting is the earliest widget of smallest
      index: every widget before it in the input has a larger index. */
  lemma {:induction false} SortByIndexFirst(s: seq<Widget>)
    requires s != []
    ensures SortByIndex(s) != []
    ensures EarliestOfSmallest(s, SortByIndex(s)[0])
  {
    var rest := SortByIndex(s[1..]);
    assert SortByIndex(s) == Insert(s[0], rest);
    if rest == [] || s[0].config.index <= rest[0].config.index {
      assert s[0] == SortByIndex(s)[0];
      SortByIndexMembers(s[1..]);
      forall j | 0 < j < |s| ensures s[0].config.index <= s[j].config.index {
        assert s[j] in rest by { assert s[j] == s[1..][j - 1]; }
        var k :| 0 <= k < |rest| && rest[k] == s[j];
        assert rest[0].config.index <= rest[k].config.index;
      }
    } else {
      assert SortByIndex(s)[0] == rest[0];
      SortByIndexFirst(s[1..]);
      FirstFromTail(s, rest[0]);
    }
  }

  /** A witness in the tail whose index is below the head's is a witness in
      the whole input. */
  lemma FirstFromTail(s: seq<Widget>, w: Widget)
    requires |s| > 1 && EarliestOfSmallest(s[1..], w) && s[0].config.index > w.config.index
    ensures EarliestOfSmallest(s, w)
  {
    var i :| 0 <= i < |s[1..]| && s[1..][i] == w
             && forall j :: 0 <= j < i ==> s[1..][j].config.index > s[1..][i].config.index;
    assert s[i + 1] == w;
    forall j | 0 <= j < i + 1 ensures s[j].config.index > s[i + 1].config.index {
      if j > 0 { assert s[j] == s[1..][j - 1]; }
    }
    forall j | 0 < j < |s| ensures w.config.index <= s[j].config.index {
      assert s[j] == s[1..][j - 1];
    }
  }

  /** `w` has the largest index of `s`, and it occurs in `s` at a place
      after which only widgets of smaller index follow. */
  predicate LatestOfLargest(s: seq<Widget>, w: Widget)
  {
    && (forall j :: 0 <= j < |s| ==> s[j].config.index <= w.config.index)
    && exists i :: 0 <= i < |s| && s[i] == w && forall j :: i < j < |s| ==> s[j].config.index < s[i].config.index
  }

  /** The head of the input is the last sorted widget when its index beats
      every other; every later widget then has a smaller index. */
  lemma LastIsHead(s: seq<Widget>)
    requires |s| > 1
    requires s[0].config.index > Last(SortByIndex(s[1..])).config.index
    ensures LatestOfLargest(s, s[0])
  {
    var rest := SortByIndex(s[1..]);
    SortByIndexMembers(s[1..]);
    forall j | 0 < j < |s| ensures s[j].config.index < s[0].config.index {
      assert s[j] in rest by { assert s[j] == s[1..][j - 1]; }
      var k :| 0 <= k < |rest| && rest[k] == s[j];
      assert rest[k].config.index <= Last(rest).config.index;
    }
  }

  /** A witness in the tail whose index is not below the head's is a
      witness in the whole input. */
  lemma LastFromTail(s: seq<Widget>, w: Widget)
    requires |s| > 1 && LatestOfLargest(s[1..], w) && s[0].config.index <= w.config.index
    ensures LatestOfLargest(s, w)
  {
    var i :| 0 <= i < |s[1..]| && s[1..][i] == w
             && forall j :: i < j < |s[1..]| ==> s[1..][j].config.index < s[1..][i].config.index;
    assert s[i + 1] == w;
    forall j | i + 1 < j < |s| ensures s[j].config.index < s[i + 1].config.index {
      assert s[j] == s[1..][j - 1];
    }
    forall j | 0 < j < |s| ensures s[j].config.index <= w.config.index {
      assert s[j] == s[1..][j - 1];
    }
  }

  /** The last widget after sorting is the latest widget of largest index:
      every widget after it in the input has a smaller index. */
  lemma {:induction false} SortByIndexLast(s: seq<Widget>)
    requires s != []
    ensures SortByIndex(s) != []
    ensures LatestOfLargest(s, Last(SortByIndex(s)))
  {
    var rest := SortByIndex(s[1..]);
    assert SortByIndex(s) == Insert(s[0], rest);
    if rest == [] {
      assert |s| == 1 && s[0] == Last(SortByIndex(s));
    } else {
      InsertLast(s[0], rest);
      if s[0].config.index > Last(rest).config.index {
        LastIsHead(s);
      } else {
        SortByIndexLast(s[1..]);
        LastFromTail(s, Last(rest));
      }
    }
  }

  /** The widget `targetId` is taken from: the last of the sorted top-level
      widgets for `Top`, the first for `Bottom`. It is a top-level widget of
      the record, with the largest index among them for `Top` and the
      smallest for `Bottom`. */
  function TargetWidget(position: Position, widgets: Record<Widget>): (t: Widget)
    requires TopLevelWidgets(Values(widgets)) != []
    ensures t in Values(widgets) && t.IsTopLevel()
    ensures position == Top ==>
              forall w :: w in Values(widgets) && w.IsTopLevel() ==> w.config.index <= t.config.index
    ensures position == Bottom ==>
              forall w :: w in Values(widgets) && w.IsTopLevel() ==> t.config.index <= w.config.index
  {
    var topLevel := TopLevelWidgets(Values(widgets));
    var sortedWidgets := SortByIndex(topLevel);
    SortByIndexMembers(topLevel);
    var t := if position == Top then sortedWidgets[|sortedWidgets| - 1] else sortedWidgets[0];
    assert t in sortedWidgets;
    t
  }

  /** Among top-level widgets that tie on the extreme index, `Top` picks the
      one latest in record order and `Bottom` the one earliest. */
  lemma TargetTieBreak(position: Position, widgets: Record<Widget>)
    requires TopLevelWidgets(Values(widgets)) != []
    ensures position == Top ==> LatestOfLargest(TopLevelWidgets(Values(widgets)), TargetWidget(position, widgets))
    ensures position == Bottom ==> EarliestOfSmallest(TopLevelWidgets(Values(widgets)), TargetWidget(position, widgets))
  {
    var topLevel := TopLevelWidgets(Values(widgets));
    var sortedWidgets := SortByIndex(topLevel);
    if position == Top {
      assert TargetWidget(position, widgets) == Last(sortedWidgets);
      SortByIndexLast(topLevel);
    } else {
      assert TargetWidget(position, widgets) == sortedWidgets[0];
      SortByIndexFirst(topLevel);
    }
  }

  /** `curId`: the id of the first selected widget info, or None. It is
      the first of the ids the delete action collects. */
  function CurrentId(board: EditBoardState): (curId: Option<string>)
    ensures curId.Some? <==> SelectedIdsOf(board) != []
    ensures curId.Some? ==> curId.value == SelectedIdsOf(board)[0]
  {
    FirstSelectedHeadsSelectedIds(Values(board.widgetInfoRecord));
    match FirstSelected(Values(board.widgetInfoRecord))
    case Some(info) => Some(info.id)
    case None => None
  }

  /** `widgetToPositionAction(position)`: the commands dispatched. Nothing
      when no widget is selected (or the selected id is empty) or when the
      selected widget is already the target; otherwise one command swapping
      the index of the first selected widget with the target's. */
  function WidgetToPositionAction(position: Position, board: EditBoardState): (log: seq<Command>)
    requires TopLevelWidgets(Values(board.widgetRecord)) != []
    ensures var selected := SelectedIdsOf(board);
            var target := TargetWidget(position, board.widgetRecord);
            && (log == [] <==> selected == [] || selected[0] == "" || selected[0] == target.id)
            && (log != [] ==> log == [ChangeTwoWidgetIndex(selected[0], target.id)])
  {
    var targetId := TargetWidget(position, board.widgetRecord).id;
    match CurrentId(board)
    case None => []
    case Some(curId) =>
      if curId == "" || targetId == curId then []
      else [ChangeTwoWidgetIndex(curId, targetId)]
  }

  /** With a single top-level widget that is also the selected one, both
      positions dispatch nothing. */
  lemma SingleTopLevelIsNoop(board: EditBoardState, w: Widget)
    requires TopLevelWidgets(Values(board.widgetRecord)) == [w]
    requires SelectedIdsOf(board) != [] && SelectedIdsOf(board)[0] == w.id
    ensures WidgetToPositionAction(Top, board) == []
    ensures WidgetToPositionAction(Bottom, board) == []
  {
    var t := TargetWidget(Top, board.widgetRecord);
    var b := TargetWidget(Bottom, board.widgetRecord);
    assert t in TopLevelWidgets(Values(board.widgetRecord));
    assert b in TopLevelWidgets(Values(board.widgetRecord));
  }
}
