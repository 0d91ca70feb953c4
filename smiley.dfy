/** The rating row of the feedback popup: the five emotions, the row's click
    rule, and the flags and animation targets each smiley icon derives from
    the row's single optional selection. */
module Smiley {

  /** The five ratings, in the order the enum declares them (most positive
      first). */
  datatype Emotion = HappyMax | Happy | Neutral | NotHappy | NotHappyMax

  /** A nullable value (`Emotion?`). */
  datatype Option<T> = None | Some(value: T)

  /** The value the row hands to its `onEmotionSelected` callback when the
      icon for `clicked` is clicked while `selected` is the current selection:
      clicking the selected emotion clears the selection, clicking any other
      emotion selects it. */
  function Toggle(selected: Option<Emotion>, clicked: Emotion): (r: Option<Emotion>)
    ensures r == None <==> selected == Some(clicked)
    ensures r != None ==> r == Some(clicked)
  {
    if selected == Some(clicked) then None else Some(clicked)
  }

  /** Clicking the same emotion twice restores the selection exactly when it
      started empty or on that emotion; from another emotion it ends empty. */
  lemma ToggleTwice(selected: Option<Emotion>, e: Emotion)
    ensures Toggle(Toggle(selected, e), e) == selected <==> selected == None || selected == Some(e)
    ensures Toggle(Toggle(selected, e), e) == if selected == Some(e) then Some(e) else None
  {
  }

  /** Going from one rating to a different one selects the new rating in a
      single click; the selection never passes through empty. */
  lemma SwitchIsDirect(from: Emotion, to: Emotion)
    requires from != to
    ensures Toggle(Some(from), to) == Some(to)
  {
  }

  /** What one icon of the row receives: its emotion and the `selected` and
      `disable` flags. */
  datatype IconState = IconState(emotion: Emotion, selected: bool, disable: bool)

  /** The flags the row gives the icon for `e`. */
  function Icon(selection: Option<Emotion>, e: Emotion): (icon: IconState)
    ensures icon.emotion == e
    ensures icon.selected <==> selection == Some(e)
    ensures icon.disable <==> selection.Some? && !icon.selected
    ensures !(icon.selected && icon.disable)
    ensures icon.selected || icon.disable <==> selection.Some?
  {
    IconState(e, selection == Some(e), selection != None && selection != Some(e))
  }

  /** The row's icons, left to right: least happy to happiest. */
  const RowOrder: seq<Emotion> := [NotHappyMax, NotHappy, Neutral, Happy, HappyMax]

  /** No emotion occurs twice in `order`. */
  predicate Distinct(order: seq<Emotion>)
  {
    forall i, j :: 0 <= i < j < |order| ==> order[i] != order[j]
  }

  /** The row lists every emotion, each exactly once. */
  lemma RowOrderIsPermutation()
    ensures |RowOrder| == 5 && Distinct(RowOrder)
    ensures forall e: Emotion :: e in RowOrder
    ensures forall e: Emotion :: multiset(RowOrder)[e] == 1
  {
    forall e: Emotion ensures e in RowOrder && multiset(RowOrder)[e] == 1 {
      var k := match e
        case NotHappyMax => 0
        case NotHappy => 1
        case Neutral => 2
        case Happy => 3
        case HappyMax => 4;
      assert RowOrder[k] == e;
      assert RowOrder == RowOrder[..k] + [e] + RowOrder[k + 1..];
      assert e !in RowOrder[..k] && e !in RowOrder[k + 1..];
    }
  }

  /** The icons for the emotions of `order`, in that order, each flagged
      against the same selection. */
  function Icons(order: seq<Emotion>, selection: Option<Emotion>): (icons: seq<IconState>)
    ensures |icons| == |order|
    ensures forall i :: 0 <= i < |order| ==> icons[i] == Icon(selection, order[i])
  {
    if order == [] then [] else [Icon(selection, order[0])] + Icons(order[1..], selection)
  }

  /** The five icons the row shows for `selection`. */
  function Row(selection: Option<Emotion>): (icons: seq<IconState>)
    ensures |icons| == 5
    ensures forall i :: 0 <= i < 5 ==> icons[i].emotion == RowOrder[i]
    ensures forall i :: 0 <= i < 5 ==> (icons[i].selected <==> selection == Some(RowOrder[i]))
    ensures forall i :: 0 <= i < 5 ==> (icons[i].disable <==> selection.Some? && selection != Some(RowOrder[i]))
  {
    Icons(RowOrder, selection)
  }

  predicate IsSelected(icon: IconState) { icon.selected }

  predicate IsDisabled(icon: IconState) { icon.disable }

  /** How many of `icons` satisfy `flag`. */
  function CountWhere(icons: seq<IconState>, flag: IconState -> bool): (n: nat)
    ensures n <= |icons|
  {
    if icons == [] then 0
    else (if flag(icons[0]) then 1 else 0) + CountWhere(icons[1..], flag)
  }

  /** Dropping the first emotion of a distinct order leaves a distinct order
      that no longer holds that emotion. */
  lemma DistinctTail(order: seq<Emotion>)
    requires order != [] && Distinct(order)
    ensures Distinct(order[1..]) && order[0] !in order[1..]
  {
  }

  /** Over distinct emotions, exactly the icon of the selected emotion is
      selected: one icon if the selection is among them, none otherwise. */
  lemma {:induction false} SelectedCount(order: seq<Emotion>, selection: Option<Emotion>)
    requires Distinct(order)
    ensures CountWhere(Icons(order, selection), IsSelected)
         == if selection.Some? && selection.value in order then 1 else 0
  {
    if order != [] {
      var icons := Icons(order, selection);
      assert icons[1..] == Icons(order[1..], selection);
      DistinctTail(order);
      SelectedCount(order[1..], selection);
      if selection != Some(order[0]) {
        assert selection.Some? && selection.value in order <==> selection.Some? && selection.value in order[1..] by {
          assert order == [order[0]] + order[1..];
        }
      }
    }
  }

  /** With a selection, every icon other than the selected one is disabled;
      without one, none is. */
  lemma {:induction false} DisabledCount(order: seq<Emotion>, selection: Option<Emotion>)
    requires Distinct(order)
    ensures CountWhere(Icons(order, selection), IsDisabled)
         == if selection.None? then 0
            else if selection.value in order then |order| - 1
            else |order|
  {
    if order != [] {
      var icons := Icons(order, selection);
      assert icons[1..] == Icons(order[1..], selection);
      DistinctTail(order);
      DisabledCount(order[1..], selection);
      if selection != Some(order[0]) {
        assert selection.Some? && selection.value in order <==> selection.Some? && selection.value in order[1..] by {
          assert order == [order[0]] + order[1..];
        }
      }
    }
  }

  /** In the row at most one icon is selected, and exactly one when there is
      a selection; the other four are disabled then, and none is disabled
      when there is no selection. */
  lemma RowExclusive(selection: Option<Emotion>)
    ensures CountWhere(Row(selection), IsSelected) == if selection.Some? then 1 else 0
    ensures CountWhere(Row(selection), IsDisabled) == if selection.Some? then 4 else 0
  {
    RowOrderIsPermutation();
    SelectedCount(RowOrder, selection);
    DisabledCount(RowOrder, selection);
  }

  /** The values a smiley icon animates towards: horizontal face shift and
      padding in dp, backdrop and icon opacity as fractions. */
  datatype IconTargets = IconTargets(
    offsetXDp: int,
    surfaceAlpha: real,
    canvasPaddingDp: int,
    surfacePaddingDp: int,
    disableAlpha: real)

  /** The targets of the icon's tweens for its `selected` and `disable`
      flags. */
  function Targets(selected: bool, disable: bool): (t: IconTargets)
    ensures t.offsetXDp == 0 <==> selected
    ensures t.surfaceAlpha == 1.0 <==> selected
    ensures t.canvasPaddingDp > 0 <==> selected
    ensures t.surfacePaddingDp + t.canvasPaddingDp == 8
    ensures 0.0 <= t.surfaceAlpha <= 1.0 && 0.0 < t.disableAlpha <= 1.0
    ensures t.disableAlpha < 1.0 <==> disable
    ensures selected ==> t.offsetXDp == 0 && t.surfaceAlpha == 1.0 && t.canvasPaddingDp == 8
    ensures !selected ==> t.offsetXDp == 4 && t.surfaceAlpha == 0.0 && t.canvasPaddingDp == 0
    ensures t.disableAlpha == if disable then 0.5 else 1.0
  {
    var canvasPadding := if selected then 8 else 0;
    IconTargets(
      if selected then 0 else 4,
      if selected then 1.0 else 0.0,
      canvasPadding,
      8 - canvasPadding,
      if disable then 0.5 else 1.0)
  }

  /** In the row, the selected icon is shown at full opacity with its
      backdrop, every other icon without a backdrop, and all icons at full
      opacity while nothing is selected. */
  lemma RowTargets(selection: Option<Emotion>, i: nat)
    requires i < 5
    ensures var icon := Row(selection)[i];
            var t := Targets(icon.selected, icon.disable);
            (t.surfaceAlpha == 1.0 ==> t.disableAlpha == 1.0)
            && (selection.None? ==> t.disableAlpha == 1.0 && t.surfaceAlpha == 0.0)
            && (selection.Some? ==> (t.disableAlpha == 1.0 <==> selection.value == RowOrder[i]))
  {
  }
}
