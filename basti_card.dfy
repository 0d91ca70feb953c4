/** The feedback card: it owns the one optional rating, wires it to the
    smiley row, and derives the caption and the send button's target height
    from it. */
module MainActivity {
  import opened Smiley

  /** The height, in dp, the send button opens to once a rating is chosen. */
  const SendButtonHeightDp: nat := 100

  /** The score out of five each caption announces. */
  function Score(e: Emotion): (k: nat)
    ensures 1 <= k <= 5
  {
    match e
    case NotHappyMax => 1
    case NotHappy => 2
    case Neutral => 3
    case Happy => 4
    case HappyMax => 5
  }

  /** The row shows the ratings from 1/5 on the left to 5/5 on the right. */
  lemma RowAscending(selection: Option<Emotion>, i: nat)
    requires i < 5
    ensures Score(Row(selection)[i].emotion) == i + 1
  {
  }

  /** "k/5 — ", the opening of every caption. */
  function ScorePrefix(k: nat): (p: string)
    requires 1 <= k <= 5
    ensures |p| == 6 && p[1..] == "/5 — "
    ensures '1' <= p[0] <= '5' && p[0] as int - '0' as int == k
  {
    [('0' as int + k) as char] + "/5 — "
  }

  /** The caption shown under the row: a fixed text per rating, empty when
      nothing is selected. */
  function Caption(selection: Option<Emotion>): (text: string)
    ensures text == "" <==> selection.None?
    ensures selection.Some? ==> |text| > 6 && text[..6] == ScorePrefix(Score(selection.value))
  {
    match selection
    case Some(HappyMax) => "5/5 — Géniallll !"
    case Some(Happy) => "4/5 — Au top !"
    case Some(Neutral) => "3/5 — M'ouais"
    case Some(NotHappy) => "2/5 — Mheeh"
    case Some(NotHappyMax) => "1/5 — Pignolesque"
    case None => ""
  }

  /** Different ratings get different captions, and different scores. */
  lemma CaptionsDistinct(a: Emotion, b: Emotion)
    requires a != b
    ensures Score(a) != Score(b)
    ensures Caption(Some(a)) != Caption(Some(b))
  {
  }

  /** Whether the caption is shown: exactly when it has text to show. */
  function CaptionVisible(selection: Option<Emotion>): (visible: bool)
    ensures visible <==> Caption(selection) != ""
  {
    selection != None
  }

  /** The height the send button animates towards. */
  function ButtonTarget(selection: Option<Emotion>): (h: nat)
    ensures h == SendButtonHeightDp <==> selection.Some?
    ensures h == 0 <==> selection.None?
  {
    if selection != None then SendButtonHeightDp else 0
  }

  /** Changing from one rating to another keeps the send button open. */
  lemma ButtonStaysOpen(from: Emotion, to: Emotion)
    requires from != to
    ensures ButtonTarget(Some(from)) == ButtonTarget(Toggle(Some(from), to)) == SendButtonHeightDp
  {
  }

  /** Everything the card shows that depends on the selection: the row's
      icons, whether the caption is shown and its text, and the send
      button's target height. */
  datatype CardView = CardView(
    row: seq<IconState>,
    captionVisible: bool,
    caption: string,
    buttonTargetDp: nat)

  /** The card as drawn for `selection`. The row, the caption and the button
      agree: the caption shows, the button is open and some icon is selected,
      all at once or not at all, and the caption announces the position of
      the selected icon in the row. */
  function View(selection: Option<Emotion>): (v: CardView)
    ensures v.row == Row(selection)
    ensures v.captionVisible <==> v.buttonTargetDp == SendButtonHeightDp
    ensures v.captionVisible <==> v.caption != ""
    ensures v.captionVisible <==> exists i :: 0 <= i < |v.row| && v.row[i].selected
    ensures forall i :: 0 <= i < |v.row| && v.row[i].selected ==>
              |v.caption| > 6 && v.caption[..6] == ScorePrefix(i + 1)
  {
    var v := CardView(Row(selection), CaptionVisible(selection), Caption(selection), ButtonTarget(selection));
    assert selection.Some? ==> v.row[Score(selection.value) - 1].selected;
    v
  }

  /** The card first shows no selected or disabled icon, no caption and a
      closed send button. */
  lemma InitialView()
    ensures View(None).buttonTargetDp == 0
    ensures !View(None).captionVisible && View(None).caption == ""
    ensures forall i :: 0 <= i < 5 ==> !View(None).row[i].selected && !View(None).row[i].disable
  {
  }

  /** The selection after the user has clicked `clicks`, in order, on a card
      that started empty. */
  function Replay(clicks: seq<Emotion>): (s: Option<Emotion>)
    ensures clicks == [] ==> s == None
    ensures s == None || (clicks != [] && s == Some(clicks[|clicks| - 1]))
  {
    if clicks == [] then None
    else Toggle(Replay(clicks[..|clicks| - 1]), clicks[|clicks| - 1])
  }

  /** How many clicks at the end of `clicks` were on its last emotion. */
  function TrailingRun(clicks: seq<Emotion>): (n: nat)
    ensures n <= |clicks| && (clicks != [] ==> 1 <= n)
    ensures forall k :: |clicks| - n <= k < |clicks| ==> clicks[k] == clicks[|clicks| - 1]
    ensures 0 < n < |clicks| ==> clicks[|clicks| - n - 1] != clicks[|clicks| - 1]
  {
    if |clicks| <= 1 then |clicks|
    else if clicks[|clicks| - 2] == clicks[|clicks| - 1] then 1 + TrailingRun(clicks[..|clicks| - 1])
    else 1
  }

  /** After any sequence of clicks, the last-clicked rating is selected when
      it was clicked an odd number of times in a row at the end, and nothing
      is selected when an even number: each repeat click toggles, and a click
      on another rating selects it directly. */
  lemma {:induction false} ReplayParity(clicks: seq<Emotion>)
    requires clicks != []
    ensures Replay(clicks) == if TrailingRun(clicks) % 2 == 1 then Some(clicks[|clicks| - 1]) else None
  {
    var n := |clicks|;
    var e := clicks[n - 1];
    var before := clicks[..n - 1];
    if n > 1 {
      if clicks[n - 2] == e {
        ReplayParity(before);
        assert before[|before| - 1] == e;
      } else {
        assert Replay(before) != Some(e);
      }
    }
  }

  /** Taking the five opening moves: selecting any rating on a fresh card
      opens the send button and shows that rating's caption. */
  lemma FirstRating(e: Emotion)
    ensures var v := View(Replay([e]));
            v.buttonTargetDp == SendButtonHeightDp && v.captionVisible
            && v.caption == match e
                            case NotHappyMax => "1/5 — Pignolesque"
                            case NotHappy => "2/5 — Mheeh"
                            case Neutral => "3/5 — M'ouais"
                            case Happy => "4/5 — Au top !"
                            case HappyMax => "5/5 — Géniallll !"
  {
  }

  /** The card's state. `selected` is written only by `Click`, the row's
      callback; `clicks` records, for the proof, every click so far. */
  class BastiCard {
    var selected: Option<Emotion>
    ghost var clicks: seq<Emotion>

    /** The selection is what the clicks so far produce from an empty card. */
    ghost predicate Valid()
      reads this
    {
      selected == Replay(clicks)
    }

    /** A new card has no rating. */
    constructor ()
      ensures Valid() && clicks == [] && selected == None
    {
      selected := None;
      clicks := [];
    }

    /** The row's `onEmotionSelected` callback for a click on `e`: the cell
        takes the row's toggle result. */
    method Click(e: Emotion)
      requires Valid()
      modifies this
      ensures Valid() && clicks == old(clicks) + [e]
      ensures selected == Toggle(old(selected), e)
    {
      selected := Toggle(selected, e);
      clicks := clicks + [e];
      assert clicks[..|clicks| - 1] == old(clicks);
    }

    /** One composition of the card: the row, caption and button targets it
        draws for the current selection, which follow from the click history
        alone. */
    method Render() returns (v: CardView)
      requires Valid()
      ensures v == View(selected)
      ensures v.captionVisible <==> clicks != [] && TrailingRun(clicks) % 2 == 1
    {
      v := View(selected);
      if clicks != [] {
        ReplayParity(clicks);
      }
    }
  }
}
