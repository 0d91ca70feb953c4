# Basti UI feedback popup — rating selection

A model of the one piece of behaviour in the Basti feedback popup (a Jetpack
Compose screen): the rating-selection state machine. The card holds a single
optional `Emotion`. The smiley row shows the five emotions, least happy to
happiest. Clicking the selected emotion clears the selection; clicking any
other emotion selects it. Each icon is flagged `selected` when its emotion is
the selection and `disable` when another emotion is. The card derives two
views from the selection: a caption (one fixed French text per rating, empty
with no rating, shown only with a rating) and the send button's target height
(100 dp with a rating, 0 without).

- `smiley.dfy`, module `Smiley` (from `Smiley.kt`): the `Emotion` enum, the
  row's click rule `Toggle`, the per-icon flags `Icon`, the row `Row`, counts
  of selected and disabled icons, and the tween targets of one icon.
- `basti_card.dfy`, module `MainActivity` (from `BastiCard` in
  `MainActivity.kt`): the caption lookup, the caption visibility test, the
  button target, the combined `View`, the selection after a click history
  (`Replay`), and the class `BastiCard` whose `selected` field only `Click`
  writes.

The enum's constructors keep the Kotlin declaration order (happiest first);
the row order is the reverse, and `Score` gives each emotion the k of the
"k/5" its caption starts with.

## Model

| member | source | states |
|---|---|---|
| `Smiley.Toggle` | app/src/main/java/com/ebf/bastiuipopup/Smiley.kt:37-43 | the callback gets null exactly when the clicked emotion is the selection, and otherwise the clicked emotion |
| `Smiley.ToggleTwice` | app/src/main/java/com/ebf/bastiuipopup/Smiley.kt:37-43 | two clicks on one emotion restore the selection iff it was empty or that emotion; from another emotion they end empty |
| `Smiley.SwitchIsDirect` | app/src/main/java/com/ebf/bastiuipopup/Smiley.kt:40-41 | from rating R1, clicking R2 ≠ R1 yields R2 in one step, never null in between |
| `Smiley.Icon` | app/src/main/java/com/ebf/bastiuipopup/Smiley.kt:53-54 | an icon is selected iff its emotion is the selection, disabled iff there is a selection and it is not selected, never both, and with a selection every icon is one of the two |
| `Smiley.RowOrderIsPermutation` | app/src/main/java/com/ebf/bastiuipopup/Smiley.kt:50-78 | the row has five icons, lists every emotion, each exactly once |
| `Smiley.Icons` | app/src/main/java/com/ebf/bastiuipopup/Smiley.kt:50-78 | the icons keep the given order and each carries the flags `Icon` gives its emotion for the one shared selection |
| `Smiley.Row` | app/src/main/java/com/ebf/bastiuipopup/Smiley.kt:45-80 | five icons in the order NOT_HAPPY_MAX, NOT_HAPPY, NEUTRAL, HAPPY, HAPPY_MAX, with the selected/disable flags of lines 53-78 |
| `Smiley.SelectedCount` | app/src/main/java/com/ebf/bastiuipopup/Smiley.kt:54-78 | over distinct emotions, exactly one icon is selected when the selection is among them and none otherwise |
| `Smiley.DisabledCount` | app/src/main/java/com/ebf/bastiuipopup/Smiley.kt:53-77 | over distinct emotions, no icon is disabled without a selection, and all but the selected one are with one |
| `Smiley.RowExclusive` | app/src/main/java/com/ebf/bastiuipopup/Smiley.kt:50-78 | in the row at most one icon is selected, exactly one with a selection; then the other four are disabled, and none is without one |
| `Smiley.Targets` | app/src/main/java/com/ebf/bastiuipopup/Smiley.kt:112-135 | selected: face shift 0 dp, backdrop alpha 1, canvas padding 8 dp; not selected: shift 4 dp, backdrop alpha 0, padding 0 dp; icon alpha 0.5 when disabled and 1 otherwise; outer plus inner padding is always 8 dp |
| `Smiley.RowTargets` | app/src/main/java/com/ebf/bastiuipopup/Smiley.kt:118-135 | in the row the icon with a backdrop is fully opaque, with no selection every icon is opaque and without backdrop, and with one only the selected icon is opaque |
| `MainActivity.Score` | app/src/main/java/com/ebf/bastiuipopup/MainActivity.kt:119-123 | every rating's score lies in 1..5 |
| `MainActivity.RowAscending` | app/src/main/java/com/ebf/bastiuipopup/Smiley.kt:50-78 | for every selection, the i-th icon of the row (from 0) carries the rating whose caption says i+1/5 |
| `MainActivity.ScorePrefix` | app/src/main/java/com/ebf/bastiuipopup/MainActivity.kt:119-123 | the caption opening "k/5 — " is six characters whose first is the digit k |
| `MainActivity.Caption` | app/src/main/java/com/ebf/bastiuipopup/MainActivity.kt:117-126 | the caption is "" exactly for null, and every rating's caption starts with "k/5 — " for its own score k |
| `MainActivity.CaptionsDistinct` | app/src/main/java/com/ebf/bastiuipopup/MainActivity.kt:119-123 | two different ratings have different scores and different captions |
| `MainActivity.CaptionVisible` | app/src/main/java/com/ebf/bastiuipopup/MainActivity.kt:167 | the caption is shown exactly when its text is non-empty, i.e. when there is a selection |
| `MainActivity.ButtonTarget` | app/src/main/java/com/ebf/bastiuipopup/MainActivity.kt:110-115 | the send button opens to 100 dp exactly with a selection and is 0 exactly without |
| `MainActivity.ButtonStaysOpen` | app/src/main/java/com/ebf/bastiuipopup/MainActivity.kt:110-115 | changing from one rating to another keeps the button target at 100 dp |
| `MainActivity.View` | app/src/main/java/com/ebf/bastiuipopup/MainActivity.kt:110-174 | caption shown, button open and some icon selected hold together or not at all, and the caption's score is the selected icon's 1-based position in the row |
| `MainActivity.InitialView` | app/src/main/java/com/ebf/bastiuipopup/MainActivity.kt:108-115 | with the initial null selection the button target is 0, the caption hidden and empty, and no icon selected or disabled |
| `MainActivity.Replay` | app/src/main/java/com/ebf/bastiuipopup/MainActivity.kt:108-165 | a fresh card is empty, and after clicks the selection is either empty or the last clicked rating |
| `MainActivity.ReplayParity` | app/src/main/java/com/ebf/bastiuipopup/MainActivity.kt:108-165 | after any click history the last clicked rating is selected iff the trailing run of clicks on it has odd length, and nothing is selected otherwise |
| `MainActivity.FirstRating` | app/src/main/java/com/ebf/bastiuipopup/MainActivity.kt:110-124 | selecting each rating on a fresh card opens the button and shows its fixed caption: 1/5 Pignolesque, 2/5 Mheeh, 3/5 M'ouais, 4/5 Au top !, 5/5 Géniallll ! |
| `MainActivity.BastiCard.constructor` | app/src/main/java/com/ebf/bastiuipopup/MainActivity.kt:108 | a new card holds no rating and has seen no clicks |
| `MainActivity.BastiCard.Click` | app/src/main/java/com/ebf/bastiuipopup/MainActivity.kt:165 | the cell takes the row's toggle result for the clicked rating, and stays the replay of the whole click history |
| `MainActivity.BastiCard.Render` | app/src/main/java/com/ebf/bastiuipopup/MainActivity.kt:110-174 | the drawn card is `View` of the selection, and the caption shows iff the trailing run of clicks has odd length |

## Left out

- Face drawing (`faceHappyMax` … `faceNotHappyMax`, `eyes`, `eye`): floating-point `DrawScope` geometry and gradients with no behaviour to state.
- The blink animation: an infinite transition driven by the Compose frame clock with a random start delay; nothing in it is a function of the selection.
- Interpolation of every tween (`animateDpAsState`, `animateFloatAsState`, `AnimatedVisibility`): only the target values are modelled, never the values over time.
- Smiley.Targets: the face shift is given in dp; the source converts 0 dp and 4 dp to pixels through the screen density, which is not modelled.
- The rotating decorative `Circle`, the root `Composition` layout, `MainActivity.onCreate`, the theme, fonts, images and previews: layout and platform plumbing.
- The "Passer" and "Envoyer" button handlers: both are empty placeholders in the source, so there is nothing to model.
- The static texts of the card (message and title): fixed strings independent of the selection.
- BastiCard.Click: the model assumes a recomposition between any two clicks. In the source the row's click rule compares against the selection captured at the row's last composition, so two clicks handled within one frame both toggle against that stale value (composed selection HAPPY, clicks NEUTRAL then HAPPY: the source ends on null, the model on HAPPY; composed null, clicks HAPPY, HAPPY: the source ends on HAPPY, `Replay` on null).
- Compose recomposition itself: `BastiCard.Render` stands for one composition pass; the scheduling of recompositions is the runtime's.
