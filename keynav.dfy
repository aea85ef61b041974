/**
 * Keyboard navigation between the result items (`handleKeyNav` and the focus
 * handler of the input field). `selIndex` is the index of the focused result
 * item, -1 when the input field has the focus.
 */
module KeyNav {

  const ESCAPE: int := 27
  const UP: int := 38
  const DOWN: int := 40

  /** The `focus()` call a key press ends with, if one succeeds. */
  datatype Focus = NoFocus | InputField | ResultItem(index: int)

  /**
   * The outcome of one key press: the new `selIndex`, the element focused, and
   * whether the browser's default action was prevented.
   */
  datatype NavStep = NavStep(selIndex: int, focus: Focus, prevented: bool)

  /**
   * Focusing result item `target`. `childNodes[target]` does not exist outside
   * `[0, childCount)`, and then the `focus()` chain throws; otherwise `focusOk`
   * says whether the focus call succeeded. A throw is caught and puts
   * `selIndex` back to `previous`.
   */
  function TryFocus(target: int, previous: int, childCount: nat, focusOk: bool): NavStep
  {
    if 0 <= target < childCount && focusOk then NavStep(target, ResultItem(target), true)
    else NavStep(previous, NoFocus, true)
  }

  /**
   * `handleKeyNav` on a key press with key code `keyCode`, given the number of
   * child nodes of the result list. Escape is handled only when
   * `handlesEscape` (the trogdor variant).
   */
  function Navigate(handlesEscape: bool, keyCode: int, selIndex: int, childCount: nat, focusOk: bool): NavStep
  {
    if handlesEscape && keyCode == ESCAPE then NavStep(-1, InputField, true)
    else if keyCode == UP then
      if selIndex - 1 <= -1 then NavStep(-1, InputField, true)
      else TryFocus(selIndex - 1, selIndex, childCount, focusOk)
    else if keyCode == DOWN then
      if selIndex + 1 < childCount then TryFocus(selIndex + 1, selIndex, childCount, focusOk)
      else NavStep(selIndex, NoFocus, true)
    else NavStep(selIndex, NoFocus, false)
  }

  /** An index that is -1 (the input field) or names an existing result item. */
  predicate InRange(selIndex: int, childCount: nat)
  {
    -1 <= selIndex < childCount
  }

  /** Up from the first item, or from the input field, goes back to the input field. */
  lemma UpToInput(handlesEscape: bool, selIndex: int, childCount: nat, focusOk: bool)
    requires selIndex <= 0
    ensures Navigate(handlesEscape, UP, selIndex, childCount, focusOk) == NavStep(-1, InputField, true)
  {
  }

  /** Down moves one item on exactly when there is a next item and focusing it works. */
  lemma DownMovesIff(handlesEscape: bool, selIndex: int, childCount: nat, focusOk: bool)
    requires selIndex >= -1
    ensures var r := Navigate(handlesEscape, DOWN, selIndex, childCount, focusOk);
      (r.selIndex == selIndex + 1 <==> selIndex + 1 < childCount && focusOk) &&
      (r.selIndex != selIndex + 1 ==> r.selIndex == selIndex && r.focus == NoFocus)
  {
  }

  /** A failed focus leaves the index where it was. */
  lemma FailedFocusRollsBack(handlesEscape: bool, keyCode: int, selIndex: int, childCount: nat)
    requires keyCode == UP ==> selIndex > 0
    requires !(handlesEscape && keyCode == ESCAPE)
    ensures Navigate(handlesEscape, keyCode, selIndex, childCount, false).selIndex == selIndex
  {
  }

  /** Escape returns to the input field in the variant that handles it and is ignored in the other. */
  lemma EscapeHandling(selIndex: int, childCount: nat, focusOk: bool)
    ensures Navigate(true, ESCAPE, selIndex, childCount, focusOk) == NavStep(-1, InputField, true)
    ensures Navigate(false, ESCAPE, selIndex, childCount, focusOk) == NavStep(selIndex, NoFocus, false)
  {
  }

  /**
   * A key press keeps the index in range, and the element it focuses agrees
   * with the new index.
   */
  lemma NavigateInRange(handlesEscape: bool, keyCode: int, selIndex: int, childCount: nat, focusOk: bool)
    requires InRange(selIndex, childCount)
    ensures var r := Navigate(handlesEscape, keyCode, selIndex, childCount, focusOk);
      InRange(r.selIndex, childCount) &&
      (r.focus == InputField ==> r.selIndex == -1) &&
      (r.focus.ResultItem? ==> r.focus.index == r.selIndex && 0 <= r.selIndex)
  {
  }

  /** The index never moves to an item that does not exist, and never below -1. */
  lemma NavigateNeverInventsItems(handlesEscape: bool, keyCode: int, selIndex: int, childCount: nat, focusOk: bool)
    requires selIndex >= -1
    ensures var r := Navigate(handlesEscape, keyCode, selIndex, childCount, focusOk);
      r.selIndex >= -1 && (r.selIndex != selIndex && r.selIndex != -1 ==> 0 <= r.selIndex < childCount)
  {
  }

  /** An event the navigation state sees: a key press, or the input field receiving the focus. */
  datatype NavEvent = KeyPress(keyCode: int, focusOk: bool) | InputFocused

  /**
   * The index after each of `events` in turn, with a result list of
   * `childCount` nodes; the focus handler of the input field sets it to -1.
   */
  function Run(handlesEscape: bool, events: seq<NavEvent>, selIndex: int, childCount: nat): int
    decreases |events|
  {
    if events == [] then selIndex
    else
      var next := match events[0]
        case KeyPress(k, ok) => Navigate(handlesEscape, k, selIndex, childCount, ok).selIndex
        case InputFocused => -1;
      Run(handlesEscape, events[1..], next, childCount)
  }

  /**
   * Together the key handler and the focus handler keep the index within
   * [-1, childCount - 1], for any sequence of events over one result list.
   */
  lemma {:induction false} RunInRange(handlesEscape: bool, events: seq<NavEvent>, selIndex: int, childCount: nat)
    requires InRange(selIndex, childCount)
    ensures InRange(Run(handlesEscape, events, selIndex, childCount), childCount)
    decreases |events|
  {
    if events != [] {
      var next := match events[0]
        case KeyPress(k, ok) => Navigate(handlesEscape, k, selIndex, childCount, ok).selIndex
        case InputFocused => -1;
      if events[0].KeyPress? {
        NavigateInRange(handlesEscape, events[0].keyCode, selIndex, childCount, events[0].focusOk);
      }
      RunInRange(handlesEscape, events[1..], next, childCount);
    }
  }

  /**
   * The range holds only while the list keeps its length. A response or a cache
   * hit re-renders the list without touching the index; with the index now more
   * than one past the last item, Up tries an item that does not exist and rolls
   * back, and Down is refused: the index stays out of range until the input
   * field receives the focus (or, in trogdor, Escape is pressed). At exactly one
   * past the last item, see OnePastEndRecovers.
   */
  lemma IndexStrandedByRerender(handlesEscape: bool, selIndex: int, childCount: nat, focusOk: bool)
    requires childCount < selIndex
    ensures !InRange(selIndex, childCount)
    ensures Navigate(handlesEscape, UP, selIndex, childCount, focusOk).selIndex == selIndex
    ensures Navigate(handlesEscape, DOWN, selIndex, childCount, focusOk).selIndex == selIndex
  {
  }

  /**
   * The common re-render: the list lost its last item while that item had the
   * focus, leaving the index exactly one past the end. Down is refused, but Up
   * targets the new last item, and a successful focus brings the index back
   * into range.
   */
  lemma OnePastEndRecovers(handlesEscape: bool, childCount: nat, focusOk: bool)
    requires childCount >= 1
    ensures !InRange(childCount, childCount)
    ensures Navigate(handlesEscape, DOWN, childCount, childCount, focusOk).selIndex == childCount
    ensures Navigate(handlesEscape, UP, childCount, childCount, focusOk).selIndex
              == if focusOk then childCount - 1 else childCount
    ensures focusOk ==> InRange(Navigate(handlesEscape, UP, childCount, childCount, focusOk).selIndex, childCount)
  {
  }
}
