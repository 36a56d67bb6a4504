/** The input tools: `press_key`, `swipe` and `send_text` delegate one call and turn
    any raise into False; `click`, `long_click` and `drag` look an element up, act on
    it only when it passes `el and el.exists`, and turn any raise into False. */
module InputTools {
  import opened Outcomes
  import opened Selectors
  import opened Automation

  /** `press_key`: True exactly when connecting and `d.press(key)` both complete. */
  function PressKey(key: string, session: Call<Device>): (r: bool)
    ensures r <==> session.Returned? && session.value.press(key).Returned?
  {
    match session
    case Raised(_) => false
    case Returned(d) => d.press(key).Returned?
  }

  /** `swipe`: True exactly when connecting and `d.swipe(...)` both complete. The
      coordinates and the duration go to the device only. */
  function Swipe(session: Call<Device>): (r: bool)
    ensures r <==> session.Returned? && session.value.swipe.Returned?
  {
    match session
    case Raised(_) => false
    case Returned(d) => d.swipe.Returned?
  }

  /** `send_text`: True exactly when connecting and `d.send_keys(text, clear=clear)`
      both complete. */
  function SendText(text: string, clear: bool, session: Call<Device>): (r: bool)
    ensures r <==> session.Returned? && session.value.sendKeys(text, clear).Returned?
  {
    match session
    case Raised(_) => false
    case Returned(d) => d.sendKeys(text, clear).Returned?
  }

  /** The gesture an element tool performs on the element it found. */
  datatype Gesture = Tap | LongPress | DragTo(x: int, y: int)

  /** `el.click()`, `el.long_click(duration=...)` or `el.drag_to(x, y)`. */
  function Perform(el: Found, g: Gesture): Call<()>
    requires el.Element?
  {
    match g
    case Tap => el.click
    case LongPress => el.longClick
    case DragTo(_, _) => el.dragTo
  }

  /** What an element tool did: the bool it returned, and whether it issued its
      gesture at all. */
  datatype GestureReply = GestureReply(result: bool, gestured: bool)

  /** The shared tail `if el and el.exists: <gesture>; return True` / `return False`,
      under the handler that turns any raise into False. */
  function ActOn(lookup: Call<Found>, g: Gesture): (r: GestureReply)
    ensures r.gestured <==> Present(lookup)
    ensures r.result <==> Present(lookup) && Perform(lookup.value, g).Returned?
    ensures r.result ==> r.gestured
  {
    if Present(lookup) then GestureReply(Perform(lookup.value, g).Returned?, true)
    else GestureReply(false, false)
  }

  /** `click`: waits for the element, taps it only when it exists, and returns True
      exactly when it tapped and the tap completed. */
  function Click(selector: string, tag: string, session: Call<Device>): (r: GestureReply)
    ensures ParseKind(tag).None? || session.Raised? ==> r == GestureReply(false, false)
    ensures r.gestured <==> Present(Locate(session, tag, selector, Wait))
    ensures r.result <==> r.gestured && Locate(session, tag, selector, Wait).value.click.Returned?
  {
    ActOn(Locate(session, tag, selector, Wait), Tap)
  }

  /** `long_click`: the same rule, on the element as selected (without waiting). */
  function LongClick(selector: string, tag: string, session: Call<Device>): (r: GestureReply)
    ensures ParseKind(tag).None? || session.Raised? ==> r == GestureReply(false, false)
    ensures r.gestured <==> Present(Locate(session, tag, selector, Select))
    ensures r.result <==> r.gestured && Locate(session, tag, selector, Select).value.longClick.Returned?
  {
    ActOn(Locate(session, tag, selector, Select), LongPress)
  }

  /** `drag`: the same rule, dragging the selected element to `(toX, toY)`. */
  function Drag(selector: string, tag: string, toX: int, toY: int, session: Call<Device>): (r: GestureReply)
    ensures ParseKind(tag).None? || session.Raised? ==> r == GestureReply(false, false)
    ensures r.gestured <==> Present(Locate(session, tag, selector, Select))
    ensures r.result <==> r.gestured && Locate(session, tag, selector, Select).value.dragTo.Returned?
  {
    ActOn(Locate(session, tag, selector, Select), DragTo(toX, toY))
  }

  /** `long_click` and `drag` find the same element and decide the same way whether
      to act on it. */
  lemma LongClickAndDragAgree(selector: string, tag: string, toX: int, toY: int, session: Call<Device>)
    ensures LongClick(selector, tag, session).gestured == Drag(selector, tag, toX, toY, session).gestured
  {
  }

  /** A lookup that hands back a plain bool, as `.wait(timeout=...)` may, never leads
      `click` to tap: a true bool fails on `.exists`, a false one fails the test. */
  lemma ClickOnFlagNeverTaps(selector: string, tag: string, session: Call<Device>)
    requires Locate(session, tag, selector, Wait).Returned?
    requires Locate(session, tag, selector, Wait).value.Flag?
    ensures Click(selector, tag, session) == GestureReply(false, false)
  {
  }
}
