/** The automation library as the tools see it. Every library call is an oracle: the
    outcome of `u2.connect(...)` is a `Device` whose fields are the outcomes of the
    calls made on it, and an element lookup hands back a `Found`. Nothing about the
    device itself is modelled; the tools' logic is what happens to these outcomes. */
module Automation {
  import opened Outcomes
  import opened PyValues
  import opened Selectors

  /** What an element lookup returns: Python `None`, a plain bool, or an element
      object. A lookup through `.wait(timeout=...)` may hand back a bool, and a bool
      has no `.exists` attribute. */
  datatype Found =
    | NoneFound
    | Flag(b: bool)
    | Element(
        truthy: Call<bool>,                  // bool(el)
        existsAttr: Call<bool>,              // el.exists
        info: Call<map<string, Value>>,      // el.info
        click: Call<()>,                     // el.click()
        longClick: Call<()>,                 // el.long_click(duration=...)
        dragTo: Call<()>)                    // el.drag_to(x, y)

  /** A connected device: the outcome of each call a tool makes on it. Arguments that
      only travel to the device (durations, coordinates, file names) select nothing
      in the model but are kept where the source passes them on. */
  datatype Device = Device(
    info: Call<map<string, Value>>,                    // d.info
    serial: Call<string>,                              // d.serial
    screenOn: Call<bool>,                              // d.screen_on()
    windowSize: Call<(int, int)>,                      // d.window_size()
    batteryInfo: Call<Value>,                          // d.battery_info
    wlanIp: Call<Value>,                               // d.wlan_ip
    press: string -> Call<()>,                         // d.press(key)
    swipe: Call<()>,                                   // d.swipe(x1, y1, x2, y2, duration=...)
    sendKeys: (string, bool) -> Call<()>,              // d.send_keys(text, clear=clear)
    select: (SelectorKind, string) -> Call<Found>,     // d(kind=selector)
    waitFor: (SelectorKind, string) -> Call<Found>,    // d(kind=selector).wait(timeout=...)
    scrollTo: (SelectorKind, string) -> Call<Found>,   // d(scrollable=True).scroll.to(kind=selector)
    screenshot: string -> Call<()>,                    // d.screenshot(filename)
    dumpHierarchy: (bool, bool, int) -> Call<string>)  // d.dump_hierarchy(compressed, pretty, max_depth)

  /** `bool(el)`: None is falsy, a bool is itself, and an element object answers
      with its own `__bool__`. */
  function Truth(el: Found): (r: Call<bool>)
    ensures el.NoneFound? ==> r == Returned(false)
    ensures el.Flag? ==> r == Returned(el.b)
    ensures el.Element? ==> r == el.truthy
  {
    match el
    case NoneFound => Returned(false)
    case Flag(b) => Returned(b)
    case Element(t, _, _, _, _, _) => t
  }

  /** `el.exists`: only an element object has the attribute. */
  function ExistsAttr(el: Found): (r: Call<bool>)
    ensures el.Element? ==> r == el.existsAttr
    ensures !el.Element? ==> r.Raised?
  {
    match el
    case NoneFound => Raised(NoAttribute("NoneType", "exists"))
    case Flag(_) => Raised(NoAttribute("bool", "exists"))
    case Element(_, e, _, _, _, _) => e
  }

  /** The condition `if el and el.exists:`; `and` does not evaluate `el.exists` when
      `el` is falsy. It holds only of an element object that is truthy and exists. */
  function PresentAndExists(el: Found): (r: Call<bool>)
    ensures r == Returned(true) <==> el.Element? && el.truthy == Returned(true) && el.existsAttr == Returned(true)
    ensures Truth(el) == Returned(false) ==> r == Returned(false)
  {
    var t :- Truth(el);
    if !t then Returned(false) else ExistsAttr(el)
  }

  /** The expression `el is not None and el.exists`. */
  function NotNoneAndExists(el: Found): (r: Call<bool>)
    ensures el.NoneFound? ==> r == Returned(false)
    ensures r == Returned(true) <==> el.Element? && el.existsAttr == Returned(true)
    ensures el.Flag? ==> r.Raised?
  {
    if el.NoneFound? then Returned(false) else ExistsAttr(el)
  }

  /** A plain bool found by a lookup never passes `el and el.exists`: when it is
      truthy, reading `.exists` raises. */
  lemma FlagNeverPresent(b: bool)
    ensures PresentAndExists(Flag(b)) == (if b then Raised(NoAttribute("bool", "exists")) else Returned(false))
  {
  }

  /** How a tool looks an element up: `d(kind=selector)` (`long_click`, `drag`),
      `d(kind=selector).wait(timeout=...)` (`click`, `get_element_info`,
      `wait_for_element`) or `d(scrollable=True).scroll.to(kind=selector)`
      (`scroll_to`). */
  datatype LookupMode = Select | Wait | Scroll

  function LookupIn(d: Device, k: SelectorKind, selector: string, mode: LookupMode): Call<Found> {
    match mode
    case Select => d.select(k, selector)
    case Wait => d.waitFor(k, selector)
    case Scroll => d.scrollTo(k, selector)
  }

  /** The opening every element tool shares: `d = u2.connect(device_id)`, the
      dispatch on `selector_type`, and the lookup of the chosen kind. */
  function Locate(session: Call<Device>, tag: string, selector: string, mode: LookupMode): (r: Call<Found>)
    ensures session.Raised? ==> r == Raised(session.message)
    ensures session.Returned? && ParseKind(tag).None? ==> r == Raised(InvalidSelectorMessage(tag))
    ensures session.Returned? && ParseKind(tag).Some? ==>
      r == LookupIn(session.value, ParseKind(tag).value, selector, mode)
    ensures r.Returned? ==> session.Returned? && ParseKind(tag).Some?
  {
    var d :- session;
    var k :- ResolveKind(tag);
    LookupIn(d, k, selector, mode)
  }

  /** The lookup completed and its result passes `el and el.exists`. */
  predicate Present(lookup: Call<Found>) {
    lookup.Returned? && PresentAndExists(lookup.value) == Returned(true)
  }

  /** Whatever is present is an element object. */
  lemma PresentIsElement(lookup: Call<Found>)
    requires Present(lookup)
    ensures lookup.value.Element?
  {
  }
}
