/** The inspection tools: `get_element_info` and its nine-field descriptor,
    `wait_for_element`, `scroll_to`, `screenshot` and `dump_hierarchy`. Each turns any
    raise into its empty result (`{}`, False or ""). */
module InspectionTools {
  import opened Outcomes
  import opened PyValues
  import opened Selectors
  import opened Automation

  /** The `ElementInfo` record: nine fields, named as in the reply. */
  datatype ElementInfo = ElementInfo(
    text: Value,
    resourceId: Value,
    description: Value,
    className: Value,
    enabled: Value,
    clickable: Value,
    bounds: Value,
    selected: Value,
    focused: Value)

  /** The reply keys, and the keys of the library's element info they are read from. */
  const ReplyKeys: set<string> :=
    {"text", "resourceId", "description", "className", "enabled", "clickable", "bounds", "selected", "focused"}
  const SourceKeys: set<string> :=
    {"text", "resourceId", "contentDescription", "className", "enabled", "clickable", "bounds", "selected", "focused"}

  /** The descriptor built from `el.info` with its defaults: each field is the value
      under its source key, or its default when that key is missing (`""` for the
      strings, False for the flags, `{}` for the bounds); `description` is read from
      `contentDescription`. */
  function Describe(info: map<string, Value>): (e: ElementInfo)
    ensures e.text == if "text" in info then info["text"] else Str("")
    ensures e.resourceId == if "resourceId" in info then info["resourceId"] else Str("")
    ensures e.description == if "contentDescription" in info then info["contentDescription"] else Str("")
    ensures e.className == if "className" in info then info["className"] else Str("")
    ensures e.enabled == if "enabled" in info then info["enabled"] else Bool(false)
    ensures e.clickable == if "clickable" in info then info["clickable"] else Bool(false)
    ensures e.bounds == if "bounds" in info then info["bounds"] else Dict(map[])
    ensures e.selected == if "selected" in info then info["selected"] else Bool(false)
    ensures e.focused == if "focused" in info then info["focused"] else Bool(false)
  {
    ElementInfo(
      Get(info, "text", Str("")),
      Get(info, "resourceId", Str("")),
      Get(info, "contentDescription", Str("")),
      Get(info, "className", Str("")),
      Get(info, "enabled", Bool(false)),
      Get(info, "clickable", Bool(false)),
      Get(info, "bounds", Dict(map[])),
      Get(info, "selected", Bool(false)),
      Get(info, "focused", Bool(false)))
  }

  /** The descriptor as the reply dictionary: each reply key holds its field. */
  function ToDict(e: ElementInfo): (d: map<string, Value>)
    ensures d.Keys == ReplyKeys
    ensures d["text"] == e.text && d["resourceId"] == e.resourceId && d["description"] == e.description
    ensures d["className"] == e.className && d["enabled"] == e.enabled && d["clickable"] == e.clickable
    ensures d["bounds"] == e.bounds && d["selected"] == e.selected && d["focused"] == e.focused
  {
    map[
      "text" := e.text, "resourceId" := e.resourceId, "description" := e.description,
      "className" := e.className, "enabled" := e.enabled, "clickable" := e.clickable,
      "bounds" := e.bounds, "selected" := e.selected, "focused" := e.focused]
  }

  /** The library info that carries exactly the descriptor's values. */
  function SourceInfo(e: ElementInfo): (d: map<string, Value>)
    ensures d.Keys == SourceKeys
  {
    map[
      "text" := e.text, "resourceId" := e.resourceId, "contentDescription" := e.description,
      "className" := e.className, "enabled" := e.enabled, "clickable" := e.clickable,
      "bounds" := e.bounds, "selected" := e.selected, "focused" := e.focused]
  }

  /** Nothing known about the element gives the defaults. */
  lemma DescribeDefaults()
    ensures Describe(map[]) ==
      ElementInfo(Str(""), Str(""), Str(""), Str(""), Bool(false), Bool(false), Dict(map[]), Bool(false), Bool(false))
  {
  }

  /** An info dictionary with all nine source keys is described without loss: the
      normalisation is the inverse of `SourceInfo`. */
  lemma DescribeRoundTrip(e: ElementInfo)
    ensures Describe(SourceInfo(e)) == e
  {
  }

  /** `description` comes from `contentDescription`: a `description` key in the info
      is ignored, as is any key outside the nine source keys. */
  lemma DescribeReadsSourceKeysOnly(info: map<string, Value>, k: string, v: Value)
    requires k !in SourceKeys
    ensures Describe(info[k := v]) == Describe(info)
  {
  }

  lemma DescriptionIgnoresDescriptionKey(info: map<string, Value>, v: Value)
    ensures Describe(info["description" := v]) == Describe(info)
    ensures Describe(info["contentDescription" := v]).description == v
  {
    DescribeReadsSourceKeysOnly(info, "description", v);
  }

  /** `get_element_info`: the descriptor of the element when it passes
      `el and el.exists` and its `info` can be read; `None` stands for the empty
      reply `{}`. */
  function GetElementInfo(selector: string, tag: string, session: Call<Device>): (r: Option<ElementInfo>)
    ensures ParseKind(tag).None? || session.Raised? ==> r == None
    ensures r.Some? <==>
      Present(Locate(session, tag, selector, Wait)) && Locate(session, tag, selector, Wait).value.info.Returned?
    ensures r.Some? ==> r.value == Describe(Locate(session, tag, selector, Wait).value.info.value)
  {
    var lookup := Locate(session, tag, selector, Wait);
    if Present(lookup) then
      match lookup.value.info
      case Raised(_) => None
      case Returned(info) => Some(Describe(info))
    else None
  }

  /** The reply of `get_element_info`: `{}`, or all nine keys. */
  function ElementInfoReply(r: Option<ElementInfo>): (d: map<string, Value>)
    ensures d == map[] <==> r.None?
    ensures r.Some? ==> d.Keys == ReplyKeys
  {
    match r
    case None => map[]
    case Some(e) => ToDict(e)
  }

  /** The answer of `wait_for_element` and `scroll_to` once the lookup is made: the
      `description` branch answers `el is not None and el.exists`, the other two
      return what the lookup returned, and any raise gives False. */
  function Answer(lookup: Call<Found>, tag: string): (r: Found)
    ensures lookup.Raised? ==> r == Flag(false)
    ensures ParseKind(tag) == Some(Description) ==> r.Flag? && (r.b <==> FoundAndExists(lookup))
    ensures lookup.Returned? && ParseKind(tag) != Some(Description) ==> r == lookup.value
  {
    match lookup
    case Raised(_) => Flag(false)
    case Returned(el) =>
      if ParseKind(tag) == Some(Description) then
        match NotNoneAndExists(el)
        case Raised(_) => Flag(false)
        case Returned(b) => Flag(b)
      else el
  }

  /** The element after a completed lookup is an element object that exists. */
  predicate FoundAndExists(lookup: Call<Found>) {
    lookup.Returned? && lookup.value.Element? && lookup.value.existsAttr == Returned(true)
  }

  /** `wait_for_element`. */
  function WaitForElement(selector: string, tag: string, session: Call<Device>): (r: Found)
    ensures ParseKind(tag).None? || session.Raised? ==> r == Flag(false)
    ensures ParseKind(tag) == Some(Description) ==>
      r.Flag? && (r.b <==> FoundAndExists(Locate(session, tag, selector, Wait)))
    ensures ParseKind(tag).Some? && ParseKind(tag) != Some(Description) ==>
      r == (match Locate(session, tag, selector, Wait) case Returned(el) => el case Raised(_) => Flag(false))
  {
    Answer(Locate(session, tag, selector, Wait), tag)
  }

  /** `scroll_to`. */
  function ScrollTo(selector: string, tag: string, session: Call<Device>): (r: Found)
    ensures ParseKind(tag).None? || session.Raised? ==> r == Flag(false)
    ensures ParseKind(tag) == Some(Description) ==>
      r.Flag? && (r.b <==> FoundAndExists(Locate(session, tag, selector, Scroll)))
    ensures ParseKind(tag).Some? && ParseKind(tag) != Some(Description) ==>
      r == (match Locate(session, tag, selector, Scroll) case Returned(el) => el case Raised(_) => Flag(false))
  {
    Answer(Locate(session, tag, selector, Scroll), tag)
  }

  /** `screenshot`: True exactly when connecting and `d.screenshot(filename)` both
      complete. */
  function Screenshot(filename: string, session: Call<Device>): (r: bool)
    ensures r <==> session.Returned? && session.value.screenshot(filename).Returned?
  {
    match session
    case Raised(_) => false
    case Returned(d) => d.screenshot(filename).Returned?
  }

  /** `dump_hierarchy`: the XML text, or "" when anything raised. */
  function DumpHierarchy(compressed: bool, pretty: bool, maxDepth: int, session: Call<Device>): (r: string)
    ensures session.Raised? ==> r == ""
    ensures session.Returned? ==>
      r == (match session.value.dumpHierarchy(compressed, pretty, maxDepth) case Returned(xml) => xml case Raised(_) => "")
  {
    match session
    case Raised(_) => ""
    case Returned(d) =>
      match d.dumpHierarchy(compressed, pretty, maxDepth)
      case Raised(_) => ""
      case Returned(xml) => xml
  }
}
