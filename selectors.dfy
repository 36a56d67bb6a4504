/** The selector kinds the element tools accept, and the three-way dispatch on the
    `selector_type` argument that every element tool repeats. */
module Selectors {
  import opened Outcomes

  /** `d(text=...)`, `d(resourceId=...)` and `d(description=...)`. */
  datatype SelectorKind = Text | ResourceId | Description

  /** The `selector_type` tag that names a kind. */
  function KindName(k: SelectorKind): string {
    match k
    case Text => "text"
    case ResourceId => "resourceId"
    case Description => "description"
  }

  /** The `if`/`elif` chain on `selector_type`: exactly the three tags name a kind,
      and the kind found is the one the tag names. */
  function ParseKind(tag: string): (k: Option<SelectorKind>)
    ensures k.Some? <==> tag == "text" || tag == "resourceId" || tag == "description"
    ensures k.Some? ==> KindName(k.value) == tag
  {
    if tag == "text" then Some(Text)
    else if tag == "resourceId" then Some(ResourceId)
    else if tag == "description" then Some(Description)
    else None
  }

  /** Parsing the name of a kind gives the kind back. */
  lemma ParseKindName(k: SelectorKind)
    ensures ParseKind(KindName(k)) == Some(k)
  {
  }

  /** Two tags that parse to the same kind are the same tag. */
  lemma ParseKindInjective(a: string, b: string)
    requires ParseKind(a).Some? && ParseKind(a) == ParseKind(b)
    ensures a == b
  {
  }

  /** The text of the ValueError raised for an unknown tag. */
  function InvalidSelectorMessage(tag: string): string {
    "Invalid selector_type: " + tag
  }

  /** The dispatch as the tools run it: an unknown tag raises ValueError. */
  function ResolveKind(tag: string): (r: Call<SelectorKind>)
    ensures r.Raised? <==> ParseKind(tag).None?
    ensures r.Returned? ==> ParseKind(tag) == Some(r.value) && KindName(r.value) == tag
    ensures r.Raised? ==> r.message == InvalidSelectorMessage(tag)
  {
    match ParseKind(tag)
    case Some(k) => Returned(k)
    case None => Raised(InvalidSelectorMessage(tag))
  }
}
