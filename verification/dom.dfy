/** HTML elements as the editor's node serialisers read and write them: a tag and its
    string attributes. */
module Dom {
  import opened Js

  datatype Element = Element(tag: string, attrs: map<string, string>)

  /** `element.getAttribute(name)`; `None` is `null`. */
  function GetAttribute(e: Element, name: string): Option<string> {
    if name in e.attrs then Some(e.attrs[name]) else None
  }

  /** The rendered attribute map with `name` present only when `value` is. */
  function Optional(name: string, value: Option<string>): (m: map<string, string>)
    ensures name in m <==> value.Some?
    ensures m.Keys <= {name}
    ensures value.Some? ==> m[name] == value.value
  {
    if value.Some? then map[name := value.value] else map[]
  }

  /** The element of a block node whose HTML form is `div[data-type="<name>"]`: the rendered
      attributes, merged after the type tag. */
  function TaggedDiv(typeName: string, attrs: map<string, string>): Element {
    Element("div", map["data-type" := typeName] + attrs)
  }

  /** Matches the parse rule `div[data-type="<name>"]`. */
  predicate IsTaggedDiv(e: Element, typeName: string) {
    e.tag == "div" && GetAttribute(e, "data-type") == Some(typeName)
  }

  /** A node rendered as a tagged `div` is recognised by its own parse rule, provided its
      attributes do not themselves carry `data-type`. */
  lemma TaggedDivRecognised(typeName: string, attrs: map<string, string>)
    requires "data-type" !in attrs
    ensures IsTaggedDiv(TaggedDiv(typeName, attrs), typeName)
    ensures forall k :: k in attrs ==> GetAttribute(TaggedDiv(typeName, attrs), k) == Some(attrs[k])
  {
  }
}
