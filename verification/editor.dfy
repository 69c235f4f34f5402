/** ProseMirror documents as the editor extensions see them: node type names, table roles,
    node sizes with the position arithmetic they induce, and resolved positions as the chain
    of ancestors from the document root down to the position's parent. */
module Editor {
  import opened Js

  datatype Node =
    | Text(text: string)
    | Leaf(typeName: string)
    | Branch(typeName: string, tableRole: string, children: seq<Node>)

  function TypeName(n: Node): string {
    match n
    case Text(_) => "text"
    case Leaf(t) => t
    case Branch(t, _, _) => t
  }

  /** `node.type.spec.tableRole`, the empty string when the type has none. */
  function TableRole(n: Node): string {
    if n.Branch? then n.tableRole else ""
  }

  /** `node.childCount` */
  function ChildCount(n: Node): nat {
    if n.Branch? then |n.children| else 0
  }

  /** `node.nodeSize`: the length of a text node, 1 for a leaf, and for any other node its
      content plus one position each for the opening and the closing token. */
  function Size(n: Node): nat
    decreases n, 1
  {
    match n
    case Text(t) => |t|
    case Leaf(_) => 1
    case Branch(_, _, cs) => 2 + ContentSize(cs)
  }

  /** The summed sizes of a run of sibling nodes. */
  function ContentSize(cs: seq<Node>): nat
    decreases cs, 0
  {
    if |cs| == 0 then 0 else ContentSize(cs[..|cs| - 1]) + Size(cs[|cs| - 1])
  }

  /** Where child `i` starts, counted from the start of its parent's content. */
  function Offset(cs: seq<Node>, i: nat): nat
    requires i <= |cs|
  {
    ContentSize(cs[..i])
  }

  /** Each child begins where its predecessor ends. */
  lemma OffsetStep(cs: seq<Node>, i: nat)
    requires i < |cs|
    ensures Offset(cs, i + 1) == Offset(cs, i) + Size(cs[i])
  {
    assert cs[..i + 1][..i] == cs[..i];
  }

  /** Inserting a node at index `i` leaves the start of index `i` where it was. */
  lemma OffsetAfterInsert(cs: seq<Node>, i: nat, x: Node)
    requires i <= |cs|
    ensures Offset(cs[..i] + [x] + cs[i..], i) == Offset(cs, i)
  {
    assert (cs[..i] + [x] + cs[i..])[..i] == cs[..i];
  }

  /** One level of a resolved position: the ancestor node and where its content starts. */
  datatype Level = Level(node: Node, start: int)

  /** A resolved position: its ancestors at depths 0 (the document) to `depth` (the parent). */
  type Path = levels: seq<Level> | |levels| > 0 witness [Level(Text(""), 0)]

  function Depth(p: Path): nat {
    |p| - 1
  }

  /** `$pos.parent` */
  function Parent(p: Path): Node {
    p[|p| - 1].node
  }

  /** `$pos.before(d)`: the position just in front of the ancestor at depth `d`. */
  function Before(p: Path, d: nat): int
    requires 1 <= d < |p|
  {
    p[d].start - 1
  }

  /** The deepest ancestor at depth 1 or more that satisfies `pred`, found by scanning from the
      parent's depth down to 1; the document node itself is never a candidate. */
  function Innermost(p: seq<Level>, pred: Node -> bool): (r: Option<nat>)
    ensures r.Some? ==> 1 <= r.value < |p| && pred(p[r.value].node)
    ensures r.Some? ==> forall d :: r.value < d < |p| ==> !pred(p[d].node)
    ensures r.None? <==> forall d :: 1 <= d < |p| ==> !pred(p[d].node)
    decreases |p|
  {
    if |p| <= 1 then None
    else if pred(p[|p| - 1].node) then Some(|p| - 1)
    else Innermost(p[..|p| - 1], pred)
  }
}
