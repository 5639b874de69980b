/** The parsed wikitext tree the renderer walks: the node kinds of the
    parser library, each keeping the source text that `str(node)` gives. */
module Nodes {
  import opened Outcomes

  /** A template parameter: its name and value, and whether the name was
      written out (`name=value`) rather than implied by position. */
  datatype Param = Param(name: Node, value: Node, showkey: bool)

  datatype Node =
    | Wikicode(nodes: seq<Node>)
      /** An HTML or wiki-markup tag; `markup` is the wiki markup it was
          written with (`*`, `#`, `;`, `''`, ...), if any. */
    | Tag(markup: Option<string>, tag: Node, attrs: seq<Node>, contents: Option<Node>,
          selfClosing: bool, src: string)
    | Heading(title: Node, level: nat, src: string)
    | Wikilink(title: Node, text: Option<Node>, src: string)
    | ExternalLink(url: Node, caption: Option<Node>, src: string)
    | Comment(comment: string, src: string)
    | Text(value: string)
    | HTMLEntity(src: string)
    | Attribute(src: string)
    | Template(name: Node, params: seq<Param>, src: string)
    | Argument(name: Node, default: Option<Node>, src: string)

  function Concat(parts: seq<string>): string {
    if parts == [] then [] else parts[0] + Concat(parts[1..])
  }

  /** `str(node)`: the source text; a node list is the text of its nodes, a
      text node its value. */
  function Str(n: Node): string {
    match n
    case Wikicode(ns) => Concat(seq(|ns|, i requires 0 <= i < |ns| => Str(ns[i])))
    case Tag(_, _, _, _, _, src) => src
    case Heading(_, _, src) => src
    case Wikilink(_, _, src) => src
    case ExternalLink(_, _, src) => src
    case Comment(_, src) => src
    case Text(value) => value
    case HTMLEntity(src) => src
    case Attribute(src) => src
    case Template(_, _, src) => src
    case Argument(_, _, src) => src
  }

  /** Python truthiness of an optional node: present and with non-empty
      text. */
  predicate Truthy(n: Option<Node>) {
    n.Some? && Str(n.value) != ""
  }
}
