/** Block definitions as the block manager receives them: a property bag
    per block id. Object spread (`{...a, ...b}`) over such bags is `Spread`. */
module Blocks {
  import opened Wrappers

  /** An element of a block's markup, with its start-tag attribute text. */
  datatype Node = Element(tag: string, attrs: string, children: seq<Node>)

  /** A block's `content`: literal markup, or a component descriptor the
      host's component types expand (`type`, inner `content`, inline `style`). */
  datatype Content =
    | Markup(root: Node)
    | ComponentDef(ctype: string, inner: Option<string>, style: map<string, string>)

  datatype PropVal =
    | PStr(s: string)
    | PBool(b: bool)
    | PAttrs(attrs: map<string, string>)
    | PContent(content: Content)

  /** The block property names the plugins set; any other name a user
      supplies is `OtherProp`. */
  datatype PropName =
    | LabelProp | CategoryProp | SelectProp | ActivateProp | ContentProp | AttributesProp
    | OtherProp(name: string)

  type Props = map<PropName, PropVal>

  /** `{...base, ...over}`: every key of either, the later source winning. */
  function Spread(base: Props, over: Props): (r: Props)
    ensures r.Keys == base.Keys + over.Keys
    ensures forall k :: k in over ==> r[k] == over[k]
    ensures forall k :: k in base && k !in over ==> r[k] == base[k]
  {
    base + over
  }

  /** One `bm.add(id, props)` call. */
  datatype Block = Block(id: string, props: Props)

  /** What a plugin registers with the editor: component type names, the
      class names its selector listener makes private, and its blocks in
      `bm.add` order. */
  datatype Registration = Registration(
    componentTypes: seq<string>,
    privateClasses: seq<string>,
    blocks: seq<Block>)
}
