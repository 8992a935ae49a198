/** `loadBlocks` of the basic-blocks plugin: it installs the `input`
    component type and the private row/cell rule, and adds four blocks that
    share the configured category and `select: true`. */
module InputBlocks {
  import opened Wrappers
  import opened Blocks
  import Selectors

  /** The fully populated plugin configuration. */
  datatype Config = Config(
    stylePrefix: string,
    category: string,
    labelText: string,
    labelLink: string,
    labelImage: string)

  /** `commonBlockProps`. */
  function CommonProps(c: Config): Props {
    map[CategoryProp := PStr(c.category), SelectProp := PBool(true)]
  }

  /** The `input` block's inner markup: a label and a text input. */
  const InputMarkup: string := "<label>My label</label>\n        <input type=\"text\"></input>"

  /** What every block of this plugin carries; `activates` says whether it
      has `activate: true` (an absent key otherwise). */
  predicate Placed(b: Block, c: Config, activates: bool) {
    && CategoryProp in b.props && SelectProp in b.props && LabelProp in b.props && ContentProp in b.props
    && b.props[CategoryProp] == PStr(c.category)
    && b.props[SelectProp] == PBool(true)
    && (ActivateProp in b.props <==> activates)
    && (ActivateProp in b.props ==> b.props[ActivateProp] == PBool(true))
  }

  function InputBlock(c: Config): (b: Block)
    ensures Placed(b, c, true) && b.id == "input" && b.props[LabelProp] == PStr("Input")
    ensures b.props[ContentProp] == PContent(ComponentDef("input", Some(InputMarkup), map[]))
  {
    Block("input", Spread(CommonProps(c), map[
      ActivateProp := PBool(true),
      LabelProp := PStr("Input"),
      ContentProp := PContent(ComponentDef("input", Some(InputMarkup), map[]))]))
  }

  function TextBlock(c: Config): (b: Block)
    ensures Placed(b, c, true) && b.id == "text" && b.props[LabelProp] == PStr(c.labelText)
  {
    Block("text", Spread(CommonProps(c), map[
      ActivateProp := PBool(true),
      LabelProp := PStr(c.labelText),
      ContentProp := PContent(ComponentDef("text", Some("Insert your text here"), map["padding" := "10px"]))]))
  }

  function LinkBlock(c: Config): (b: Block)
    ensures Placed(b, c, false) && b.id == "link" && b.props[LabelProp] == PStr(c.labelLink)
  {
    Block("link", Spread(CommonProps(c), map[
      LabelProp := PStr(c.labelLink),
      ContentProp := PContent(ComponentDef("link", Some("Link"), map["color" := "#d983a6"]))]))
  }

  function ImageBlock(c: Config): (b: Block)
    ensures Placed(b, c, true) && b.id == "image" && b.props[LabelProp] == PStr(c.labelImage)
  {
    Block("image", Spread(CommonProps(c), map[
      ActivateProp := PBool(true),
      LabelProp := PStr(c.labelImage),
      ContentProp := PContent(ComponentDef("image", None, map["color" := "black"]))]))
  }

  /** The registration: the `input` component type, the private row/cell
      classes, and four blocks that all carry the configured category and
      `select: true`, `link` alone without `activate: true`, labelled from
      the configuration except the fixed `Input`. */
  function LoadBlocks(c: Config): (r: Registration)
    ensures r.componentTypes == ["input"]
    ensures r.privateClasses == Selectors.PrivateClasses(c.stylePrefix)
    ensures |r.blocks| == 4
    ensures r.blocks[0].id == "input" && Placed(r.blocks[0], c, true) && r.blocks[0].props[LabelProp] == PStr("Input")
    ensures r.blocks[1].id == "text" && Placed(r.blocks[1], c, true) && r.blocks[1].props[LabelProp] == PStr(c.labelText)
    ensures r.blocks[2].id == "link" && Placed(r.blocks[2], c, false) && r.blocks[2].props[LabelProp] == PStr(c.labelLink)
    ensures r.blocks[3].id == "image" && Placed(r.blocks[3], c, true) && r.blocks[3].props[LabelProp] == PStr(c.labelImage)
  {
    Registration(["input"], Selectors.PrivateClasses(c.stylePrefix),
      [InputBlock(c), TextBlock(c), LinkBlock(c), ImageBlock(c)])
  }

  /** No block overrides the shared properties: every registered block
      carries each of `commonBlockProps` with its common value. */
  lemma CommonPropsInEveryBlock(c: Config)
    ensures forall i, k :: 0 <= i < |LoadBlocks(c).blocks| && k in CommonProps(c) ==>
      k in LoadBlocks(c).blocks[i].props && LoadBlocks(c).blocks[i].props[k] == CommonProps(c)[k]
  {
    var r := LoadBlocks(c);
    assert CommonProps(c).Keys == {CategoryProp, SelectProp};
    forall i, k | 0 <= i < |r.blocks| && k in CommonProps(c)
      ensures k in r.blocks[i].props && r.blocks[i].props[k] == CommonProps(c)[k]
    {
      assert Placed(r.blocks[i], c, i != 2);
    }
  }
}
