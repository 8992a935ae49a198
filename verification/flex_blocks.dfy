/** The flexbox block plugin: a row element holding two cells, each carrying
    serialised placement attributes, plus the private row/cell classes. */
module FlexBlocks {
  import opened Wrappers
  import opened Attributes
  import opened Blocks
  import Selectors

  /** The plugin options the block code reads; `flexboxBlock` is empty when
      the option is not given (spreading `undefined` adds nothing). */
  datatype FlexOptions = FlexOptions(
    stylePrefix: string,
    labelRow: string,
    labelColumn: string,
    flexboxBlock: Props)

  function RowClass(opt: FlexOptions): string { opt.stylePrefix + "row" }
  function CellClass(opt: FlexOptions): string { opt.stylePrefix + "cell" }

  /** `rowAttr`: the row accepts only cells as children. */
  function RowAttrs(opt: FlexOptions): (r: AttrMap)
    ensures QuoteFree(opt) ==> Readable(r)
  {
    assert '"' !in "." + CellClass(opt) <== QuoteFree(opt);
    [ ("class", Prim(RowClass(opt))),
      ("data-gjs-droppable", Prim("." + CellClass(opt))),
      ("data-gjs-custom-name", Prim(opt.labelRow)) ]
  }

  /** `colAttr`: a cell may only be dragged into a row, and its width is not
      user-stylable while `flex-basis` is. */
  function ColAttrs(opt: FlexOptions): (r: AttrMap)
    ensures QuoteFree(opt) ==> Readable(r)
  {
    assert '"' !in "." + RowClass(opt) <== QuoteFree(opt);
    [ ("class", Prim(CellClass(opt))),
      ("data-gjs-draggable", Prim("." + RowClass(opt))),
      ("data-gjs-custom-name", Prim(opt.labelColumn)),
      ("data-gjs-unstylable", Struct(["width"])),
      ("data-gjs-stylable-require", Struct(["flex-basis"])),
      ("data-gjs-type", Prim("gridColumn")) ]
  }

  /** The markup of the block's `content` (its `<style>` part is not modelled). */
  function FlexboxRow(opt: FlexOptions): Node {
    var cell := Element("div", AttrsToString(ColAttrs(opt)), []);
    Element("div", AttrsToString(RowAttrs(opt)), [cell, cell])
  }

  function DefaultFlexboxProps(opt: FlexOptions): Props {
    map[
      LabelProp := PStr("Flexbox"),
      CategoryProp := PStr("Layout"),
      AttributesProp := PAttrs(map["class" := "gjs-fonts gjs-f-b2"]),
      ContentProp := PContent(Markup(FlexboxRow(opt)))
    ]
  }

  /** The `flexbox` block: the defaults, with any field of `opt.flexboxBlock`
      taking precedence. */
  function FlexboxBlock(opt: FlexOptions): (b: Block)
    ensures b.id == "flexbox"
    ensures b.props.Keys == {LabelProp, CategoryProp, AttributesProp, ContentProp} + opt.flexboxBlock.Keys
    ensures forall k :: k in opt.flexboxBlock ==> b.props[k] == opt.flexboxBlock[k]
    ensures LabelProp !in opt.flexboxBlock ==> b.props[LabelProp] == PStr("Flexbox")
    ensures CategoryProp !in opt.flexboxBlock ==> b.props[CategoryProp] == PStr("Layout")
    ensures ContentProp !in opt.flexboxBlock ==> b.props[ContentProp] == PContent(Markup(FlexboxRow(opt)))
  {
    Block("flexbox", Spread(DefaultFlexboxProps(opt), opt.flexboxBlock))
  }

  /** The plugin registers its private classes and the one block. */
  function FlexPlugin(opt: FlexOptions): (r: Registration)
    ensures r.privateClasses == Selectors.PrivateClasses(opt.stylePrefix)
    ensures r.blocks == [FlexboxBlock(opt)] && r.componentTypes == []
  {
    Registration([], Selectors.PrivateClasses(opt.stylePrefix), [FlexboxBlock(opt)])
  }

  /** Option text free of double quotes reads back unambiguously. */
  predicate QuoteFree(opt: FlexOptions) {
    '"' !in opt.stylePrefix && '"' !in opt.labelRow && '"' !in opt.labelColumn
  }

  /** Whatever the options, the row is a `div` holding exactly two identical,
      empty `div` cells. */
  lemma FlexboxShape(opt: FlexOptions)
    ensures
      var row := FlexboxRow(opt);
      && row.tag == "div" && |row.children| == 2
      && row.children[0] == row.children[1]
      && row.children[0].tag == "div" && row.children[0].children == []
  {
  }

  /** The row element carries the row attributes and exactly two cells, which
      carry identical cell attributes, and both read back entry for entry. */
  lemma FlexboxStructure(opt: FlexOptions)
    requires QuoteFree(opt)
    ensures
      var row := FlexboxRow(opt);
      && row.tag == "div" && |row.children| == 2
      && row.children[0] == row.children[1]
      && row.children[0].tag == "div" && row.children[0].children == []
      && ParseAttrs(row.attrs) == Some(RowAttrs(opt))
      && ParseAttrs(row.children[0].attrs) == Some(ColAttrs(opt))
  {
    AttrsRoundTrip(RowAttrs(opt));
    AttrsRoundTrip(ColAttrs(opt));
  }

  /** The classes the block generates are the plugin's private classes; the
      row admits exactly the cell class, and a cell may only go into the row
      class. */
  lemma FlexboxWiring(opt: FlexOptions)
    ensures
      var priv := Selectors.PrivateClasses(opt.stylePrefix);
      && Lookup(RowAttrs(opt), "class") == Some(Prim(priv[0][1..]))
      && Lookup(ColAttrs(opt), "class") == Some(Prim(priv[1][1..]))
      && Lookup(RowAttrs(opt), "data-gjs-droppable") == Some(Prim(priv[1]))
      && Lookup(ColAttrs(opt), "data-gjs-draggable") == Some(Prim(priv[0]))
  {
    var priv := Selectors.PrivateClasses(opt.stylePrefix);
    assert priv[0][1..] == RowClass(opt);
    assert priv[1][1..] == CellClass(opt);
    assert priv[0] == "." + RowClass(opt);
    assert priv[1] == "." + CellClass(opt);
  }

  /** Installed alone, the flex plugin's listener makes a newly added selector
      private exactly when it is the row or the cell class of the prefix (or
      was private already); `FlexboxWiring` shows these are the classes its
      markup uses. */
  lemma FlexPluginPrivatizesItsClasses(opt: FlexOptions, reg: Selectors.Registry, name: string)
    ensures Selectors.SelectorAdded([FlexPlugin(opt).privateClasses], reg, name)[name]
        <==> name == "." + opt.stylePrefix + "row" || name == "." + opt.stylePrefix + "cell"
             || (name in reg && reg[name])
  {
    var priv := FlexPlugin(opt).privateClasses;
    Selectors.SelectorAddedFlag([priv], reg, name);
    assert Selectors.InAny([priv], name) <==> name in priv;
  }
}
