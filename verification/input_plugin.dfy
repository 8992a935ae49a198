/** The basic-blocks plugin entry: user options are spread over the
    defaults and the result is handed to `loadBlocks`. */
module InputPlugin {
  import opened Wrappers
  import opened Blocks
  import opened InputBlocks
  import Selectors

  /** The user's options; `None` is a key not supplied. */
  datatype PluginOptions = PluginOptions(
    stylePrefix: Option<string>,
    category: Option<string>,
    labelText: Option<string>,
    labelLink: Option<string>,
    labelImage: Option<string>)

  const NoOptions: PluginOptions := PluginOptions(None, None, None, None, None)

  const Defaults: Config := Config("gjs-", "Basic", "Text", "Link", "Image")

  /** `{ ...defaults, ...opts }`. */
  function MergeConfig(opts: PluginOptions): (c: Config)
    ensures opts.stylePrefix.Some? ==> c.stylePrefix == opts.stylePrefix.value
    ensures opts.stylePrefix.None? ==> c.stylePrefix == Defaults.stylePrefix
    ensures opts.category.Some? ==> c.category == opts.category.value
    ensures opts.category.None? ==> c.category == Defaults.category
    ensures opts.labelText.Some? ==> c.labelText == opts.labelText.value
    ensures opts.labelText.None? ==> c.labelText == Defaults.labelText
    ensures opts.labelLink.Some? ==> c.labelLink == opts.labelLink.value
    ensures opts.labelLink.None? ==> c.labelLink == Defaults.labelLink
    ensures opts.labelImage.Some? ==> c.labelImage == opts.labelImage.value
    ensures opts.labelImage.None? ==> c.labelImage == Defaults.labelImage
  {
    Config(
      opts.stylePrefix.GetOr(Defaults.stylePrefix),
      opts.category.GetOr(Defaults.category),
      opts.labelText.GetOr(Defaults.labelText),
      opts.labelLink.GetOr(Defaults.labelLink),
      opts.labelImage.GetOr(Defaults.labelImage))
  }

  /** A configuration supplied in full, as options. */
  function AsOptions(c: Config): PluginOptions {
    PluginOptions(Some(c.stylePrefix), Some(c.category), Some(c.labelText), Some(c.labelLink), Some(c.labelImage))
  }

  /** With no options the defaults are `gjs-`, `Basic`, `Text`, `Link`, `Image`. */
  lemma NoOptionsGiveDefaults()
    ensures MergeConfig(NoOptions) == Config("gjs-", "Basic", "Text", "Link", "Image")
  {
  }

  /** Options supplied in full replace every default. */
  lemma FullOptionsWin(c: Config)
    ensures MergeConfig(AsOptions(c)) == c
  {
  }

  /** The plugin: `loadBlocks` runs once, on the merged configuration. */
  function Plugin(opts: PluginOptions): (r: Registration)
    ensures r == LoadBlocks(MergeConfig(opts))
    ensures r.privateClasses == Selectors.PrivateClasses(opts.stylePrefix.GetOr("gjs-"))
    ensures forall i :: 0 <= i < |r.blocks| ==> r.blocks[i].props[CategoryProp] == PStr(opts.category.GetOr("Basic"))
  {
    LoadBlocks(MergeConfig(opts))
  }
}
