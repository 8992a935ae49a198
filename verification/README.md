# GrapesJS trait and block customisation, modelled in Dafny

This project models the decision logic of a small GrapesJS customisation:

- the **flexbox block plugin** (`src/plugins/blocks/flex/blocks.ts`): the attribute serialiser `attrsToString`, the row and cell attribute maps, the block content made from them, and the rule that makes the row and cell classes private;
- the **basic-blocks plugin** (`src/plugins/blocks/input/blocks.ts`, `src/plugins/blocks/input/index.ts`): the `input` component type (matcher, default traits and attributes, and the two listeners that copy model attributes onto the rendered element), the same private-class rule, the four blocks, and the merge of user options over the defaults;
- the **trait property field** (`src/components/TraitPropertyField.tsx`): the mapping from trait type to control, what each control shows, what each user action commits, and the local shadow state of the `data` control.

Everything is immutable datatypes and pure functions. One module per concept:

| file | module | what it holds |
|---|---|---|
| `wrappers.dfy` | `Wrappers` | `Option` |
| `values.dfy` | `JsValues` | the JavaScript values that reach the modelled code, truthiness, DOM string conversion |
| `json.dfy` | `Json` | `JSON.stringify` for arrays of strings, and an independent decoder |
| `attributes.dfy` | `Attributes` | `attrsToString`, and a reader of its output |
| `selectors.dfy` | `Selectors` | the `selector:add` listener over a name-to-flag registry |
| `blocks.dfy` | `Blocks` | block property bags, object spread, plugin registrations |
| `flex_blocks.dfy` | `FlexBlocks` | row/cell attributes, the `flexbox` block, the flex plugin |
| `input_type.dfy` | `InputType` | the `input` component type |
| `input_blocks.dfy` | `InputBlocks` | `loadBlocks` and its four blocks |
| `input_plugin.dfy` | `InputPlugin` | option defaulting and the plugin entry |
| `trait_field.dfy` | `TraitField` | control resolution, rendering and commits |
| `external_data.dfy` | `ExternalData` | the `data` control's shadow state machine |

Abstractions:

- The GrapesJS selector registry is a map from full selector name to its `private` flag. The host adds a new selector unflagged. Then each installed listener runs.
- The rendered `input` component is reduced to two slots: the text of child 0 and the attribute map of child 1.
- The external lookup (`fetch` of a fixed resource) is an oracle. Its outcome arrives as an event carrying `Some(name)` or `None`. The click and the await are one step.
- User actions on a control are events. A handler's effect is a list of actions: `setValue`, `runCommand`, or a call of a command function. A `View` records what a control shows. The rendering itself is out of scope.
- Block property names that the plugins set are an enumeration. Other names are `OtherProp(name)`.

Consequences of the code worth knowing:

- **No sync at construction.** `init` only subscribes to change events (`src/plugins/blocks/input/blocks.ts:33-36`), so neither listener runs when the component is built. Before the first attribute change, child 1 is what the block markup rendered, so it has no `required` attribute (`InputType.DefaultsAfterFirstChange`).
- **Failed lookup.** The rejection of the `fetch` is not caught. The handler stops before either write, so a failed lookup changes nothing.
- **Boolean attributes.** `setAttribute` stringifies its value. The default `required: false` therefore reaches the input as the attribute `required="false"`. The attribute is present, so the input counts as required.
- **Escaping.** Primitive attribute values are not escaped. A value holding `"` can make two different maps serialise to the same text (`Attributes.UnescapedPrimitiveCollision`). The round trip `Attributes.AttrsRoundTrip` holds once keys have no `=`, primitives have no `"`, and array elements have no `'`.

## Model

| member | source | states |
|---|---|---|
| `Json.ArrayRoundTrip` | src/plugins/blocks/flex/blocks.ts:17-18 | the JSON text written for an array of strings decodes back to exactly that array |
| `Json.ArrayBracketed` | src/plugins/blocks/flex/blocks.ts:18 | `JSON.stringify` of an array of strings is enclosed in brackets, and is `[]` exactly for the empty array |
| `Json.ArrayKeeps` | src/plugins/blocks/flex/blocks.ts:18-19 | the JSON text of an array contains an apostrophe only if an element does, so the single-quoted form can be read back |
| `Attributes.AttrsToString` | src/plugins/blocks/flex/blocks.ts:22 | the empty map gives the empty string and only it does; otherwise the text starts with a space followed directly by the first entry's fragment |
| `Attributes.AttrsRoundTrip` | src/plugins/blocks/flex/blocks.ts:12-23 | reading the serialised text back gives every entry in insertion order with its value, none dropped or duplicated, whenever keys have no `=`, primitives no `"` and array elements no `'` |
| `Attributes.AttrsInjective` | src/plugins/blocks/flex/blocks.ts:12-23 | two such maps that serialise to the same text are equal |
| `Attributes.PrimitiveVerbatim` | src/plugins/blocks/flex/blocks.ts:17-19 | a primitive is written as `key="value"` with no escaping |
| `Attributes.StructuredQuoting` | src/plugins/blocks/flex/blocks.ts:17-19 | an array is written as `key='<JSON>'`; for `["width"]` this is `key='["width"]'` |
| `Attributes.QuoteTellsKind` | src/plugins/blocks/flex/blocks.ts:19 | the character after `key=` is `'` for an array and `"` for a primitive |
| `Attributes.UnescapedPrimitiveCollision` | src/plugins/blocks/flex/blocks.ts:19 | `title` set to `a" b="c` serialises exactly like the two entries `title="a"` and `b="c"` |
| `Selectors.PrivateClasses` | src/plugins/blocks/flex/blocks.ts:7-8 | the private classes are `.<prefix>row` and `.<prefix>cell`, two distinct names |
| `Selectors.Listener` | src/plugins/blocks/flex/blocks.ts:41-43 | the listener flags the added selector exactly when its name is a private class, never clears a flag, and leaves every other selector unchanged |
| `Selectors.SelectorAdded` | src/plugins/blocks/flex/blocks.ts:41-43 | an add event adds the selector to the registry and changes no other selector's flag, whatever listeners are installed |
| `Selectors.SelectorAddedFlag` | src/plugins/blocks/input/blocks.ts:62-68 | after an add event the selector is private iff some installed listener lists it or it already was |
| `Selectors.SelectorAddedIdempotent` | src/plugins/blocks/flex/blocks.ts:42-43 | adding the same selector again changes nothing |
| `Selectors.ListenersCommute` | src/plugins/blocks/input/blocks.ts:62-68 | the listeners of the two plugins give the same registry in either order |
| `Selectors.ReplayFlags` | src/plugins/blocks/flex/blocks.ts:41-43 | over any sequence of add events the flagged set is the old one plus the added names some listener lists; no flag is ever cleared |
| `Blocks.Spread` | src/plugins/blocks/flex/blocks.ts:109 | object spread keeps every key of both objects, and the later object wins on shared keys |
| `FlexBlocks.FlexboxBlock` | src/plugins/blocks/flex/blocks.ts:92-110 | the `flexbox` block has label `Flexbox`, category `Layout` and the row markup, and every field of `opt.flexboxBlock` overrides the default |
| `FlexBlocks.RowAttrs` | src/plugins/blocks/flex/blocks.ts:25-29 | when the option texts hold no `"`, the row attribute map is one that serialises unambiguously |
| `FlexBlocks.ColAttrs` | src/plugins/blocks/flex/blocks.ts:31-39 | when the option texts hold no `"`, the cell attribute map, including its two array values, serialises unambiguously |
| `FlexBlocks.FlexPluginPrivatizesItsClasses` | src/plugins/blocks/flex/blocks.ts:41-48 | with the flex plugin's listener installed, a newly added selector becomes private exactly when it is `.<prefix>row` or `.<prefix>cell` or was private already |
| `FlexBlocks.FlexboxShape` | src/plugins/blocks/flex/blocks.ts:99-103 | for every option value, the content is one `div` row holding exactly two identical, empty `div` cells |
| `FlexBlocks.FlexboxStructure` | src/plugins/blocks/flex/blocks.ts:99-103 | when the option texts hold no `"`, the row and cell attribute texts read back to the row and cell attribute maps |
| `FlexBlocks.FlexboxWiring` | src/plugins/blocks/flex/blocks.ts:25-41 | the row and cell class attributes are the two private class names without their leading dot; the row's droppable selector is the cell's private class and the cell's draggable selector is the row's |
| `InputType.IsInputComponent` | src/plugins/blocks/input/blocks.ts:6 | a matching element's tag is `input` in some letter case; among the case variants of `input`, exactly the one with no lower-case letter matches |
| `InputType.MatchesOnlyInputTag` | src/plugins/blocks/input/blocks.ts:6 | only an element whose tag name is exactly `INPUT` matches; lower-case `input` does not |
| `InputType.HandleAttrChange` | src/plugins/blocks/input/blocks.ts:40-45 | every model key among placeholder, type, required and value is set on child 1 to its string form; no other child-1 attribute changes and the label text is untouched |
| `InputType.HandleLabelChange` | src/plugins/blocks/input/blocks.ts:46-48 | child 0's text becomes the `label` attribute: a string as is, a boolean as `true`/`false`, empty when it is `undefined` or absent; child 1 is untouched |
| `InputType.AttributesChanged` | src/plugins/blocks/input/blocks.ts:33-36 | a change of the model's attributes re-runs the attribute sync, and re-runs the label sync only when the label changed |
| `InputType.ChangeOrderIrrelevant` | src/plugins/blocks/input/blocks.ts:33-48 | the element after a change is the same whichever of the two listeners the host fires first |
| `InputType.ChangeKeepsReflecting` | src/plugins/blocks/input/blocks.ts:33-48 | once child 0 shows the label and child 1 carries the synced attributes, every later attribute change keeps it that way |
| `InputType.LabelNeverOnInput` | src/plugins/blocks/input/blocks.ts:43 | the `label` attribute is never written onto child 1 |
| `InputType.HandlersCommute` | src/plugins/blocks/input/blocks.ts:40-48 | the two listeners touch disjoint slots, so their order does not matter |
| `InputType.AttrChangeIdempotent` | src/plugins/blocks/input/blocks.ts:40-45 | running the attribute sync twice with the same model is the same as running it once |
| `InputType.DefaultsConsistent` | src/plugins/blocks/input/blocks.ts:9-31 | default traits are label, placeholder, type, required and value, one per name; they resolve to text, text, select, checkbox and data controls; every default attribute and synced key has a trait; the default `type` is one of the select's option ids |
| `InputType.DefaultsAfterFirstChange` | src/plugins/blocks/input/blocks.ts:31-45 | child 1 starts without `required`; after a first attribute change that only adds an empty `placeholder` to the defaults, it carries `required="false"`, `type="text"` and `placeholder=""` while the label stays `My label` |
| `InputBlocks.InputBlock` | src/plugins/blocks/input/blocks.ts:75-97 | the `input` block is labelled `Input`, activates, and holds an `input` component |
| `InputBlocks.TextBlock` | src/plugins/blocks/input/blocks.ts:99-111 | the `text` block takes the configured text label and activates |
| `InputBlocks.LinkBlock` | src/plugins/blocks/input/blocks.ts:113-124 | the `link` block takes the configured link label and has no `activate` |
| `InputBlocks.ImageBlock` | src/plugins/blocks/input/blocks.ts:126-137 | the `image` block takes the configured image label and activates |
| `InputBlocks.LoadBlocks` | src/plugins/blocks/input/blocks.ts:54-137 | it registers the `input` type, the private classes of the prefix, and four blocks, all with the configured category and `select: true`; only `link` lacks `activate: true` |
| `InputBlocks.CommonPropsInEveryBlock` | src/plugins/blocks/input/blocks.ts:70-137 | every one of the four blocks carries each shared property (`category` and `select: true`) with its shared value; no block overrides it |
| `InputPlugin.MergeConfig` | src/plugins/blocks/input/index.ts:37-44 | each supplied option replaces its default, and each missing one keeps it |
| `InputPlugin.NoOptionsGiveDefaults` | src/plugins/blocks/input/index.ts:38-42 | with no options the config is `gjs-`, `Basic`, `Text`, `Link`, `Image` |
| `InputPlugin.FullOptionsWin` | src/plugins/blocks/input/index.ts:43 | a config supplied in full comes back unchanged |
| `InputPlugin.Plugin` | src/plugins/blocks/input/index.ts:36-46 | the plugin's registration is `loadBlocks` of the merged config, so its private classes and block categories follow the options or their defaults |
| `TraitField.Resolve` | src/components/TraitPropertyField.tsx:67-148 | resolution is total: a non-text control is chosen only by its own type name, and every other type gets the text field |
| `TraitField.ResolveKindName` | src/components/TraitPropertyField.tsx:72-146 | each control kind is selected by its own type name |
| `TraitField.Render` | src/components/TraitPropertyField.tsx:67-148 | the view is of the resolved kind; text, select, colour, checkbox and data controls show the trait's value; text and colour placeholders are `defValue`, the default when truthy, else the trait placeholder; select menu items carry the option ids as values in option order; the swatch shows the value-or-default; a button is captioned with the label, or the name when there is none |
| `TraitField.DefValue` | src/components/TraitPropertyField.tsx:63 | `defValue` is the default when it is truthy and the placeholder otherwise, so it is truthy exactly when one of them is |
| `TraitField.ValueWithDef` | src/components/TraitPropertyField.tsx:65 | a defined value is shown as is and an undefined one falls back to `defValue`; the result is `undefined` only when the value is, the default is falsy and the placeholder is undefined |
| `TraitField.ColorDisplayFallback` | src/components/TraitPropertyField.tsx:63-65 | the placeholder is the default when truthy, else the trait placeholder; the swatch shows the value unless it is undefined, then that fallback |
| `TraitField.ButtonActions` | src/components/TraitPropertyField.tsx:53-60 | a falsy command (absent or empty id) does nothing; a non-empty string id goes to `runCommand` with that id; a function is called; nothing is written |
| `TraitField.Apply` | src/components/TraitPropertyField.tsx:45-47 | applying actions changes only the trait's value; without a `setValue` the trait is unchanged; when the last action is a `setValue` its value is the one left |
| `TraitField.Commit` | src/components/TraitPropertyField.tsx:45-51 | a control issues at most one action per event; a non-button control only writes the event's own value, and a button never writes |
| `TraitField.EditsCommitOnce` | src/components/TraitPropertyField.tsx:71-116 | text, select, colour and data inputs call `setValue` once with the event's string, and so does the colour swatch's picker |
| `TraitField.SelectCommitsOptionId` | src/components/TraitPropertyField.tsx:83-89 | picking a menu item commits that option's id, not its label |
| `TraitField.CheckboxCommitsBoolean` | src/components/TraitPropertyField.tsx:131 | the checkbox commits the boolean `checked`, and a text change does not reach it |
| `TraitField.ButtonNeverWrites` | src/components/TraitPropertyField.tsx:140 | no event on a button changes the trait, and a click yields the command dispatch |
| `TraitField.CommitRoundTrip` | src/components/TraitPropertyField.tsx:45-47 | after a commit the trait holds exactly the committed value and nothing else changed; a control that commits nothing leaves it as it was |
| `TraitField.ColorInputsAgree` | src/components/TraitPropertyField.tsx:110-116 | whichever of the text field and the swatch commits, both then show the committed colour |
| `TraitField.ColorSwatchScenario` | src/components/TraitPropertyField.tsx:105-116 | with an undefined value and default `#ffffff` the swatch shows `#ffffff`; after picking `#000000` the field and the swatch both show `#000000` |
| `ExternalData.Mount` | src/components/TraitPropertyField.tsx:17 | at mount the shadow is the trait's value |
| `ExternalData.Resync` | src/components/TraitPropertyField.tsx:18 | the effect leaves the shadow in sync whenever it agreed with the old or the new value; a stale shadow can only survive when the value did not change |
| `ExternalData.Step` | src/components/TraitPropertyField.tsx:16-27 | every event keeps the shadow equal to the trait value and changes only the trait's value |
| `ExternalData.HostChangeResyncs` | src/components/TraitPropertyField.tsx:18 | an upstream change of the value reaches the shadow |
| `ExternalData.LookupSuccess` | src/components/TraitPropertyField.tsx:23-27 | a successful lookup sets both the shadow and the trait to the fetched name |
| `ExternalData.LookupFailureChangesNothing` | src/components/TraitPropertyField.tsx:24 | a rejected lookup leaves shadow and trait as they were |
| `ExternalData.TypingWritesThrough` | src/components/TraitPropertyField.tsx:21 | typing writes the trait, and the shadow follows |
| `ExternalData.RunStaysSynced` | src/components/TraitPropertyField.tsx:16-27 | from mount on, over any event sequence, the field shows what the trait holds |
| `ExternalData.LookupScenario` | src/components/TraitPropertyField.tsx:23-26 | after a lookup returning `Luke Skywalker`, the field and the trait both hold `Luke Skywalker` |

## Left out

- `src/main.tsx` and `src/App.tsx`: editor bootstrap, panels, the `show-*` commands and React/MUI composition. These are DOM side effects and host wiring.
- Rendering: MUI components, React hook scheduling and JSX layout. Only the chosen control, what it shows, and what it commits are modelled.
- The `fetch` call and JSON response parsing. The lookup is an oracle. In-flight lookups, concurrent clicks and a lookup that settles after unmount are not modelled.
- CSS strings and SVG media: the `<style>` part of the flexbox content, the `styles` of the input block, and every block's `media`. They are opaque constants.
- `JSON.stringify` for objects and for non-string array elements. Structured values are arrays of strings.
- Primitive attribute values other than strings are represented by their string form. Trait and attribute values are `undefined`, strings and booleans; numbers, `null` and objects do not reach the modelled paths.
- `src/plugins/blocks/flex/index.ts` is not part of this model. The flex plugin's options (prefix, row and column labels, `flexboxBlock`) are taken as given strings and an optional property bag.
- `InputPlugin.MergeConfig`: an option key present with value `undefined` is treated as absent, though object spread would copy the `undefined` over the default.
- Select options are `(id, name)` pairs. How the host computes an option's id and label for other option shapes is not modelled.
- `editor.runCommand` and calling a command function are modelled as actions only. What the command does is outside this code.
- `Attributes.AttrsRoundTrip`: the round trip is stated against the project's own reader, not an HTML parser. That reader does not split keys at whitespace, `>` or `/`, does not lower-case names, and does not decode character references such as `&amp;`, so a key with whitespace or a value with `&` reads back here but not in a browser.
- `for…in` visits integer-like keys first, in ascending order, and other keys in insertion order. Attribute maps are modelled in insertion order; the maps this code serialises have no integer-like keys.
- `getEl()!.children[1]` and `.children[0]` (`src/plugins/blocks/input/blocks.ts:41,47`) throw when the component is not rendered or has lost a child. The two-slot element assumes both children exist.
- `ExternalData.Step`: the shadow is resynced in the same step as the trait write. This assumes the host re-renders the field with the new `value` after every `setValue`; the handler at `src/components/TraitPropertyField.tsx:21` writes only the trait, and the field follows only through the effect at line 18. `ExternalData.RunStaysSynced` relies on this.
- The `input` type and blocks that `src/main.tsx` registers on its own (`src/main.tsx:122-166`) are not modelled; they are bootstrap code.
