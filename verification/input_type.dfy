/** The `input` component type: an element matcher, default traits and
    attributes, and the two listeners that copy model attributes onto the
    rendered element. The rendered element is abstracted as its two child
    slots: child 0 (the label, of which only the text is touched) and child
    1 (the input, of which only the attributes are touched). */
module InputType {
  import opened Wrappers
  import opened JsValues
  import opened TraitField

  /** The part of a DOM element the matcher reads. */
  datatype ElementShape = ElementShape(tagName: string)

  /** ASCII upper-casing, the form in which HTML documents report tag names. */
  function Upper(s: string): (r: string)
    ensures |r| == |s|
    ensures forall i :: 0 <= i < |s| ==> r[i] == (if 'a' <= s[i] <= 'z' then (s[i] as int - 32) as char else s[i])
  {
    if |s| == 0 then "" else
      [if 'a' <= s[0] <= 'z' then (s[0] as int - 32) as char else s[0]] + Upper(s[1..])
  }

  /** No lower-case ASCII letter. */
  predicate NoLower(s: string) {
    forall i :: 0 <= i < |s| ==> !('a' <= s[i] <= 'z')
  }

  /** `isComponent`: the exact, case-sensitive tag name `INPUT`. Of all the
      spellings of `input` in any letter case, only the upper-case one, which
      is how an HTML document reports the tag, matches. */
  function IsInputComponent(el: ElementShape): (r: bool)
    ensures r ==> Upper(el.tagName) == "INPUT"
    ensures Upper(el.tagName) == "INPUT" ==> (r <==> NoLower(el.tagName))
  {
    el.tagName == "INPUT"
  }

  /** Only an `INPUT` tag matches; the comparison is case-sensitive. */
  lemma MatchesOnlyInputTag(el: ElementShape)
    ensures IsInputComponent(el) ==> el.tagName == "INPUT"
    ensures IsInputComponent(ElementShape("INPUT"))
    ensures !IsInputComponent(ElementShape("input"))
  {
  }

  /** The model's attributes. */
  type Attributes = map<string, JsVal>

  /** The attribute keys copied onto the input child, in source order. */
  const SyncedKeys: seq<string> := ["placeholder", "type", "required", "value"]

  /** The rendered element: child 0's text and child 1's attributes. */
  datatype InputElement = InputElement(labelText: string, inputAttrs: map<string, string>)

  /** `handleAttrChange`: each allow-listed key the model has is set on child
      1 (`setAttribute` stores the value's string form); nothing else moves. */
  function HandleAttrChange(attrs: Attributes, el: InputElement): (r: InputElement)
    ensures r.labelText == el.labelText
    ensures r.inputAttrs.Keys == el.inputAttrs.Keys + set k | k in attrs && k in SyncedKeys
    ensures forall k :: k in attrs && k in SyncedKeys ==> r.inputAttrs[k] == DomString(attrs[k])
    ensures forall k :: k in el.inputAttrs && !(k in attrs && k in SyncedKeys) ==>
              r.inputAttrs[k] == el.inputAttrs[k]
  {
    var written := map k | k in attrs && k in SyncedKeys :: DomString(attrs[k]);
    InputElement(el.labelText, el.inputAttrs + written)
  }

  /** The text `textContent = v` leaves: `undefined` (also an absent key)
      clears it, anything else is stringified. */
  function TextContent(v: Option<JsVal>): string {
    match v
    case None => ""
    case Some(Undefined) => ""
    case Some(x) => DomString(x)
  }

  function LabelOf(attrs: Attributes): Option<JsVal> {
    if "label" in attrs then Some(attrs["label"]) else None
  }

  /** `handleLabelChange`: child 0's text becomes the `label` attribute;
      nothing else changes. */
  function HandleLabelChange(attrs: Attributes, el: InputElement): (r: InputElement)
    ensures r.inputAttrs == el.inputAttrs
    ensures "label" in attrs && attrs["label"].Str? ==> r.labelText == attrs["label"].s
    ensures "label" in attrs && attrs["label"].Bool? ==> r.labelText == (if attrs["label"].b then "true" else "false")
    ensures "label" in attrs && attrs["label"] == Undefined ==> r.labelText == ""
    ensures "label" !in attrs ==> r.labelText == ""
  {
    InputElement(TextContent(LabelOf(attrs)), el.inputAttrs)
  }

  /** The model's attributes change from `before` to `after`: if anything
      changed, `change:attributes:label` fires when the label differs and
      `change:attributes` fires in any case. */
  function AttributesChanged(before: Attributes, after: Attributes, el: InputElement): (r: InputElement)
    ensures before == after ==> r == el
    ensures before != after ==> r.inputAttrs == HandleAttrChange(after, el).inputAttrs
    ensures LabelOf(before) != LabelOf(after) ==> r.labelText == TextContent(LabelOf(after))
    ensures LabelOf(before) == LabelOf(after) ==> r.labelText == el.labelText
  {
    if before == after then el
    else
      var labelled := if LabelOf(before) != LabelOf(after) then HandleLabelChange(after, el) else el;
      HandleAttrChange(after, labelled)
  }

  /** Whichever of the two listeners the host fires first, the element ends
      up the same. */
  lemma ChangeOrderIrrelevant(before: Attributes, after: Attributes, el: InputElement)
    requires before != after
    ensures AttributesChanged(before, after, el)
         == (var synced := HandleAttrChange(after, el);
             if LabelOf(before) != LabelOf(after) then HandleLabelChange(after, synced) else synced)
  {
    HandlersCommute(after, el);
  }

  /** The rendered element shows the model's label and synced attributes. */
  predicate Reflects(attrs: Attributes, el: InputElement) {
    && el.labelText == TextContent(LabelOf(attrs))
    && forall k :: k in attrs && k in SyncedKeys ==> k in el.inputAttrs && el.inputAttrs[k] == DomString(attrs[k])
  }

  /** Once the element reflects the model, every later attribute change keeps
      it that way. */
  lemma ChangeKeepsReflecting(before: Attributes, after: Attributes, el: InputElement)
    requires Reflects(before, el)
    ensures Reflects(after, AttributesChanged(before, after, el))
  {
  }

  /** The `label` attribute never reaches the input child, whatever the model holds. */
  lemma LabelNeverOnInput(attrs: Attributes, el: InputElement)
    requires "label" !in el.inputAttrs
    ensures "label" !in HandleAttrChange(attrs, el).inputAttrs
  {
  }

  /** The two listeners touch disjoint slots, so their order does not matter. */
  lemma HandlersCommute(attrs: Attributes, el: InputElement)
    ensures HandleAttrChange(attrs, HandleLabelChange(attrs, el))
         == HandleLabelChange(attrs, HandleAttrChange(attrs, el))
  {
  }

  /** Re-running the attribute sync with the same model changes nothing. */
  lemma AttrChangeIdempotent(attrs: Attributes, el: InputElement)
    ensures HandleAttrChange(attrs, HandleAttrChange(attrs, el)) == HandleAttrChange(attrs, el)
  {
    var once := HandleAttrChange(attrs, el);
    var twice := HandleAttrChange(attrs, once);
    assert twice.inputAttrs.Keys == once.inputAttrs.Keys;
  }

  // ----- defaults -----

  /** A trait seed: a type, a name, and for the select its options. */
  function Seed(ttype: string, name: string, labelText: Option<string>, options: seq<SelectOption>): Trait {
    Trait(ttype, name, labelText, Undefined, Undefined, Undefined, options, NoCommand)
  }

  /** The input types the `type` trait offers. */
  const TypeOptions: seq<SelectOption> := [
    SelectOption("text", "Text"),
    SelectOption("email", "Email"),
    SelectOption("password", "Password"),
    SelectOption("number", "Number")
  ]

  /** The default traits in order; a bare name is a text trait. */
  const DefaultTraits: seq<Trait> := [
    Seed("text", "label", None, []),
    Seed("text", "placeholder", None, []),
    Seed("select", "type", Some("Type"), TypeOptions),
    Seed("checkbox", "required", None, []),
    Seed("data", "value", None, [])
  ]

  const DefaultAttributes: Attributes :=
    map["label" := Str("My label"), "type" := Str("text"), "required" := Bool(false)]

  /** What the block's inner markup renders before any change event: the
      label text and an input of type text. */
  const InitialElement: InputElement := InputElement("My label", map["type" := "text"])

  function TraitNames(ts: seq<Trait>): (r: seq<string>)
    ensures |r| == |ts| && forall i :: 0 <= i < |ts| ==> r[i] == ts[i].name
  {
    seq(|ts|, i requires 0 <= i < |ts| => ts[i].name)
  }

  /** The defaults fit together: one trait per name; the controls are text,
      text, select, checkbox and data; every default attribute has a trait;
      the default `type` is one of the select's option ids; and every synced
      key is the name of a trait. */
  lemma DefaultsConsistent()
    ensures TraitNames(DefaultTraits) == ["label", "placeholder", "type", "required", "value"]
    ensures forall i, j :: 0 <= i < j < |DefaultTraits| ==> DefaultTraits[i].name != DefaultTraits[j].name
    ensures [Resolve(DefaultTraits[0].ttype), Resolve(DefaultTraits[1].ttype), Resolve(DefaultTraits[2].ttype),
             Resolve(DefaultTraits[3].ttype), Resolve(DefaultTraits[4].ttype)]
         == [TextControl, TextControl, SelectControl, CheckboxControl, DataControl]
    ensures forall k :: k in DefaultAttributes ==> k in TraitNames(DefaultTraits)
    ensures forall k :: k in SyncedKeys ==> k in TraitNames(DefaultTraits)
    ensures exists i :: 0 <= i < |TypeOptions| && Str(TypeOptions[i].id) == DefaultAttributes["type"]
    ensures DefaultTraits[2].options == TypeOptions
  {
    assert TraitNames(DefaultTraits) == ["label", "placeholder", "type", "required", "value"];
    assert Str(TypeOptions[0].id) == DefaultAttributes["type"];
  }

  /** Nothing syncs at construction: the input child starts without
      `required`. Once any attribute change fires, the default `required:
      false` is written as the string "false", which leaves the attribute
      present on the input. */
  lemma DefaultsAfterFirstChange(after: Attributes)
    requires after == DefaultAttributes[("placeholder") := Str("")]
    ensures "required" !in InitialElement.inputAttrs
    ensures
      var el := AttributesChanged(DefaultAttributes, after, InitialElement);
      && el.labelText == "My label"
      && el.inputAttrs == map["type" := "text", "required" := "false", "placeholder" := ""]
  {
    var el := AttributesChanged(DefaultAttributes, after, InitialElement);
    assert "placeholder" !in DefaultAttributes;
    assert el.inputAttrs.Keys == {"type", "required", "placeholder"};
  }
}
