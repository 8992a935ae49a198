/** The trait property field: which control a trait's type selects, what
    that control shows, and what each user action on it commits. Rendering
    itself is left to the host; a `View` records only what is shown. */
module TraitField {
  import opened Wrappers
  import opened JsValues

  datatype SelectOption = SelectOption(id: string, name: string)

  /** A trait's `command`: absent, a registered command id, or a callable
      (identified by a name, since it is opaque here). */
  datatype Command = NoCommand | CommandId(id: string) | CommandFn(fn: string)

  datatype Trait = Trait(
    ttype: string,
    name: string,
    labelText: Option<string>,
    value: JsVal,
    default: JsVal,
    placeholder: JsVal,
    options: seq<SelectOption>,
    command: Command)

  datatype ControlKind =
    | TextControl | SelectControl | ColorControl | CheckboxControl | ButtonControl | DataControl

  /** The type string that names each control. */
  function KindName(k: ControlKind): string {
    match k
    case TextControl => "text"
    case SelectControl => "select"
    case ColorControl => "color"
    case CheckboxControl => "checkbox"
    case ButtonControl => "button"
    case DataControl => "data"
  }

  /** The `switch (type)`: a total mapping, every unlisted type falling back
      to the text field. */
  function Resolve(ttype: string): (k: ControlKind)
    ensures k != TextControl ==> KindName(k) == ttype
    ensures k == TextControl ==> forall c: ControlKind :: c != TextControl ==> KindName(c) != ttype
  {
    match ttype
    case "select" => SelectControl
    case "color" => ColorControl
    case "checkbox" => CheckboxControl
    case "button" => ButtonControl
    case "data" => DataControl
    case _ => TextControl
  }

  /** Each control kind is selected by its own name. */
  lemma ResolveKindName(k: ControlKind)
    ensures Resolve(KindName(k)) == k
  {
  }

  /** `defValue`: the trait default when truthy, otherwise the placeholder. */
  function DefValue(t: Trait): (r: JsVal)
    ensures r == t.default || r == t.placeholder
    ensures Truthy(r) <==> Truthy(t.default) || Truthy(t.placeholder)
    ensures Truthy(t.default) ==> r == t.default
    ensures !Truthy(t.default) ==> r == t.placeholder
  {
    if Truthy(t.default) then t.default else t.placeholder
  }

  /** `valueWithDef`: the value unless it is `undefined`. */
  function ValueWithDef(t: Trait): (r: JsVal)
    ensures t.value != Undefined ==> r == t.value
    ensures t.value == Undefined ==> r == DefValue(t)
    ensures r == Undefined <==> t.value == Undefined && !Truthy(t.default) && t.placeholder == Undefined
  {
    if t.value != Undefined then t.value else DefValue(t)
  }

  /** `getLabel()`: the explicit label, else the name. */
  function Label(t: Trait): string {
    t.labelText.GetOr(t.name)
  }

  datatype MenuItem = MenuItem(value: string, caption: string)

  /** What a control shows. */
  datatype View =
    | TextView(placeholder: JsVal, shown: JsVal)
    | SelectView(selected: JsVal, items: seq<MenuItem>)
    | ColorView(placeholder: JsVal, shown: JsVal, swatch: JsVal)
    | CheckboxView(checked: JsVal)
    | ButtonView(caption: string)
    | DataView(initial: JsVal)

  function ViewKind(v: View): ControlKind {
    match v
    case TextView(_, _) => TextControl
    case SelectView(_, _) => SelectControl
    case ColorView(_, _, _) => ColorControl
    case CheckboxView(_) => CheckboxControl
    case ButtonView(_) => ButtonControl
    case DataView(_) => DataControl
  }

  /** The rendered control: the resolved kind, the menu items of a select
      valued by option id, and the colour swatch showing `valueWithDef`. */
  function Render(t: Trait): (v: View)
    ensures ViewKind(v) == Resolve(t.ttype)
    ensures v.SelectView? ==>
      && |v.items| == |t.options|
      && forall i :: 0 <= i < |t.options| ==> v.items[i] == MenuItem(t.options[i].id, t.options[i].name)
    ensures v.ColorView? ==> v.swatch == ValueWithDef(t) && v.shown == t.value
    ensures v.TextView? ==> v.shown == t.value
    ensures v.TextView? && Truthy(t.default) ==> v.placeholder == t.default
    ensures v.TextView? && !Truthy(t.default) ==> v.placeholder == t.placeholder
    ensures v.ColorView? ==> v.placeholder == DefValue(t)
    ensures v.SelectView? ==> v.selected == t.value
    ensures v.CheckboxView? ==> v.checked == t.value
    ensures v.DataView? ==> v.initial == t.value
    ensures v.ButtonView? && t.labelText.Some? ==> v.caption == t.labelText.value
    ensures v.ButtonView? && t.labelText.None? ==> v.caption == t.name
  {
    match Resolve(t.ttype)
    case SelectControl =>
      SelectView(t.value, seq(|t.options|, i requires 0 <= i < |t.options| =>
        MenuItem(t.options[i].id, t.options[i].name)))
    case ColorControl => ColorView(DefValue(t), t.value, ValueWithDef(t))
    case CheckboxControl => CheckboxView(t.value)
    case ButtonControl => ButtonView(Label(t))
    case DataControl => DataView(t.value)
    case TextControl => TextView(DefValue(t), t.value)
  }

  /** A user action on the field. `Edited` is an input's change event,
      `Picked` the native colour picker's, `Toggled` the checkbox's;
      `LookupSettled` is the data field's search lookup once it settles
      (the oracle's `Some(name)`, or `None` when it rejects). */
  datatype UiEvent =
    | Edited(text: string)
    | Picked(color: string)
    | Toggled(checked: bool)
    | Clicked
    | LookupSettled(result: Option<string>)

  /** What a handler asks of the trait or the editor. */
  datatype Action = SetValue(v: JsVal) | RunCommand(id: string) | CallCommand(fn: string)

  /** The value an event carries, if it carries one. */
  function Carried(e: UiEvent): Option<JsVal> {
    match e
    case Edited(s) => Some(Str(s))
    case Picked(s) => Some(Str(s))
    case Toggled(b) => Some(Bool(b))
    case Clicked => None
    case LookupSettled(r) => if r.Some? then Some(Str(r.value)) else None
  }

  /** `handleButtonClick`: a falsy command does nothing, a string goes to
      `editor.runCommand`, anything else is called with `(editor, trait)`. */
  function ButtonActions(c: Command): (r: seq<Action>)
    ensures |r| <= 1
    ensures r == [] <==> c.NoCommand? || c == CommandId("")
    ensures forall a :: a in r ==> !a.SetValue?
    ensures c.CommandId? && c.id != "" ==> r == [RunCommand(c.id)]
    ensures c.CommandFn? ==> r == [CallCommand(c.fn)]
  {
    match c
    case NoCommand => []
    case CommandId(id) => if id == "" then [] else [RunCommand(id)]
    case CommandFn(f) => [CallCommand(f)]
  }

  /** The handler of the resolved control for one event. An event the
      control has no widget for does nothing. */
  function Commit(t: Trait, e: UiEvent): (r: seq<Action>)
    ensures |r| <= 1
    ensures Resolve(t.ttype) == ButtonControl ==> forall a :: a in r ==> !a.SetValue?
    ensures Resolve(t.ttype) != ButtonControl ==> forall a :: a in r ==> Carried(e).Some? && a == SetValue(Carried(e).value)
  {
    match Resolve(t.ttype)
    case TextControl => if e.Edited? then [SetValue(Str(e.text))] else []
    case SelectControl => if e.Edited? then [SetValue(Str(e.text))] else []
    case ColorControl =>
      if e.Edited? then [SetValue(Str(e.text))]
      else if e.Picked? then [SetValue(Str(e.color))]
      else []
    case CheckboxControl => if e.Toggled? then [SetValue(Bool(e.checked))] else []
    case ButtonControl => if e.Clicked? then ButtonActions(t.command) else []
    case DataControl =>
      if e.Edited? then [SetValue(Str(e.text))]
      else if e.LookupSettled? && e.result.Some? then [SetValue(Str(e.result.value))]
      else []
  }

  /** The trait after the actions: `setValue` writes the value; commands are
      the editor's business and leave the trait as it is. */
  function Apply(t: Trait, acts: seq<Action>): (r: Trait)
    ensures r == t.(value := r.value)
    ensures (forall i :: 0 <= i < |acts| ==> !acts[i].SetValue?) ==> r == t
    ensures |acts| > 0 && acts[|acts| - 1].SetValue? ==> r.value == acts[|acts| - 1].v
    decreases |acts|
  {
    if |acts| == 0 then t
    else
      var t' := if acts[0].SetValue? then t.(value := acts[0].v) else t;
      Apply(t', acts[1..])
  }

  // ----- properties -----

  /** Text, select, colour and data inputs commit the event's string exactly
      once, and so does the colour swatch's own picker. */
  lemma EditsCommitOnce(t: Trait, s: string)
    requires Resolve(t.ttype) in {TextControl, SelectControl, ColorControl, DataControl}
    ensures Commit(t, Edited(s)) == [SetValue(Str(s))]
    ensures Resolve(t.ttype) == ColorControl ==> Commit(t, Picked(s)) == [SetValue(Str(s))]
  {
  }

  /** Choosing the i-th menu item commits the option's id, not its label. */
  lemma SelectCommitsOptionId(t: Trait, i: nat)
    requires Resolve(t.ttype) == SelectControl && i < |t.options|
    ensures Commit(t, Edited(Render(t).items[i].value)) == [SetValue(Str(t.options[i].id))]
  {
  }

  /** The checkbox commits the boolean `checked`, not a string. */
  lemma CheckboxCommitsBoolean(t: Trait, checked: bool)
    requires Resolve(t.ttype) == CheckboxControl
    ensures Commit(t, Toggled(checked)) == [SetValue(Bool(checked))]
    ensures Commit(t, Edited(if checked then "true" else "false")) == []
  {
  }

  /** The button never writes the value; it dispatches a truthy command once. */
  lemma ButtonNeverWrites(t: Trait, e: UiEvent)
    requires Resolve(t.ttype) == ButtonControl
    ensures Apply(t, Commit(t, e)) == t
    ensures Commit(t, Clicked) == ButtonActions(t.command)
  {
    var acts := Commit(t, e);
    if |acts| == 1 {
      assert !acts[0].SetValue?;
      assert acts[1..] == [];
    }
  }

  /** Round trip: what a control commits is what the trait then holds;
      a control that commits nothing leaves the trait as it was. */
  lemma CommitRoundTrip(t: Trait, e: UiEvent)
    requires Resolve(t.ttype) != ButtonControl
    ensures Commit(t, e) != [] ==> Apply(t, Commit(t, e)) == t.(value := Carried(e).value)
    ensures Commit(t, e) == [] ==> Apply(t, Commit(t, e)) == t
  {
    var acts := Commit(t, e);
    if acts != [] {
      assert acts[0] in acts;
      assert acts[1..] == [];
    }
  }

  /** Colour: whichever of the two inputs commits, the text field and the
      swatch then show the same committed colour. */
  lemma ColorInputsAgree(t: Trait, e: UiEvent)
    requires Resolve(t.ttype) == ColorControl && (e.Edited? || e.Picked?)
    ensures
      var v := Render(Apply(t, Commit(t, e)));
      v.ColorView? && v.shown == v.swatch == Carried(e).value
  {
    CommitRoundTrip(t, e);
  }

  /** The colour control's display rule: the text field shows the value and
      offers the default (when truthy, else the placeholder) as placeholder;
      the swatch shows the value unless it is undefined, then that same
      fallback. An empty-string default falls through to the placeholder. */
  lemma ColorDisplayFallback(t: Trait)
    requires Resolve(t.ttype) == ColorControl
    ensures Render(t).shown == t.value
    ensures Truthy(t.default) ==> Render(t).placeholder == t.default
    ensures !Truthy(t.default) ==> Render(t).placeholder == t.placeholder
    ensures t.value != Undefined ==> Render(t).swatch == t.value
    ensures t.value == Undefined ==> Render(t).swatch == Render(t).placeholder
  {
  }

  /** An undefined colour shows the default on the swatch until a pick. */
  lemma ColorSwatchScenario()
    ensures
      var t := Trait("color", "bg", None, Undefined, Str("#ffffff"), Undefined, [], NoCommand);
      && Render(t) == ColorView(Str("#ffffff"), Undefined, Str("#ffffff"))
      && Render(Apply(t, Commit(t, Picked("#000000")))) == ColorView(Str("#ffffff"), Str("#000000"), Str("#000000"))
  {
    var t := Trait("color", "bg", None, Undefined, Str("#ffffff"), Undefined, [], NoCommand);
    ColorInputsAgree(t, Picked("#000000"));
  }
}
