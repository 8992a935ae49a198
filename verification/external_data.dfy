/** The data field's local state: a shadow of the trait value, set from the
    value at mount, reset whenever the value changes, and set together with
    the trait when the search lookup succeeds. The lookup is an oracle whose
    outcome arrives as `LookupSettled`; a rejected lookup throws before
    either write, so it changes nothing. */
module ExternalData {
  import opened Wrappers
  import opened JsValues
  import opened TraitField

  datatype DataField = DataField(shadow: JsVal, field: Trait)

  predicate IsDataField(f: DataField) {
    Resolve(f.field.ttype) == DataControl
  }

  /** The shadow agrees with the value the trait holds. */
  predicate Synced(f: DataField) {
    f.shadow == f.field.value
  }

  /** `useState(value)` at mount. */
  function Mount(t: Trait): (f: DataField)
    ensures Synced(f) && f.field == t
  {
    DataField(t.value, t)
  }

  /** Something the field observes: the host changing the trait's value, or
      a user action on the field. */
  datatype DataEvent = HostChanged(v: JsVal) | User(e: UiEvent)

  /** The `[value]` effect after the trait went from `f.field` to `t`: it
      fires only when the value differs. */
  function Resync(f: DataField, shadow: JsVal, t: Trait): (r: DataField)
    ensures r.field == t
    ensures t.value != f.field.value ==> r.shadow == t.value
    ensures t.value == f.field.value ==> r.shadow == shadow
    ensures shadow == f.field.value || shadow == t.value ==> Synced(r)
    ensures !Synced(r) ==> t.value == f.field.value
  {
    if t.value != f.field.value then DataField(t.value, t) else DataField(shadow, t)
  }

  function Step(f: DataField, ev: DataEvent): (r: DataField)
    requires IsDataField(f)
    ensures IsDataField(r)
    ensures Synced(f) ==> Synced(r)
    ensures r.field == f.field.(value := r.field.value)
  {
    match ev
    case HostChanged(v) => Resync(f, f.shadow, f.field.(value := v))
    case User(e) =>
      var shadow := if e.LookupSettled? && e.result.Some? then Str(e.result.value) else f.shadow;
      CommitRoundTrip(f.field, e);
      Resync(f, shadow, Apply(f.field, Commit(f.field, e)))
  }

  function Run(f: DataField, evs: seq<DataEvent>): DataField
    requires IsDataField(f)
    decreases |evs|
  {
    if |evs| == 0 then f else Run(Step(f, evs[0]), evs[1..])
  }

  /** An upstream change always reaches the shadow. */
  lemma HostChangeResyncs(f: DataField, v: JsVal)
    requires IsDataField(f) && Synced(f)
    ensures Step(f, HostChanged(v)).shadow == v
    ensures Step(f, HostChanged(v)).field.value == v
  {
  }

  /** On success both the shadow and the trait hold the fetched name. */
  lemma LookupSuccess(f: DataField, name: string)
    requires IsDataField(f)
    ensures Step(f, User(LookupSettled(Some(name)))).shadow == Str(name)
    ensures Step(f, User(LookupSettled(Some(name)))).field == f.field.(value := Str(name))
  {
    CommitRoundTrip(f.field, LookupSettled(Some(name)));
  }

  /** A rejected lookup touches neither the shadow nor the trait. */
  lemma LookupFailureChangesNothing(f: DataField)
    requires IsDataField(f)
    ensures Step(f, User(LookupSettled(None))) == f
  {
  }

  /** Typing writes the trait, and the shadow follows through the effect. */
  lemma TypingWritesThrough(f: DataField, s: string)
    requires IsDataField(f) && Synced(f)
    ensures Step(f, User(Edited(s))).field == f.field.(value := Str(s))
    ensures Step(f, User(Edited(s))).shadow == Str(s)
  {
    EditsCommitOnce(f.field, s);
    CommitRoundTrip(f.field, Edited(s));
  }

  /** From mount on, whatever happens, the field shows what the trait holds,
      and only the trait's value ever changes. */
  lemma {:induction false} RunStaysSynced(f: DataField, evs: seq<DataEvent>)
    requires IsDataField(f) && Synced(f)
    ensures Synced(Run(f, evs))
    ensures Run(f, evs).field == f.field.(value := Run(f, evs).field.value)
    decreases |evs|
  {
    if |evs| > 0 {
      RunStaysSynced(Step(f, evs[0]), evs[1..]);
    }
  }

  /** The scenario of a lookup returning "Luke Skywalker" after mount. */
  lemma LookupScenario(t: Trait)
    requires Resolve(t.ttype) == DataControl
    ensures
      var f := Step(Mount(t), User(LookupSettled(Some("Luke Skywalker"))));
      f.shadow == f.field.value == Str("Luke Skywalker")
  {
    LookupSuccess(Mount(t), "Luke Skywalker");
  }
}
