/** The few JavaScript values the modelled code moves around: trait values,
    component attribute values and defaults. Numbers, null and objects never
    reach the modelled paths and are not represented. */
module JsValues {

  datatype JsVal = Undefined | Str(s: string) | Bool(b: bool)

  /** JavaScript truthiness, as used by `a || b` and `if (x)`. */
  predicate Truthy(v: JsVal) {
    match v
    case Undefined => false
    case Str(s) => s != ""
    case Bool(b) => b
  }

  /** The string a DOM setter stores for a value (`${v}` conversion). */
  function DomString(v: JsVal): string {
    match v
    case Undefined => "undefined"
    case Str(s) => s
    case Bool(b) => if b then "true" else "false"
  }
}
