/** JavaScript values as they travel through JSON bodies, React state and `localStorage`. */
module JsValues {
  import opened Wrappers
  import Text

  /** A JavaScript value. Numbers are integers; `NaN` is kept apart because `Number(...)`
      produces it and it is falsy. A missing object key reads as `Undef`. */
  datatype Value =
    | Undef
    | Null
    | Bool(b: bool)
    | Num(n: int)
    | NaN
    | Str(s: string)
    | Arr(items: seq<Value>)
    | Obj(fields: map<string, Value>)

  /** JavaScript truthiness: `if (v)`, `v || w`, `!v`. */
  predicate Truthy(v: Value) {
    match v
    case Undef => false
    case Null => false
    case Bool(b) => b
    case Num(n) => n != 0
    case NaN => false
    case Str(s) => |s| > 0
    case Arr(_) => true
    case Obj(_) => true
  }

  /** `a || b` */
  function Or(a: Value, b: Value): (r: Value)
    ensures Truthy(a) ==> r == a
    ensures !Truthy(a) ==> r == b
  {
    if Truthy(a) then a else b
  }

  /** `v.k` or `v?.k`: the property of an object, `Undef` for a missing key or a non-object. */
  function Get(v: Value, k: string): (r: Value)
    ensures v.Obj? && k in v.fields ==> r == v.fields[k]
    ensures !(v.Obj? && k in v.fields) ==> r == Undef
  {
    if v.Obj? && k in v.fields then v.fields[k] else Undef
  }

  /** The own properties `{...v}` copies: those of an object, none for anything else
      (the index keys of a spread string or array are not modelled). */
  function Spread(v: Value): (m: map<string, Value>)
    ensures v.Obj? ==> m == v.fields
    ensures !v.Obj? ==> m == map[]
  {
    if v.Obj? then v.fields else map[]
  }

  /** `Number(s)` for a form input's text. */
  function NumberValue(s: string): (r: Value)
    ensures Text.AllDigits(s) ==> r == Num(Text.DigitsValue(s))
    ensures !Text.AllDigits(s) ==> r == NaN
  {
    match Text.NumberOf(s)
    case Some(n) => Num(n)
    case None => NaN
  }

  /** `Number("")` is 0, and a typed number is its value. */
  lemma {:induction false} NumberValueDigits(n: nat)
    ensures NumberValue("") == Num(0)
    ensures NumberValue(Text.NatToDecimal(n)) == Num(n)
  {
    assert Text.AllDigits("") && Text.DigitsValue("") == 0;
  }
}
