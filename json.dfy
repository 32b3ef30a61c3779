/**
 * The chart document as the browser receives it: Python serialises the
 * figure with `json.dumps` and the page embeds that text as a JavaScript
 * object literal. Both sides therefore see plain JSON values, with no
 * `undefined` inside them and no sharing between sub-objects.
 */
module Json {
  import opened Wrappers
  import opened Text

  /** A JSON value. Numbers are integers (see README, "Left out"). */
  datatype JVal =
    | Null
    | Bool(b: bool)
    | Num(n: int)
    | Str(s: string)
    | Arr(items: seq<JVal>)
    | Obj(fields: map<string, JVal>)

  /** JavaScript truthiness: `null`, `false`, `0` and `""` are falsy; arrays and objects never are. */
  predicate JsTruthy(v: JVal) {
    match v
    case Null => false
    case Bool(b) => b
    case Num(n) => n != 0
    case Str(s) => s != ""
    case Arr(_) => true
    case Obj(_) => true
  }

  /** Python truthiness: as JavaScript's, except that empty lists and dicts are falsy too. */
  predicate PyTruthy(v: JVal) {
    match v
    case Null => false
    case Bool(b) => b
    case Num(n) => n != 0
    case Str(s) => s != ""
    case Arr(items) => items != []
    case Obj(fields) => fields != map[]
  }

  /** JavaScript's `typeof v === 'object'` for a value that is truthy: an array or an object. */
  predicate IsJsObject(v: JVal) {
    v.Arr? || v.Obj?
  }

  /**
   * The property read `v[key]` (or `v.key`): an object's own key, or an
   * array element whose index is written canonically, and otherwise
   * `undefined`, written `None`. JavaScript also reads characters and
   * `length` from a string; this model gives `None` for every read of a
   * non-object, as the line on `LinkedInteraction.AnnotationCount` under
   * "Left out" in README.md records.
   */
  function Member(v: JVal, key: string): (r: Option<JVal>)
    ensures v.Obj? ==> (r.Some? <==> key in v.fields)
    ensures v.Obj? && key in v.fields ==> r == Some(v.fields[key])
    ensures !IsJsObject(v) ==> r == None
  {
    match v
    case Obj(fields) => if key in fields then Some(fields[key]) else None
    case Arr(items) =>
      (match CanonicalIndex(key)
       case Some(i) => if i < |items| then Some(items[i]) else None
       case None => None)
    case _ => None
  }

  /** JavaScript's `Number.isInteger(v)` on a JSON value, with the integer. */
  function AsInteger(v: Option<JVal>): Option<int> {
    match v
    case Some(Num(n)) => Some(n)
    case _ => None
  }

  /** JavaScript's `String(v)`; an array prints as its elements joined by commas, `null` elements as "". */
  function JsString(v: JVal): (r: string)
    ensures v.Str? ==> r == v.s
    ensures v.Num? && v.n >= 0 ==> CanonicalIndex(r) == Some(v.n)
    ensures v.Null? || v.Bool? || v.Obj? ==> CanonicalIndex(r) == None
    decreases v
  {
    match v
    case Null => "null"
    case Bool(b) => if b then "true" else "false"
    case Num(n) => IntToString(n)
    case Str(s) => s
    case Arr(items) =>
      Join(seq(|items|, i requires 0 <= i < |items| => if items[i].Null? then "" else JsString(items[i])), ",")
    case Obj(_) => "[object Object]"
  }

  /** Python's `type(v).__name__` for a JSON value. */
  function PyTypeName(v: JVal): string {
    match v
    case Null => "NoneType"
    case Bool(_) => "bool"
    case Num(_) => "int"
    case Str(_) => "str"
    case Arr(_) => "list"
    case Obj(_) => "dict"
  }
}
