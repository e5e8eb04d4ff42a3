/** The JSON values carried by delta messages, with the three pieces of
    JavaScript behaviour the data browser applies to them: `Object.keys`,
    object spread (`{...v}`) and conversion to text in a template string. */
module Json {
  import opened Text

  datatype Option<+T> = None | Some(value: T)

  /** A JSON value. `Null` stands for both `null` and `undefined`; numbers are
      modelled as integers. */
  datatype Json =
    | Null
    | Bool(b: bool)
    | Num(n: int)
    | Str(s: string)
    | Arr(items: seq<Json>)
    | Obj(fields: map<string, Json>)

  /** JavaScript truthiness. */
  predicate Truthy(v: Json) {
    match v
    case Null => false
    case Bool(b) => b
    case Num(n) => n != 0
    case Str(s) => s != ""
    case Arr(_) => true
    case Obj(_) => true
  }

  /** The own enumerable properties of a string or an array: one per index,
      named by the index's decimal text. */
  function Indexed(vals: seq<Json>): (r: map<string, Json>)
    ensures forall i | 0 <= i < |vals| :: DecimalString(i) in r && r[DecimalString(i)] == vals[i]
    ensures forall k | k in r :: exists i :: 0 <= i < |vals| && k == DecimalString(i)
  {
    DecimalStringsDistinct();
    var r := map i | 0 <= i < |vals| :: DecimalString(i) := vals[i];
    assert forall i | 0 <= i < |vals| :: DecimalString(i) in r;
    r
  }

  /** The properties `{...v}` copies: those of an object, the indices of a
      string or an array, and none for `null`, `undefined`, booleans and
      numbers. */
  function SpreadFields(v: Json): (r: map<string, Json>)
    ensures v.Obj? ==> r == v.fields
    ensures v.Arr? ==> forall i | 0 <= i < |v.items| :: DecimalString(i) in r && r[DecimalString(i)] == v.items[i]
    ensures v.Arr? ==> forall k | k in r :: exists i :: 0 <= i < |v.items| && k == DecimalString(i)
    ensures v.Str? ==> forall i | 0 <= i < |v.s| :: DecimalString(i) in r && r[DecimalString(i)] == Str([v.s[i]])
    ensures v.Str? ==> forall k | k in r :: exists i :: 0 <= i < |v.s| && k == DecimalString(i)
    ensures v.Null? || v.Bool? || v.Num? ==> r == map[]
  {
    match v
    case Obj(fields) => fields
    case Arr(items) => Indexed(items)
    case Str(s) => Indexed(seq(|s|, i requires 0 <= i < |s| => Str([s[i]])))
    case _ => map[]
  }

  /** `Object.keys(v)` paired with `v[k]`: `None` where JavaScript throws a
      `TypeError` (`null` and `undefined`), the spread properties otherwise. */
  function OwnFields(v: Json): (r: Option<map<string, Json>>)
    ensures r.None? <==> v.Null?
    ensures r.Some? ==> r.value == SpreadFields(v)
  {
    if v.Null? then None else Some(SpreadFields(v))
  }

  /** `String(v)` as a template string prints it. Inside an array, `null` and
      `undefined` print as nothing. */
  function ToText(v: Json): string {
    match v
    case Null => "null"
    case Bool(b) => if b then "true" else "false"
    case Num(n) => if n < 0 then "-" + DecimalString(-n) else DecimalString(n)
    case Str(s) => s
    case Arr(items) =>
      JoinWithCommas(seq(|items|, i requires 0 <= i < |items| =>
        if items[i].Null? then "" else ToText(items[i])))
    case Obj(_) => "[object Object]"
  }

  function JoinWithCommas(parts: seq<string>): string {
    if parts == [] then ""
    else if |parts| == 1 then parts[0]
    else parts[0] + "," + JoinWithCommas(parts[1..])
  }
}
