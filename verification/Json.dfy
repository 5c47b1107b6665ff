/**
 Untyped request bodies. Both gates receive parsed JSON and read fields that
 may be missing or of any type; reading a field of `undefined` or `null` throws.
 */
module Json {
  import opened Wrappers

  datatype Json =
    | Undefined
    | Null
    | Bool(b: bool)
    | Num(n: real)
    | Str(s: string)
    | Arr(items: seq<Json>)
    | Obj(fields: map<string, Json>)
    | Inherited(name: string)  // a member of Object.prototype reached through a table lookup

  /** A field access on the value does not throw. */
  predicate Readable(j: Json) {
    !j.Undefined? && !j.Null?
  }

  /** The field, Undefined when there is none. */
  function Get(j: Json, key: string): Json
    requires Readable(j)
  {
    if j.Obj? && key in j.fields then j.fields[key] else Undefined
  }

  /** The field of a value that may itself be missing. */
  function MaybeGet(j: Json, key: string): Json {
    if Readable(j) then Get(j, key) else Undefined
  }

  /** The left value unless it is undefined or null. */
  function Coalesce(left: Json, right: Json): Json {
    if Readable(left) then left else right
  }

  predicate Truthy(j: Json) {
    match j
    case Undefined => false
    case Null => false
    case Bool(b) => b
    case Num(n) => n != 0.0
    case Str(s) => s != ""
    case _ => true
  }

  /** The type test for objects, which null and arrays pass too. */
  predicate TypeofObject(j: Json) {
    j.Null? || j.Arr? || j.Obj?
  }

  // ---------------------------------------------------------------------
  // Conversion to text
  // ---------------------------------------------------------------------

  /** Whatever digits a number prints as; no letters but those of an exponent. */
  const NUMERAL := "0"

  /** The text a value converts to, None when the conversion throws. Parsed values
      hold no functions, so an object's own `toString` field cannot be called and
      leaves the conversion with nothing to fall back on. */
  function ToText(j: Json): Option<string> {
    match j
    case Undefined => Some("undefined")
    case Null => Some("null")
    case Bool(b) => Some(if b then "true" else "false")
    case Num(_) => Some(NUMERAL)
    case Str(s) => Some(s)
    case Arr(items) => JoinText(items)
    case Obj(fields) => if "toString" in fields then None else Some("[object Object]")
    case Inherited(name) => Some(name)
  }

  /** An array's text: its elements' texts between commas, missing ones empty. */
  function JoinText(items: seq<Json>): Option<string> {
    if items == [] then Some("")
    else
      var first := if Readable(items[0]) then ToText(items[0]) else Some("");
      var rest := JoinText(items[1..]);
      if first.None? || rest.None? then None
      else Some(first.value + (if |items| == 1 then "" else "," + rest.value))
  }

  /** The value is, or holds at some depth of nested arrays, an object with a field named toString. */
  predicate Textless(j: Json) {
    match j
    case Obj(fields) => "toString" in fields
    case Arr(items) => exists i :: 0 <= i < |items| && Textless(items[i])
    case _ => false
  }

  /** Exactly these values have no text. */
  lemma {:induction false} TextlessHasNoText(j: Json)
    ensures ToText(j).None? <==> Textless(j)
    decreases j, 1
  {
    if j.Arr? {
      TextlessElement(j.items);
    }
  }

  lemma {:induction false} TextlessElement(items: seq<Json>)
    ensures JoinText(items).None? <==> exists i :: 0 <= i < |items| && Textless(items[i])
    decreases items, 0
  {
    if items != [] {
      TextlessHasNoText(items[0]);
      TextlessElement(items[1..]);
      if JoinText(items[1..]).None? {
        var i :| 0 <= i < |items[1..]| && Textless(items[1..][i]);
        assert Textless(items[i + 1]);
      }
      if i :| 0 <= i < |items| && Textless(items[i]) {
        if i > 0 {
          assert Textless(items[1..][i - 1]);
        }
      }
    }
  }
}
