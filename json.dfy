/**
 * JSON values as JavaScript holds them after `JSON.parse`: an object is the
 * list of its own properties in insertion order.
 */
module Json {
  import opened Wrappers
  import Text

  datatype Json =
    | JNull
    | JBool(b: bool)
    | JNum(n: real)
    | JStr(s: string)
    | JArr(items: seq<Json>)
    | JObj(members: seq<(string, Json)>)

  /** The value stored under `key`, or `None` for `undefined`. */
  function Get(members: seq<(string, Json)>, key: string): (r: Option<Json>)
    ensures r.None? <==> forall i :: 0 <= i < |members| ==> members[i].0 != key
    ensures r.Some? ==> exists i :: 0 <= i < |members| && members[i] == (key, r.value)
  {
    if |members| == 0 then None
    else if members[0].0 == key then Some(members[0].1)
    else Get(members[1..], key)
  }

  /** Looking a key up past a first member that has a different name. */
  lemma GetSkip(m: (string, Json), rest: seq<(string, Json)>, key: string)
    requires m.0 != key
    ensures Get([m] + rest, key) == Get(rest, key)
  {
    assert ([m] + rest)[1..] == rest;
  }

  /** A member whose name no earlier member has is the one the lookup finds. */
  lemma {:induction false} GetFirst(members: seq<(string, Json)>, i: nat)
    requires i < |members|
    requires forall j :: 0 <= j < i ==> members[j].0 != members[i].0
    ensures Get(members, members[i].0) == Some(members[i].1)
    decreases i
  {
    if i > 0 {
      GetFirst(members[1..], i - 1);
    }
  }

  /** `v[key]` read from an object; anything that is not an object yields `undefined`. */
  function Field(v: Json, key: string): Option<Json>
  {
    if v.JObj? then Get(v.members, key) else None
  }

  /** Property names of an object, in order. */
  function Keys(members: seq<(string, Json)>): (ks: seq<string>)
    ensures |ks| == |members|
    ensures forall i :: 0 <= i < |ks| ==> ks[i] == members[i].0
  {
    if |members| == 0 then [] else [members[0].0] + Keys(members[1..])
  }

  /** JavaScript truthiness. */
  predicate Truthy(v: Json)
  {
    match v
    case JNull => false
    case JBool(b) => b
    case JNum(n) => n != 0.0
    case JStr(s) => s != ""
    case _ => true
  }

  /**
   * `String(v)`, which is also the property key JavaScript uses when `v`
   * indexes an object. `numberText` is the engine's Number-to-String
   * conversion.
   */
  function ToJsString(v: Json, numberText: real -> string): string
    decreases v
  {
    match v
    case JNull => "null"
    case JBool(b) => if b then "true" else "false"
    case JNum(n) => numberText(n)
    case JStr(s) => s
    case JArr(items) =>
      Text.Join(seq(|items|, i requires 0 <= i < |items| =>
                      if items[i].JNull? then "" else ToJsString(items[i], numberText)), ",")
    case JObj(_) => "[object Object]"
  }

  /** The properties every plain object inherits from `Object.prototype`. */
  const ObjectPrototypeKeys: set<string> :=
    {"constructor", "hasOwnProperty", "isPrototypeOf", "propertyIsEnumerable", "toLocaleString",
     "toString", "valueOf", "__defineGetter__", "__defineSetter__", "__lookupGetter__",
     "__lookupSetter__", "__proto__"}

  /** `key in obj`, or a truthy `obj[key]`, on a plain object whose own keys are `own`. */
  predicate JsIn(key: string, own: set<string>)
  {
    key in own || key in ObjectPrototypeKeys
  }
}
