/**
 * JavaScript values as they arrive in request bodies and audit-log details:
 * JSON values plus `undefined`, with objects as ordered lists of entries
 * (the order of `Object.entries`).
 */
module Json {

  /** One `key: value` entry of an object. */
  datatype Entry = Entry(key: string, value: Json)

  datatype Json =
    | Undefined
    | Null
    | Bool(b: bool)
    | Num(n: real)
    | Str(s: string)
    | Arr(items: seq<Json>)
    | Obj(entries: seq<Entry>)

  /** JavaScript truthiness: `undefined`, `null`, `false`, `0` and "" are falsy. */
  predicate Truthy(j: Json) {
    match j
    case Undefined => false
    case Null => false
    case Bool(b) => b
    case Num(n) => n != 0.0
    case Str(s) => s != ""
    case Arr(_) => true
    case Obj(_) => true
  }

  /** `typeof j === "object"`: null, arrays and objects. */
  predicate IsObjectType(j: Json) {
    j.Null? || j.Arr? || j.Obj?
  }

  /** The keys of an object, in entry order. */
  function Keys(entries: seq<Entry>): (ks: seq<string>)
    ensures |ks| == |entries|
    ensures forall i :: 0 <= i < |entries| ==> ks[i] == entries[i].key
  {
    seq(|entries|, i requires 0 <= i < |entries| => entries[i].key)
  }

  /** `obj[key]`: the value of the last entry with that key, `undefined` when there is none. */
  function Get(j: Json, key: string): (v: Json)
    ensures !j.Obj? ==> v == Undefined
    ensures j.Obj? && (forall i :: 0 <= i < |j.entries| ==> j.entries[i].key != key) ==> v == Undefined
    ensures j.Obj? && v != Undefined ==> exists i :: 0 <= i < |j.entries| && j.entries[i] == Entry(key, v)
    ensures j.Obj? ==> forall i ::
              (0 <= i < |j.entries| && j.entries[i].key == key && forall k :: i < k < |j.entries| ==> j.entries[k].key != key)
              ==> v == j.entries[i].value
  {
    if !j.Obj? then Undefined else Lookup(j.entries, key)
  }

  function Lookup(entries: seq<Entry>, key: string): (v: Json)
    ensures (forall i :: 0 <= i < |entries| ==> entries[i].key != key) ==> v == Undefined
    ensures v != Undefined ==> exists i :: 0 <= i < |entries| && entries[i] == Entry(key, v)
    ensures forall i ::
              (0 <= i < |entries| && entries[i].key == key && forall k :: i < k < |entries| ==> entries[k].key != key)
              ==> v == entries[i].value
  {
    if |entries| == 0 then Undefined
    else
      var last := entries[|entries| - 1];
      if last.key == key then last.value
      else
        var v := Lookup(entries[..|entries| - 1], key);
        assert forall i :: 0 <= i < |entries| - 1 ==> entries[..|entries| - 1][i] == entries[i];
        v
  }

  /** The string inside a value, "" for anything that is not a string. */
  function StrOrEmpty(j: Json): (s: string)
    ensures j.Str? ==> s == j.s
    ensures !j.Str? ==> s == ""
  {
    if j.Str? then j.s else ""
  }
}
