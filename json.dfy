/**
 * JSON values, and the text layer of Foundation that turns them into text and back.
 * The text layer is library code: the model takes it as a parameter.
 */
module Json {
  import opened Wrappers

  /** A JSON value; an object keeps its members in the order they were written. */
  datatype Json =
    | JNull
    | JBool(b: bool)
    | JNumber(n: int)
    | JString(s: string)
    | JArray(items: seq<Json>)
    | JObject(members: seq<(string, Json)>)

  /** The value of the first member named `key`, if any. */
  function Lookup(members: seq<(string, Json)>, key: string): (r: Option<Json>)
    ensures r.None? <==> forall i :: 0 <= i < |members| ==> members[i].0 != key
  {
    if members == [] then None
    else if members[0].0 == key then Some(members[0].1)
    else Lookup(members[1..], key)
  }

  /** When `Lookup` finds a member, it finds the first one with the key. */
  lemma {:induction false} LookupFindsFirst(members: seq<(string, Json)>, key: string)
    ensures Lookup(members, key).Some? ==>
              exists i :: 0 <= i < |members| && members[i] == (key, Lookup(members, key).value)
                          && forall k :: 0 <= k < i ==> members[k].0 != key
  {
    if members != [] && members[0].0 != key {
      LookupFindsFirst(members[1..], key);
      assert forall k :: 1 <= k < |members| ==> members[k] == members[1..][k - 1];
      if Lookup(members, key).Some? {
        var i :| 0 <= i < |members| - 1 && members[1..][i] == (key, Lookup(members, key).value)
                 && forall k :: 0 <= k < i ==> members[1..][k].0 != key;
        assert members[i + 1] == (key, Lookup(members, key).value);
      }
    }
  }

  /**
   * The text side of `JSONSerialization`: `parse` is `nil` on text that is not JSON,
   * `serialize` writes a value as text.
   */
  datatype TextLayer = TextLayer(parse: string -> Option<Json>, serialize: Json -> string)
}
