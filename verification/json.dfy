/**
 * JSON values as Python's `json.loads` hands them to the core, and the few
 * operations the core applies to them: `dict.get`, iteration over a dict and
 * Python truthiness.
 */
module Json {
  import opened Wrappers

  datatype Json =
    | JNull
    | JBool(b: bool)
    | JNumber(x: real)
    | JString(s: string)
    | JArray(items: seq<Json>)
      /** The members of an object in document order; the dict built from them is derived below. */
    | JObject(entries: seq<(string, Json)>)

  /**
   * The value of the last of the first `n` entries whose key is `key`:
   * searching from the back is how a key given twice keeps its last value.
   */
  function LookupBefore(entries: seq<(string, Json)>, key: string, n: nat): (r: Option<Json>)
    requires n <= |entries|
    ensures r.None? <==> forall i :: 0 <= i < n ==> entries[i].0 != key
    ensures r.Some? ==> exists i :: 0 <= i < n && entries[i] == (key, r.value) &&
                                    forall j :: i < j < n ==> entries[j].0 != key
  {
    if n == 0 then None
    else if entries[n - 1].0 == key then Some(entries[n - 1].1)
    else LookupBefore(entries, key, n - 1)
  }

  /** `d.get(key)` on the dict that `json.loads` builds from `entries`: a key given twice keeps its last value. */
  function Lookup(entries: seq<(string, Json)>, key: string): (r: Option<Json>)
    ensures r.None? <==> forall i :: 0 <= i < |entries| ==> entries[i].0 != key
    ensures r.Some? ==> exists i :: 0 <= i < |entries| && entries[i] == (key, r.value) &&
                                    forall j :: i < j < |entries| ==> entries[j].0 != key
  {
    LookupBefore(entries, key, |entries|)
  }

  /** `d.get(key, default)`: the value of the last entry with `key`, `default` when there is none. */
  function Get(entries: seq<(string, Json)>, key: string, default: Json): (r: Json)
    ensures (forall i :: 0 <= i < |entries| ==> entries[i].0 != key) ==> r == default
    ensures (exists i :: 0 <= i < |entries| && entries[i].0 == key) ==>
      exists i :: 0 <= i < |entries| && entries[i] == (key, r) && forall j :: i < j < |entries| ==> entries[j].0 != key
  {
    Lookup(entries, key).GetOr(default)
  }

  /** Iterating the dict: every key once, in the order of its first occurrence. */
  function Keys(entries: seq<(string, Json)>): (ks: seq<string>)
    ensures forall i, j :: 0 <= i < j < |ks| ==> ks[i] != ks[j]
    ensures forall k :: k in ks <==> exists i :: 0 <= i < |entries| && entries[i].0 == k
  {
    if entries == [] then []
    else
      var front := entries[..|entries| - 1];
      var ks := Keys(front);
      assert forall i :: 0 <= i < |entries| - 1 ==> front[i] == entries[i];
      if entries[|entries| - 1].0 in ks then ks else ks + [entries[|entries| - 1].0]
  }

  /** Key `a` occurs in `entries` before the first occurrence of key `b`. */
  ghost predicate FirstBefore(entries: seq<(string, Json)>, a: string, b: string) {
    exists p :: 0 <= p < |entries| && entries[p].0 == a && forall q :: 0 <= q <= p ==> entries[q].0 != b
  }

  /** Iteration follows first occurrence: an earlier key first appears before a later one does. */
  lemma {:induction false} KeysInOrder(entries: seq<(string, Json)>)
    ensures forall i, j :: 0 <= i < j < |Keys(entries)| ==> FirstBefore(entries, Keys(entries)[i], Keys(entries)[j])
  {
    if entries != [] {
      var front := entries[..|entries| - 1];
      var ks := Keys(front);
      var x := entries[|entries| - 1].0;
      KeysInOrder(front);
      assert forall i :: 0 <= i < |front| ==> front[i] == entries[i];
      forall a, b | FirstBefore(front, a, b)
        ensures FirstBefore(entries, a, b)
      {
        var p :| 0 <= p < |front| && front[p].0 == a && forall q :: 0 <= q <= p ==> front[q].0 != b;
        assert entries[p].0 == a;
      }
      if x !in ks {
        assert Keys(entries) == ks + [x];
        forall i | 0 <= i < |ks|
          ensures FirstBefore(entries, ks[i], x)
        {
          assert ks[i] in ks;
          var p :| 0 <= p < |front| && front[p].0 == ks[i];
          assert entries[p].0 == ks[i];
        }
      }
    }
  }

  /** Python truthiness: `None`, `False`, zero, `""`, `[]` and `{}` are false. */
  predicate Truthy(j: Json) {
    match j
    case JNull => false
    case JBool(b) => b
    case JNumber(x) => x != 0.0
    case JString(s) => s != ""
    case JArray(items) => items != []
    case JObject(entries) => entries != []
  }
}
