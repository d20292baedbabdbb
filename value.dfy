/** JSON-like values as the filter receives them from a playbook: the
    dictionary of APPLY options and everything nested in it. */
module JsonValue {

  datatype Option<+T> = None | Some(value: T)

  /** A dictionary is an association list in key-iteration order, so the
      order in which a Python dict yields its keys (and therefore the order
      of the messages) is kept. */
  datatype Value =
    | Null
    | Bool(boolean: bool)
    | Int(number: int)
    | Str(text: string)
    | List(items: seq<Value>)
    | Dict(entries: seq<(string, Value)>)

  /** Python's `v in [False, True]`: membership by equality, so the integers
      0 and 1 are accepted as well as the two booleans. */
  predicate IsBoolLike(v: Value) {
    v.Bool? || v == Int(0) || v == Int(1)
  }

  /** Python's `v == True`, which also holds of the integer 1. */
  predicate EqualsTrue(v: Value) {
    v == Bool(true) || v == Int(1)
  }

  /** Python's `k in d` */
  predicate HasKey(entries: seq<(string, Value)>, k: string) {
    exists i :: 0 <= i < |entries| && entries[i].0 == k
  }

  /** Python dictionaries never repeat a key. */
  ghost predicate UniqueKeys(entries: seq<(string, Value)>) {
    forall i, j :: 0 <= i < j < |entries| ==> entries[i].0 != entries[j].0
  }

  /** Python's `d[k]` when `k in d`, `None` otherwise: the value of the first
      entry with key `k`. */
  function Lookup(entries: seq<(string, Value)>, k: string): (r: Option<Value>)
    ensures r.Some? <==> HasKey(entries, k)
    ensures r.Some? ==> exists i :: 0 <= i < |entries| && entries[i] == (k, r.value)
  {
    if entries == [] then None
    else if entries[0].0 == k then Some(entries[0].1)
    else
      var r := Lookup(entries[1..], k);
      assert r.Some? ==> exists i :: 0 <= i < |entries[1..]| && entries[1..][i] == (k, r.value);
      assert HasKey(entries[1..], k) ==> HasKey(entries, k);
      assert HasKey(entries, k) ==> HasKey(entries[1..], k);
      r
  }

  /** With unique keys, looking up the key of any entry gives that entry's
      value: iterating the entries and indexing the dictionary agree. */
  lemma {:induction false} LookupEntry(entries: seq<(string, Value)>, i: nat)
    requires UniqueKeys(entries)
    requires i < |entries|
    ensures Lookup(entries, entries[i].0) == Some(entries[i].1)
  {
    if i > 0 {
      assert entries[0].0 != entries[i].0;
      assert UniqueKeys(entries[1..]) by {
        forall a, b | 0 <= a < b < |entries[1..]|
          ensures entries[1..][a].0 != entries[1..][b].0
        {
          assert entries[1..][a] == entries[a + 1] && entries[1..][b] == entries[b + 1];
        }
      }
      LookupEntry(entries[1..], i - 1);
    }
  }
}
