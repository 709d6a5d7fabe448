/**
 * The JSON-compatible nested structure a Form serializes to. A Python dict is an
 * insertion-ordered list of entries whose keys are unique once built through `Set`.
 */
module JsonData {
  import opened Wrappers

  datatype Json =
    | JNull
    | JBool(b: bool)
    | JInt(i: int)
    | JString(s: string)
    | JArray(items: seq<Json>)
    | JObject(entries: seq<(string, Json)>)

  /** The entries of a dict, in insertion order. */
  type Entries = seq<(string, Json)>

  /** No key occurs twice, as in every Python dict. */
  predicate UniqueKeys(d: Entries) {
    forall i, j :: 0 <= i < j < |d| ==> d[i].0 != d[j].0
  }

  /** The keys of a dict, in order (`d.keys()`). */
  function Keys(d: Entries): (r: seq<string>)
    ensures |r| == |d|
    ensures forall i :: 0 <= i < |d| ==> r[i] == d[i].0
  {
    if d == [] then [] else [d[0].0] + Keys(d[1..])
  }

  /** `key in d`. */
  predicate HasKey(d: Entries, key: string) {
    exists i :: 0 <= i < |d| && d[i].0 == key
  }

  /** `d.get(key)`: the value of the first entry with that key, or None. */
  function Get(d: Entries, key: string): (r: Option<Json>)
    ensures r.Some? <==> HasKey(d, key)
    ensures r.Some? ==> (key, r.value) in d
    ensures r.Some? && UniqueKeys(d) ==> forall i :: 0 <= i < |d| && d[i].0 == key ==> d[i].1 == r.value
  {
    if d == [] then None
    else if d[0].0 == key then Some(d[0].1)
    else
      var r := Get(d[1..], key);
      assert r.Some? ==> (key, r.value) in d by {
        if r.Some? { assert (key, r.value) in d[1..]; }
      }
      assert HasKey(d, key) ==> HasKey(d[1..], key) by {
        if HasKey(d, key) {
          var i :| 0 <= i < |d| && d[i].0 == key;
          assert d[1..][i - 1].0 == key;
        }
      }
      assert HasKey(d[1..], key) ==> HasKey(d, key) by {
        if HasKey(d[1..], key) {
          var i :| 0 <= i < |d[1..]| && d[1..][i].0 == key;
          assert d[i + 1].0 == key;
        }
      }
      r
  }

  /** `d[key] = value`: replaces the value in place when the key exists, else appends. */
  function Set(d: Entries, key: string, value: Json): (r: Entries)
    ensures UniqueKeys(d) ==> UniqueKeys(r)
    ensures (key, value) in r
    ensures forall p :: p in r ==> p.0 == key || p in d
  {
    if d == [] then [(key, value)]
    else if d[0].0 == key then
      var r := [(key, value)] + d[1..];
      assert forall p :: p in d[1..] ==> p in d;
      assert UniqueKeys(d) ==> UniqueKeys(r) by {
        if UniqueKeys(d) {
          forall i, j | 0 <= i < j < |r| ensures r[i].0 != r[j].0 {
            assert r[j] == d[j];
            if i > 0 { assert r[i] == d[i]; }
          }
        }
      }
      r
    else
      var rest := Set(d[1..], key, value);
      assert forall p :: p in d[1..] ==> p in d;
      SetKeysHead(d, rest, key);
      [d[0]] + rest
  }

  lemma SetKeysHead(d: Entries, rest: Entries, key: string)
    requires d != [] && d[0].0 != key
    requires UniqueKeys(d[1..]) ==> UniqueKeys(rest)
    requires forall p :: p in rest ==> p.0 == key || p in d[1..]
    ensures UniqueKeys(d) ==> UniqueKeys([d[0]] + rest)
  {
    if UniqueKeys(d) {
      assert UniqueKeys(d[1..]) by {
        forall i, j | 0 <= i < j < |d[1..]| ensures d[1..][i].0 != d[1..][j].0 {
          assert d[1..][i] == d[i + 1] && d[1..][j] == d[j + 1];
        }
      }
      forall j | 0 <= j < |rest| ensures rest[j].0 != d[0].0 {
        assert rest[j] in rest;
        if rest[j] in d[1..] {
          var i :| 0 <= i < |d[1..]| && d[1..][i] == rest[j];
          assert d[i + 1] == rest[j];
        }
      }
      var r := [d[0]] + rest;
      forall i, j | 0 <= i < j < |r| ensures r[i].0 != r[j].0 {
        assert r[j] == rest[j - 1];
        if i > 0 { assert r[i] == rest[i - 1]; }
      }
    }
  }

  /** `dict(pairs)`: later duplicates overwrite the value but keep the first position. */
  function DictOf(pairs: seq<(string, Json)>): (r: Entries)
    ensures UniqueKeys(r)
    decreases |pairs|
  {
    if pairs == [] then []
    else
      var init := DictOf(pairs[..|pairs| - 1]);
      Set(init, pairs[|pairs| - 1].0, pairs[|pairs| - 1].1)
  }

  /** A dict built from pairs with distinct keys is those pairs, in order. */
  lemma {:induction false} DictOfDistinct(pairs: seq<(string, Json)>)
    requires UniqueKeys(pairs)
    ensures DictOf(pairs) == pairs
    decreases |pairs|
  {
    if pairs != [] {
      var init := pairs[..|pairs| - 1];
      var last := pairs[|pairs| - 1];
      assert UniqueKeys(init);
      DictOfDistinct(init);
      forall i | 0 <= i < |init| ensures init[i].0 != last.0 {
        assert init[i] == pairs[i];
      }
      SetAbsentAppends(init, last.0, last.1);
      assert init + [last] == pairs;
    }
  }

  lemma {:induction false} SetAbsentAppends(d: Entries, key: string, value: Json)
    requires !HasKey(d, key)
    ensures Set(d, key, value) == d + [(key, value)]
  {
    if d != [] {
      assert d[0].0 != key by { assert d[0].0 == key ==> HasKey(d, key); }
      SetAbsentAppends(d[1..], key, value);
      assert [d[0]] + (d[1..] + [(key, value)]) == d + [(key, value)];
    }
  }
}
