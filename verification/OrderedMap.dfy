/** A map in insertion order, as the list of its values: what a `Map` keyed by a field of them holds. */
module OrderedMap {
  import opened Prelude

  /** `map.set(key(v), v)`: in place when the key is there, else at the end. */
  function Put<V>(values: seq<V>, key: V -> string, v: V): seq<V> {
    if values == [] then [v]
    else if key(values[0]) == key(v) then [v] + values[1..]
    else [values[0]] + Put(values[1..], key, v)
  }

  /** `map.get(k)`. */
  function Get<V>(values: seq<V>, key: V -> string, k: string): Option<V> {
    if values == [] then None
    else if key(values[0]) == k then Some(values[0])
    else Get(values[1..], key, k)
  }

  predicate Unique<V>(values: seq<V>, key: V -> string) {
    forall i, j :: 0 <= i < j < |values| ==> key(values[i]) != key(values[j])
  }

  lemma TailUnique<V>(values: seq<V>, key: V -> string)
    requires values != [] && Unique(values, key)
    ensures Unique(values[1..], key)
    ensures forall x :: x in values[1..] ==> key(x) != key(values[0])
    ensures forall x :: x in values <==> x == values[0] || x in values[1..]
  {
    assert values == [values[0]] + values[1..];
    assert forall i :: 0 <= i < |values[1..]| ==> values[1..][i] == values[i + 1];
  }

  lemma ConsUnique<V>(v: V, values: seq<V>, key: V -> string)
    requires Unique(values, key) && forall x :: x in values ==> key(x) != key(v)
    ensures Unique([v] + values, key)
  {
    forall i, j | 0 <= i < j < |[v] + values|
      ensures key(([v] + values)[i]) != key(([v] + values)[j])
    {
      assert ([v] + values)[j] == values[j - 1] && values[j - 1] in values;
    }
  }

  /** A put keeps the keys unique, and replaces at most the value under its key. */
  lemma {:induction false} PutEffect<V>(values: seq<V>, key: V -> string, v: V)
    requires Unique(values, key)
    ensures Unique(Put(values, key, v), key)
    ensures forall x: V :: x in Put(values, key, v) ==> x == v || (x in values && key(x) != key(v))
    ensures v in Put(values, key, v)
    ensures forall x: V :: x in values && key(x) != key(v) ==> x in Put(values, key, v)
  {
    if values != [] {
      var first, rest := values[0], values[1..];
      TailUnique(values, key);
      if key(first) != key(v) {
        PutEffect(rest, key, v);
        hide Unique;
        ConsUnique(first, Put(rest, key, v), key);
      } else {
        hide Unique;
        ConsUnique(v, rest, key);
      }
    }
  }

  lemma {:induction false} GetIs<V>(values: seq<V>, key: V -> string, k: string)
    ensures var found := Get(values, key, k);
            && (found.Some? ==> found.value in values && key(found.value) == k)
            && (found.None? ==> forall x :: x in values ==> key(x) != k)
  {
    if values != [] {
      GetIs(values[1..], key, k);
      assert values == [values[0]] + values[1..];
    }
  }

  lemma {:induction false} GetUnique<V>(values: seq<V>, key: V -> string, v: V)
    requires Unique(values, key) && v in values
    ensures Get(values, key, key(v)) == Some(v)
  {
    TailUnique(values, key);
    if values[0] != v {
      GetUnique(values[1..], key, v);
    }
  }

  lemma {:induction false} PutGet<V>(values: seq<V>, key: V -> string, v: V, k: string)
    ensures Get(Put(values, key, v), key, k) == if k == key(v) then Some(v) else Get(values, key, k)
  {
    if values != [] {
      PutGet(values[1..], key, v, k);
      if key(values[0]) != key(v) {
        assert Put(values, key, v)[1..] == Put(values[1..], key, v);
      } else {
        assert Put(values, key, v)[1..] == values[1..];
      }
    }
  }

  lemma {:induction false} PutNew<V>(values: seq<V>, key: V -> string, v: V)
    requires forall x :: x in values ==> key(x) != key(v)
    ensures Put(values, key, v) == values + [v]
  {
    if values != [] {
      PutNew(values[1..], key, v);
      assert values == [values[0]] + values[1..];
    }
  }
}
