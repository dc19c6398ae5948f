/**
 * JavaScript's `Map` with string keys: a lookup table that also remembers
 * the order in which keys were first set, the order `values()` and
 * `forEach` visit them in.
 */
module JsMap {
  import opened Wrappers

  datatype OrderedMap<V> = OrderedMap(keys: seq<string>, entries: map<string, V>) {

    /** The keys are distinct and are exactly the keys of the table. */
    ghost predicate Valid() {
      && (forall i, j :: 0 <= i < j < |keys| ==> keys[i] != keys[j])
      && (forall k :: k in entries <==> k in keys)
    }

    /** `map.size`. */
    function Size(): nat {
      |keys|
    }

    /** `map.get(key)`. */
    function Get(key: string): (r: Option<V>)
      ensures r.Some? <==> key in entries
      ensures r.Some? ==> r.value == entries[key]
    {
      if key in entries then Some(entries[key]) else None
    }

    /** `map.set(key, value)`: a new key goes last, an existing key keeps its place. */
    function Set(key: string, value: V): (m: OrderedMap<V>)
      requires Valid()
      ensures m.Valid()
      ensures m.entries == entries[key := value]
      ensures key in entries ==> m.keys == keys
      ensures key !in entries ==> m.keys == keys + [key]
    {
      OrderedMap(if key in entries then keys else keys + [key], entries[key := value])
    }

    /** `Array.from(map.values())`: the values in key order. */
    function Values(): (r: seq<V>)
      requires Valid()
      ensures |r| == Size()
      ensures forall i :: 0 <= i < |keys| ==> r[i] == entries[keys[i]]
    {
      seq(|keys|, i requires 0 <= i < |keys| => entries[keys[i]])
    }
  }

  /** `new Map()`. */
  function EmptyMap<V>(): (m: OrderedMap<V>)
    ensures m.Valid() && m.Size() == 0 && m.entries == map[]
  {
    OrderedMap([], map[])
  }

  /** `new Map([[key, value]])`: a map holding one entry. */
  function Singleton<V>(key: string, value: V): (m: OrderedMap<V>)
    ensures m.Valid() && m.keys == [key] && m.Values() == [value] && m.Get(key) == Some(value)
  {
    EmptyMap<V>().Set(key, value)
  }

  /** Setting a key and reading it back gives the value set; other keys are untouched. */
  lemma SetThenGet<V>(m: OrderedMap<V>, key: string, value: V, other: string)
    requires m.Valid()
    ensures m.Set(key, value).Get(key) == Some(value)
    ensures other != key ==> m.Set(key, value).Get(other) == m.Get(other)
    ensures m.Set(key, value).Size() == m.Size() + (if key in m.entries then 0 else 1)
  {
  }

  /** A new key's value is visited last; overwriting a key leaves the others' order alone. */
  lemma SetValues<V>(m: OrderedMap<V>, key: string, value: V)
    requires m.Valid()
    ensures key !in m.entries ==> m.Set(key, value).Values() == m.Values() + [value]
    ensures key in m.entries ==> |m.Set(key, value).Values()| == |m.Values()|
    ensures forall i :: 0 <= i < |m.keys| && m.keys[i] != key ==> m.Set(key, value).Values()[i] == m.Values()[i]
  {
    var n := m.Set(key, value);
    if key !in m.entries {
      assert n.Values() == m.Values() + [value] by {
        forall i | 0 <= i < |n.keys| ensures n.Values()[i] == (m.Values() + [value])[i] {
          if i == |m.keys| {
            assert n.keys[i] == key;
          }
        }
      }
    }
  }

  /** The size of a valid map is the number of its keys. */
  lemma SizeIsKeyCount<V>(m: OrderedMap<V>)
    requires m.Valid()
    ensures m.Size() == |m.entries|
  {
    assert m.entries.Keys == set k | k in m.keys;
    DistinctCardinality(m.keys);
  }

  /** A sequence of distinct strings has as many elements as its set. */
  lemma {:induction false} DistinctCardinality(s: seq<string>)
    requires forall i, j :: 0 <= i < j < |s| ==> s[i] != s[j]
    ensures |set k | k in s| == |s|
    decreases |s|
  {
    if s != [] {
      var init := s[..|s| - 1];
      DistinctCardinality(init);
      var last := s[|s| - 1];
      assert (set k | k in s) == (set k | k in init) + {last};
      assert last !in (set k | k in init);
    }
  }
}
