/** Python dictionaries iterate in insertion order, and the server's behaviour
    depends on that order (which laser `check_lasers` removes, the order in
    which pending updates go out). An ordered map pairs an insertion-ordered
    key sequence with a map holding the values. */
module OrderedMaps {

  datatype RawMap<K(==), V> = RawMap(keys: seq<K>, vals: map<K, V>)

  /** No key is listed twice. */
  ghost predicate Distinct<K>(s: seq<K>)
  {
    |s| == 0 || (s[0] !in s[1..] && Distinct(s[1..]))
  }

  /** The keys listed in `s`, as a set. */
  ghost function Elems<K>(s: seq<K>): set<K>
  {
    if |s| == 0 then {} else {s[0]} + Elems(s[1..])
  }

  lemma {:induction false} ElemsIn<K>(s: seq<K>, k: K)
    ensures k in Elems(s) <==> k in s
  {
    if |s| > 0 {
      ElemsIn(s[1..], k);
      assert s == [s[0]] + s[1..];
    }
  }

  /** Every key is listed exactly once, and exactly the listed keys have values. */
  ghost predicate WellFormed<K, V>(m: RawMap<K, V>)
  {
    Distinct(m.keys) && m.vals.Keys == Elems(m.keys)
  }

  type OMap<K(==), V> = m: RawMap<K, V> | WellFormed(m) witness RawMap([], map[])

  /** A key has a value exactly when it is listed. */
  lemma Listed<K, V>(m: OMap<K, V>, k: K)
    ensures k in m.vals <==> k in m.keys
  {
    ElemsIn(m.keys, k);
  }

  /** The `i`-th key in insertion order. */
  function KeyAt<K(==), V>(m: OMap<K, V>, i: nat): (k: K)
    requires i < |m.keys|
    ensures k in m.vals && k == m.keys[i]
  {
    Listed(m, m.keys[i]);
    m.keys[i]
  }

  /** The position of a key in insertion order. */
  lemma KeyIndex<K, V>(m: OMap<K, V>, k: K) returns (i: nat)
    requires k in m.vals
    ensures i < |m.keys| && m.keys[i] == k
  {
    Listed(m, k);
    i :| 0 <= i < |m.keys| && m.keys[i] == k;
  }

  /** Different positions hold different keys. */
  lemma DistinctKeys<K, V>(m: OMap<K, V>, a: nat, b: nat)
    requires a < |m.keys| && b < |m.keys| && a != b
    ensures m.keys[a] != m.keys[b]
  {
    DistinctAt(m.keys, a, b);
  }

  lemma {:induction false} DistinctAt<K>(s: seq<K>, a: nat, b: nat)
    requires Distinct(s) && a < |s| && b < |s| && a != b
    ensures s[a] != s[b]
  {
    if a == 0 {
      assert s[b] == s[1..][b - 1];
    } else if b == 0 {
      assert s[a] == s[1..][a - 1];
    } else {
      DistinctAt(s[1..], a - 1, b - 1);
    }
  }

  function Empty<K(==), V>(): (m: OMap<K, V>)
    ensures m.keys == [] && m.vals == map[]
  {
    RawMap([], map[])
  }

  lemma {:induction false} DistinctSnoc<K>(s: seq<K>, k: K)
    requires Distinct(s) && k !in s
    ensures Distinct(s + [k]) && Elems(s + [k]) == Elems(s) + {k}
  {
    if |s| > 0 {
      assert (s + [k])[1..] == s[1..] + [k];
      DistinctSnoc(s[1..], k);
    }
  }

  /** `d[k] = v`: an existing key keeps its place, a new key goes last. */
  function Put<K(==), V>(m: OMap<K, V>, k: K, v: V): (r: OMap<K, V>)
    ensures r.vals == m.vals[k := v]
    ensures k in m.vals ==> r.keys == m.keys
    ensures k !in m.vals ==> r.keys == m.keys + [k]
  {
    if k in m.vals then RawMap(m.keys, m.vals[k := v])
    else
      Listed(m, k);
      DistinctSnoc(m.keys, k);
      RawMap(m.keys + [k], m.vals[k := v])
  }

  /** `s` with every occurrence of `k` taken out, order kept. */
  function Without<K(==)>(s: seq<K>, k: K): (r: seq<K>)
    ensures forall x | x in r :: x in s && x != k
    ensures forall x | x in s && x != k :: x in r
    ensures |r| <= |s|
    ensures k !in s ==> r == s
  {
    if |s| == 0 then []
    else if s[0] == k then Without(s[1..], k)
    else [s[0]] + Without(s[1..], k)
  }

  lemma {:induction false} WithoutDistinct<K>(s: seq<K>, k: K)
    requires Distinct(s)
    ensures Distinct(Without(s, k)) && Elems(Without(s, k)) == Elems(s) - {k}
  {
    if |s| > 0 {
      WithoutDistinct(s[1..], k);
      ElemsIn(s[1..], k);
      if s[0] != k {
        var r := [s[0]] + Without(s[1..], k);
        assert r[1..] == Without(s[1..], k);
      } else {
        assert k !in Elems(s[1..]);
      }
    }
  }

  /** `del d[k]` when `k` is present; no change otherwise. */
  function Remove<K(==), V>(m: OMap<K, V>, k: K): (r: OMap<K, V>)
    ensures r.vals == m.vals - {k}
    ensures r.keys == Without(m.keys, k)
  {
    WithoutDistinct(m.keys, k);
    RawMap(Without(m.keys, k), m.vals - {k})
  }

  /** `del d[k]` on an absent key would raise KeyError; the callers that
      catch it see the map unchanged. */
  lemma RemoveAbsent<K, V>(m: OMap<K, V>, k: K)
    requires k !in m.vals
    ensures Remove(m, k) == m
  {
    Listed(m, k);
    assert m.vals - {k} == m.vals;
  }

  /** Replace every value by `f(key, value)`, keys and order unchanged. */
  function MapValues<K(==), V>(m: OMap<K, V>, f: (K, V) -> V): (r: OMap<K, V>)
    ensures r.keys == m.keys && r.vals.Keys == m.vals.Keys
    ensures forall k :: k in m.vals ==> r.vals[k] == f(k, m.vals[k])
  {
    RawMap(m.keys, map k | k in m.vals :: f(k, m.vals[k]))
  }

  /** `for k in ks: d[k] = v`. */
  function PutEach<K(==), V>(m: OMap<K, V>, ks: seq<K>, v: V): (r: OMap<K, V>)
    ensures r.vals.Keys == m.vals.Keys + set k | k in ks
    ensures forall k | k in ks :: r.vals[k] == v
    ensures forall k | k in m.vals && k !in ks :: r.vals[k] == m.vals[k]
    ensures Distinct(ks) && (forall k | k in ks :: k !in m.vals) ==> r.keys == m.keys + ks
    decreases |ks|
  {
    if |ks| == 0 then
      assert m.keys + ks == m.keys;
      m
    else
      assert ks == [ks[0]] + ks[1..];
      assert m.keys + ks == (m.keys + [ks[0]]) + ks[1..];
      PutEach(Put(m, ks[0], v), ks[1..], v)
  }

  /** Concatenation regroups freely; stated once so that proofs about
      frame lists can cite it instead of re-deriving it. */
  lemma Associative<T>(a: seq<T>, b: seq<T>, c: seq<T>)
    ensures a + (b + c) == (a + b) + c
  {
  }

  /** A prefix grows by one element at a time and ends as the whole. */
  lemma Snoc<T>(s: seq<T>, j: nat)
    requires j <= |s|
    ensures j < |s| ==> s[..j + 1] == s[..j] + [s[j]]
    ensures j == |s| ==> s[..j] == s
  {
  }
}
