/** Soroban's host `Map`: a vector of entries kept in ascending key order. */
module Tables {
  import opened Outcomes

  datatype Entry<+V> = Entry(key: int, value: V)

  predicate Sorted<V>(m: seq<Entry<V>>) {
    forall i, j :: 0 <= i < j < |m| ==> m[i].key < m[j].key
  }

  predicate HasKey<V>(m: seq<Entry<V>>, k: int) {
    exists i :: 0 <= i < |m| && m[i].key == k
  }

  function Get<V>(m: seq<Entry<V>>, k: int): (r: Option<V>)
    ensures r.Some? <==> HasKey(m, k)
  {
    if m == [] then None
    else if m[0].key == k then
      assert HasKey(m, k);
      Some(m[0].value)
    else
      assert forall i :: 1 <= i < |m| ==> m[i] == m[1..][i - 1];
      Get(m[1..], k)
  }

  function GetOr(m: seq<Entry<int>>, k: int, default: int): int {
    var r := Get(m, k);
    if r.Some? then r.value else default
  }

  function Set<V>(m: seq<Entry<V>>, k: int, v: V): seq<Entry<V>> {
    if m == [] || k < m[0].key then [Entry(k, v)] + m
    else if m[0].key == k then [Entry(k, v)] + m[1..]
    else [m[0]] + Set(m[1..], k, v)
  }

  lemma {:induction false} SetKeys<V>(m: seq<Entry<V>>, k: int, v: V, lower: int)
    requires Sorted(m)
    requires lower < k && (m != [] ==> lower < m[0].key)
    ensures Sorted(Set(m, k, v)) && Set(m, k, v) != [] && lower < Set(m, k, v)[0].key
  {
    if m != [] && m[0].key < k {
      SetKeys(m[1..], k, v, m[0].key);
    }
  }

  lemma SetSorted<V>(m: seq<Entry<V>>, k: int, v: V)
    requires Sorted(m)
    ensures Sorted(Set(m, k, v))
  {
    SetKeys(m, k, v, if m == [] || k < m[0].key then k - 1 else m[0].key - 1);
  }

  /** Writing one key changes what is read at that key and nothing else. */
  lemma {:induction false} GetSet<V>(m: seq<Entry<V>>, k: int, v: V, q: int)
    requires Sorted(m)
    ensures Get(Set(m, k, v), q) == if q == k then Some(v) else Get(m, q)
  {
    var s := Set(m, k, v);
    if m == [] || k < m[0].key {
      assert s[1..] == m;
      if q == k {
        assert s[0].key == k;
      }
    } else if m[0].key == k {
      assert s[1..] == m[1..];
    } else {
      assert s[1..] == Set(m[1..], k, v);
      GetSet(m[1..], k, v, q);
    }
  }

  /** A key above all others goes to the end. */
  lemma {:induction false} SetAppends<V>(m: seq<Entry<V>>, k: int, v: V)
    requires Sorted(m)
    requires m != [] ==> m[|m| - 1].key < k
    ensures Set(m, k, v) == m + [Entry(k, v)]
  {
    if m != [] {
      assert m[0].key < k by {
        assert |m| > 1 ==> m[0].key < m[|m| - 1].key;
      }
      SetAppends(m[1..], k, v);
    }
  }

  lemma {:induction false} GetAt<V>(m: seq<Entry<V>>, i: nat)
    requires Sorted(m) && i < |m|
    ensures Get(m, m[i].key) == Some(m[i].value)
  {
    if i > 0 {
      GetAt(m[1..], i - 1);
    }
  }
}
