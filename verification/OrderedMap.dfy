/** A map that keeps insertion order: replacing a value keeps its place, a new key goes last. */
module OrderedMap {
  type Entries<K, V> = seq<(K, V)>

  ghost predicate Distinct<K, V>(m: Entries<K, V>) {
    forall i, j :: 0 <= i < j < |m| ==> m[i].0 != m[j].0
  }

  /** The place of `key`, or the length when absent. */
  function Find<K(==), V>(m: Entries<K, V>, key: K): (i: nat)
    ensures i <= |m|
    ensures i < |m| ==> m[i].0 == key
    ensures forall j :: 0 <= j < i ==> m[j].0 != key
  {
    if m == [] then 0 else if m[0].0 == key then 0 else 1 + Find(m[1..], key)
  }

  function Set<K(==), V>(m: Entries<K, V>, key: K, value: V): Entries<K, V> {
    var i := Find(m, key);
    if i < |m| then m[i := (key, value)] else m + [(key, value)]
  }

  /** Setting a key leaves every other entry, and a present key's, in its place; a new one goes last. */
  lemma SetKeepsPlace<K, V>(m: Entries<K, V>, key: K, value: V)
    ensures var n := Set(m, key, value);
            && |n| == (if Find(m, key) < |m| then |m| else |m| + 1) && n[Find(m, key)] == (key, value)
            && forall j :: 0 <= j < |m| && j != Find(m, key) ==> n[j] == m[j]
  {
  }

  function Delete<K(==), V>(m: Entries<K, V>, key: K): Entries<K, V> {
    var i := Find(m, key);
    if i < |m| then m[..i] + m[i + 1..] else m
  }

  ghost function ToMap<K(!new), V>(m: Entries<K, V>): map<K, V>
    requires Distinct(m)
  {
    map i | 0 <= i < |m| :: m[i].0 := m[i].1
  }

  lemma SetIsUpdate<K(!new), V>(m: Entries<K, V>, key: K, value: V)
    requires Distinct(m)
    ensures Distinct(Set(m, key, value)) && ToMap(Set(m, key, value)) == ToMap(m)[key := value]
  {
    var i, n := Find(m, key), Set(m, key, value);
    assert n[i] == (key, value);
    assert forall j :: 0 <= j < |m| && j != i ==> n[j] == m[j];
  }

  lemma RemovedIndex<T>(m: seq<T>, i: nat, j: nat)
    requires i < |m| && j < |m| - 1
    ensures (m[..i] + m[i + 1..])[j] == m[if j < i then j else j + 1]
  {
    var front, back := m[..i], m[i + 1..];
    if j < i {
      assert (front + back)[j] == front[j];
    } else {
      assert (front + back)[j] == back[j - i];
    }
  }

  lemma RemovedDistinct<K(!new), V>(m: Entries<K, V>, i: nat)
    requires Distinct(m) && i < |m|
    ensures Distinct(m[..i] + m[i + 1..])
  {
    var n := m[..i] + m[i + 1..];
    forall a, b | 0 <= a < b < |n| ensures n[a].0 != n[b].0 {
      RemovedIndex(m, i, a);
      RemovedIndex(m, i, b);
    }
  }

  lemma RemovedKey<K(!new), V>(m: Entries<K, V>, i: nat, key: K)
    requires Distinct(m) && i < |m| && Distinct(m[..i] + m[i + 1..])
    ensures var n := m[..i] + m[i + 1..];
            && (key in ToMap(n) <==> key in ToMap(m) && key != m[i].0)
            && (key in ToMap(n) ==> ToMap(n)[key] == ToMap(m)[key])
  {
    var n := m[..i] + m[i + 1..];
    if key in ToMap(n) {
      var j :| 0 <= j < |n| && n[j].0 == key;
      RemovedIndex(m, i, j);
    }
    if key in ToMap(m) && key != m[i].0 {
      var k :| 0 <= k < |m| && m[k].0 == key;
      RemovedIndex(m, i, if k < i then k else k - 1);
      assert n[if k < i then k else k - 1] == m[k];
    }
  }

  lemma RemovedAt<K(!new), V>(m: Entries<K, V>, i: nat)
    requires Distinct(m) && i < |m|
    ensures var n := m[..i] + m[i + 1..]; Distinct(n) && ToMap(n) == ToMap(m) - {m[i].0}
  {
    RemovedDistinct(m, i);
    forall key {
      RemovedKey(m, i, key);
    }
  }

  lemma DeleteIsRemove<K(!new), V>(m: Entries<K, V>, key: K)
    requires Distinct(m)
    ensures Distinct(Delete(m, key)) && ToMap(Delete(m, key)) == ToMap(m) - {key}
  {
    var i := Find(m, key);
    if i < |m| {
      RemovedAt(m, i);
    } else {
      assert key !in ToMap(m);
    }
  }

  lemma InMap<K(!new), V>(m: Entries<K, V>, key: K)
    requires Distinct(m)
    ensures key in ToMap(m) <==> Find(m, key) < |m|
    ensures Find(m, key) < |m| ==> ToMap(m)[key] == m[Find(m, key)].1
  {
  }

  lemma SetBack<K(!new), V>(m: Entries<K, V>, key: K, value: V)
    requires Distinct(m)
    ensures Find(m, key) < |m| ==> Set(Set(m, key, value), key, m[Find(m, key)].1) == m
    ensures Find(m, key) == |m| ==> Delete(Set(m, key, value), key) == m
  {
    var i, n := Find(m, key), Set(m, key, value);
    assert n[i] == (key, value);
    FindAt(n, i);
  }

  lemma FindAt<K(!new), V>(m: Entries<K, V>, i: nat)
    requires i < |m| && forall j :: 0 <= j < i ==> m[j].0 != m[i].0
    ensures Find(m, m[i].0) == i
  {
  }

  lemma FindIs<K(!new), V>(m: Entries<K, V>, key: K, i: nat)
    requires i <= |m| && (i < |m| ==> m[i].0 == key) && forall j :: 0 <= j < i ==> m[j].0 != key
    ensures Find(m, key) == i
  {
  }

  lemma DeletedFrom<K(!new), V>(m: Entries<K, V>, key: K, j: nat)
    requires j < |Delete(m, key)|
    ensures var k := if j < Find(m, key) then j else j + 1; k < |m| && Delete(m, key)[j] == m[k]
  {
    var i := Find(m, key);
    if i < |m| {
      RemovedIndex(m, i, j);
    }
  }

  lemma MapBack<K, V>(m: map<K, V>, key: K)
    requires key in m
    ensures (m - {key})[key := m[key]] == m
  {
  }

  lemma DeletedAbsent<K(!new), V>(m: Entries<K, V>, key: K)
    requires Distinct(m)
    ensures Find(Delete(m, key), key) == |Delete(m, key)|
  {
    var n := Delete(m, key);
    forall j | 0 <= j < |n| ensures n[j].0 != key {
      DeletedFrom(m, key, j);
    }
    FindIs(n, key, |n|);
  }

  lemma DeleteAppended<K(!new), V>(m: Entries<K, V>, key: K, value: V)
    requires Find(m, key) == |m|
    ensures Delete(m + [(key, value)], key) == m
  {
    FindIs(m + [(key, value)], key, |m|);
  }
}
