/** The order `Array.sort` leaves: ascending by key, elements of one key in their first order. */
module StableSort {
  ghost predicate Sorted<T>(s: seq<T>, key: T -> int) {
    forall i, j :: 0 <= i < j < |s| ==> key(s[i]) <= key(s[j])
  }

  function Insert<T>(s: seq<T>, x: T, key: T -> int): seq<T> {
    if s == [] || key(s[|s| - 1]) <= key(x) then s + [x]
    else Insert(s[..|s| - 1], x, key) + [s[|s| - 1]]
  }

  function Sort<T>(s: seq<T>, key: T -> int): seq<T> {
    if s == [] then [] else Insert(Sort(s[..|s| - 1], key), s[|s| - 1], key)
  }

  lemma {:induction false} InsertKeeps<T>(s: seq<T>, x: T, key: T -> int)
    ensures multiset(Insert(s, x, key)) == multiset(s) + multiset{x}
  {
    if s != [] && key(s[|s| - 1]) > key(x) {
      InsertKeeps(s[..|s| - 1], x, key);
      assert s == s[..|s| - 1] + [s[|s| - 1]];
    }
  }

  lemma {:induction false} InsertSorts<T>(s: seq<T>, x: T, key: T -> int)
    requires Sorted(s, key)
    ensures Sorted(Insert(s, x, key), key)
  {
    if s != [] && key(s[|s| - 1]) > key(x) {
      var front, last := s[..|s| - 1], s[|s| - 1];
      var t := Insert(front, x, key);
      InsertSorts(front, x, key);
      InsertKeeps(front, x, key);
      forall i | 0 <= i < |t| ensures key(t[i]) <= key(last) {
        assert t[i] in multiset(t);
        assert t[i] == x || t[i] in front;
      }
    }
  }

  lemma {:induction false} SortSorts<T>(s: seq<T>, key: T -> int)
    ensures Sorted(Sort(s, key), key) && multiset(Sort(s, key)) == multiset(s) && |Sort(s, key)| == |s|
  {
    if s != [] {
      var front := s[..|s| - 1];
      SortSorts(front, key);
      InsertSorts(Sort(front, key), s[|s| - 1], key);
      InsertKeeps(Sort(front, key), s[|s| - 1], key);
      assert s == front + [s[|s| - 1]];
    }
    assert |multiset(Sort(s, key))| == |multiset(s)|;
  }

  lemma {:induction false} SortOfSorted<T>(s: seq<T>, key: T -> int)
    requires Sorted(s, key)
    ensures Sort(s, key) == s
  {
    if s != [] {
      SortOfSorted(s[..|s| - 1], key);
      assert s == s[..|s| - 1] + [s[|s| - 1]];
    }
  }

  /** The elements of one key, in order. */
  function Among<T>(s: seq<T>, key: T -> int, k: int): seq<T> {
    if s == [] then []
    else Among(s[..|s| - 1], key, k) + if key(s[|s| - 1]) == k then [s[|s| - 1]] else []
  }

  lemma {:induction false} InsertStable<T>(s: seq<T>, x: T, key: T -> int, k: int)
    requires Sorted(s, key)
    ensures Among(Insert(s, x, key), key, k) == Among(s + [x], key, k)
  {
    if s != [] && key(s[|s| - 1]) > key(x) {
      var front, last := s[..|s| - 1], s[|s| - 1];
      InsertStable(front, x, key, k);
      AmongSnoc(Insert(front, x, key), last, key, k);
      AmongSnoc(front, x, key, k);
      AmongSnoc(s, x, key, k);
    }
  }

  lemma AmongSnoc<T>(s: seq<T>, x: T, key: T -> int, k: int)
    ensures Among(s + [x], key, k) == Among(s, key, k) + if key(x) == k then [x] else []
  {
    assert (s + [x])[..|s|] == s;
  }

  lemma {:induction false} SortStable<T>(s: seq<T>, key: T -> int, k: int)
    ensures Among(Sort(s, key), key, k) == Among(s, key, k)
  {
    if s != [] {
      var front := s[..|s| - 1];
      SortSorts(front, key);
      SortStable(front, key, k);
      InsertStable(Sort(front, key), s[|s| - 1], key, k);
      AmongSnoc(Sort(front, key), s[|s| - 1], key, k);
    }
  }

  ghost predicate Apart<T>(s: seq<T>, id: T -> int) {
    forall i, j :: 0 <= i < j < |s| ==> id(s[i]) != id(s[j])
  }

  lemma InInsert<T>(s: seq<T>, x: T, key: T -> int, y: T)
    ensures y in Insert(s, x, key) <==> y in s || y == x
  {
    InsertKeeps(s, x, key);
    assert y in multiset(Insert(s, x, key)) <==> y in multiset(s) || y == x;
  }

  lemma {:induction false} InsertApart<T>(s: seq<T>, x: T, key: T -> int, id: T -> int)
    requires Apart(s, id) && forall i :: 0 <= i < |s| ==> id(s[i]) != id(x)
    ensures Apart(Insert(s, x, key), id)
  {
    if s != [] && key(s[|s| - 1]) > key(x) {
      var front, last := s[..|s| - 1], s[|s| - 1];
      var t := Insert(front, x, key);
      InsertApart(front, x, key, id);
      forall i | 0 <= i < |t| ensures id(t[i]) != id(last) {
        InInsert(front, x, key, t[i]);
        assert t[i] in t;
      }
    }
  }

  lemma InSort<T>(s: seq<T>, key: T -> int, x: T)
    ensures x in Sort(s, key) <==> x in s
  {
    SortSorts(s, key);
    assert x in multiset(Sort(s, key)) <==> x in multiset(s);
  }

  lemma {:induction false} SortApart<T>(s: seq<T>, key: T -> int, id: T -> int)
    requires Apart(s, id)
    ensures Apart(Sort(s, key), id)
  {
    if s != [] {
      var front, t := s[..|s| - 1], Sort(s[..|s| - 1], key);
      SortApart(front, key, id);
      forall i | 0 <= i < |t| ensures id(t[i]) != id(s[|s| - 1]) {
        InSort(front, key, t[i]);
        assert t[i] in t;
      }
      InsertApart(t, s[|s| - 1], key, id);
    }
  }
}
