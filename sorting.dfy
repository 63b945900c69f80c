/** A stable sort by a real-valued key. Python's `list.sort` and pandas'
    `sort_values` are library sorts, not code of the system; the model
    specifies them by this insertion sort, whose stability is proved: for
    every key value, the elements carrying it keep their relative order. */
module Sorting {

  /** Non-decreasing by key. */
  ghost predicate SortedBy<T>(s: seq<T>, key: T -> real) {
    forall i, j :: 0 <= i < j < |s| ==> key(s[i]) <= key(s[j])
  }

  /** The elements whose key is v, in their order in s. */
  function WithKey<T>(s: seq<T>, key: T -> real, v: real): (r: seq<T>)
    ensures |r| <= |s|
    ensures forall x :: x in r ==> x in s && key(x) == v
  {
    if s == [] then []
    else (if key(s[0]) == v then [s[0]] else []) + WithKey(s[1..], key, v)
  }

  lemma {:induction false} WithKeyAppend<T>(s: seq<T>, t: seq<T>, key: T -> real, v: real)
    ensures WithKey(s + t, key, v) == WithKey(s, key, v) + WithKey(t, key, v)
  {
    if s == [] {
      assert s + t == t;
    } else {
      assert (s + t)[1..] == s[1..] + t;
      WithKeyAppend(s[1..], t, key, v);
    }
  }

  lemma {:induction false} WithKeyAbsent<T>(s: seq<T>, key: T -> real, v: real)
    requires forall i :: 0 <= i < |s| ==> key(s[i]) != v
    ensures WithKey(s, key, v) == []
  {
    if s != [] {
      WithKeyAbsent(s[1..], key, v);
    }
  }

  /** The element at position k is in the list of its own key. */
  lemma {:induction false} WithKeyHas<T>(s: seq<T>, key: T -> real, k: nat)
    requires k < |s|
    ensures |WithKey(s, key, key(s[k]))| >= 1
  {
    if k > 0 {
      WithKeyHas(s[1..], key, k - 1);
    }
  }

  /** Two positions with the same key put two elements into that key's list. */
  lemma {:induction false} WithKeyHasBoth<T>(s: seq<T>, key: T -> real, j: nat, k: nat)
    requires j < k < |s| && key(s[j]) == key(s[k])
    ensures |WithKey(s, key, key(s[j]))| >= 2
  {
    if j == 0 {
      WithKeyHas(s[1..], key, k - 1);
    } else {
      WithKeyHasBoth(s[1..], key, j - 1, k - 1);
    }
  }

  /** Puts x after every element whose key is at most key(x). */
  function Insert<T>(s: seq<T>, x: T, key: T -> real): (r: seq<T>)
    ensures |r| == |s| + 1
  {
    if s == [] then [x]
    else if key(x) < key(s[0]) then [x] + s
    else [s[0]] + Insert(s[1..], x, key)
  }

  lemma {:induction false} InsertPermutes<T>(s: seq<T>, x: T, key: T -> real)
    ensures multiset(Insert(s, x, key)) == multiset(s) + multiset{x}
  {
    if s != [] && key(s[0]) <= key(x) {
      InsertPermutes(s[1..], x, key);
      assert s == [s[0]] + s[1..];
    }
  }

  lemma {:induction false} InsertSorted<T>(s: seq<T>, x: T, key: T -> real)
    requires SortedBy(s, key)
    ensures SortedBy(Insert(s, x, key), key)
  {
    if s != [] && key(s[0]) <= key(x) {
      var r := Insert(s[1..], x, key);
      InsertSorted(s[1..], x, key);
      InsertPermutes(s[1..], x, key);
      forall j | 0 <= j < |r| ensures key(s[0]) <= key(r[j]) {
        assert r[j] in multiset(s[1..]) + multiset{x};
      }
      assert Insert(s, x, key) == [s[0]] + r;
      SortedCons(s[0], r, key);
    }
  }

  lemma SortedCons<T>(a: T, r: seq<T>, key: T -> real)
    requires SortedBy(r, key)
    requires forall j :: 0 <= j < |r| ==> key(a) <= key(r[j])
    ensures SortedBy([a] + r, key)
  {
    var t := [a] + r;
    forall i, j | 0 <= i < j < |t| ensures key(t[i]) <= key(t[j]) {
      assert t[j] == r[j - 1];
      if i > 0 {
        assert t[i] == r[i - 1];
      }
    }
  }

  lemma {:induction false} InsertWithKey<T>(s: seq<T>, x: T, key: T -> real, v: real)
    requires SortedBy(s, key)
    ensures WithKey(Insert(s, x, key), key, v)
            == WithKey(s, key, v) + (if key(x) == v then [x] else [])
  {
    if s == [] {
    } else if key(x) < key(s[0]) {
      InsertInFront(s, x, key, v);
    } else {
      InsertWithKey(s[1..], x, key, v);
      InsertBehind(s, x, key, v);
    }
  }

  /** x goes behind the first element of s when its key is not below it;
      its key's list grows as that of the rest of s does. */
  lemma InsertBehind<T>(s: seq<T>, x: T, key: T -> real, v: real)
    requires s != [] && key(s[0]) <= key(x)
    requires WithKey(Insert(s[1..], x, key), key, v)
             == WithKey(s[1..], key, v) + (if key(x) == v then [x] else [])
    ensures WithKey(Insert(s, x, key), key, v)
            == WithKey(s, key, v) + (if key(x) == v then [x] else [])
  {
    var here := if key(s[0]) == v then [s[0]] else [];
    var tail := if key(x) == v then [x] else [];
    var w := WithKey(s[1..], key, v);
    assert Insert(s, x, key) == [s[0]] + Insert(s[1..], x, key);
    WithKeyCons(s[0], Insert(s[1..], x, key), key, v);
    assert WithKey(s, key, v) == here + w;
    ConcatAssoc(here, w, tail);
  }

  lemma ConcatAssoc<T>(a: seq<T>, b: seq<T>, c: seq<T>)
    ensures a + (b + c) == (a + b) + c
  {
  }

  lemma WithKeyCons<T>(a: T, t: seq<T>, key: T -> real, v: real)
    ensures WithKey([a] + t, key, v) == (if key(a) == v then [a] else []) + WithKey(t, key, v)
  {
    assert ([a] + t)[1..] == t;
  }

  /** x goes in front of s when its key is below the first one; then no
      element of s shares its key. */
  lemma InsertInFront<T>(s: seq<T>, x: T, key: T -> real, v: real)
    requires SortedBy(s, key) && s != [] && key(x) < key(s[0])
    ensures WithKey(Insert(s, x, key), key, v)
            == WithKey(s, key, v) + (if key(x) == v then [x] else [])
  {
    assert Insert(s, x, key) == [x] + s;
    assert Insert(s, x, key)[1..] == s;
    if key(x) == v {
      WithKeyAbsent(s, key, v);
    }
  }

  /** Insertion sort, ascending by key, stable. */
  function StableSort<T>(s: seq<T>, key: T -> real): (r: seq<T>)
    ensures |r| == |s|
  {
    if s == [] then [] else Insert(StableSort(s[..|s| - 1], key), s[|s| - 1], key)
  }

  /** The sort returns its input in non-decreasing key order, as a
      permutation, and for every key value the elements carrying it appear in
      the order they had in the input. */
  lemma StableSortCorrect<T>(s: seq<T>, key: T -> real)
    ensures SortedBy(StableSort(s, key), key)
    ensures multiset(StableSort(s, key)) == multiset(s)
    ensures forall v :: WithKey(StableSort(s, key), key, v) == WithKey(s, key, v)
  {
    StableSortSorted(s, key);
    StableSortPermutes(s, key);
    forall v ensures WithKey(StableSort(s, key), key, v) == WithKey(s, key, v) {
      StableSortStable(s, key, v);
    }
  }

  lemma {:induction false} StableSortSorted<T>(s: seq<T>, key: T -> real)
    ensures SortedBy(StableSort(s, key), key)
  {
    if s != [] {
      StableSortSorted(s[..|s| - 1], key);
      InsertSorted(StableSort(s[..|s| - 1], key), s[|s| - 1], key);
    }
  }

  lemma {:induction false} StableSortPermutes<T>(s: seq<T>, key: T -> real)
    ensures multiset(StableSort(s, key)) == multiset(s)
  {
    if s != [] {
      var init, last := s[..|s| - 1], s[|s| - 1];
      StableSortPermutes(init, key);
      InsertPermutes(StableSort(init, key), last, key);
      assert s == init + [last];
    }
  }

  lemma {:induction false} StableSortStable<T>(s: seq<T>, key: T -> real, v: real)
    ensures WithKey(StableSort(s, key), key, v) == WithKey(s, key, v)
  {
    if s != [] {
      var init, last := s[..|s| - 1], s[|s| - 1];
      StableSortStable(init, key, v);
      SortThenInsert(init, last, key, v);
      assert s == init + [last];
      WithKeyLast(init, last, key, v);
    }
  }

  /** Inserting into the sorted prefix adds the new element at the end of
      its key's list. */
  lemma SortThenInsert<T>(init: seq<T>, last: T, key: T -> real, v: real)
    ensures WithKey(Insert(StableSort(init, key), last, key), key, v)
            == WithKey(StableSort(init, key), key, v) + (if key(last) == v then [last] else [])
  {
    StableSortSorted(init, key);
    InsertWithKey(StableSort(init, key), last, key, v);
  }

  lemma WithKeyLast<T>(init: seq<T>, last: T, key: T -> real, v: real)
    ensures WithKey(init + [last], key, v) == WithKey(init, key, v) + (if key(last) == v then [last] else [])
  {
    WithKeyAppend(init, [last], key, v);
    assert [last][1..] == [];
  }
}
