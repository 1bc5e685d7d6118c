/** Python's `list.sort(key=..., reverse=True)`, which `_generate_dt_objs` applies to the
    detections of a class. Python documents it as stable also in reverse mode: items with
    equal keys keep their original order. It is modelled as an insertion sort that places
    each item after every item whose key is at least as large. */
module Sorting {

  function Insert<T>(x: T, s: seq<T>, key: T -> real): seq<T>
    decreases |s|
  {
    if s == [] || key(x) <= key(s[|s| - 1]) then s + [x]
    else Insert(x, s[..|s| - 1], key) + [s[|s| - 1]]
  }

  function SortDesc<T>(s: seq<T>, key: T -> real): seq<T>
    decreases |s|
  {
    if s == [] then [] else Insert(s[|s| - 1], SortDesc(s[..|s| - 1], key), key)
  }

  ghost predicate Descending<T>(s: seq<T>, key: T -> real) {
    forall i, j :: 0 <= i < j < |s| ==> key(s[j]) <= key(s[i])
  }

  /** The items whose key equals v, in their order in s. */
  function WithKey<T>(s: seq<T>, key: T -> real, v: real): seq<T>
    decreases |s|
  {
    if s == [] then []
    else WithKey(s[..|s| - 1], key, v) + (if key(s[|s| - 1]) == v then [s[|s| - 1]] else [])
  }

  lemma {:induction false} InsertPermutes<T>(x: T, s: seq<T>, key: T -> real)
    ensures multiset(Insert(x, s, key)) == multiset(s) + multiset{x}
    decreases |s|
  {
    if s != [] && key(s[|s| - 1]) < key(x) {
      var init, last := s[..|s| - 1], s[|s| - 1];
      assert s == init + [last];
      InsertPermutes(x, init, key);
    }
  }

  lemma {:induction false} InsertSorted<T>(x: T, s: seq<T>, key: T -> real)
    requires Descending(s, key)
    ensures Descending(Insert(x, s, key), key)
    decreases |s|
  {
    if s != [] && key(s[|s| - 1]) < key(x) {
      var init, last := s[..|s| - 1], s[|s| - 1];
      assert s == init + [last];
      InsertSorted(x, init, key);
      InsertPermutes(x, init, key);
      var r0 := Insert(x, init, key);
      // every item of r0 is x or an item of init, all with keys at least key(last)
      forall i | 0 <= i < |r0| ensures key(last) <= key(r0[i]) {
        assert r0[i] in multiset(r0);
        if r0[i] != x {
          assert r0[i] in multiset(init);
          var k :| 0 <= k < |init| && init[k] == r0[i];
          assert s[k] == init[k];
        }
      }
      assert Insert(x, s, key) == r0 + [last];
    }
  }

  lemma {:induction false} InsertStable<T>(x: T, s: seq<T>, key: T -> real, v: real)
    requires Descending(s, key)
    ensures WithKey(Insert(x, s, key), key, v) == WithKey(s, key, v) + (if key(x) == v then [x] else [])
    decreases |s|
  {
    var r := Insert(x, s, key);
    if s == [] || key(x) <= key(s[|s| - 1]) {
      assert r[..|r| - 1] == s;
    } else {
      var init, last := s[..|s| - 1], s[|s| - 1];
      InsertStable(x, init, key, v);
      var r0 := Insert(x, init, key);
      assert r == r0 + [last];
      assert r[..|r| - 1] == r0;
    }
  }

  lemma {:induction false} SortDescFacts<T>(s: seq<T>, key: T -> real)
    ensures Descending(SortDesc(s, key), key)
    ensures multiset(SortDesc(s, key)) == multiset(s)
    ensures forall v :: WithKey(SortDesc(s, key), key, v) == WithKey(s, key, v)
    decreases |s|
  {
    if s != [] {
      var init, last := s[..|s| - 1], s[|s| - 1];
      assert s == init + [last];
      SortDescFacts(init, key);
      InsertPermutes(last, SortDesc(init, key), key);
      InsertSorted(last, SortDesc(init, key), key);
      forall v ensures WithKey(SortDesc(s, key), key, v) == WithKey(s, key, v) {
        InsertStable(last, SortDesc(init, key), key, v);
      }
    }
  }

  /** The result is ordered by key, largest first. */
  lemma SortDescIsSorted<T>(s: seq<T>, key: T -> real)
    ensures Descending(SortDesc(s, key), key)
  {
    SortDescFacts(s, key);
  }

  /** The result holds the same items, each as often as the input. */
  lemma SortDescIsPermutation<T>(s: seq<T>, key: T -> real)
    ensures multiset(SortDesc(s, key)) == multiset(s)
  {
    SortDescFacts(s, key);
  }

  /** Items with equal keys keep their input order. */
  lemma SortDescIsStable<T>(s: seq<T>, key: T -> real, v: real)
    ensures WithKey(SortDesc(s, key), key, v) == WithKey(s, key, v)
  {
    SortDescFacts(s, key);
  }

  /** Sorting commutes with an element-wise map that preserves keys. */
  lemma {:induction false} SortDescMap<T, U>(s: seq<T>, key: T -> real, f: T -> U, keyU: U -> real)
    requires forall x :: keyU(f(x)) == key(x)
    ensures MapSeq(SortDesc(s, key), f) == SortDesc(MapSeq(s, f), keyU)
    decreases |s|
  {
    if s != [] {
      var init := s[..|s| - 1];
      assert MapSeq(s, f)[..|s| - 1] == MapSeq(init, f);
      SortDescMap(init, key, f, keyU);
      InsertMap(s[|s| - 1], SortDesc(init, key), key, f, keyU);
    }
  }

  lemma {:induction false} InsertMap<T, U>(x: T, s: seq<T>, key: T -> real, f: T -> U, keyU: U -> real)
    requires forall y :: keyU(f(y)) == key(y)
    ensures MapSeq(Insert(x, s, key), f) == Insert(f(x), MapSeq(s, f), keyU)
    decreases |s|
  {
    if s != [] && key(s[|s| - 1]) < key(x) {
      assert MapSeq(s, f)[..|s| - 1] == MapSeq(s[..|s| - 1], f);
      InsertMap(x, s[..|s| - 1], key, f, keyU);
    }
  }

  function MapSeq<T, U>(s: seq<T>, f: T -> U): seq<U> {
    seq(|s|, i requires 0 <= i < |s| => f(s[i]))
  }
}
