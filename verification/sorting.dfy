/** The stable sort the source gets from `Array.prototype.sort` with a
    comparator on a (text, number) key: players are ordered by group name and
    then by `order ?? 999`, and players with equal keys keep their original
    relative order. */
module Sorting {

  /** Code-unit lexicographic order on strings. `localeCompare` agrees with it on
      the upper-case group names the source compares. */
  predicate StrLess(a: string, b: string)
    decreases |a|
  {
    if |a| == 0 then |b| > 0
    else if |b| == 0 then false
    else if a[0] != b[0] then a[0] < b[0]
    else StrLess(a[1..], b[1..])
  }

  lemma {:induction false} StrLessIrreflexive(a: string)
    ensures !StrLess(a, a)
    decreases |a|
  {
    if |a| > 0 {
      StrLessIrreflexive(a[1..]);
    }
  }

  lemma {:induction false} StrLessTransitive(a: string, b: string, c: string)
    requires StrLess(a, b) && StrLess(b, c)
    ensures StrLess(a, c)
    decreases |a|
  {
    if |a| > 0 && |b| > 0 && |c| > 0 && a[0] == b[0] && b[0] == c[0] {
      StrLessTransitive(a[1..], b[1..], c[1..]);
    }
  }

  lemma {:induction false} StrLessTotal(a: string, b: string)
    requires a != b
    ensures StrLess(a, b) || StrLess(b, a)
    decreases |a|
  {
    if |a| > 0 && |b| > 0 && a[0] == b[0] {
      assert a == [a[0]] + a[1..] && b == [b[0]] + b[1..];
      StrLessTotal(a[1..], b[1..]);
    }
  }

  /** The comparator's key: a group name compared first, then a number. */
  datatype SortKey = SortKey(major: string, minor: int)

  predicate KeyLe(x: SortKey, y: SortKey) {
    StrLess(x.major, y.major) || (x.major == y.major && x.minor <= y.minor)
  }

  lemma KeyLeTotal(x: SortKey, y: SortKey)
    ensures KeyLe(x, y) || KeyLe(y, x)
  {
    if x.major != y.major {
      StrLessTotal(x.major, y.major);
    }
  }

  lemma KeyLeTransitive(x: SortKey, y: SortKey, z: SortKey)
    requires KeyLe(x, y) && KeyLe(y, z)
    ensures KeyLe(x, z)
  {
    if StrLess(x.major, y.major) && StrLess(y.major, z.major) {
      StrLessTransitive(x.major, y.major, z.major);
    }
  }

  lemma KeyLeAntisymmetric(x: SortKey, y: SortKey)
    requires KeyLe(x, y) && KeyLe(y, x)
    ensures x == y
  {
    if StrLess(x.major, y.major) && StrLess(y.major, x.major) {
      StrLessTransitive(x.major, y.major, x.major);
      StrLessIrreflexive(x.major);
    } else if StrLess(x.major, y.major) || StrLess(y.major, x.major) {
      StrLessIrreflexive(x.major);
    }
  }

  ghost predicate Sorted<T>(s: seq<T>, key: T -> SortKey) {
    forall i, j :: 0 <= i < j < |s| ==> KeyLe(key(s[i]), key(s[j]))
  }

  /** The elements of `s` whose key is exactly `k`, in their order in `s`. */
  function FilterKey<T>(s: seq<T>, key: T -> SortKey, k: SortKey): seq<T> {
    if |s| == 0 then []
    else if key(s[0]) == k then [s[0]] + FilterKey(s[1..], key, k)
    else FilterKey(s[1..], key, k)
  }

  /** Puts `x` in front of the first element whose key is not smaller. */
  function Insert<T(==)>(x: T, s: seq<T>, key: T -> SortKey): (r: seq<T>)
    ensures multiset(r) == multiset(s) + multiset{x}
  {
    if |s| == 0 then [x]
    else if KeyLe(key(x), key(s[0])) then
      assert s == [s[0]] + s[1..];
      [x] + s
    else
      assert s == [s[0]] + s[1..];
      [s[0]] + Insert(x, s[1..], key)
  }

  /** Every element of a sorted list is at least its head. */
  lemma HeadIsLeast<T>(s: seq<T>, key: T -> SortKey, y: T)
    requires |s| > 0 && Sorted(s, key)
    requires y in multiset(s)
    ensures KeyLe(key(s[0]), key(y))
  {
    var m :| 0 <= m < |s| && s[m] == y;
    if m == 0 {
      assert KeyLe(key(s[0]), key(s[0]));
    }
  }

  lemma {:induction false} InsertSorted<T>(x: T, s: seq<T>, key: T -> SortKey)
    requires Sorted(s, key)
    ensures Sorted(Insert(x, s, key), key)
  {
    if |s| == 0 {
    } else if KeyLe(key(x), key(s[0])) {
      var r := [x] + s;
      forall i, j | 0 <= i < j < |r|
        ensures KeyLe(key(r[i]), key(r[j]))
      {
        if i == 0 && j > 1 {
          KeyLeTransitive(key(x), key(s[0]), key(s[j - 1]));
        }
      }
    } else {
      var t := Insert(x, s[1..], key);
      assert Sorted(s[1..], key);
      InsertSorted(x, s[1..], key);
      KeyLeTotal(key(x), key(s[0]));
      forall j | 0 <= j < |t|
        ensures KeyLe(key(s[0]), key(t[j]))
      {
        var y := t[j];
        assert y in multiset(t);
        if y != x {
          assert y in multiset(s[1..]);
          assert s == [s[0]] + s[1..];
          HeadIsLeast(s, key, y);
        }
      }
      ConsSorted(s[0], t, key);
    }
  }

  /** A head no larger than any element of a sorted tail keeps it sorted. */
  lemma ConsSorted<T>(h: T, t: seq<T>, key: T -> SortKey)
    requires Sorted(t, key)
    requires forall j :: 0 <= j < |t| ==> KeyLe(key(h), key(t[j]))
    ensures Sorted([h] + t, key)
  {
    var r := [h] + t;
    forall i, j | 0 <= i < j < |r| ensures KeyLe(key(r[i]), key(r[j])) {
      assert r[j] == t[j - 1];
      if i > 0 {
        assert r[i] == t[i - 1];
      }
    }
  }

  /** Insertion sort: a sorted permutation of `s`. */
  function Sort<T(==)>(s: seq<T>, key: T -> SortKey): (r: seq<T>)
    ensures multiset(r) == multiset(s)
    ensures Sorted(r, key)
  {
    if |s| == 0 then []
    else
      assert s == [s[0]] + s[1..];
      var t := Sort(s[1..], key);
      InsertSorted(s[0], t, key);
      Insert(s[0], t, key)
  }

  lemma {:induction false} InsertFilter<T>(x: T, s: seq<T>, key: T -> SortKey, k: SortKey)
    ensures FilterKey(Insert(x, s, key), key, k)
            == (if key(x) == k then [x] + FilterKey(s, key, k) else FilterKey(s, key, k))
  {
    if |s| > 0 && !KeyLe(key(x), key(s[0])) {
      InsertFilter(x, s[1..], key, k);
      assert key(s[0]) != key(x);
    }
  }

  /** Stability: for every key, the elements carrying it appear in the sorted
      output in the same order as in the input. */
  lemma {:induction false} SortStable<T>(s: seq<T>, key: T -> SortKey, k: SortKey)
    ensures FilterKey(Sort(s, key), key, k) == FilterKey(s, key, k)
  {
    if |s| > 0 {
      SortStable(s[1..], key, k);
      InsertFilter(s[0], Sort(s[1..], key), key, k);
    }
  }

  /** Sorting a list that is already in order returns it unchanged. */
  lemma {:induction false} SortSortedNoop<T>(s: seq<T>, key: T -> SortKey)
    requires Sorted(s, key)
    ensures Sort(s, key) == s
  {
    if |s| > 0 {
      assert Sorted(s[1..], key);
      SortSortedNoop(s[1..], key);
      assert s == [s[0]] + s[1..];
    }
  }
}
