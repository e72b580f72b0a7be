/** Small list searches shared by several components. */
module Lists {
  import opened Wrappers

  /** `findIndex(x => idOf(x) === id)`: the first position carrying the id. */
  function FirstIndexWithId<T>(s: seq<T>, idOf: T -> string, id: string): (r: Option<nat>)
    ensures r.None? <==> forall i :: 0 <= i < |s| ==> idOf(s[i]) != id
    ensures r.Some? ==> r.value < |s| && idOf(s[r.value]) == id
                        && forall i :: 0 <= i < r.value ==> idOf(s[i]) != id
  {
    if |s| == 0 then None
    else if idOf(s[0]) == id then Some(0)
    else
      match FirstIndexWithId(s[1..], idOf, id)
      case None => None
      case Some(k) => Some(k + 1)
  }

  /** The first position carrying the id is the one before which no
      position carries it. */
  lemma FirstIndexIs<T>(s: seq<T>, idOf: T -> string, id: string, k: nat)
    requires k < |s| && idOf(s[k]) == id
    requires forall i :: 0 <= i < k ==> idOf(s[i]) != id
    ensures FirstIndexWithId(s, idOf, id) == Some(k)
  {
    var r := FirstIndexWithId(s, idOf, id);
    assert r.Some?;
    assert !(r.value < k) && !(k < r.value);
  }

  /** `s.filter(keep)`. */
  function Filter<T(==)>(s: seq<T>, keep: T -> bool): (r: seq<T>)
    ensures |r| <= |s|
    ensures forall i :: 0 <= i < |r| ==> r[i] in s && keep(r[i])
    ensures forall i :: 0 <= i < |s| && keep(s[i]) ==> s[i] in r
  {
    if |s| == 0 then []
    else if keep(s[|s| - 1]) then Filter(s[..|s| - 1], keep) + [s[|s| - 1]]
    else Filter(s[..|s| - 1], keep)
  }

  /** Filtering a list extended by one element. */
  lemma FilterSnoc<T>(s: seq<T>, x: T, keep: T -> bool)
    ensures Filter(s + [x], keep) == Filter(s, keep) + (if keep(x) then [x] else [])
  {
    assert (s + [x])[..|s|] == s;
  }

  /** Filtering keeps a list whose every element passes. */
  lemma {:induction false} FilterAll<T>(s: seq<T>, keep: T -> bool)
    requires forall i :: 0 <= i < |s| ==> keep(s[i])
    ensures Filter(s, keep) == s
  {
    if |s| > 0 {
      FilterAll(s[..|s| - 1], keep);
      assert s[..|s| - 1] + [s[|s| - 1]] == s;
    }
  }

  /** Filtering distributes over concatenation. */
  lemma {:induction false} FilterAppend<T>(a: seq<T>, b: seq<T>, keep: T -> bool)
    ensures Filter(a + b, keep) == Filter(a, keep) + Filter(b, keep)
    decreases |b|
  {
    if |b| == 0 {
      assert a + b == a;
    } else {
      var b', x := b[..|b| - 1], b[|b| - 1];
      calc {
        Filter(a + b, keep);
        { assert a + b == (a + b') + [x]; }
        Filter((a + b') + [x], keep);
        { FilterSnoc(a + b', x, keep); }
        Filter(a + b', keep) + (if keep(x) then [x] else []);
        { FilterAppend(a, b', keep); }
        Filter(a, keep) + Filter(b', keep) + (if keep(x) then [x] else []);
        { FilterSnoc(b', x, keep); assert b == b' + [x]; }
        Filter(a, keep) + Filter(b, keep);
      }
    }
  }
}
