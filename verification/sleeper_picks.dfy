/** Draft-pick ownership for the user's roster: every own pick of the
    configured years and rounds is the user's, traded-pick records then
    reassign single pick identities, and the picks the user ends up owning
    are listed per year as display text. */
module SleeperPicks {
  import opened Wrappers
  import opened Text
  import opened SleeperLeague

  /** A pick identity: season, round, and the roster it originally belonged to. */
  datatype PickKey = PickKey(year: string, round: int, original: string)

  datatype Entry = Entry(key: PickKey, owner: string)

  /** The source's `Map` from pick identity to current owner, in insertion order. */
  type OwnerTable = seq<Entry>

  predicate UniqueKeys(t: OwnerTable) {
    forall i, j :: 0 <= i < j < |t| ==> t[i].key != t[j].key
  }

  function Lookup(t: OwnerTable, k: PickKey): (r: Option<string>)
    ensures r.None? <==> forall i :: 0 <= i < |t| ==> t[i].key != k
    ensures r.Some? ==> exists i :: 0 <= i < |t| && t[i] == Entry(k, r.value)
  {
    if |t| == 0 then None
    else if t[0].key == k then Some(t[0].owner)
    else
      var r := Lookup(t[1..], k);
      assert forall i :: 1 <= i < |t| ==> t[1..][i - 1] == t[i];
      r
  }

  /** `map.set(k, v)`: an existing key keeps its position, a new key goes last. */
  function Put(t: OwnerTable, k: PickKey, v: string): (r: OwnerTable)
    ensures Lookup(r, k) == Some(v)
    ensures forall k' :: k' != k ==> Lookup(r, k') == Lookup(t, k')
    ensures Lookup(t, k).None? ==> r == t + [Entry(k, v)]
  {
    if |t| == 0 then [Entry(k, v)]
    else if t[0].key == k then [Entry(k, v)] + t[1..]
    else
      var rest := Put(t[1..], k, v);
      PutCons(t, k, v, rest);
      [t[0]] + rest
  }

  /** `Put`'s step past a first entry with another key. */
  lemma PutCons(t: OwnerTable, k: PickKey, v: string, rest: OwnerTable)
    requires |t| > 0 && t[0].key != k
    requires Lookup(rest, k) == Some(v)
    requires forall k' :: k' != k ==> Lookup(rest, k') == Lookup(t[1..], k')
    requires Lookup(t[1..], k).None? ==> rest == t[1..] + [Entry(k, v)]
    ensures Lookup([t[0]] + rest, k) == Some(v)
    ensures forall k' :: k' != k ==> Lookup([t[0]] + rest, k') == Lookup(t, k')
    ensures Lookup(t, k).None? ==> [t[0]] + rest == t + [Entry(k, v)]
  {
    var r := [t[0]] + rest;
    assert r[1..] == rest;
    assert t == [t[0]] + t[1..];
  }

  /** `set` on an existing key keeps every key in its place. */
  lemma {:induction false} PutPositions(t: OwnerTable, k: PickKey, v: string)
    ensures Lookup(t, k).Some? ==> |Put(t, k, v)| == |t| && forall i :: 0 <= i < |t| ==> Put(t, k, v)[i].key == t[i].key
  {
    if |t| > 0 && t[0].key != k {
      PutPositions(t[1..], k, v);
      assert Put(t, k, v) == [t[0]] + Put(t[1..], k, v);
    }
  }

  /** `set` keeps the keys unique. */
  lemma {:induction false} PutUnique(t: OwnerTable, k: PickKey, v: string)
    ensures UniqueKeys(t) ==> UniqueKeys(Put(t, k, v))
  {
    if |t| > 0 && t[0].key != k && UniqueKeys(t) {
      PutUnique(t[1..], k, v);
      PutPositions(t[1..], k, v);
      var r := Put(t, k, v);
      var rest := Put(t[1..], k, v);
      assert r == [t[0]] + rest;
      assert UniqueKeys(t[1..]);
      forall j | 0 < j < |r| ensures r[0].key != r[j].key {
        assert r[j] == rest[j - 1];
        if Lookup(t[1..], k).None? {
          if j - 1 == |t| - 1 {
            assert r[j].key == k;
          } else {
            assert rest[j - 1] == t[1..][j - 1];
          }
        } else {
          assert rest[j - 1].key == t[1..][j - 1].key;
        }
      }
    }
  }

  /** `set` on an existing key keeps every key in its place; either way the
      keys stay unique. */
  lemma PutKeys(t: OwnerTable, k: PickKey, v: string)
    ensures Lookup(t, k).Some? ==> |Put(t, k, v)| == |t| && forall i :: 0 <= i < |t| ==> Put(t, k, v)[i].key == t[i].key
    ensures UniqueKeys(t) ==> UniqueKeys(Put(t, k, v))
  {
    PutPositions(t, k, v);
    PutUnique(t, k, v);
  }

  // ----------------------------------------------------------- baseline

  /** The own picks of one year, rounds 1..rounds in order. */
  function YearKeys(y: string, rounds: int, myId: string): (r: seq<PickKey>)
    ensures forall k :: k in r <==> k.year == y && 1 <= k.round <= rounds && k.original == myId
  {
    var n := if rounds > 0 then rounds else 0;
    var r := seq(n, i requires 0 <= i < n => PickKey(y, i + 1, myId));
    assert forall k: PickKey :: k.year == y && 1 <= k.round <= rounds && k.original == myId ==> r[k.round - 1] == k;
    r
  }

  /** The baseline loop's keys: every year, every round, the user's roster. */
  function BaselineKeys(years: seq<string>, rounds: int, myId: string): (r: seq<PickKey>)
    ensures forall k :: k in r <==> k.year in years && 1 <= k.round <= rounds && k.original == myId
  {
    if |years| == 0 then []
    else YearKeys(years[0], rounds, myId) + BaselineKeys(years[1..], rounds, myId)
  }

  function PutAll(t: OwnerTable, ks: seq<PickKey>, v: string): (r: OwnerTable)
    ensures forall k :: Lookup(r, k) == if k in ks then Some(v) else Lookup(t, k)
    ensures UniqueKeys(t) ==> UniqueKeys(r)
    decreases |ks|
  {
    if |ks| == 0 then t
    else
      PutKeys(t, ks[0], v);
      var r := PutAll(Put(t, ks[0], v), ks[1..], v);
      assert forall k :: k in ks <==> k == ks[0] || k in ks[1..];
      r
  }

  /** Step 1: the user owns every own pick of the given years and rounds, and
      nothing else is in the table. */
  function Baseline(years: seq<string>, rounds: int, myId: string): (r: OwnerTable)
    ensures UniqueKeys(r)
    ensures forall k :: Lookup(r, k) == if k.year in years && 1 <= k.round <= rounds && k.original == myId
                                        then Some(myId) else None
  {
    PutAll([], BaselineKeys(years, rounds, myId), myId)
  }

  // ------------------------------------------------------------ overlay

  /** One traded-pick record, fields as text the way the source reads them;
      `round` is nothing when `Number(round)` is not finite. */
  datatype TradedPick = TradedPick(season: string, round: Option<int>, rosterId: string, ownerId: string)

  /** The records the overlay takes: a listed season, a round in 1..rounds,
      and non-empty roster and owner ids. */
  predicate ValidPick(p: TradedPick, years: seq<string>, rounds: int) {
    p.season in years && p.round.Some? && 1 <= p.round.value <= rounds && p.rosterId != "" && p.ownerId != ""
  }

  function KeyOf(p: TradedPick): PickKey
    requires p.round.Some?
  {
    PickKey(p.season, p.round.value, p.rosterId)
  }

  /** Step 2, the overlay loop over the records in order. */
  function Overlay(t: OwnerTable, picks: seq<TradedPick>, years: seq<string>, rounds: int): (r: OwnerTable)
    ensures UniqueKeys(t) ==> UniqueKeys(r)
    decreases |picks|
  {
    if |picks| == 0 then t
    else
      var p := picks[0];
      PutKeys(t, if p.round.Some? then KeyOf(p) else PickKey("", 0, ""), p.ownerId);
      var t' := if ValidPick(p, years, rounds) then Put(t, KeyOf(p), p.ownerId) else t;
      Overlay(t', picks[1..], years, rounds)
  }

  /** Reference: the owner named by the last valid record for `k`, if any. */
  function LastValidOwner(picks: seq<TradedPick>, k: PickKey, years: seq<string>, rounds: int): Option<string> {
    if |picks| == 0 then None
    else
      match LastValidOwner(picks[1..], k, years, rounds)
      case Some(o) => Some(o)
      case None =>
        if ValidPick(picks[0], years, rounds) && KeyOf(picks[0]) == k then Some(picks[0].ownerId) else None
  }

  /** The overlay gives each pick identity the owner of its last valid
      record, and leaves identities without one as they were. */
  lemma {:induction false} OverlayLookup(t: OwnerTable, picks: seq<TradedPick>, years: seq<string>, rounds: int, k: PickKey)
    ensures Lookup(Overlay(t, picks, years, rounds), k)
            == match LastValidOwner(picks, k, years, rounds)
               case Some(o) => Some(o)
               case None => Lookup(t, k)
    decreases |picks|
  {
    if |picks| > 0 {
      var p := picks[0];
      var t' := if ValidPick(p, years, rounds) then Put(t, KeyOf(p), p.ownerId) else t;
      OverlayLookup(t', picks[1..], years, rounds, k);
    }
  }

  /** Records outside the years or rounds, or with an empty id, change nothing. */
  lemma InvalidPickIgnored(t: OwnerTable, picks: seq<TradedPick>, p: TradedPick, years: seq<string>, rounds: int)
    requires !ValidPick(p, years, rounds)
    ensures Overlay(t, [p] + picks, years, rounds) == Overlay(t, picks, years, rounds)
  {
    assert ([p] + picks)[1..] == picks;
  }

  // ------------------------------------------------------------ collect

  /** The display text of one owned pick: `R.SS` for a 2026 pick whose
      original roster has a known draft slot, else the round text with its
      `via` suffix. */
  function FormatPick(k: PickKey, myId: string, names: map<string, string>, slots: Option<map<string, int>>): string {
    if k.year == "2026" && slots.Some? && k.original in slots.value then FormatSlotPick(k.round, slots.value[k.original])
    else FormatFuturePick(k.round, k.original, myId, names)
  }

  /** Reference: the identities of year `y` the user owns, in table order. */
  function OwnedKeys(t: OwnerTable, y: string, myId: string): (r: seq<PickKey>)
    ensures forall k :: k in r ==> k.year == y
  {
    if |t| == 0 then []
    else if t[0].owner == myId && t[0].key.year == y then [t[0].key] + OwnedKeys(t[1..], y, myId)
    else OwnedKeys(t[1..], y, myId)
  }

  /** With unique keys, a key is listed iff the user owns it, at most once. */
  lemma {:induction false} OwnedKeysExact(t: OwnerTable, y: string, myId: string, k: PickKey)
    requires UniqueKeys(t)
    ensures k in OwnedKeys(t, y, myId) <==> k.year == y && Lookup(t, k) == Some(myId)
    ensures var o := OwnedKeys(t, y, myId); forall i, j :: 0 <= i < j < |o| ==> o[i] != o[j]
  {
    if |t| > 0 {
      assert UniqueKeys(t[1..]);
      OwnedKeysExact(t[1..], y, myId, k);
      var rest := OwnedKeys(t[1..], y, myId);
      if t[0].owner == myId && t[0].key.year == y {
        OwnedKeysExact(t[1..], y, myId, t[0].key);
        assert Lookup(t[1..], t[0].key).None?;
      }
    }
  }

  /** The display texts of a list of identities, in order. */
  function Formatted(ks: seq<PickKey>, fmt: PickKey -> string): (r: seq<string>)
    ensures |r| == |ks|
    ensures forall i :: 0 <= i < |ks| ==> r[i] == fmt(ks[i])
  {
    if |ks| == 0 then [] else [fmt(ks[0])] + Formatted(ks[1..], fmt)
  }

  /** Step 3, the collection loop over the table's entries in order: each
      year's list gains the texts of the identities the user owns, in table
      order. */
  function CollectFrom(t: OwnerTable, out: map<string, seq<string>>, myId: string, fmt: PickKey -> string)
    : (r: map<string, seq<string>>)
    ensures r.Keys == out.Keys
    ensures forall y :: y in out ==> r[y] == out[y] + Formatted(OwnedKeys(t, y, myId), fmt)
  {
    if |t| == 0 then out
    else
      var e := t[0];
      var out' := if e.owner == myId && e.key.year in out
                  then out[e.key.year := out[e.key.year] + [fmt(e.key)]]
                  else out;
      var r := CollectFrom(t[1..], out', myId, fmt);
      forall y | y in out {
        CollectStep(t, out, out', y, myId, fmt);
      }
      r
  }

  /** One iteration of the collection loop, for one year. */
  lemma CollectStep(t: OwnerTable, out: map<string, seq<string>>, out': map<string, seq<string>>, y: string,
                    myId: string, fmt: PickKey -> string)
    requires |t| > 0 && y in out && y in out'
    requires out'[y] == if t[0].owner == myId && t[0].key.year == y then out[y] + [fmt(t[0].key)] else out[y]
    ensures out'[y] + Formatted(OwnedKeys(t[1..], y, myId), fmt) == out[y] + Formatted(OwnedKeys(t, y, myId), fmt)
  {
    var pre: seq<PickKey> := if t[0].owner == myId && t[0].key.year == y then [t[0].key] else [];
    OwnedKeysStep(t, y, myId);
    var ks := OwnedKeys(t[1..], y, myId);
    FormattedAppend(pre, ks, fmt);
    var a := Formatted(pre, fmt);
    assert out'[y] == out[y] + a;
    Regroup(out[y], a, Formatted(ks, fmt));
  }

  lemma Regroup(x: seq<string>, a: seq<string>, b: seq<string>)
    ensures (x + a) + b == x + (a + b)
  {
  }

  lemma OwnedKeysStep(t: OwnerTable, y: string, myId: string)
    requires |t| > 0
    ensures OwnedKeys(t, y, myId)
            == (if t[0].owner == myId && t[0].key.year == y then [t[0].key] else []) + OwnedKeys(t[1..], y, myId)
  {
  }

  lemma FormattedAppend(a: seq<PickKey>, b: seq<PickKey>, fmt: PickKey -> string)
    ensures Formatted(a + b, fmt) == Formatted(a, fmt) + Formatted(b, fmt)
  {
    var r := Formatted(a + b, fmt);
    var s := Formatted(a, fmt) + Formatted(b, fmt);
    assert |r| == |s|;
    forall i | 0 <= i < |r| ensures r[i] == s[i] {
      if i < |a| {
        assert (a + b)[i] == a[i];
      } else {
        assert (a + b)[i] == b[i - |a|];
      }
    }
  }

  function EmptyYears(years: seq<string>): (r: map<string, seq<string>>)
    ensures r.Keys == set y | y in years
    ensures forall y :: y in r ==> r[y] == []
  {
    map y | y in years :: []
  }

  /** `buildPicksByYearUsingOwnership`: a list for every year holding the
      formatted picks the user owns after the overlay, in table order. */
  function PicksByYear(years: seq<string>, rounds: int, picks: seq<TradedPick>, myId: string,
                       names: map<string, string>, slots: Option<map<string, int>>): (r: map<string, seq<string>>)
    ensures r.Keys == set y | y in years
    ensures forall y :: y in r ==>
              r[y] == Formatted(OwnedKeys(FinalTable(years, rounds, picks, myId), y, myId),
                                k => FormatPick(k, myId, names, slots))
  {
    CollectFrom(FinalTable(years, rounds, picks, myId), EmptyYears(years), myId, k => FormatPick(k, myId, names, slots))
  }

  function FinalTable(years: seq<string>, rounds: int, picks: seq<TradedPick>, myId: string): (r: OwnerTable)
    ensures UniqueKeys(r)
  {
    Overlay(Baseline(years, rounds, myId), picks, years, rounds)
  }

  /** Which pick identities the user ends up with: those whose last valid
      record names the user, and the user's own picks of the configured years
      and rounds that no valid record reassigns. Each is listed once. */
  lemma PickOwnership(years: seq<string>, rounds: int, picks: seq<TradedPick>, myId: string, y: string, k: PickKey)
    ensures var o := OwnedKeys(FinalTable(years, rounds, picks, myId), y, myId);
            && (k in o <==>
                  k.year == y
                  && (LastValidOwner(picks, k, years, rounds) == Some(myId)
                      || (LastValidOwner(picks, k, years, rounds).None?
                          && k.year in years && 1 <= k.round <= rounds && k.original == myId)))
            && forall i, j :: 0 <= i < j < |o| ==> o[i] != o[j]
  {
    var base := Baseline(years, rounds, myId);
    OverlayLookup(base, picks, years, rounds, k);
    OwnedKeysExact(FinalTable(years, rounds, picks, myId), y, myId, k);
  }
}
