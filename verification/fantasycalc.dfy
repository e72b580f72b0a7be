/** The FantasyCalc value source: the cache key built from the league
    parameters, the one-day freshness rule for a cached entry, and the
    sleeper-id to value map built from a response. The clock and the stored
    text are parameters; the HTTP request is a parameter too. */
module FantasyCalc {
  import opened Wrappers
  import opened Text

  /** The league parameters; `None` is a missing (`null`/`undefined`) value. */
  datatype Params = Params(isDynasty: bool, numQbs: Option<int>, numTeams: Option<int>, ppr: Option<int>)

  /** The settings a key names, after the defaults are applied. */
  datatype KeyFields = KeyFields(dynasty: bool, qbs: int, teams: int, ppr: int)

  const CachePrefix := "ddc.fantasycalc.values.v1"

  /** 24 hours in milliseconds. */
  const DayMs: int := 24 * 60 * 60 * 1000

  /** `params?.x`, with a missing params object reading every field as unset. */
  function Settings(params: Option<Params>): (r: KeyFields)
    ensures params.None? ==> r == KeyFields(false, 1, 12, 1)
    ensures params.Some? ==> r.dynasty == params.value.isDynasty
    ensures params.Some? && params.value.numQbs.Some? ==> r.qbs == params.value.numQbs.value
    ensures params.Some? && params.value.numQbs.None? ==> r.qbs == 1
    ensures params.Some? && params.value.numTeams.Some? ==> r.teams == params.value.numTeams.value
    ensures params.Some? && params.value.numTeams.None? ==> r.teams == 12
    ensures params.Some? && params.value.ppr.Some? ==> r.ppr == params.value.ppr.value
    ensures params.Some? && params.value.ppr.None? ==> r.ppr == 1
  {
    match params
    case None => KeyFields(false, 1, 12, 1)
    case Some(p) => KeyFields(p.isDynasty, p.numQbs.GetOr(1), p.numTeams.GetOr(12), p.ppr.GetOr(1))
  }

  predicate IsBar(c: char) {
    c == '|'
  }

  function KeyParts(f: KeyFields): seq<string> {
    [if f.dynasty then "dyn" else "red",
     "qbs=" + IntToString(f.qbs),
     "teams=" + IntToString(f.teams),
     "ppr=" + IntToString(f.ppr)]
  }

  /** `makeKey`: `dyn|qbs=<n>|teams=<n>|ppr=<n>`, or `red|…` for a redraft
      league. */
  function MakeKey(params: Option<Params>): string {
    Join(KeyParts(Settings(params)), '|')
  }

  /** The storage key of a cached entry. */
  function CacheKey(key: string): string {
    CachePrefix + ":" + key
  }

  /** The text after a fixed prefix, read as a number. */
  function ReadField(part: string, prefix: string): Option<int> {
    if |part| > |prefix| && part[..|prefix|] == prefix then
      var digits := part[|prefix|..];
      if AllDigits(digits) || (digits[0] == '-' && AllDigits(digits[1..])) then Some(ParseInt(digits))
      else None
    else None
  }

  /** Reads a key back into its settings; the inverse of `MakeKey`. */
  function ParseKey(key: string): Option<KeyFields> {
    var parts := Split(key, IsBar);
    if |parts| != 4 || (parts[0] != "dyn" && parts[0] != "red") then None
    else
      match (ReadField(parts[1], "qbs="), ReadField(parts[2], "teams="), ReadField(parts[3], "ppr="))
      case (Some(q), Some(t), Some(p)) => Some(KeyFields(parts[0] == "dyn", q, t, p))
      case _ => None
  }

  lemma ReadFieldNumber(prefix: string, n: int)
    ensures ReadField(prefix + IntToString(n), prefix) == Some(n)
  {
    var part := prefix + IntToString(n);
    assert part[..|prefix|] == prefix;
    assert part[|prefix|..] == IntToString(n);
    IntToStringRoundTrip(n);
  }

  lemma IntToStringNoBar(n: int)
    ensures NoSep(IntToString(n), IsBar)
  {
    var s := IntToString(n);
    forall i | 0 <= i < |s| ensures !IsBar(s[i]) {
      if n < 0 && i > 0 {
        assert s[i] == s[1..][i - 1];
      }
    }
  }

  lemma PrefixedNoBar(prefix: string, n: int)
    requires NoSep(prefix, IsBar)
    ensures NoSep(prefix + IntToString(n), IsBar)
  {
    IntToStringNoBar(n);
    var s := prefix + IntToString(n);
    forall i | 0 <= i < |s| ensures !IsBar(s[i]) {
      if i >= |prefix| {
        assert s[i] == IntToString(n)[i - |prefix|];
      }
    }
  }

  /** The key reads back to the settings it was made from, so two parameter
      sets share a cache entry exactly when their settings agree. */
  lemma MakeKeyRoundTrip(params: Option<Params>)
    ensures ParseKey(MakeKey(params)) == Some(Settings(params))
  {
    KeyPartsRoundTrip(Settings(params));
  }

  lemma KeyPartsRoundTrip(f: KeyFields)
    ensures ParseKey(Join(KeyParts(f), '|')) == Some(f)
  {
    var parts := KeyParts(f);
    PrefixedNoBar("qbs=", f.qbs);
    PrefixedNoBar("teams=", f.teams);
    PrefixedNoBar("ppr=", f.ppr);
    assert forall k :: 0 <= k < |parts| ==> NoSep(parts[k], IsBar);
    SplitJoinRoundTrip(parts, '|', IsBar);
    ReadFieldNumber("qbs=", f.qbs);
    ReadFieldNumber("teams=", f.teams);
    ReadFieldNumber("ppr=", f.ppr);
  }

  lemma MakeKeyInjective(a: Option<Params>, b: Option<Params>)
    ensures MakeKey(a) == MakeKey(b) <==> Settings(a) == Settings(b)
  {
    MakeKeyRoundTrip(a);
    MakeKeyRoundTrip(b);
  }

  lemma JoinFour(a: string, b: string, c: string, d: string)
    ensures Join([a, b, c, d], '|') == a + "|" + b + "|" + c + "|" + d
  {
    var p := [a, b, c, d];
    JoinCons(c, [d], '|');
    assert p[2..] == [c] + [d];
    JoinCons(b, p[2..], '|');
    assert p[1..] == [b] + p[2..];
    JoinCons(a, p[1..], '|');
    assert p == [a] + p[1..];
  }

  lemma SmallNumbers()
    ensures IntToString(1) == "1" && IntToString(12) == "12"
  {
    assert NatToString(12) == NatToString(1) + [DigitChar(2)];
  }

  /** Missing counts read as a one-quarterback, twelve-team,
      full-point-per-reception league, and missing parameters as a redraft
      league. */
  lemma MakeKeyDefaults(params: Option<Params>)
    requires params.Some? ==> params.value.numQbs.None? && params.value.numTeams.None? && params.value.ppr.None?
    ensures MakeKey(params)
            == (if params.Some? && params.value.isDynasty then "dyn" else "red") + "|qbs=1|teams=12|ppr=1"
  {
    var dynasty := params.Some? && params.value.isDynasty;
    assert Settings(params) == KeyFields(dynasty, 1, 12, 1);
    DefaultKey(dynasty);
    KeyText(if dynasty then "dyn" else "red");
  }

  /** The key of the default counts, for either league kind. */
  lemma DefaultKey(dynasty: bool)
    ensures var kind := if dynasty then "dyn" else "red";
            Join(KeyParts(KeyFields(dynasty, 1, 12, 1)), '|') == kind + "|" + "qbs=1" + "|" + "teams=12" + "|" + "ppr=1"
  {
    SmallNumbers();
    assert "qbs=" + IntToString(1) == "qbs=1" && "ppr=" + IntToString(1) == "ppr=1";
    assert "teams=" + IntToString(12) == "teams=12";
    var kind := if dynasty then "dyn" else "red";
    assert KeyParts(KeyFields(dynasty, 1, 12, 1)) == [kind, "qbs=1", "teams=12", "ppr=1"];
    JoinFour(kind, "qbs=1", "teams=12", "ppr=1");
  }

  lemma KeyText(kind: string)
    requires |kind| == 3
    ensures kind + "|" + "qbs=1" + "|" + "teams=12" + "|" + "ppr=1" == kind + "|qbs=1|teams=12|ppr=1"
  {
  }

  // ------------------------------------------------------------ the cache

  /** What reading the stored text yields: nothing (absent or empty text),
      text `JSON.parse` rejects or that is not an object, or an object whose
      `ts` and `data` may be missing. */
  datatype Stored =
    | Missing
    | Unparseable
    | Entry(ts: Option<int>, data: Option<map<string, int>>)

  /** `!parsed?.ts`: a missing or zero timestamp is falsy. */
  predicate HasTs(s: Stored) {
    s.Entry? && s.ts.Some? && s.ts.value != 0
  }

  /** `getCache`: the data of an entry that has both fields and is at most a
      day old at `now`; `None` otherwise. */
  function GetCache(now: int, s: Stored): (r: Option<map<string, int>>)
    ensures r.Some? <==> HasTs(s) && s.data.Some? && now - s.ts.value <= DayMs
    ensures r.Some? ==> r.value == s.data.value
  {
    if !HasTs(s) || s.data.None? then None
    else if now - s.ts.value > DayMs then None
    else s.data
  }

  /** `getFantasyCalcUpdatedAt`: the timestamp of an entry that has one,
      whatever its age and whether or not it has data. */
  function GetUpdatedAt(s: Stored): (r: Option<int>)
    ensures r.Some? <==> HasTs(s)
    ensures r.Some? ==> r.value == s.ts.value && r.value != 0
  {
    if HasTs(s) then s.ts else None
  }

  /** `setCache`: the entry written at `now`. */
  function SetCache(now: int, data: map<string, int>): Stored {
    Entry(Some(now), Some(data))
  }

  /** An entry written at `t` is read back until exactly one day later, and
      rejected from the next millisecond on; its timestamp is reported
      throughout. A clock reading of zero is falsy and never reads back. */
  lemma CacheRoundTrip(t: int, now: int, data: map<string, int>)
    ensures GetCache(now, SetCache(t, data)) == (if t != 0 && now <= t + DayMs then Some(data) else None)
    ensures GetUpdatedAt(SetCache(t, data)) == (if t != 0 then Some(t) else None)
  {
  }

  /** A fresh entry stays fresh for earlier clock readings, and a stale one
      stays stale for later ones. */
  lemma CacheFreshnessMonotone(s: Stored, now: int, later: int)
    requires now <= later
    ensures GetCache(later, s).Some? ==> GetCache(now, s).Some?
    ensures GetCache(now, s).None? && HasTs(s) && s.data.Some? ==> GetCache(later, s).None?
  {
  }

  /** A readable entry always has a timestamp to report. */
  lemma CacheImpliesUpdatedAt(now: int, s: Stored)
    requires GetCache(now, s).Some?
    ensures GetUpdatedAt(s) == Some(s.ts.value)
  {
  }

  // ------------------------------------------------------------ the response

  /** `row?.value` before `Number(...)`: missing (NaN), null (0), a number, or
      something `Number` cannot read (NaN). */
  datatype RawValue = ValueMissing | ValueNull | ValueNum(n: int) | ValueNotNumeric

  /** `Number(value)`, when finite. */
  function NumberOf(v: RawValue): Option<int> {
    match v
    case ValueMissing => None
    case ValueNull => Some(0)
    case ValueNum(n) => Some(n)
    case ValueNotNumeric => None
  }

  /** One response row: `row?.player?.sleeperId` (None when null or missing)
      and `row?.value`. */
  datatype FcRow = FcRow(sleeperId: Option<string>, value: RawValue)

  /** A row that the loop records. */
  predicate Recorded(row: FcRow) {
    row.sleeperId.Some? && NumberOf(row.value).Some?
  }

  /** The value map built by a reference definition: the last recorded row
      for each id wins. */
  function ValuesOf(rows: seq<FcRow>): map<string, int>
    decreases |rows|
  {
    if |rows| == 0 then map[]
    else
      var m := ValuesOf(rows[..|rows| - 1]);
      var row := rows[|rows| - 1];
      if Recorded(row) then m[row.sleeperId.value := NumberOf(row.value).value] else m
  }

  /** The response loop: a non-array body reads as no rows. */
  method BuildValues(body: Option<seq<FcRow>>) returns (values: map<string, int>)
    ensures values == ValuesOf(body.GetOr([]))
  {
    var rows := body.GetOr([]);
    values := map[];
    var i := 0;
    while i < |rows|
      invariant 0 <= i <= |rows|
      invariant values == ValuesOf(rows[..i])
    {
      var row := rows[i];
      assert rows[..i + 1][..i] == rows[..i];
      if row.sleeperId.Some? {
        var n := NumberOf(row.value);
        if n.Some? {
          values := values[row.sleeperId.value := n.value];
        }
      }
      i := i + 1;
    }
    assert rows[..|rows|] == rows;
  }

  /** An id is in the map exactly when some row records it, and its value is
      that of the last such row. */
  lemma {:induction false} ValuesOfLastWins(rows: seq<FcRow>, id: string)
    ensures id in ValuesOf(rows) <==> exists i :: 0 <= i < |rows| && Recorded(rows[i]) && rows[i].sleeperId.value == id
    ensures id in ValuesOf(rows) ==>
              exists i :: 0 <= i < |rows| && Recorded(rows[i]) && rows[i].sleeperId.value == id
                          && ValuesOf(rows)[id] == NumberOf(rows[i].value).value
                          && forall j :: i < j < |rows| ==> !(Recorded(rows[j]) && rows[j].sleeperId.value == id)
    decreases |rows|
  {
    if |rows| > 0 {
      var front := rows[..|rows| - 1];
      var last := rows[|rows| - 1];
      ValuesOfLastWins(front, id);
      if Recorded(last) && last.sleeperId.value == id {
        assert rows[|rows| - 1] == last;
      } else {
        if id in ValuesOf(rows) {
          var i :| 0 <= i < |front| && Recorded(front[i]) && front[i].sleeperId.value == id
                   && ValuesOf(front)[id] == NumberOf(front[i].value).value
                   && forall j :: i < j < |front| ==> !(Recorded(front[j]) && front[j].sleeperId.value == id);
          assert rows[i] == front[i];
          assert forall j :: i < j < |rows| ==> !(Recorded(rows[j]) && rows[j].sleeperId.value == id) by {
            forall j | i < j < |rows| ensures !(Recorded(rows[j]) && rows[j].sleeperId.value == id) {
              if j < |front| {
                assert rows[j] == front[j];
              }
            }
          }
        }
        if exists i :: 0 <= i < |rows| && Recorded(rows[i]) && rows[i].sleeperId.value == id {
          var i :| 0 <= i < |rows| && Recorded(rows[i]) && rows[i].sleeperId.value == id;
          assert i < |front| && front[i] == rows[i];
        }
      }
    }
  }

  /** A null value is recorded as 0, while a missing or non-numeric value is
      skipped, as is a row without an id. */
  lemma NullValueRecordsZero(rows: seq<FcRow>, id: string)
    ensures ValuesOf(rows + [FcRow(Some(id), ValueNull)]) == ValuesOf(rows)[id := 0]
    ensures ValuesOf(rows + [FcRow(Some(id), ValueMissing)]) == ValuesOf(rows)
    ensures ValuesOf(rows + [FcRow(None, ValueNum(1))]) == ValuesOf(rows)
  {
    assert (rows + [FcRow(Some(id), ValueNull)])[..|rows|] == rows;
    assert (rows + [FcRow(Some(id), ValueMissing)])[..|rows|] == rows;
    assert (rows + [FcRow(None, ValueNum(1))])[..|rows|] == rows;
  }

  /** `getFantasyCalcValues`: a readable cached entry is used as is (even an
      empty one, since an object is truthy); otherwise the fetched response
      is turned into the map and written back at `now`. `None` is the thrown
      HTTP error, which leaves the stored entry alone. */
  method GetValues(params: Option<Params>, now: int, stored: Stored, fetched: Option<Option<seq<FcRow>>>)
    returns (key: string, values: Option<map<string, int>>, stored': Stored)
    ensures key == MakeKey(params)
    ensures GetCache(now, stored).Some? ==> values == GetCache(now, stored) && stored' == stored
    ensures GetCache(now, stored).None? && fetched.None? ==> values.None? && stored' == stored
    ensures GetCache(now, stored).None? && fetched.Some? ==>
              values == Some(ValuesOf(fetched.value.GetOr([]))) && stored' == SetCache(now, values.value)
  {
    key := MakeKey(params);
    var cached := GetCache(now, stored);
    if cached.Some? {
      values, stored' := cached, stored;
    } else if fetched.None? {
      values, stored' := None, stored;
    } else {
      var obj := BuildValues(fetched.value);
      values, stored' := Some(obj), SetCache(now, obj);
    }
  }
}
