/** `mergeTeams`: the team lists of every source, flattened one level, with
    falsy entries dropped and the fields the screens rely on filled in when a
    team lacks them. Teams are plain JavaScript objects here, so that the
    trailing spread's rule, that a field the team has always wins, is exact. */
module MergeTeams {
  import opened Lists

  /** A JavaScript value. `JUndefined` is a field explicitly set to
      `undefined`; an absent field is a key missing from the object's map. */
  datatype JsValue =
    | JUndefined
    | JNull
    | JBool(b: bool)
    | JNum(n: int)
    | JStr(s: string)
    | JArray(items: seq<JsValue>)
    | JObject(fields: map<string, JsValue>)

  /** JavaScript truthiness; objects and arrays are truthy even when empty. */
  predicate Truthy(v: JsValue) {
    match v
    case JUndefined => false
    case JNull => false
    case JBool(b) => b
    case JNum(n) => n != 0
    case JStr(s) => s != ""
    case JArray(_) => true
    case JObject(_) => true
  }

  /** The fields an object spread copies. */
  function OwnFields(v: JsValue): map<string, JsValue> {
    if v.JObject? then v.fields else map[]
  }

  /** `t.k`: `undefined` for a missing field. */
  function Get(t: JsValue, k: string): JsValue {
    if k in OwnFields(t) then OwnFields(t)[k] else JUndefined
  }

  const PicksKey := "picksByYear"
  const SettingsKey := "settingsText"
  const PlayersKey := "players"

  /** The three default fields. */
  const FilledKeys: set<string> := {PicksKey, SettingsKey, PlayersKey}

  /** `{ "2026": [], "2027": [], "2028": [] }` */
  const EmptyYears: map<string, JsValue> := map["2026" := JArray([]), "2027" := JArray([]), "2028" := JArray([])]

  /** The object literal before its trailing spread: the empty pick years
      overlaid with the team's own picks object, the settings text or "",
      and the players when they are an array, else []. */
  function Defaults(t: JsValue): map<string, JsValue> {
    var picks := Get(t, PicksKey);
    var settings := Get(t, SettingsKey);
    var players := Get(t, PlayersKey);
    map[
      PicksKey := JObject(EmptyYears + OwnFields(if Truthy(picks) then picks else JObject(map[]))),
      SettingsKey := (if settings.JUndefined? || settings.JNull? then JStr("") else settings),
      PlayersKey := (if players.JArray? then players else JArray([]))
    ]
  }

  /** One team: the defaults, then `...t`, whose fields win. */
  function Fill(t: JsValue): map<string, JsValue> {
    Defaults(t) + OwnFields(t)
  }

  /** The entries of one argument after `flat()`: an array contributes its
      items, anything else itself. */
  function Entries(arg: JsValue): seq<JsValue> {
    if arg.JArray? then arg.items else [arg]
  }

  /** `teamLists.flat()`. */
  function Flat(args: seq<JsValue>): (r: seq<JsValue>)
    decreases |args|
  {
    if |args| == 0 then [] else Flat(args[..|args| - 1]) + Entries(args[|args| - 1])
  }

  /** `mergeTeams(...args)`. */
  function MergeTeams(args: seq<JsValue>): (r: seq<map<string, JsValue>>)
    ensures |r| == |Filter(Flat(args), Truthy)|
  {
    FillEach(Filter(Flat(args), Truthy))
  }

  /** `kept.map(fill)`. */
  function FillEach(kept: seq<JsValue>): (r: seq<map<string, JsValue>>)
    ensures |r| == |kept| && forall i :: 0 <= i < |kept| ==> r[i] == Fill(kept[i])
  {
    seq(|kept|, i requires 0 <= i < |kept| => Fill(kept[i]))
  }

  lemma FillEachAppend(a: seq<JsValue>, b: seq<JsValue>)
    ensures FillEach(a + b) == FillEach(a) + FillEach(b)
  {
    var l, r := FillEach(a + b), FillEach(a) + FillEach(b);
    forall i | 0 <= i < |l| ensures l[i] == r[i] {
      if i < |a| {
        assert (a + b)[i] == a[i];
      } else {
        assert (a + b)[i] == b[i - |a|];
      }
    }
  }

  // ------------------------------------------------------------ properties

  /** Every field the team has appears in the result unchanged, and the
      result has exactly the team's fields plus the three defaults. */
  lemma FillKeepsFields(t: JsValue)
    ensures Fill(t).Keys == OwnFields(t).Keys + FilledKeys
    ensures forall k :: k in OwnFields(t) ==> Fill(t)[k] == OwnFields(t)[k]
  {
  }

  /** A missing field gets its default: the three empty pick years, the empty
      settings text, the empty player list. */
  lemma FillDefaults(t: JsValue)
    ensures PicksKey !in OwnFields(t) ==> Fill(t)[PicksKey] == JObject(EmptyYears)
    ensures SettingsKey !in OwnFields(t) ==> Fill(t)[SettingsKey] == JStr("")
    ensures PlayersKey !in OwnFields(t) ==> Fill(t)[PlayersKey] == JArray([])
  {
    assert EmptyYears + map[] == EmptyYears;
  }

  /** A picks object that lacks some years is not padded, and a players value
      that is not an array passes through: the team's own field wins. */
  lemma FillNoPadding(t: JsValue, years: map<string, JsValue>, players: JsValue)
    requires Get(t, PicksKey) == JObject(years)
    requires PlayersKey in OwnFields(t) && OwnFields(t)[PlayersKey] == players
    requires "2027" !in years && !players.JArray?
    ensures Fill(t)[PicksKey] == JObject(years) && "2027" !in Fill(t)[PicksKey].fields
    ensures Fill(t)[PlayersKey] == players
  {
  }

  /** Filling an already filled team changes nothing. */
  lemma FillIdempotent(t: JsValue)
    ensures Fill(JObject(Fill(t))) == Fill(t)
  {
    FillKeepsFields(t);
    FillKeepsFields(JObject(Fill(t)));
  }

  lemma {:induction false} FlatAppend(a: seq<JsValue>, b: seq<JsValue>)
    ensures Flat(a + b) == Flat(a) + Flat(b)
    decreases |b|
  {
    if |b| == 0 {
      assert a + b == a;
    } else {
      var b' := b[..|b| - 1];
      FlatAppend(a, b');
      assert (a + b)[..|a + b| - 1] == a + b';
      assert (a + b)[|a + b| - 1] == b[|b| - 1];
      assert Flat(a + b) == Flat(a + b') + Entries(b[|b| - 1]);
      assert Flat(b) == Flat(b') + Entries(b[|b| - 1]);
    }
  }

  /** Merging concatenated argument lists is concatenating the merges: the
      output keeps the order of the arguments and of the teams in them. */
  lemma MergeTeamsAppend(a: seq<JsValue>, b: seq<JsValue>)
    ensures MergeTeams(a + b) == MergeTeams(a) + MergeTeams(b)
  {
    FlatAppend(a, b);
    FilterAppend(Flat(a), Flat(b), Truthy);
    FillEachAppend(Filter(Flat(a), Truthy), Filter(Flat(b), Truthy));
  }

  /** A falsy argument contributes nothing. */
  lemma MergeTeamsDropsFalsy(args: seq<JsValue>, v: JsValue)
    requires !Truthy(v)
    ensures MergeTeams(args + [v]) == MergeTeams(args)
  {
    MergeTeamsAppend(args, [v]);
    assert Flat([v]) == [v] by {
      assert [v][..0] == [];
    }
  }

  /** One list of teams, all of them objects, comes out one filled team per
      input team, in the same order. */
  lemma MergeTeamsOfList(teams: seq<JsValue>)
    requires forall i :: 0 <= i < |teams| ==> teams[i].JObject?
    ensures |MergeTeams([JArray(teams)])| == |teams|
    ensures forall i :: 0 <= i < |teams| ==> MergeTeams([JArray(teams)])[i] == Fill(teams[i])
  {
    assert Flat([JArray(teams)]) == teams by {
      assert [JArray(teams)][..0] == [];
    }
    FilterAll(teams, Truthy);
  }

  /** Flattening a list of objects leaves it as it is. */
  lemma {:induction false} FlatObjects(teams: seq<JsValue>)
    requires forall i :: 0 <= i < |teams| ==> teams[i].JObject?
    ensures Flat(teams) == teams
    decreases |teams|
  {
    if |teams| > 0 {
      FlatObjects(teams[..|teams| - 1]);
    }
  }

  /** Passing the teams as one array or as separate arguments gives the same
      result: the flattening goes exactly one level deep. */
  lemma MergeTeamsSpreadArgs(teams: seq<JsValue>)
    requires forall i :: 0 <= i < |teams| ==> teams[i].JObject?
    ensures MergeTeams(teams) == MergeTeams([JArray(teams)])
  {
    FlatObjects(teams);
    assert Flat([JArray(teams)]) == teams by {
      assert [JArray(teams)][..0] == [];
    }
  }

  /** Merging the merged teams again changes nothing. */
  lemma MergeTeamsIdempotent(args: seq<JsValue>)
    ensures var once := MergeTeams(args);
            MergeTeams([JArray(seq(|once|, i requires 0 <= i < |once| => JObject(once[i])))]) == once
  {
    var once := MergeTeams(args);
    var objs := seq(|once|, i requires 0 <= i < |once| => JObject(once[i]));
    MergeTeamsOfList(objs);
    forall i | 0 <= i < |once| ensures MergeTeams([JArray(objs)])[i] == once[i] {
      var kept := Filter(Flat(args), Truthy);
      FillIdempotent(kept[i]);
    }
  }
}
