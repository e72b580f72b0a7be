/** What the main screen derives from the state: the active team, the
    per-group lists in display order, the visible tabs, and the team and tab
    restored from the saved preferences. */
module AppViews {
  import opened Wrappers
  import opened Entities
  import opened Sorting
  import Lists

  const PICKS := "PICKS"
  const ROSTER := "ROSTER"

  /** `teams[teamIndex]`: nothing when the index is out of range. */
  function TeamAt(st: AppState, idx: int): (r: Option<Team>)
    ensures r.Some? <==> 0 <= idx < |st.teams|
    ensures r.Some? ==> r.value == st.teams[idx]
  {
    if 0 <= idx < |st.teams| then Some(st.teams[idx]) else None
  }

  /** The players of group `g`, in roster order. */
  function OfGroup(ps: seq<Player>, g: string): (r: seq<Player>)
    ensures forall p :: p in r <==> p in ps && p.group == g
    ensures forall i :: 0 <= i < |r| ==> r[i].group == g
    ensures |r| <= |ps|
  {
    if |ps| == 0 then []
    else if ps[0].group == g then [ps[0]] + OfGroup(ps[1..], g)
    else OfGroup(ps[1..], g)
  }

  /** The players of every other group, in roster order. */
  function NotOfGroup(ps: seq<Player>, g: string): (r: seq<Player>)
    ensures forall p :: p in r <==> p in ps && p.group != g
    ensures |r| <= |ps|
  {
    if |ps| == 0 then []
    else if ps[0].group != g then [ps[0]] + NotOfGroup(ps[1..], g)
    else NotOfGroup(ps[1..], g)
  }

  /** The comparator `(a.order ?? 999) - (b.order ?? 999)` as a sort key. */
  function OrderKey(p: Player): SortKey {
    SortKey("", SortValue(p.order))
  }

  /** `playersByGroup`: one list per known group, each a permutation of the
      group's players sorted by order with ties kept in roster order; a
      player whose group is not one of the six appears in no list. */
  function PlayersByGroup(team: Option<Team>): (r: map<string, seq<Player>>)
    ensures r.Keys == set g | g in AllGroups
    ensures forall g :: g in r ==> Sorted(r[g], OrderKey)
    ensures forall g :: g in r ==>
              multiset(r[g]) == (if team.Some? then multiset(OfGroup(team.value.players, g)) else multiset{})
  {
    var ps := if team.Some? then team.value.players else [];
    map g | g in AllGroups :: Sort(OfGroup(ps, g), OrderKey)
  }

  /** A player is listed under `g` exactly when it belongs to the active team
      and to group `g`. */
  lemma PlayersByGroupMembers(team: Option<Team>, g: string, p: Player)
    requires g in AllGroups
    ensures p in PlayersByGroup(team)[g] <==> team.Some? && p in team.value.players && p.group == g
  {
    var r := PlayersByGroup(team)[g];
    assert p in r <==> p in multiset(r);
    if team.Some? {
      var og := OfGroup(team.value.players, g);
      assert p in og <==> p in multiset(og);
    }
  }

  /** Players with equal sort values keep their roster order. */
  lemma PlayersByGroupStable(t: Team, g: string, k: SortKey)
    requires g in AllGroups
    ensures FilterKey(PlayersByGroup(Some(t))[g], OrderKey, k) == FilterKey(OfGroup(t.players, g), OrderKey, k)
  {
    SortStable(OfGroup(t.players, g), OrderKey, k);
  }

  /** The tab list for a team, given whether it has defenses and whether
      its league keeps a taxi squad. */
  function TabsFor(hasDef: bool, hasTaxi: bool): (r: seq<string>)
    ensures |r| >= 6 && r[..4] == [QB, RB, WR, TE] && r[|r| - 2..] == [PICKS, ROSTER]
    ensures DEF in r <==> hasDef
    ensures TAXI in r <==> hasTaxi
    ensures forall i, j :: 0 <= i < j < |r| ==> r[i] != r[j]
  {
    assert RB[1] != ROSTER[1] && TE[1] != TAXI[1];
    if hasDef && hasTaxi then [QB, RB, WR, TE, DEF, TAXI, PICKS, ROSTER]
    else if hasDef then [QB, RB, WR, TE, DEF, PICKS, ROSTER]
    else if hasTaxi then [QB, RB, WR, TE, TAXI, PICKS, ROSTER]
    else [QB, RB, WR, TE, PICKS, ROSTER]
  }

  /** `visibleTabs`: nothing without a team; otherwise the four position
      tabs, DEF when the team has defenses, TAXI unless the league is best
      ball, then PICKS and ROSTER. */
  function VisibleTabs(team: Option<Team>): (r: seq<string>)
    ensures team.None? <==> r == []
    ensures team.Some? ==> |r| >= 6 && r[..4] == [QB, RB, WR, TE] && r[|r| - 2..] == [PICKS, ROSTER]
    ensures DEF in r <==> team.Some? && |PlayersByGroup(team)[DEF]| > 0
    ensures TAXI in r <==> team.Some? && !team.value.isBestBall
    ensures forall i, j :: 0 <= i < j < |r| ==> r[i] != r[j]
  {
    if team.None? then []
    else TabsFor(|PlayersByGroup(team)[DEF]| > 0, !team.value.isBestBall)
  }

  /** The effect that falls back to the first visible tab when the active one
      is hidden; with no tabs the active tab is kept. */
  function ActiveTabFallback(tabs: seq<string>, active: string): (r: string)
    ensures |tabs| > 0 ==> r in tabs
    ensures active in tabs || |tabs| == 0 ==> r == active
    ensures |tabs| > 0 && active !in tabs ==> r == tabs[0]
  {
    if |tabs| == 0 || active in tabs then active else tabs[0]
  }

  /** With a team selected, a hidden active tab falls back to the QB tab, and
      the fallback is settled: running the effect again changes nothing. */
  lemma ActiveTabFallbackSettles(team: Option<Team>, active: string)
    ensures var tabs := VisibleTabs(team);
            var r := ActiveTabFallback(tabs, active);
            ActiveTabFallback(tabs, r) == r
            && (team.Some? && active !in tabs ==> r == QB)
  {
    var tabs := VisibleTabs(team);
    if team.Some? {
      assert tabs[0] == tabs[..4][0];
    }
  }

  /** The saved UI preferences; an absent or empty value reads as unset. */
  datatype UiPrefs = UiPrefs(activeTeamId: Option<string>, activeTab: Option<string>)

  datatype InitialUi = InitialUi(teamIndex: nat, activeTab: string)

  /** `computeInitialUiFromSavedState`: the first saved team whose id is the
      preferred one (else team 0), and the preferred tab (else QB). */
  function ComputeInitialUi(saved: Option<AppState>, prefs: UiPrefs): (r: InitialUi)
    ensures var teams := if saved.Some? then saved.value.teams else [];
            && (|teams| > 0 ==> r.teamIndex < |teams|)
            && (r.teamIndex != 0 ==> r.teamIndex < |teams| && prefs.activeTeamId.Some?
                                     && teams[r.teamIndex].id == prefs.activeTeamId.value)
            && (prefs.activeTeamId.Some? && prefs.activeTeamId.value != ""
                && (exists i :: 0 <= i < |teams| && teams[i].id == prefs.activeTeamId.value) ==>
                  r.teamIndex < |teams| && teams[r.teamIndex].id == prefs.activeTeamId.value
                  && forall i :: 0 <= i < r.teamIndex ==> teams[i].id != prefs.activeTeamId.value)
    ensures r.activeTab != ""
    ensures prefs.activeTab.Some? && prefs.activeTab.value != "" ==> r.activeTab == prefs.activeTab.value
    ensures !(prefs.activeTab.Some? && prefs.activeTab.value != "") ==> r.activeTab == QB
  {
    var teams := if saved.Some? then saved.value.teams else [];
    var idx :=
      if prefs.activeTeamId.Some? && prefs.activeTeamId.value != "" && |teams| > 0 then
        Lists.FirstIndexWithId(teams, (t: Team) => t.id, prefs.activeTeamId.value).GetOr(0)
      else 0;
    var tab := if prefs.activeTab.Some? && prefs.activeTab.value != "" then prefs.activeTab.value else QB;
    InitialUi(idx, tab)
  }
}
