/** The read-only roster overview: which group cards it shows and the value
    total on each card. Row labels are those of the player list
    (`PlayerList.SlotLabel`). */
module MacroRoster {
  import opened Wrappers
  import opened Entities
  import opened FantasyCalc
  import opened AppViews

  /** A player whose value is present and a finite number adds to the total;
      `null` and `undefined` are skipped before `Number` is applied. */
  predicate Counted(p: Player, values: map<string, RawValue>) {
    p.id in values && values[p.id].ValueNum?
  }

  /** The sum of the counted values, as a reference definition. */
  function SumCounted(players: seq<Player>, values: map<string, RawValue>): int
    decreases |players|
  {
    if |players| == 0 then 0
    else
      var p := players[|players| - 1];
      SumCounted(players[..|players| - 1], values) + (if Counted(p, values) then values[p.id].n else 0)
  }

  /** `computeGroupTotalVal`: no total without a value map or without
      players; otherwise the sum of the counted values, or no total when no
      player counts. */
  method GroupTotal(players: seq<Player>, values: Option<map<string, RawValue>>) returns (total: Option<int>)
    ensures values.None? || |players| == 0 ==> total.None?
    ensures values.Some? ==>
              (total.Some? <==> exists i :: 0 <= i < |players| && Counted(players[i], values.value))
    ensures total.Some? ==> total.value == SumCounted(players, values.value)
  {
    if values.None? || |players| == 0 {
      return None;
    }
    var m := values.value;
    var sum := 0;
    var hasAny := false;
    var i := 0;
    while i < |players|
      invariant 0 <= i <= |players|
      invariant sum == SumCounted(players[..i], m)
      invariant hasAny <==> exists k :: 0 <= k < i && Counted(players[k], m)
    {
      var p := players[i];
      assert players[..i + 1][..i] == players[..i];
      if p.id in m && m[p.id].ValueNum? {
        sum := sum + m[p.id].n;
        hasAny := true;
      }
      i := i + 1;
    }
    assert players[..|players|] == players;
    total := if hasAny then Some(sum) else None;
  }

  /** Players without a counted value leave the sum alone, so the total of a
      group equals the total of its counted players. */
  lemma {:induction false} SumCountedAppend(a: seq<Player>, b: seq<Player>, values: map<string, RawValue>)
    ensures SumCounted(a + b, values) == SumCounted(a, values) + SumCounted(b, values)
    decreases |b|
  {
    if |b| == 0 {
      assert a + b == a;
    } else {
      SumCountedAppend(a, b[..|b| - 1], values);
      assert (a + b)[..|a + b| - 1] == a + b[..|b| - 1];
    }
  }

  /** The total does not depend on the order of the players. */
  lemma {:induction false} SumCountedSwap(a: seq<Player>, x: Player, y: Player, b: seq<Player>, values: map<string, RawValue>)
    ensures SumCounted(a + [x, y] + b, values) == SumCounted(a + [y, x] + b, values)
  {
    SumCountedAppend(a + [x, y], b, values);
    SumCountedAppend(a + [y, x], b, values);
    SumCountedAppend(a, [x, y], values);
    SumCountedAppend(a, [y, x], values);
    assert [x, y][..1] == [x] && [y, x][..1] == [y];
    assert [x][..0] == [] && [y][..0] == [];
  }

  // ------------------------------------------------------------ group cards

  /** `playersByGroup?.[g]?.length ?? 0`. */
  function CountIn(byGroup: map<string, seq<Player>>, g: string): nat {
    if g in byGroup then |byGroup[g]| else 0
  }

  /** The group cards shown: always the four position groups, then DEF when
      it has players, then TAXI when it has players. */
  function MacroGroups(byGroup: map<string, seq<Player>>): (r: seq<string>)
    ensures |r| >= 4 && r[..4] == [QB, RB, WR, TE]
    ensures DEF in r <==> CountIn(byGroup, DEF) > 0
    ensures TAXI in r <==> CountIn(byGroup, TAXI) > 0
  {
    [QB, RB, WR, TE]
      + (if CountIn(byGroup, DEF) > 0 then [DEF] else [])
      + (if CountIn(byGroup, TAXI) > 0 then [TAXI] else [])
  }

  /** The cards are the tab list's group part, with the taxi card decided by
      whether the taxi squad has players. */
  lemma MacroGroupsAndTabs(byGroup: map<string, seq<Player>>)
    requires DEF in byGroup && TAXI in byGroup
    ensures var tabs := TabsFor(|byGroup[DEF]| > 0, |byGroup[TAXI]| > 0);
            MacroGroups(byGroup) == tabs[..|tabs| - 2]
  {
    var d, x := |byGroup[DEF]| > 0, |byGroup[TAXI]| > 0;
    if d && x {
      assert TabsFor(d, x) == [QB, RB, WR, TE, DEF, TAXI, PICKS, ROSTER];
    } else if d {
      assert TabsFor(d, x) == [QB, RB, WR, TE, DEF, PICKS, ROSTER];
    } else if x {
      assert TabsFor(d, x) == [QB, RB, WR, TE, TAXI, PICKS, ROSTER];
    } else {
      assert TabsFor(d, x) == [QB, RB, WR, TE, PICKS, ROSTER];
    }
  }

  /** The main screen's tabs are `TabsFor(hasDef, !isBestBall)` for the same
      per-group lists. In a league with a taxi tab every card has a tab; in
      a best-ball league a non-empty taxi squad gets a card but no tab. */
  lemma MacroGroupsWithinTabs(byGroup: map<string, seq<Player>>, taxiTab: bool)
    requires DEF in byGroup && TAXI in byGroup
    ensures var tabs := TabsFor(|byGroup[DEF]| > 0, taxiTab);
            (taxiTab ==> forall g :: g in MacroGroups(byGroup) ==> g in tabs)
            && (!taxiTab && |byGroup[TAXI]| > 0 ==> TAXI in MacroGroups(byGroup) && TAXI !in tabs)
  {
    var cards := MacroGroups(byGroup);
    var tabs := TabsFor(|byGroup[DEF]| > 0, taxiTab);
    forall g | g in cards && taxiTab ensures g in tabs {
      if g != DEF && g != TAXI {
        var k :| 0 <= k < |cards| && cards[k] == g;
        assert k < 4 && tabs[k] == g;
      }
    }
  }
}
