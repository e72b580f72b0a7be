/** The two state mutators of the main screen. Each changes the application
    state and writes through to the edit ledger, so that the change survives
    a disconnect and reconnect (see `OrderSurvivesReconnect` and
    `InjuredSurvivesReconnect`). */
module Mutators {
  import opened Wrappers
  import opened Entities
  import opened Sorting
  import opened EditLedger
  import opened Reconcile
  import opened AppViews
  import Lists

  /** The dropped list renumbered by position: orders 1..n. */
  function Renumber(list: seq<Player>): (r: seq<Player>)
    ensures |r| == |list|
    ensures forall i :: 0 <= i < |r| ==> r[i].(order := list[i].order) == list[i]
    ensures forall i :: 0 <= i < |r| ==> r[i].order == Rank(i + 1)
  {
    seq(|list|, i requires 0 <= i < |list| => list[i].(order := Rank(i + 1)))
  }

  /** The renumbered list is in display order already. */
  lemma RenumberSorted(list: seq<Player>)
    ensures Sorted(Renumber(list), OrderKey)
  {
  }

  /** The ledger patch `{group, order}` written for one renumbered player. */
  function OrderPatch(group: string, p: Player): Edit {
    Edit(Some(group), p.order, None)
  }

  /** The write-through loop: `setTeamEdit(teamId, p.id, {group, order})` for
      each player in list order. Each touched entry ends up with the group,
      the order of the last listed player with that id (when it has one), and
      its old injured flag; every other entry and every bench marker is as
      before. */
  function WriteOrderEdits(l: Ledger, teamId: string, group: string, rs: seq<Player>): (r: Ledger)
    ensures forall t, q :: (t != teamId || LastWithId(rs, PlayerId, q).None?) ==> LookupEdit(r, t, q) == LookupEdit(l, t, q)
    ensures forall q :: LastWithId(rs, PlayerId, q).Some? ==>
              var prev := LookupEdit(l, teamId, q).GetOr(NoEdit);
              var last := LastWithId(rs, PlayerId, q).value;
              && LookupEdit(r, teamId, q).Some?
              && LookupEdit(r, teamId, q).value.group == Some(group)
              && LookupEdit(r, teamId, q).value.injured == prev.injured
              && (!last.order.Unset? ==> LookupEdit(r, teamId, q).value.order == last.order)
    ensures forall t :: GetTeamEdits(r, t).bench == GetTeamEdits(l, t).bench
    decreases |rs|
  {
    if |rs| == 0 then l
    else
      var front := rs[..|rs| - 1];
      var p := rs[|rs| - 1];
      var mid := WriteOrderEdits(l, teamId, group, front);
      var r := SetTeamEdit(mid, teamId, p.id, OrderPatch(group, p));
      assert forall q :: q != p.id ==> LastWithId(rs, PlayerId, q) == LastWithId(front, PlayerId, q);
      r
  }

  /** `updateGroupOrder`: renumbers the dropped list, writes `{group, order}`
      to the ledger for each of its players, and makes the team's players the
      other groups' players (in their old order) followed by the renumbered
      list. There is no team at an out-of-range index, where the source
      fails; that is `None`. */
  function UpdateGroupOrder(st: AppState, teamIndex: int, l: Ledger, group: string, nextList: seq<Player>)
    : (r: Option<(AppState, Ledger)>)
    ensures r.None? <==> !(0 <= teamIndex < |st.teams|)
    ensures r.Some? ==>
              var t := st.teams[teamIndex];
              var (st', l') := r.value;
              && |st'.teams| == |st.teams|
              && (forall i :: 0 <= i < |st.teams| && i != teamIndex ==> st'.teams[i] == st.teams[i])
              && st'.teams[teamIndex] == t.(players := NotOfGroup(t.players, group) + Renumber(nextList))
              && l' == WriteOrderEdits(l, t.id, group, Renumber(nextList))
  {
    if !(0 <= teamIndex < |st.teams|) then None
    else
      var t := st.teams[teamIndex];
      var renumbered := Renumber(nextList);
      var l' := WriteOrderEdits(l, t.id, group, renumbered);
      var st' := AppState(st.teams[teamIndex := t.(players := NotOfGroup(t.players, group) + renumbered)]);
      Some((st', l'))
  }

  /** After a reorder the group's view shows exactly the dropped list, in the
      dropped order, numbered 1..n (when the list holds players of that
      group, as the view it came from does). */
  lemma UpdateGroupOrderShown(st: AppState, teamIndex: int, l: Ledger, group: string, nextList: seq<Player>)
    requires 0 <= teamIndex < |st.teams|
    requires group in AllGroups
    requires forall i :: 0 <= i < |nextList| ==> nextList[i].group == group
    ensures var (st', _) := UpdateGroupOrder(st, teamIndex, l, group, nextList).value;
            PlayersByGroup(TeamAt(st', teamIndex))[group] == Renumber(nextList)
  {
    var t := st.teams[teamIndex];
    var rs := Renumber(nextList);
    var others := NotOfGroup(t.players, group);
    var (st', _) := UpdateGroupOrder(st, teamIndex, l, group, nextList).value;
    assert st'.teams[teamIndex].players == others + rs;
    assert PlayersByGroup(TeamAt(st', teamIndex))[group] == Sort(OfGroup(others + rs, group), OrderKey);
    RenumberSorted(nextList);
    ShownGroup(others, rs, group);
  }

  /** The group's part of "other groups, then the list" is the list, and
      sorting it changes nothing when it is in order. */
  lemma ShownGroup(others: seq<Player>, rs: seq<Player>, group: string)
    requires forall p :: p in others ==> p.group != group
    requires forall i :: 0 <= i < |rs| ==> rs[i].group == group
    requires Sorted(rs, OrderKey)
    ensures Sort(OfGroup(others + rs, group), OrderKey) == rs
  {
    OfGroupAppend(others, rs, group);
    OfGroupNone(others, group);
    OfGroupAll(rs, group);
    assert OfGroup(others + rs, group) == rs;
    SortSortedNoop(rs, OrderKey);
  }

  lemma {:induction false} OfGroupAppend(a: seq<Player>, b: seq<Player>, g: string)
    ensures OfGroup(a + b, g) == OfGroup(a, g) + OfGroup(b, g)
  {
    if |a| > 0 {
      assert (a + b)[1..] == a[1..] + b;
      OfGroupAppend(a[1..], b, g);
    } else {
      assert a + b == b;
    }
  }

  lemma {:induction false} OfGroupNone(a: seq<Player>, g: string)
    requires forall p :: p in a ==> p.group != g
    ensures OfGroup(a, g) == []
  {
    if |a| > 0 {
      assert a[0] in a;
      assert forall p :: p in a[1..] ==> p in a;
      OfGroupNone(a[1..], g);
    }
  }

  lemma {:induction false} OfGroupAll(a: seq<Player>, g: string)
    requires forall i :: 0 <= i < |a| ==> a[i].group == g
    ensures OfGroup(a, g) == a
  {
    if |a| > 0 {
      OfGroupAll(a[1..], g);
      assert a == [a[0]] + a[1..];
    }
  }

  /** A reorder survives a disconnect: reconciling a freshly fetched copy of
      the team against the written ledger gives every listed player of the
      same group its new position, whatever snapshot survives. */
  lemma OrderSurvivesReconnect(st: AppState, teamIndex: int, l: Ledger, group: string, nextList: seq<Player>,
                               fetched: Team, saved: Option<Team>, i: int, j: int)
    requires 0 <= teamIndex < |st.teams| && fetched.id == st.teams[teamIndex].id
    requires forall a, b :: 0 <= a < b < |nextList| ==> nextList[a].id != nextList[b].id
    requires 0 <= i < |nextList| && 0 <= j < |fetched.players|
    requires fetched.players[j].id == nextList[i].id && fetched.players[j].group == group
    ensures var (_, l') := UpdateGroupOrder(st, teamIndex, l, group, nextList).value;
            ReconcileTeam(fetched, saved, GetTeamEdits(l', fetched.id)).players[j].order == Rank(i + 1)
  {
    var rs := Renumber(nextList);
    assert forall a, b :: 0 <= a < b < |rs| ==> PlayerId(rs[a]) != PlayerId(rs[b]) by {
      forall a, b | 0 <= a < b < |rs| ensures PlayerId(rs[a]) != PlayerId(rs[b]) {
        assert rs[a].id == nextList[a].id && rs[b].id == nextList[b].id;
      }
    }
    LastWithIdUnique(rs, PlayerId, i);
    var l' := WriteOrderEdits(l, fetched.id, group, rs);
    var pid := fetched.players[j].id;
    assert pid == PlayerId(rs[i]);
    assert LookupEdit(l', fetched.id, pid).Some?;
    var e := GetTeamEdits(l', fetched.id);
    assert pid in e.players;
    assert EffectiveEdit(saved, e, pid) == Some(e.players[pid]);
  }

  /** `togglePlayerInjured`: the first player with the id gets the negation
      of its flag, and `{group, injured}` is written to the ledger. With no
      team, or no such player, nothing changes. */
  function TogglePlayerInjured(st: AppState, teamIndex: int, l: Ledger, pid: string): (r: (AppState, Ledger))
    ensures !(0 <= teamIndex < |st.teams|) ==> r == (st, l)
    ensures 0 <= teamIndex < |st.teams| ==>
              var t := st.teams[teamIndex];
              match Lists.FirstIndexWithId(t.players, PlayerId, pid)
              case None => r == (st, l)
              case Some(k) =>
                var p := t.players[k];
                && |r.0.teams| == |st.teams|
                && (forall i :: 0 <= i < |st.teams| && i != teamIndex ==> r.0.teams[i] == st.teams[i])
                && r.0.teams[teamIndex].(players := t.players) == t
                && |r.0.teams[teamIndex].players| == |t.players|
                && (forall m :: 0 <= m < |t.players| && m != k ==> r.0.teams[teamIndex].players[m] == t.players[m])
                && r.0.teams[teamIndex].players[k] == p.(injured := Some(!Injured(p)))
                && r.1 == SetTeamEdit(l, t.id, pid, Edit(Some(p.group), Unset, Some(!Injured(p))))
  {
    if !(0 <= teamIndex < |st.teams|) then (st, l)
    else
      var t := st.teams[teamIndex];
      match Lists.FirstIndexWithId(t.players, PlayerId, pid)
      case None => (st, l)
      case Some(k) =>
        var p := t.players[k];
        var flag := !Injured(p);
        var t' := t.(players := t.players[k := p.(injured := Some(flag))]);
        (AppState(st.teams[teamIndex := t']), SetTeamEdit(l, t.id, pid, Edit(Some(p.group), Unset, Some(flag))))
  }

  /** Toggling twice restores the flag (as a boolean) and leaves the ledger
      entry holding that restored value. */
  lemma ToggleTwice(st: AppState, teamIndex: int, l: Ledger, pid: string, k: int)
    requires 0 <= teamIndex < |st.teams|
    requires Lists.FirstIndexWithId(st.teams[teamIndex].players, PlayerId, pid) == Some(k)
    ensures var (st1, l1) := TogglePlayerInjured(st, teamIndex, l, pid);
            var (st2, l2) := TogglePlayerInjured(st1, teamIndex, l1, pid);
            var p := st.teams[teamIndex].players[k];
            && st2.teams[teamIndex].players[k] == p.(injured := Some(Injured(p)))
            && LookupEdit(l2, st.teams[teamIndex].id, pid).value.injured == Some(Injured(p))
            && (p.injured.Some? ==> st2 == st)
  {
    var t := st.teams[teamIndex];
    var p := t.players[k];
    var (st1, l1) := TogglePlayerInjured(st, teamIndex, l, pid);
    var t1 := st1.teams[teamIndex];
    Lists.FirstIndexIs(t1.players, PlayerId, pid, k);
    var (st2, l2) := TogglePlayerInjured(st1, teamIndex, l1, pid);
    var t2 := st2.teams[teamIndex];
    ToggleLedger(l, t.id, pid, p.group, !Injured(p));
    if p.injured.Some? {
      if p.injured.value { assert Injured(p); } else { assert !Injured(p); }
      assert t2.players[k] == p;
      assert t2.players == t.players;
      assert t2 == t;
      assert st2.teams == st.teams;
    }
  }

  /** Two injured toggles of one entry leave the second flag. */
  lemma ToggleLedger(l: Ledger, teamId: string, pid: string, g: string, b: bool)
    ensures LookupEdit(SetTeamEdit(SetTeamEdit(l, teamId, pid, Edit(Some(g), Unset, Some(b))),
                                   teamId, pid, Edit(Some(g), Unset, Some(!b))), teamId, pid).value.injured
            == Some(!b)
  {
  }

  /** An injured toggle survives a disconnect: reconciling a fresh copy of the
      team against the written ledger gives the player the new flag. */
  lemma InjuredSurvivesReconnect(st: AppState, teamIndex: int, l: Ledger, pid: string, k: int,
                                 fetched: Team, saved: Option<Team>, j: int)
    requires 0 <= teamIndex < |st.teams| && fetched.id == st.teams[teamIndex].id
    requires Lists.FirstIndexWithId(st.teams[teamIndex].players, PlayerId, pid) == Some(k)
    requires 0 <= j < |fetched.players| && fetched.players[j].id == pid
    ensures var (st1, l1) := TogglePlayerInjured(st, teamIndex, l, pid);
            ReconcileTeam(fetched, saved, GetTeamEdits(l1, fetched.id)).players[j].injured
            == st1.teams[teamIndex].players[k].injured
  {
    var (st1, l1) := TogglePlayerInjured(st, teamIndex, l, pid);
    var e := GetTeamEdits(l1, fetched.id);
    assert LookupEdit(l1, fetched.id, pid).Some?;
    assert pid in e.players;
    assert EffectiveEdit(saved, e, pid) == Some(e.players[pid]);
  }
}
