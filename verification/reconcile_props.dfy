/** Properties of the reconciliation engine that relate several calls or
    single out one rule of the merge. */
module ReconcileProperties {
  import opened Wrappers
  import opened Entities
  import EditLedger
  import opened Reconcile

  lemma {:induction false} CountUnrankedAppend(a: seq<Player>, b: seq<Player>, g: string)
    ensures CountUnranked(a + b, g) == CountUnranked(a, g) + CountUnranked(b, g)
  {
    if |a| > 0 {
      assert (a + b)[1..] == a[1..] + b;
      CountUnrankedAppend(a[1..], b, g);
    } else {
      assert a + b == b;
    }
  }

  /** Still-unranked player `j` (a player whose order the merge must invent). */
  predicate StillUnranked(t: Team, saved: Option<Team>, edits: TeamEdits, j: int)
    requires 0 <= j < |t.players|
  {
    var p := t.players[j];
    !OrderApplies(p, EffectiveEdit(saved, edits, p.id)) && !IsFinite(p.order)
  }

  /** A player with no usable order lands after every finite fresh order of its
      group: its order is one more than the group's fresh maximum, plus the
      number of earlier players of the group that were appended before it. */
  lemma NewPlayerAppended(t: Team, saved: Option<Team>, edits: TeamEdits, j: int)
    requires 0 <= j < |t.players| && StillUnranked(t, saved, edits, j)
    ensures var q := ReconcileTeam(t, saved, edits).players[j];
            && q.order.Rank?
            && q.order.n >= GroupMax(t.players, t.players[j].group) + 1
            && forall i :: 0 <= i < |t.players| && t.players[i].group == t.players[j].group && IsFinite(t.players[i].order)
                 ==> NumericValue(t.players[i].order) < q.order.n
  {
  }

  /** Appended players of one group get strictly increasing orders in list
      order, so no two of them collide. */
  lemma AppendedIncreasing(t: Team, saved: Option<Team>, edits: TeamEdits, j: int, k: int)
    requires 0 <= j < k < |t.players|
    requires t.players[j].group == t.players[k].group
    requires StillUnranked(t, saved, edits, j) && StillUnranked(t, saved, edits, k)
    ensures ReconcileTeam(t, saved, edits).players[j].order.n < ReconcileTeam(t, saved, edits).players[k].order.n
  {
    var P := Patched(t, saved, edits);
    var g := t.players[j].group;
    assert P[..k] == P[..j] + P[j..k];
    CountUnrankedAppend(P[..j], P[j..k], g);
    assert P[j..k][0] == P[j];
    assert P[j].group == g && !IsFinite(P[j].order);
  }

  /** The first appended player of a group gets the group's maximum plus one. */
  lemma FirstAppendedFollowsMax(t: Team, saved: Option<Team>, edits: TeamEdits, j: int)
    requires 0 <= j < |t.players| && StillUnranked(t, saved, edits, j)
    requires forall i :: 0 <= i < j && t.players[i].group == t.players[j].group ==> !StillUnranked(t, saved, edits, i)
    ensures ReconcileTeam(t, saved, edits).players[j].order == Rank(GroupMax(t.players, t.players[j].group) + 1)
  {
    var P := Patched(t, saved, edits);
    var g := t.players[j].group;
    var s := P[..j];
    forall i | 0 <= i < |s| ensures !(s[i].group == g && !IsFinite(s[i].order)) {
      assert s[i] == P[i];
      PatchedRanked(t, saved, edits, i);
    }
    CountNone(s, g);
    AppendedOrder(t, saved, edits, j);
  }

  /** The order the merge invents for a still-unranked player. */
  lemma AppendedOrder(t: Team, saved: Option<Team>, edits: TeamEdits, j: int)
    requires 0 <= j < |t.players| && StillUnranked(t, saved, edits, j)
    ensures ReconcileTeam(t, saved, edits).players[j].order
            == Rank(GroupMax(t.players, t.players[j].group) + 1 + CountUnranked(Patched(t, saved, edits)[..j], t.players[j].group))
  {
    var p := t.players[j];
    assert !OrderApplies(p, EffectiveEdit(saved, edits, p.id)) && !IsFinite(p.order);
  }

  /** A patched player keeps its group, and one the merge need not rank
      carries a finite order. */
  lemma PatchedRanked(t: Team, saved: Option<Team>, edits: TeamEdits, i: int)
    requires 0 <= i < |t.players|
    ensures Patched(t, saved, edits)[i].group == t.players[i].group
    ensures !StillUnranked(t, saved, edits, i) ==> IsFinite(Patched(t, saved, edits)[i].order)
  {
    var p := t.players[i];
    assert Patched(t, saved, edits)[i] == PatchPlayer(p, EffectiveEdit(saved, edits, p.id));
  }

  lemma {:induction false} CountNone(s: seq<Player>, g: string)
    requires forall i :: 0 <= i < |s| ==> !(s[i].group == g && !IsFinite(s[i].order))
    ensures CountUnranked(s, g) == 0
  {
    if |s| > 0 {
      CountNone(s[1..], g);
    }
  }

  /** Ledger precedence: when the ledger has an entry for a player, the
      snapshot is not consulted for that player at all, whatever it holds. */
  lemma LedgerEntryWins(t: Team, s1: Option<Team>, s2: Option<Team>, edits: TeamEdits, j: int)
    requires 0 <= j < |t.players| && t.players[j].id in edits.players
    ensures var e := edits.players[t.players[j].id];
            var q1 := ReconcileTeam(t, s1, edits).players[j];
            var q2 := ReconcileTeam(t, s2, edits).players[j];
            && q1.injured == q2.injured
            && q1.injured == Some(if e.injured.Some? then e.injured.value else Injured(t.players[j]))
            && (e.group == Some(t.players[j].group) && e.order.Rank? ==> q1.order == e.order == q2.order)
  {
  }

  /** Group-change guard: an entry recorded under another group never
      supplies the order; the player keeps its fetched order or is appended. */
  lemma GroupChangeGuard(t: Team, saved: Option<Team>, edits: TeamEdits, j: int)
    requires 0 <= j < |t.players|
    requires var e := EffectiveEdit(saved, edits, t.players[j].id); e.Some? && e.value.group != Some(t.players[j].group)
    ensures var p := t.players[j];
            var q := ReconcileTeam(t, saved, edits).players[j];
            && q.group == p.group
            && (IsFinite(p.order) ==> q.order == p.order)
            && (!IsFinite(p.order) ==> q.order.Rank? && q.order.n > GroupMax(t.players, p.group))
  {
  }

  /** After the merge every player has a finite order. */
  lemma AllRanked(t: Team, saved: Option<Team>, edits: TeamEdits)
    ensures forall j :: 0 <= j < |t.players| ==> IsFinite(ReconcileTeam(t, saved, edits).players[j].order)
  {
  }

  /** With no saved team and no ledger entries, a fetched team whose players
      all carry orders comes back unchanged. */
  lemma NoPriorDataKeepsFetchedOrder(t: Team)
    requires forall j :: 0 <= j < |t.players| ==> IsFinite(t.players[j].order)
    ensures ReconcileTeam(t, None, NoTeamEdits) == t
  {
    var r := ReconcileTeam(t, None, NoTeamEdits);
    assert r.players == t.players;
  }

  predicate UniquePlayerIds(ps: seq<Player>) {
    forall a, b :: 0 <= a < b < |ps| ==> ps[a].id != ps[b].id
  }

  /** Re-applying a ledger entry to a player it has already been applied to
      changes nothing. */
  lemma LedgerRepatch(p: Player, q: Player, e: Edit)
    requires q.(order := p.order, injured := p.injured) == p
    requires q.injured == Some(if e.injured.Some? then e.injured.value else Injured(p))
    requires OrderApplies(p, Some(e)) ==> q.order == e.order
    ensures PatchPlayer(q, Some(e)) == q
  {
  }

  /** A player's own snapshot entry patches it to itself. */
  lemma SnapshotRepatch(q: Player)
    requires q.injured.Some?
    ensures PatchPlayer(q, Some(SnapshotEntry(q))) == q
  {
    if q.injured.value {
      assert Injured(q);
    } else {
      assert !Injured(q);
    }
  }

  /** The append step leaves a list whose orders are all finite alone. */
  lemma NormalizeAllFinite(ps: seq<Player>, next: map<string, int>)
    requires forall i :: 0 <= i < |ps| ==> IsFinite(ps[i].order)
    ensures Normalize(ps, next) == ps
  {
    var r := Normalize(ps, next);
    assert forall i :: 0 <= i < |ps| ==> r[i] == ps[i];
  }

  /** The merge keeps player ids, hence their uniqueness. */
  lemma ReconcileKeepsIds(t: Team, saved: Option<Team>, edits: TeamEdits)
    requires UniquePlayerIds(t.players)
    ensures var ps := ReconcileTeam(t, saved, edits).players;
            forall a, b :: 0 <= a < b < |ps| ==> PlayerId(ps[a]) != PlayerId(ps[b])
  {
    var ps := ReconcileTeam(t, saved, edits).players;
    forall a, b | 0 <= a < b < |ps| ensures PlayerId(ps[a]) != PlayerId(ps[b]) {
      assert ps[a].id == t.players[a].id && ps[b].id == t.players[b].id;
    }
  }

  /** One player of the merged team is a fixed point of patching against the
      merged team as snapshot. */
  lemma IdempotentAt(t: Team, saved: Option<Team>, edits: TeamEdits, j: int)
    requires 0 <= j < |t.players|
    requires UniquePlayerIds(t.players)
    requires t.players[j].injured.Some?
    ensures var out := ReconcileTeam(t, saved, edits);
            PatchPlayer(out.players[j], EffectiveEdit(Some(out), edits, out.players[j].id)) == out.players[j]
  {
    var out := ReconcileTeam(t, saved, edits);
    var p := t.players[j];
    var q := out.players[j];
    ReconciledPlayer(t, saved, edits, j);
    assert q.id == p.id && q.group == p.group;
    if p.id in edits.players {
      LedgerRepatch(p, q, edits.players[p.id]);
    } else {
      ReconcileKeepsIds(t, saved, edits);
      LastWithIdUnique(out.players, PlayerId, j);
      SnapshotRepatch(q);
    }
  }

  /** Idempotence: reconciling the merged team against itself as snapshot,
      with the same ledger, changes nothing (given unique player ids and an
      explicit injured flag on every fetched player, as the league adapter
      produces). */
  lemma ReconcileTeamIdempotent(t: Team, saved: Option<Team>, edits: TeamEdits)
    requires UniquePlayerIds(t.players)
    requires forall j :: 0 <= j < |t.players| ==> t.players[j].injured.Some?
    ensures var out := ReconcileTeam(t, saved, edits);
            ReconcileTeam(out, Some(out), edits) == out
  {
    var out := ReconcileTeam(t, saved, edits);
    var ps := out.players;
    var P := Patched(out, Some(out), edits);
    forall j | 0 <= j < |ps|
      ensures P[j] == ps[j]
    {
      IdempotentAt(t, saved, edits, j);
    }
    assert P == ps;
    AllRanked(t, saved, edits);
    NormalizeAllFinite(ps, MaxOrderFold(ps, map[]));
  }

  /** The list-level merge keeps team ids, hence their uniqueness. */
  lemma ReconcileKeepsTeamIds(fetched: seq<Team>, saved: seq<Team>, l: Ledger)
    requires forall a, b :: 0 <= a < b < |fetched| ==> fetched[a].id != fetched[b].id
    ensures var out := ReconcileTeams(fetched, saved, l);
            forall a, b :: 0 <= a < b < |out| ==> TeamId(out[a]) != TeamId(out[b])
  {
    var out := ReconcileTeams(fetched, saved, l);
    forall a, b | 0 <= a < b < |out| ensures TeamId(out[a]) != TeamId(out[b]) {
      assert out[a].id == fetched[a].id && out[b].id == fetched[b].id;
    }
  }

  /** Idempotence for the whole team list, given unique team ids. */
  lemma ReconcileTeamsIdempotent(fetched: seq<Team>, saved: seq<Team>, l: Ledger)
    requires forall a, b :: 0 <= a < b < |fetched| ==> fetched[a].id != fetched[b].id
    requires forall i :: 0 <= i < |fetched| ==> UniquePlayerIds(fetched[i].players)
    requires forall i, j :: 0 <= i < |fetched| && 0 <= j < |fetched[i].players| ==> fetched[i].players[j].injured.Some?
    ensures var out := ReconcileTeams(fetched, saved, l);
            ReconcileTeams(out, out, l) == out
  {
    var out := ReconcileTeams(fetched, saved, l);
    ReconcileKeepsTeamIds(fetched, saved, l);
    var r := ReconcileTeams(out, out, l);
    forall i | 0 <= i < |out|
      ensures r[i] == out[i]
    {
      TeamIdempotentAt(fetched, saved, l, out, i);
    }
  }

  lemma TeamIdempotentAt(fetched: seq<Team>, saved: seq<Team>, l: Ledger, out: seq<Team>, i: int)
    requires out == ReconcileTeams(fetched, saved, l)
    requires 0 <= i < |fetched|
    requires forall a, b :: 0 <= a < b < |out| ==> TeamId(out[a]) != TeamId(out[b])
    requires UniquePlayerIds(fetched[i].players)
    requires forall j :: 0 <= j < |fetched[i].players| ==> fetched[i].players[j].injured.Some?
    ensures ReconcileTeam(out[i], LastWithId(out, TeamId, out[i].id), EditLedger.GetTeamEdits(l, out[i].id)) == out[i]
  {
    var id := fetched[i].id;
    var s := LastWithId(saved, TeamId, id);
    var e := EditLedger.GetTeamEdits(l, id);
    assert out[i] == ReconcileTeam(fetched[i], s, e);
    LastWithIdUnique(out, TeamId, i);
    ReconcileTeamIdempotent(fetched[i], s, e);
  }
}
