/** The reconciliation engine: fresh teams from the league platform are
    combined with the saved snapshot and the edit ledger. The fresh data decides
    membership and every field except `order` and `injured`; a ledger entry
    beats the snapshot entry for the same player; an entry's order applies only
    when its group still matches; players left without a finite order are
    appended after their group's largest fresh order. */
module Reconcile {
  import opened Wrappers
  import opened Entities
  import EditLedger

  function TeamId(t: Team): string { t.id }

  function PlayerId(p: Player): string { p.id }

  /** Lookup in `new Map(s.map(x => [x.id, x]))`: the LAST element with the id
      (see `LastWithIdIsLast`). */
  function LastWithId<T>(s: seq<T>, idOf: T -> string, id: string): (r: Option<T>)
    ensures r.None? <==> forall i :: 0 <= i < |s| ==> idOf(s[i]) != id
    ensures r.Some? ==> idOf(r.value) == id && r.value in s
  {
    if |s| == 0 then None
    else if idOf(s[|s| - 1]) == id then Some(s[|s| - 1])
    else
      var r := LastWithId(s[..|s| - 1], idOf, id);
      assert forall i :: 0 <= i < |s| - 1 ==> s[..|s| - 1][i] == s[i];
      r
  }

  /** Later elements win: the element found is the last one with the id. */
  lemma {:induction false} LastWithIdIsLast<T>(s: seq<T>, idOf: T -> string, k: int)
    requires 0 <= k < |s|
    requires forall j :: k < j < |s| ==> idOf(s[j]) != idOf(s[k])
    ensures LastWithId(s, idOf, idOf(s[k])) == Some(s[k])
  {
    if k < |s| - 1 {
      var s' := s[..|s| - 1];
      assert forall j :: k < j < |s'| ==> s'[j] == s[j];
      LastWithIdIsLast(s', idOf, k);
    }
  }

  /** With unique ids, the lookup finds the one element carrying the id. */
  lemma LastWithIdUnique<T>(s: seq<T>, idOf: T -> string, i: int)
    requires 0 <= i < |s|
    requires forall a, b :: 0 <= a < b < |s| ==> idOf(s[a]) != idOf(s[b])
    ensures LastWithId(s, idOf, idOf(s[i])) == Some(s[i])
  {
    LastWithIdIsLast(s, idOf, i);
  }

  // ------------------------------------------------------------ layers

  /** The snapshot layer's view of a saved player: `{group, order, injured: !!injured}`. */
  function SnapshotEntry(p: Player): Edit {
    Edit(Some(p.group), p.order, Some(Injured(p)))
  }

  function SnapshotLayer(saved: Option<Team>, pid: string): Option<Edit> {
    if saved.None? then None
    else
      match LastWithId(saved.value.players, PlayerId, pid)
      case None => None
      case Some(sp) => Some(SnapshotEntry(sp))
  }

  /** `e2 || e1`: the ledger entry when there is one, else the snapshot entry. */
  function EffectiveEdit(saved: Option<Team>, edits: TeamEdits, pid: string): Option<Edit> {
    if pid in edits.players then Some(edits.players[pid]) else SnapshotLayer(saved, pid)
  }

  /** Whether an entry's order is taken: same group and a non-null order. */
  predicate OrderApplies(p: Player, e: Option<Edit>) {
    e.Some? && e.value.group == Some(p.group) && e.value.order.Rank?
  }

  /** Applies one effective entry to a fresh player. */
  function PatchPlayer(p: Player, e: Option<Edit>): (r: Player)
    ensures e.None? ==> r == p
    ensures r.(order := p.order, injured := p.injured) == p
    ensures e.Some? ==> r.injured == Some(if e.value.injured.Some? then e.value.injured.value else Injured(p))
    ensures r.order == (if OrderApplies(p, e) then e.value.order else p.order)
  {
    match e
    case None => p
    case Some(e) =>
      var injured := if e.injured.Some? then e.injured.value else Injured(p);
      if e.group == Some(p.group) && e.order.Rank? then p.(order := e.order, injured := Some(injured))
      else p.(injured := Some(injured))
  }

  function Patched(t: Team, saved: Option<Team>, edits: TeamEdits): (r: seq<Player>)
    ensures |r| == |t.players|
  {
    seq(|t.players|, i requires 0 <= i < |t.players| =>
      PatchPlayer(t.players[i], EffectiveEdit(saved, edits, t.players[i].id)))
  }

  // --------------------------------------------------- per-group maxima

  function Max(a: int, b: int): int {
    if a >= b then a else b
  }

  /** The largest finite fresh order in group `g`, or 0 when there is none. */
  function GroupMax(ps: seq<Player>, g: string): (m: int)
    ensures m >= 0
    ensures forall i :: 0 <= i < |ps| && ps[i].group == g && IsFinite(ps[i].order) ==> NumericValue(ps[i].order) <= m
    ensures m > 0 ==> exists i :: 0 <= i < |ps| && ps[i].group == g && IsFinite(ps[i].order) && NumericValue(ps[i].order) == m
  {
    if |ps| == 0 then 0
    else
      var rest := GroupMax(ps[1..], g);
      assert forall i :: 1 <= i < |ps| ==> ps[1..][i - 1] == ps[i];
      if ps[0].group == g && IsFinite(ps[0].order) then Max(NumericValue(ps[0].order), rest) else rest
  }

  /** `map.get(g) || 0`. */
  function Get(m: map<string, int>, g: string): int {
    if g in m then m[g] else 0
  }

  /** The source's loop filling `maxOrderByGroup`. */
  function MaxOrderFold(ps: seq<Player>, acc: map<string, int>): map<string, int> {
    if |ps| == 0 then acc
    else if IsFinite(ps[0].order) then
      MaxOrderFold(ps[1..], acc[ps[0].group := Max(Get(acc, ps[0].group), NumericValue(ps[0].order))])
    else MaxOrderFold(ps[1..], acc)
  }

  /** The loop computes, per group, the larger of the start value and the
      group's maximum. */
  lemma {:induction false} MaxOrderFoldIsGroupMax(ps: seq<Player>, acc: map<string, int>, g: string)
    requires forall k :: k in acc ==> acc[k] >= 0
    ensures Get(MaxOrderFold(ps, acc), g) == Max(Get(acc, g), GroupMax(ps, g))
  {
    if |ps| > 0 {
      var p := ps[0];
      if IsFinite(p.order) {
        var acc' := acc[p.group := Max(Get(acc, p.group), NumericValue(p.order))];
        MaxOrderFoldIsGroupMax(ps[1..], acc', g);
        assert MaxOrderFold(ps, acc) == MaxOrderFold(ps[1..], acc');
        if p.group == g {
          assert GroupMax(ps, g) == Max(NumericValue(p.order), GroupMax(ps[1..], g));
        } else {
          assert GroupMax(ps, g) == GroupMax(ps[1..], g);
          assert Get(acc', g) == Get(acc, g);
        }
      } else {
        MaxOrderFoldIsGroupMax(ps[1..], acc, g);
        assert MaxOrderFold(ps, acc) == MaxOrderFold(ps[1..], acc);
        assert GroupMax(ps, g) == GroupMax(ps[1..], g);
      }
    }
  }

  // ------------------------------------------------------ normalisation

  /** How many players of group `g` in `s` still have no finite order. */
  function CountUnranked(s: seq<Player>, g: string): nat {
    if |s| == 0 then 0
    else (if s[0].group == g && !IsFinite(s[0].order) then 1 else 0) + CountUnranked(s[1..], g)
  }

  /** Counting over a prefix splits into the first element and the rest. */
  lemma CountUnrankedStep(ps: seq<Player>, i: int, g: string)
    requires 1 <= i <= |ps|
    ensures CountUnranked(ps[..i], g)
            == (if ps[0].group == g && !IsFinite(ps[0].order) then 1 else 0) + CountUnranked(ps[1..][..i - 1], g)
  {
    assert ps[..i][1..] == ps[1..][..i - 1];
  }

  /** The source's append step: the k-th player of a group (in list order)
      that still has no finite order gets the group's running maximum plus k. */
  function Normalize(ps: seq<Player>, next: map<string, int>): (r: seq<Player>)
    ensures |r| == |ps|
    ensures forall i :: 0 <= i < |ps| ==>
              r[i] == (if IsFinite(ps[i].order) then ps[i]
                       else ps[i].(order := Rank(Get(next, ps[i].group) + 1 + CountUnranked(ps[..i], ps[i].group))))
    decreases |ps|
  {
    if |ps| == 0 then []
    else
      var p := ps[0];
      var n := Get(next, p.group) + 1;
      var next' := if IsFinite(p.order) then next else next[p.group := n];
      var head := if IsFinite(p.order) then p else p.(order := Rank(n));
      var rest := Normalize(ps[1..], next');
      NormalizeCons(ps, next, next', head, rest);
      [head] + rest
  }

  /** One step of `Normalize`: the head's number and the tail's numbers,
      counted from the head's updated maximum, give every position's
      number counted from the original maximum. */
  lemma NormalizeCons(ps: seq<Player>, next: map<string, int>, next': map<string, int>, head: Player, rest: seq<Player>)
    requires |ps| > 0
    requires var p := ps[0]; var n := Get(next, p.group) + 1;
             && next' == (if IsFinite(p.order) then next else next[p.group := n])
             && head == (if IsFinite(p.order) then p else p.(order := Rank(n)))
    requires |rest| == |ps| - 1
    requires forall i :: 0 <= i < |ps[1..]| ==>
               rest[i] == (if IsFinite(ps[1..][i].order) then ps[1..][i]
                           else ps[1..][i].(order := Rank(Get(next', ps[1..][i].group) + 1 + CountUnranked(ps[1..][..i], ps[1..][i].group))))
    ensures var r := [head] + rest;
            forall i :: 0 <= i < |ps| ==>
              r[i] == (if IsFinite(ps[i].order) then ps[i]
                       else ps[i].(order := Rank(Get(next, ps[i].group) + 1 + CountUnranked(ps[..i], ps[i].group))))
  {
    var r := [head] + rest;
    forall i | 0 <= i < |ps|
      ensures r[i] == (if IsFinite(ps[i].order) then ps[i]
                       else ps[i].(order := Rank(Get(next, ps[i].group) + 1 + CountUnranked(ps[..i], ps[i].group))))
    {
      if i == 0 {
        assert ps[..0] == [];
      } else {
        assert r[i] == rest[i - 1] && ps[1..][i - 1] == ps[i];
        CountUnrankedStep(ps, i, ps[i].group);
      }
    }
  }

  // ---------------------------------------------------------- the merge

  /** `mergeLocalEditsIntoSleeperTeams` for one fresh team. */
  function ReconcileTeam(t: Team, saved: Option<Team>, edits: TeamEdits): (r: Team)
    ensures r.(players := t.players) == t
    ensures |r.players| == |t.players|
    ensures forall j :: 0 <= j < |t.players| ==>
              r.players[j].(order := t.players[j].order, injured := t.players[j].injured) == t.players[j]
    ensures forall j :: 0 <= j < |t.players| ==>
              var e := EffectiveEdit(saved, edits, t.players[j].id);
              r.players[j].injured
              == (if e.None? then t.players[j].injured
                  else Some(if e.value.injured.Some? then e.value.injured.value else Injured(t.players[j])))
    ensures forall j :: 0 <= j < |t.players| ==>
              var p := t.players[j];
              var e := EffectiveEdit(saved, edits, p.id);
              r.players[j].order
              == (if OrderApplies(p, e) then e.value.order
                  else if IsFinite(p.order) then p.order
                  else Rank(GroupMax(t.players, p.group) + 1 + CountUnranked(Patched(t, saved, edits)[..j], p.group)))
  {
    forall j | 0 <= j < |t.players| {
      ReconciledPlayer(t, saved, edits, j);
    }
    t.(players := Normalize(Patched(t, saved, edits), MaxOrderFold(t.players, map[])))
  }

  /** The per-player facts behind `ReconcileTeam`'s contract. */
  lemma ReconciledPlayer(t: Team, saved: Option<Team>, edits: TeamEdits, j: int)
    requires 0 <= j < |t.players|
    ensures var q := Normalize(Patched(t, saved, edits), MaxOrderFold(t.players, map[]))[j];
            var p := t.players[j];
            var e := EffectiveEdit(saved, edits, p.id);
            && q.(order := p.order, injured := p.injured) == p
            && q.injured == (if e.None? then p.injured
                             else Some(if e.value.injured.Some? then e.value.injured.value else Injured(p)))
            && q.order == (if OrderApplies(p, e) then e.value.order
                           else if IsFinite(p.order) then p.order
                           else Rank(GroupMax(t.players, p.group) + 1 + CountUnranked(Patched(t, saved, edits)[..j], p.group)))
  {
    var p := t.players[j];
    var pp := Patched(t, saved, edits)[j];
    assert pp == PatchPlayer(p, EffectiveEdit(saved, edits, p.id));
    MaxOrderFoldIsGroupMax(t.players, map[], p.group);
  }

  /** `mergeLocalEditsIntoSleeperTeams`: one reconciled team per fresh team, in
      fresh order; saved teams with no fresh counterpart are dropped. */
  function ReconcileTeams(fetched: seq<Team>, saved: seq<Team>, l: Ledger): (r: seq<Team>)
    ensures |r| == |fetched|
    ensures forall i :: 0 <= i < |fetched| ==> r[i].(players := fetched[i].players) == fetched[i]
    ensures forall i :: 0 <= i < |fetched| ==>
              r[i] == ReconcileTeam(fetched[i], LastWithId(saved, TeamId, fetched[i].id), EditLedger.GetTeamEdits(l, fetched[i].id))
  {
    seq(|fetched|, i requires 0 <= i < |fetched| =>
      ReconcileTeam(fetched[i], LastWithId(saved, TeamId, fetched[i].id), EditLedger.GetTeamEdits(l, fetched[i].id)))
  }
}
