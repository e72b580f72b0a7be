/** The durable edit ledger: per team, per player partial patches of
    group / order / injured, plus per-group bench-start markers kept under a
    reserved key of the team's map. Reads fail open: an unknown team reads as an
    empty map. */
module EditLedger {
  import opened Wrappers
  import opened Entities
  import Storage

  /** The reserved key of a team's edit map that holds the bench markers. */
  const BenchStartsKey := "__benchStarts"

  /** `getTeamEdits`: the team's map, or the empty map for an unknown team. */
  function GetTeamEdits(l: Ledger, teamId: string): (te: TeamEdits)
    ensures teamId in l ==> te == l[teamId]
    ensures teamId !in l ==> te == NoTeamEdits
  {
    if teamId in l then l[teamId] else NoTeamEdits
  }

  /** The entry for one (team, player) pair, if any. */
  function LookupEdit(l: Ledger, teamId: string, pid: string): Option<Edit> {
    var te := GetTeamEdits(l, teamId);
    if pid in te.players then Some(te.players[pid]) else None
  }

  /** `{ ...prev, ...patch }`: the fields the patch carries overwrite, the
      others are kept. */
  function MergePatch(prev: Edit, patch: Edit): (r: Edit)
    ensures r.group == (if patch.group.Some? then patch.group else prev.group)
    ensures r.order == (if patch.order.Unset? then prev.order else patch.order)
    ensures r.injured == (if patch.injured.Some? then patch.injured else prev.injured)
  {
    Edit(
      if patch.group.Some? then patch.group else prev.group,
      if patch.order.Unset? then prev.order else patch.order,
      if patch.injured.Some? then patch.injured else prev.injured)
  }

  /** Applying two patches one after the other is applying their merge. */
  lemma MergePatchAssociative(p: Edit, a: Edit, b: Edit)
    ensures MergePatch(MergePatch(p, a), b) == MergePatch(p, MergePatch(a, b))
  {
  }

  /** Re-applying a patch changes nothing, and the empty patch is neutral. */
  lemma MergePatchIdempotent(p: Edit, a: Edit)
    ensures MergePatch(MergePatch(p, a), a) == MergePatch(p, a)
    ensures MergePatch(p, NoEdit) == p
    ensures MergePatch(NoEdit, a) == a
  {
  }

  /** `setTeamEdit`: merges `patch` onto the one (team, player) entry. */
  function SetTeamEdit(l: Ledger, teamId: string, pid: string, patch: Edit): (r: Ledger)
    ensures LookupEdit(r, teamId, pid) == Some(MergePatch(LookupEdit(l, teamId, pid).GetOr(NoEdit), patch))
    ensures forall t, q :: (t != teamId || q != pid) ==> LookupEdit(r, t, q) == LookupEdit(l, t, q)
    ensures forall t :: GetTeamEdits(r, t).bench == GetTeamEdits(l, t).bench
    ensures r.Keys == l.Keys + {teamId}
  {
    var te := GetTeamEdits(l, teamId);
    var prev := if pid in te.players then te.players[pid] else NoEdit;
    l[teamId := te.(players := te.players[pid := MergePatch(prev, patch)])]
  }

  /** `setTeamEdit` against the store: reads the ledger (an absent or corrupt
      blob reads as empty), patches it, writes it back; the snapshot is not
      touched. */
  function WriteTeamEdit(st: Storage.Store, teamId: string, pid: string, patch: Edit): (r: Storage.Store)
    ensures Storage.LoadEdits(r) == SetTeamEdit(Storage.LoadEdits(st), teamId, pid, patch)
    ensures Storage.LoadAppState(r) == Storage.LoadAppState(st)
  {
    Storage.StoresIndependent(st, SetTeamEdit(Storage.LoadEdits(st), teamId, pid, patch));
    Storage.SaveEdits(st, SetTeamEdit(Storage.LoadEdits(st), teamId, pid, patch))
  }

  /** `getTeamBenchStarts`: the markers, or the empty map when the reserved
      key is absent or holds something other than an object. */
  function GetTeamBenchStarts(l: Ledger, teamId: string): (m: map<string, int>)
    ensures GetTeamEdits(l, teamId).bench.BenchObject? ==> m == GetTeamEdits(l, teamId).bench.starts
    ensures !GetTeamEdits(l, teamId).bench.BenchObject? ==> m == map[]
  {
    match GetTeamEdits(l, teamId).bench
    case BenchObject(m) => m
    case _ => map[]
  }

  /** `setTeamBenchStart`: `None` removes the group's marker, a number sets
      it; no other marker, no player entry and no other team changes. */
  function SetTeamBenchStart(l: Ledger, teamId: string, g: string, idx: Option<int>): (r: Ledger)
    ensures idx.None? ==> g !in GetTeamBenchStarts(r, teamId)
    ensures idx.Some? ==> g in GetTeamBenchStarts(r, teamId) && GetTeamBenchStarts(r, teamId)[g] == idx.value
    ensures forall h :: h != g ==>
              (h in GetTeamBenchStarts(r, teamId) <==> h in GetTeamBenchStarts(l, teamId))
              && (h in GetTeamBenchStarts(l, teamId) ==> GetTeamBenchStarts(r, teamId)[h] == GetTeamBenchStarts(l, teamId)[h])
    ensures GetTeamEdits(r, teamId).players == GetTeamEdits(l, teamId).players
    ensures forall t :: t != teamId ==> GetTeamEdits(r, t) == GetTeamEdits(l, t)
  {
    var te := GetTeamEdits(l, teamId);
    var starts := GetTeamBenchStarts(l, teamId);
    var next := if idx.None? then starts - {g} else starts[g := idx.value];
    l[teamId := te.(bench := BenchObject(next))]
  }

  /** The bench index the active tab shows: the team's marker for the tab when
      it is a number; nothing when there is no team id. */
  function BenchStartIndex(l: Ledger, teamId: Option<string>, tab: string): (r: Option<int>)
    ensures r.Some? <==> teamId.Some? && teamId.value != "" && tab in GetTeamBenchStarts(l, teamId.value)
    ensures r.Some? ==> r.value == GetTeamBenchStarts(l, teamId.value)[tab]
  {
    if teamId.Some? && teamId.value != "" && tab in GetTeamBenchStarts(l, teamId.value)
    then Some(GetTeamBenchStarts(l, teamId.value)[tab])
    else None
  }

  /** Setting or clearing a marker is exactly what the view reads back. */
  lemma BenchStartRoundTrip(l: Ledger, teamId: string, g: string, idx: Option<int>)
    requires teamId != ""
    ensures BenchStartIndex(SetTeamBenchStart(l, teamId, g, idx), Some(teamId), g) == idx
  {
  }
}
