/** The sortable list of one group's players: the drag-end reorder, the
    clamped bench split, and what each row shows (its slot label, whether it
    is on the bench, the divider above it, and its bench button). */
module PlayerList {
  import opened Wrappers
  import opened Text
  import opened Entities
  import opened Lists
  import opened ParseCsv

  function PlayerId(p: Player): string {
    p.id
  }

  /** `s` without the element at `i`. */
  function Without<T>(s: seq<T>, i: nat): (r: seq<T>)
    requires i < |s|
    ensures |r| == |s| - 1
  {
    s[..i] + s[i + 1..]
  }

  /** `arrayMove(s, from, to)` for indices in range: the element at `from`
      is taken out and put back so that it sits at `to`. */
  function ArrayMove<T>(s: seq<T>, from: nat, to: nat): (r: seq<T>)
    requires from < |s| && to < |s|
  {
    var rest := Without(s, from);
    rest[..to] + [s[from]] + rest[to..]
  }

  /** The moved element lands at `to`, the others keep their relative order,
      and nothing is lost or gained. */
  lemma ArrayMoveFacts<T>(s: seq<T>, from: nat, to: nat)
    requires from < |s| && to < |s|
    ensures var r := ArrayMove(s, from, to);
            |r| == |s| && r[to] == s[from] && Without(r, to) == Without(s, from)
            && multiset(r) == multiset(s)
  {
    var rest := Without(s, from);
    var r := ArrayMove(s, from, to);
    assert r[..to] == rest[..to] && r[to + 1..] == rest[to..];
    assert rest[..to] + rest[to..] == rest;
    calc {
      multiset(r);
      multiset(rest[..to]) + multiset{s[from]} + multiset(rest[to..]);
      multiset(rest) + multiset{s[from]};
      { assert s == s[..from] + [s[from]] + s[from + 1..]; }
      multiset(s);
    }
  }

  /** Moving the element back undoes the move. */
  lemma ArrayMoveInverse<T>(s: seq<T>, from: nat, to: nat)
    requires from < |s| && to < |s|
    ensures ArrayMove(ArrayMove(s, from, to), to, from) == s
  {
    var r := ArrayMove(s, from, to);
    ArrayMoveFacts(s, from, to);
    var back := ArrayMove(r, to, from);
    var rest := Without(s, from);
    assert back == rest[..from] + [s[from]] + rest[from..];
    assert rest[..from] == s[..from] && rest[from..] == s[from + 1..];
    assert s == s[..from] + [s[from]] + s[from + 1..];
  }

  /** `handleDragEnd`: `None` when no reorder is reported (no drop target, a
      drop on the dragged row itself, or an id the list does not hold);
      otherwise the players with the dragged one moved to the target's
      index. */
  function DragEnd(players: seq<Player>, active: string, over: Option<string>): (r: Option<seq<Player>>)
    ensures over.None? || over == Some(active) ==> r.None?
  {
    if over.None? || active == over.value then None
    else
      match (FirstIndexWithId(players, PlayerId, active), FirstIndexWithId(players, PlayerId, over.value))
      case (Some(oldIndex), Some(newIndex)) => Some(ArrayMove(players, oldIndex, newIndex))
      case _ => None
  }

  /** A reported reorder is a permutation of the list that puts the dragged
      player where the target was and keeps every other player's relative
      order. */
  lemma DragEndMoves(players: seq<Player>, active: string, over: string)
    requires active != over
    requires exists i :: 0 <= i < |players| && players[i].id == active
    requires exists j :: 0 <= j < |players| && players[j].id == over
    ensures var r := DragEnd(players, active, Some(over));
            r.Some? && multiset(r.value) == multiset(players)
            && exists i, j :: 0 <= i < |players| && 0 <= j < |players|
                 && players[i].id == active && players[j].id == over
                 && r.value[j] == players[i] && Without(r.value, j) == Without(players, i)
  {
    var i :| 0 <= i < |players| && players[i].id == active;
    var j :| 0 <= j < |players| && players[j].id == over;
    assert PlayerId(players[i]) == active && PlayerId(players[j]) == over;
    var oldIndex := FirstIndexWithId(players, PlayerId, active).value;
    var newIndex := FirstIndexWithId(players, PlayerId, over).value;
    ArrayMoveFacts(players, oldIndex, newIndex);
  }

  /** With unique ids, dragging the moved player back onto whoever now
      holds its old index restores the list. */
  lemma DragEndUndo(players: seq<Player>, i: nat, j: nat)
    requires i < |players| && j < |players| && i != j
    requires forall a, b :: 0 <= a < b < |players| ==> players[a].id != players[b].id
    ensures var moved := ArrayMove(players, i, j);
            DragEnd(players, players[i].id, Some(players[j].id)) == Some(moved)
            && DragEnd(moved, players[i].id, Some(moved[i].id)) == Some(players)
  {
    var moved := ArrayMove(players, i, j);
    ArrayMoveFacts(players, i, j);
    FirstIndexUnique(players, i);
    FirstIndexUnique(players, j);
    ArrayMoveInverse(players, i, j);
    MoveKeepsUniqueIds(players, i, j);
    FirstIndexUnique(moved, j);
    FirstIndexUnique(moved, i);
  }

  /** With unique ids the first index carrying `s[i]`'s id is `i`. */
  lemma FirstIndexUnique(s: seq<Player>, i: nat)
    requires i < |s|
    requires forall a, b :: 0 <= a < b < |s| ==> s[a].id != s[b].id
    ensures FirstIndexWithId(s, PlayerId, s[i].id) == Some(i)
  {
    var id := s[i].id;
    var r := FirstIndexWithId(s, PlayerId, id);
    assert PlayerId(s[i]) == id;
    var k := r.value;
    assert PlayerId(s[k]) == id;
    assert s[k].id == s[i].id;
    assert !(k < i) && !(i < k);
  }

  lemma MoveKeepsUniqueIds(players: seq<Player>, i: nat, j: nat)
    requires i < |players| && j < |players|
    requires forall a, b :: 0 <= a < b < |players| ==> players[a].id != players[b].id
    ensures var m := ArrayMove(players, i, j);
            forall a, b :: 0 <= a < b < |m| ==> m[a].id != m[b].id
  {
    var m := ArrayMove(players, i, j);
    ArrayMoveFacts(players, i, j);
    forall a, b | 0 <= a < b < |m| ensures m[a].id != m[b].id {
      var ia := SourceIndex(players, i, j, a);
      var ib := SourceIndex(players, i, j, b);
    }
  }

  /** Where the element at `a` of the moved list came from: distinct
      positions come from distinct positions. */
  lemma SourceIndex(players: seq<Player>, i: nat, j: nat, a: nat) returns (k: nat)
    requires i < |players| && j < |players| && a < |players|
    ensures k < |players| && ArrayMove(players, i, j)[a] == players[k]
    ensures k == (if a == j then i
                  else if a < j then (if a < i then a else a + 1)
                  else (if a <= i then a - 1 else a))
  {
    var rest := Without(players, i);
    if a == j {
      k := i;
    } else if a < j {
      k := if a < i then a else a + 1;
      assert ArrayMove(players, i, j)[a] == rest[a];
    } else {
      k := if a <= i then a - 1 else a;
      assert ArrayMove(players, i, j)[a] == rest[a - 1];
    }
  }

  // ------------------------------------------------------------ bench split

  /** `clampedBenchStart`: `None` for a non-number, else the index clamped
      into `0..len`. */
  function ClampBenchStart(len: nat, benchStart: Option<int>): (r: Option<nat>)
    ensures r.None? <==> benchStart.None?
    ensures r.Some? ==> r.value <= len
    ensures r.Some? && 0 <= benchStart.value <= len ==> r.value == benchStart.value
    ensures r.Some? && benchStart.value < 0 ==> r.value == 0
    ensures r.Some? && benchStart.value > len ==> r.value == len
  {
    match benchStart
    case None => None
    case Some(b) => Some(if b < 0 then 0 else if b > len then len else b)
  }

  /** The per-row button: none when neither bench callback is given, `Clear`
      on the row where the bench starts, `Bench` from this row elsewhere. */
  datatype Action = NoAction | Clear | BenchFrom(index: nat)

  /** What one row shows. */
  datatype RowView = RowView(slot: string, bench: bool, dividerBefore: bool, action: Action)

  /** The slot label, `TX<n>` on the taxi squad and `<group><n>` elsewhere,
      numbered from 1. The roster overview labels its rows the same way. */
  function SlotLabel(group: string, index: nat): string {
    (if group == TAXI then "TX" else group) + NatToString(index + 1)
  }

  function RowAt(group: string, index: nat, start: Option<nat>, actions: bool): RowView {
    RowView(
      SlotLabel(group, index),
      start.Some? && index >= start.value,
      start == Some(index),
      if !actions then NoAction else if start == Some(index) then Clear else BenchFrom(index))
  }

  /** The list: one row per player, in order. */
  function Render(group: string, players: seq<Player>, benchStart: Option<int>, actions: bool): (r: seq<RowView>)
    ensures |r| == |players|
  {
    var start := ClampBenchStart(|players|, benchStart);
    seq(|players|, i requires 0 <= i < |players| => RowAt(group, i, start, actions))
  }

  /** The bench rows are exactly those from the clamped start on, and they
      form a suffix of the list. */
  lemma RenderBenchSuffix(group: string, players: seq<Player>, benchStart: Option<int>, actions: bool)
    ensures var r := Render(group, players, benchStart, actions);
            var start := ClampBenchStart(|players|, benchStart);
            (forall i :: 0 <= i < |r| ==> (r[i].bench <==> start.Some? && i >= start.value))
            && (forall i, j :: 0 <= i < j < |r| && r[i].bench ==> r[j].bench)
  {
  }

  /** The divider appears above at most one row, the first bench row, and
      appears at all exactly when the clamped start is a row index; a start
      equal to the length shows no divider. */
  lemma RenderDivider(group: string, players: seq<Player>, benchStart: Option<int>, actions: bool)
    ensures var r := Render(group, players, benchStart, actions);
            var start := ClampBenchStart(|players|, benchStart);
            (forall i, j :: 0 <= i < |r| && 0 <= j < |r| && r[i].dividerBefore && r[j].dividerBefore ==> i == j)
            && ((exists i :: 0 <= i < |r| && r[i].dividerBefore) <==> start.Some? && start.value < |players|)
            && (forall i :: 0 <= i < |r| && r[i].dividerBefore ==> r[i].bench && (i == 0 || !r[i - 1].bench))
  {
    var r := Render(group, players, benchStart, actions);
    var start := ClampBenchStart(|players|, benchStart);
    if start.Some? && start.value < |players| {
      assert r[start.value].dividerBefore;
    }
  }

  /** With the bench callbacks given, exactly the bench-start row offers
      Clear and every other row offers Bench from its own index. */
  lemma RenderActions(group: string, players: seq<Player>, benchStart: Option<int>)
    ensures var r := Render(group, players, benchStart, true);
            var start := ClampBenchStart(|players|, benchStart);
            forall i :: 0 <= i < |r| ==>
              (r[i].action == Clear <==> start == Some(i))
              && (start != Some(i) ==> r[i].action == BenchFrom(i))
  {
  }

  /** A slot label reads back through the corrected position parser as its
      group and number; a taxi label reads as the taxi squad. The as-written
      parser rejects the taxi labels. */
  lemma SlotLabelParses(k: nat, index: nat)
    requires k < |AllGroups|
    ensures var g := AllGroups[k];
            ParsePosFixed(Some(SlotLabel(g, index)))
              == Some(if g == TAXI then PosInfo(TAXI, 999) else PosInfo(g, index + 1))
            && (ParsePos(Some(SlotLabel(g, index))).None? <==> g == TAXI)
  {
    var g := AllGroups[k];
    if k < |PositionGroups| {
      assert g == PositionGroups[k];
      GroupNameShape(k);
      assert g != TAXI by {
        assert |TAXI| == 4;
        if k == 3 {
          assert g[1] != TAXI[1];
        } else if k == 4 {
          assert |g| == 3;
        } else {
          assert |g| == 2;
        }
      }
      GroupLabelRoundTrip(k, index + 1);
    } else {
      NumberedTaxiLabelRejected(index + 1);
    }
  }
}
