/** League-level rules of the league-platform adapter: starter counting, the
    quarterback-format pill, position-to-group mapping, roster ownership,
    rookie-round selection and pick text. */
module SleeperLeague {
  import opened Wrappers
  import opened Entities
  import opened Text
  import Lists

  // ------------------------------------------------------ roster slots

  /** Slots that hold no starter: bench, injured reserve, reserve, taxi. */
  predicate IsNonStarter(slot: string) {
    var u := Upper(slot);
    u == "BN" || u == "IR" || u == "RES" || u == "TAXI"
  }

  /** A slot that holds a starter. */
  predicate IsStarterSlot(slot: string) {
    !IsNonStarter(slot)
  }

  function CountWhere(s: seq<string>, keep: string -> bool): (n: nat)
    ensures n <= |s|
    ensures n == |s| <==> forall i :: 0 <= i < |s| ==> keep(s[i])
    ensures n == 0 <==> forall i :: 0 <= i < |s| ==> !keep(s[i])
  {
    if |s| == 0 then 0
    else
      var rest := CountWhere(s[1..], keep);
      assert forall i :: 1 <= i < |s| ==> s[1..][i - 1] == s[i];
      (if keep(s[0]) then 1 else 0) + rest
  }

  /** `countStartersFromRosterPositions`: the number of starting slots, or
      nothing when the league has no slot list. A missing slot entry is the
      empty string, which counts as a starter. */
  function CountStarters(rosterPositions: Option<seq<string>>): (r: Option<nat>)
    ensures r.None? <==> rosterPositions.None?
    ensures r.Some? ==> r.value <= |rosterPositions.value|
    ensures r.Some? ==> (r.value == |rosterPositions.value| <==>
                          forall i :: 0 <= i < |rosterPositions.value| ==> !IsNonStarter(rosterPositions.value[i]))
    ensures r.Some? ==> (r.value == 0 <==>
                          forall i :: 0 <= i < |rosterPositions.value| ==> IsNonStarter(rosterPositions.value[i]))
    ensures r.Some? ==> r.value == |Lists.Filter(rosterPositions.value, IsStarterSlot)|
  {
    match rosterPositions
    case None => None
    case Some(rp) =>
      CountWhereFilter(rp, IsStarterSlot);
      Some(CountWhere(rp, IsStarterSlot))
  }

  /** The count is the length of the filtered list. */
  lemma {:induction false} CountWhereFilter(s: seq<string>, keep: string -> bool)
    ensures CountWhere(s, keep) == |Lists.Filter(s, keep)|
  {
    if |s| > 0 {
      CountWhereFilter(s[1..], keep);
      assert s == [s[0]] + s[1..];
      Lists.FilterAppend([s[0]], s[1..], keep);
      assert Lists.Filter([s[0]], keep) == if keep(s[0]) then [s[0]] else [];
    }
  }

  /** Starters of two slot lists add up. */
  lemma CountStartersAppend(a: seq<string>, b: seq<string>)
    ensures CountStarters(Some(a + b)).value == CountStarters(Some(a)).value + CountStarters(Some(b)).value
  {
    Lists.FilterAppend(a, b, IsStarterSlot);
  }

  lemma UpperIdempotent(s: string)
    ensures Upper(Upper(s)) == Upper(s)
  {
    UpperNoop(Upper(s));
  }

  /** The count ignores letter case: upper-casing every slot changes nothing. */
  lemma CountStartersIgnoresCase(rp: seq<string>)
    ensures CountStarters(Some(seq(|rp|, i requires 0 <= i < |rp| => Upper(rp[i])))) == CountStarters(Some(rp))
  {
    var up := seq(|rp|, i requires 0 <= i < |rp| => Upper(rp[i]));
    forall i | 0 <= i < |rp| ensures IsStarterSlot(up[i]) == IsStarterSlot(rp[i]) {
      UpperIdempotent(rp[i]);
    }
    CountSame(up, rp, IsStarterSlot);
  }

  lemma {:induction false} CountSame(a: seq<string>, b: seq<string>, keep: string -> bool)
    requires |a| == |b| && forall i :: 0 <= i < |a| ==> keep(a[i]) == keep(b[i])
    ensures CountWhere(a, keep) == CountWhere(b, keep)
  {
    if |a| > 0 {
      CountSame(a[1..], b[1..], keep);
    }
  }

  /** `isSuperflex`: a SUPER_FLEX slot exists (exact spelling). */
  predicate IsSuperflex(rosterPositions: Option<seq<string>>) {
    rosterPositions.Some? && "SUPER_FLEX" in rosterPositions.value
  }

  /** `isTwoQB`: at least two slots spelled exactly QB. */
  predicate IsTwoQB(rosterPositions: Option<seq<string>>) {
    rosterPositions.Some? && CountWhere(rosterPositions.value, (s: string) => s == QB) >= 2
  }

  /** The quarterback-format settings pill. */
  function QbPill(rosterPositions: Option<seq<string>>): (r: string)
    ensures r == "SF" <==> IsSuperflex(rosterPositions)
    ensures r == "2QB" <==> !IsSuperflex(rosterPositions) && IsTwoQB(rosterPositions)
    ensures r == "1QB" <==> !IsSuperflex(rosterPositions) && !IsTwoQB(rosterPositions)
  {
    if IsSuperflex(rosterPositions) then "SF"
    else if IsTwoQB(rosterPositions) then "2QB"
    else "1QB"
  }

  /** The quarterback count handed to the valuation service. */
  function ValuationQbs(rosterPositions: Option<seq<string>>): nat {
    if IsSuperflex(rosterPositions) || IsTwoQB(rosterPositions) then 2 else 1
  }

  /** The pill and the valuation parameter agree: two quarterbacks exactly
      when the pill is not 1QB. */
  lemma PillAgreesWithValuation(rosterPositions: Option<seq<string>>)
    ensures ValuationQbs(rosterPositions) == 2 <==> QbPill(rosterPositions) != "1QB"
    ensures ValuationQbs(rosterPositions) == 1 <==> QbPill(rosterPositions) == "1QB"
  {
  }

  /** A slot list without SUPER_FLEX and with at least two QB slots reads as 2QB. */
  lemma TwoQbSlotsGiveTwoQbPill(rp: seq<string>, i: int, j: int)
    requires "SUPER_FLEX" !in rp
    requires 0 <= i < j < |rp| && rp[i] == QB && rp[j] == QB
    ensures QbPill(Some(rp)) == "2QB"
  {
    CountAtLeastTwo(rp, (s: string) => s == QB, i, j);
  }

  lemma {:induction false} CountAtLeastTwo(s: seq<string>, keep: string -> bool, i: int, j: int)
    requires 0 <= i < j < |s| && keep(s[i]) && keep(s[j])
    ensures CountWhere(s, keep) >= 2
  {
    if i > 0 {
      CountAtLeastTwo(s[1..], keep, i - 1, j - 1);
    } else {
      assert keep(s[1..][j - 1]);
      assert CountWhere(s[1..], keep) != 0;
    }
  }

  // ------------------------------------------------ positions and owners

  /** `toGroupFromPosition`: the five position groups, matched without regard
      to ASCII case; anything else (including a missing position) is no group. */
  function ToGroupFromPosition(pos: Option<string>): (r: Option<string>)
    ensures r.Some? <==> pos.Some? && Upper(pos.value) in PositionGroups
    ensures r.Some? ==> r.value == Upper(pos.value) && r.value in PositionGroups
  {
    var p := Upper(pos.GetOr(""));
    if p in PositionGroups then Some(p) else None
  }

  /** The mapping never yields the roster-reserve group, and ignores case. */
  lemma ToGroupProperties(s: string)
    ensures ToGroupFromPosition(Some(s)) != Some(TAXI)
    ensures ToGroupFromPosition(Some(Upper(s))) == ToGroupFromPosition(Some(s))
  {
    UpperIdempotent(s);
  }

  /** A roster as far as ownership goes: the owner id as text and the
      co-owner list when it is an array. */
  datatype RosterOwners = RosterOwners(ownerId: string, coOwners: Option<seq<string>>)

  /** `rosterHasUser`: the user owns or co-owns the roster. */
  function RosterHasUser(r: RosterOwners, userId: string): (b: bool)
    ensures b <==> r.ownerId == userId || (r.coOwners.Some? && exists i :: 0 <= i < |r.coOwners.value| && r.coOwners.value[i] == userId)
  {
    r.ownerId == userId || (r.coOwners.Some? && userId in r.coOwners.value)
  }

  // -------------------------------------------------------------- picks

  /** `getRookieRoundsFromLeague`: the rookie-draft round count when it is in
      1..10, else the draft round count when that is, else 5. A missing or
      non-numeric setting is `None`. */
  function RookieRounds(rookieDraftRounds: Option<int>, draftRounds: Option<int>): (r: int)
    ensures 1 <= r <= 10
    ensures rookieDraftRounds.Some? && 1 <= rookieDraftRounds.value <= 10 ==> r == rookieDraftRounds.value
    ensures !(rookieDraftRounds.Some? && 1 <= rookieDraftRounds.value <= 10) && draftRounds.Some? && 1 <= draftRounds.value <= 10
            ==> r == draftRounds.value
    ensures r != 5 ==> (rookieDraftRounds.Some? && r == rookieDraftRounds.value) || (draftRounds.Some? && r == draftRounds.value)
  {
    if rookieDraftRounds.Some? && 0 < rookieDraftRounds.value <= 10 then rookieDraftRounds.value
    else if draftRounds.Some? && 0 < draftRounds.value <= 10 then draftRounds.value
    else 5
  }

  /** `roundToText`: 1st, 2nd, 3rd, then `<n>th`. */
  function RoundToText(round: int): (r: string)
    ensures round == 1 <==> r == "1st"
    ensures round == 2 <==> r == "2nd"
    ensures round == 3 <==> r == "3rd"
    ensures !(1 <= round <= 3) ==> r == IntToString(round) + "th"
  {
    if round == 1 then "1st"
    else if round == 2 then "2nd"
    else if round == 3 then "3rd"
    else
      var r := IntToString(round) + "th";
      assert r[|r| - 1] == 'h';
      r
  }

  /** Different rounds read differently. */
  lemma RoundToTextInjective(a: int, b: int)
    requires RoundToText(a) == RoundToText(b)
    ensures a == b
  {
    if !(1 <= a <= 3) && !(1 <= b <= 3) {
      var sa := IntToString(a);
      var sb := IntToString(b);
      assert sa == (sa + "th")[..|sa|];
      assert sb == (sb + "th")[..|sb|];
      IntToStringInjective(a, b);
    }
  }

  /** `padStart(2, "0")`. */
  function PadStart2(s: string): (r: string)
    ensures |r| == if |s| >= 2 then |s| else 2
    ensures r[|r| - |s|..] == s
    ensures forall i :: 0 <= i < |r| - |s| ==> r[i] == '0'
  {
    if |s| >= 2 then s else seq(2 - |s|, _ => '0') + s
  }

  /** `formatSlotPick`: `<round>.<slot padded to two digits>`. */
  function FormatSlotPick(round: int, slot: int): string {
    IntToString(round) + "." + PadStart2(IntToString(slot))
  }

  /** The slot text reads back as the round and the slot: splitting at the
      dot and reading the two numbers recovers both. */
  lemma FormatSlotPickRoundTrip(round: nat, slot: nat)
    ensures var parts := Split(FormatSlotPick(round, slot), c => c == '.');
            && |parts| == 2
            && AllDigits(parts[0]) && |parts[0]| >= 1 && DigitsValue(parts[0]) == round
            && AllDigits(parts[1]) && |parts[1]| >= 2 && DigitsValue(parts[1]) == slot
  {
    var a := IntToString(round);
    var b := PadStart2(IntToString(slot));
    var sep := (c: char) => c == '.';
    assert NoSep(a, sep) && NoSep(b, sep);
    SplitJoinRoundTrip([a, b], '.', sep);
    assert Join([a, b], '.') == FormatSlotPick(round, slot);
    NatToStringRoundTrip(round);
    NatToStringRoundTrip(slot);
    LeadingZeros(IntToString(slot), |b| - |IntToString(slot)|);
  }

  /** Leading zeros do not change a decimal value. */
  lemma {:induction false} LeadingZeros(s: string, k: nat)
    requires AllDigits(s)
    ensures AllDigits(seq(k, _ => '0') + s)
    ensures DigitsValue(seq(k, _ => '0') + s) == DigitsValue(s)
    decreases |s|
  {
    var z := seq(k, _ => '0');
    if |s| == 0 {
      assert z + s == z;
      ZerosValue(k);
    } else {
      var t := z + s;
      assert t[..|t| - 1] == z + s[..|s| - 1];
      LeadingZeros(s[..|s| - 1], k);
    }
  }

  lemma {:induction false} ZerosValue(k: nat)
    ensures AllDigits(seq(k, _ => '0'))
    ensures DigitsValue(seq(k, _ => '0')) == 0
  {
    if k > 0 {
      var z := seq(k, _ => '0');
      assert z[..k - 1] == seq(k - 1, _ => '0');
      ZerosValue(k - 1);
    }
  }

  /** `formatFuturePick`: the round text, followed by ` via <name>` when the
      pick came from another roster; the name falls back to `Roster <id>`
      when the roster has no (non-empty) name. */
  function FormatFuturePick(round: int, originalRosterId: string, myRosterId: string, names: map<string, string>): (r: string)
    ensures originalRosterId == myRosterId ==> r == RoundToText(round)
    ensures originalRosterId != myRosterId ==>
              var via := if originalRosterId in names && names[originalRosterId] != "" then names[originalRosterId]
                         else "Roster " + originalRosterId;
              r == RoundToText(round) + " via " + via
    ensures r == RoundToText(round) <==> originalRosterId == myRosterId
  {
    var base := RoundToText(round);
    if originalRosterId == myRosterId then base
    else
      var via := if originalRosterId in names && names[originalRosterId] != "" then names[originalRosterId]
                 else "Roster " + originalRosterId;
      base + " via " + via
  }
}
