/** The depth rows of the user's roster: starters first (numbered per group
    in starter order), then the taxi squad (numbered under TAXI), then the
    remaining bench players (each group continuing its starter count). The
    roster's three id lists and the player dictionary are inputs. */
module SleeperRoster {
  import opened Wrappers
  import opened Entities
  import opened Text
  import opened SleeperLeague
  import Lists

  /** A dictionary entry of the league platform's player catalogue. `age` is
      nothing when absent. */
  datatype SleeperPlayer = SleeperPlayer(
    playerId: string,
    position: Option<string>,
    fullName: string,
    firstName: string,
    lastName: string,
    age: Option<nat>,
    team: string)

  /** The full name, else first and last joined by a space, else the last
      name, else "Unknown". */
  function DisplayName(p: SleeperPlayer): (r: string)
    ensures r != ""
    ensures p.fullName != "" ==> r == p.fullName
    ensures p.fullName == "" && p.firstName == "" && p.lastName == "" ==> r == "Unknown"
  {
    var joined :=
      if p.firstName != "" && p.lastName != "" then p.firstName + " " + p.lastName
      else if p.firstName != "" then p.firstName
      else p.lastName;
    if p.fullName != "" then p.fullName
    else if joined != "" then joined
    else if p.lastName != "" then p.lastName
    else "Unknown"
  }

  const RowIdPrefix := "sleeper-player:"

  function RowId(p: SleeperPlayer): string {
    RowIdPrefix + p.playerId
  }

  /** Different catalogue ids give different row ids. */
  lemma RowIdInjective(p: SleeperPlayer, q: SleeperPlayer)
    requires RowId(p) == RowId(q)
    ensures p.playerId == q.playerId
  {
    assert p.playerId == RowId(p)[|RowIdPrefix|..];
    assert q.playerId == RowId(q)[|RowIdPrefix|..];
  }

  /** `buildPlayerRow`: a healthy row with an empty note, its position the
      group, its age the number's text (empty when absent or zero). */
  function RowFor(p: SleeperPlayer, group: string, order: int): (r: Player)
    ensures r.id == RowId(p) && r.group == group && r.position == group && r.order == Rank(order)
    ensures r.injured == Some(false) && r.note == "" && r.name == DisplayName(p) && r.nflTeam == p.team
  {
    var age := if p.age.Some? && p.age.value != 0 then NatToString(p.age.value) else "";
    Player(RowId(p), DisplayName(p), age, p.team, group, group, Rank(order), Some(false), "")
  }

  function GroupOf(p: SleeperPlayer): Option<string> {
    ToGroupFromPosition(p.position)
  }

  /** A starter id that yields a row: non-empty, in the catalogue, and of a
      known position group. */
  predicate StarterEligible(pid: string, dict: map<string, SleeperPlayer>) {
    pid != "" && pid in dict && GroupOf(dict[pid]).Some?
  }

  predicate TaxiEligible(pid: string, dict: map<string, SleeperPlayer>) {
    pid in dict
  }

  /** A roster id that the bench pass considers: non-empty, neither a starter
      nor on the taxi squad, in the catalogue, of a known group. */
  predicate BenchEligible(pid: string, starters: seq<string>, taxi: seq<string>, dict: map<string, SleeperPlayer>) {
    pid != "" && pid !in starters && pid !in taxi && pid in dict && GroupOf(dict[pid]).Some?
  }

  /** One depth row before it is rendered: the roster id it comes from, the
      row id, its group and its order. */
  datatype Slot = Slot(pid: string, id: string, group: string, order: int)

  /** How many slots of `s` belong to group `g`. */
  function CountIn(s: seq<Slot>, g: string): nat {
    if |s| == 0 then 0 else CountIn(s[..|s| - 1], g) + (if s[|s| - 1].group == g then 1 else 0)
  }

  function Ids(s: seq<Slot>): set<string> {
    set i | 0 <= i < |s| :: s[i].id
  }

  function Pids(s: seq<Slot>): (r: seq<string>)
    ensures |r| == |s| && forall i :: 0 <= i < |s| ==> r[i] == s[i].pid
  {
    if |s| == 0 then [] else Pids(s[..|s| - 1]) + [s[|s| - 1].pid]
  }

  /** Starter ids that yield a row, in starter order. */
  function StarterIds(starters: seq<string>, dict: map<string, SleeperPlayer>): seq<string> {
    Lists.Filter(starters, StarterTest(dict))
  }

  function StarterTest(dict: map<string, SleeperPlayer>): string -> bool {
    pid => StarterEligible(pid, dict)
  }

  function TaxiTest(dict: map<string, SleeperPlayer>): string -> bool {
    pid => TaxiEligible(pid, dict)
  }

  lemma PidsSnoc(s: seq<Slot>, x: Slot)
    ensures Pids(s + [x]) == Pids(s) + [x.pid]
  {
    assert (s + [x])[..|s|] == s;
  }

  /** Taxi ids that yield a row, in taxi order. */
  function TaxiIds(taxi: seq<string>, dict: map<string, SleeperPlayer>): seq<string> {
    Lists.Filter(taxi, TaxiTest(dict))
  }

  lemma IdsSnoc(s: seq<Slot>, x: Slot)
    ensures Ids(s + [x]) == Ids(s) + {x.id}
  {
    var t := s + [x];
    forall id | id in Ids(s) ensures id in Ids(t) {
      var i :| 0 <= i < |s| && s[i].id == id;
      assert t[i] == s[i];
    }
    forall id | id in Ids(t) ensures id in Ids(s) + {x.id} {
      var i :| 0 <= i < |t| && t[i].id == id;
      if i < |s| {
        assert t[i] == s[i];
      }
    }
    assert t[|s|] == x;
  }

  lemma CountInSnoc(s: seq<Slot>, x: Slot, g: string)
    ensures CountIn(s + [x], g) == CountIn(s, g) + (if x.group == g then 1 else 0)
  {
    assert (s + [x])[..|s|] == s;
  }

  /** Pass 1, one starter id: an eligible starter gets the next number of
      its group. */
  function StarterNext(prev: seq<Slot>, pid: string, dict: map<string, SleeperPlayer>): seq<Slot> {
    if StarterEligible(pid, dict) then
      var g := GroupOf(dict[pid]).value;
      prev + [Slot(pid, RowId(dict[pid]), g, CountIn(prev, g) + 1)]
    else prev
  }

  /** Pass 1: the eligible starters in order, each numbered one past the
      rows of its group before it. */
  function StarterSlots(starters: seq<string>, dict: map<string, SleeperPlayer>): seq<Slot> {
    if |starters| == 0 then []
    else StarterNext(StarterSlots(starters[..|starters| - 1], dict), starters[|starters| - 1], dict)
  }

  /** Pass 2: the catalogued taxi ids in order. */
  function TaxiSlots(taxi: seq<string>, dict: map<string, SleeperPlayer>): seq<Slot>
  {
    if |taxi| == 0 then []
    else
      var prev := TaxiSlots(taxi[..|taxi| - 1], dict);
      var pid := taxi[|taxi| - 1];
      if TaxiEligible(pid, dict) then prev + [Slot(pid, RowId(dict[pid]), TAXI, |prev| + 1)]
      else prev
  }

  /** Pass 3, one roster id: a bench-eligible id whose row id is not shown
      yet gets the next number of its group, counted on from `base`. */
  function BenchNext(prev: seq<Slot>, pid: string, starters: seq<string>, taxi: seq<string>, dict: map<string, SleeperPlayer>,
                     shown: set<string>, base: map<string, nat>): seq<Slot>
    requires forall g :: g in PositionGroups ==> g in base
  {
    if BenchEligible(pid, starters, taxi, dict) && RowId(dict[pid]) !in shown + Ids(prev) then
      var g := GroupOf(dict[pid]).value;
      prev + [Slot(pid, RowId(dict[pid]), g, base[g] + CountIn(prev, g) + 1)]
    else prev
  }

  /** Pass 3: the remaining roster ids, skipping starters, taxi players and
      row ids already shown (in `shown` or earlier on the bench). */
  function BenchSlots(players: seq<string>, starters: seq<string>, taxi: seq<string>, dict: map<string, SleeperPlayer>,
                      shown: set<string>, base: map<string, nat>): seq<Slot>
    requires forall g :: g in PositionGroups ==> g in base
  {
    if |players| == 0 then []
    else
      BenchNext(BenchSlots(players[..|players| - 1], starters, taxi, dict, shown, base), players[|players| - 1],
                starters, taxi, dict, shown, base)
  }

  lemma StarterSlotsStep(starters: seq<string>, k: nat, dict: map<string, SleeperPlayer>)
    requires k < |starters|
    ensures StarterSlots(starters[..k + 1], dict) == StarterNext(StarterSlots(starters[..k], dict), starters[k], dict)
  {
    assert starters[..k + 1][..k] == starters[..k];
  }

  lemma BenchSlotsStep(players: seq<string>, k: nat, starters: seq<string>, taxi: seq<string>,
                       dict: map<string, SleeperPlayer>, shown: set<string>, base: map<string, nat>)
    requires forall g :: g in PositionGroups ==> g in base
    requires k < |players|
    ensures BenchSlots(players[..k + 1], starters, taxi, dict, shown, base)
            == BenchNext(BenchSlots(players[..k], starters, taxi, dict, shown, base), players[k], starters, taxi, dict, shown, base)
  {
    assert players[..k + 1][..k] == players[..k];
  }

  /** A slot made from a catalogue entry of a known group, under its row id. */
  predicate FromCatalogue(s: Slot, dict: map<string, SleeperPlayer>) {
    s.pid in dict && Some(s.group) == GroupOf(dict[s.pid]) && s.id == RowId(dict[s.pid])
  }

  lemma {:induction false} StarterProvenance(starters: seq<string>, dict: map<string, SleeperPlayer>, i: nat)
    requires i < |StarterSlots(starters, dict)|
    ensures StarterEligible(StarterSlots(starters, dict)[i].pid, dict)
    ensures FromCatalogue(StarterSlots(starters, dict)[i], dict)
  {
    var front := starters[..|starters| - 1];
    if i < |StarterSlots(front, dict)| {
      StarterProvenance(front, dict, i);
    }
  }

  lemma {:induction false} TaxiProvenance(taxi: seq<string>, dict: map<string, SleeperPlayer>, i: nat)
    requires i < |TaxiSlots(taxi, dict)|
    ensures var s := TaxiSlots(taxi, dict)[i]; s.pid in dict && s.group == TAXI && s.id == RowId(dict[s.pid])
  {
    var front := taxi[..|taxi| - 1];
    if i < |TaxiSlots(front, dict)| {
      TaxiProvenance(front, dict, i);
    }
  }

  lemma {:induction false} BenchProvenance(players: seq<string>, starters: seq<string>, taxi: seq<string>,
                                           dict: map<string, SleeperPlayer>, shown: set<string>, base: map<string, nat>, i: nat)
    requires forall g :: g in PositionGroups ==> g in base
    requires i < |BenchSlots(players, starters, taxi, dict, shown, base)|
    ensures var s := BenchSlots(players, starters, taxi, dict, shown, base)[i];
            s.pid in players && BenchEligible(s.pid, starters, taxi, dict) && FromCatalogue(s, dict)
  {
    var front := players[..|players| - 1];
    if i < |BenchSlots(front, starters, taxi, dict, shown, base)| {
      BenchProvenance(front, starters, taxi, dict, shown, base, i);
    }
  }

  /** Starter rows come exactly from the eligible starters, in order. */
  lemma {:induction false} StarterSlotsFromStarters(starters: seq<string>, dict: map<string, SleeperPlayer>)
    ensures Pids(StarterSlots(starters, dict)) == StarterIds(starters, dict)
  {
    if |starters| > 0 {
      var front := starters[..|starters| - 1];
      var pid := starters[|starters| - 1];
      StarterSlotsFromStarters(front, dict);
      Lists.FilterSnoc(front, pid, StarterTest(dict));
      assert starters == front + [pid];
      var prev := StarterSlots(front, dict);
      if StarterEligible(pid, dict) {
        var g := GroupOf(dict[pid]).value;
        PidsSnoc(prev, Slot(pid, RowId(dict[pid]), g, CountIn(prev, g) + 1));
      }
    }
  }

  /** Each starter row's number is the count of its group among the starter
      rows up to and including it. */
  lemma {:induction false} StarterNumbering(starters: seq<string>, dict: map<string, SleeperPlayer>, i: nat)
    requires i < |StarterSlots(starters, dict)|
    ensures var r := StarterSlots(starters, dict); r[i].order == CountIn(r[..i + 1], r[i].group)
  {
    var r := StarterSlots(starters, dict);
    var front := starters[..|starters| - 1];
    var prev := StarterSlots(front, dict);
    if i < |prev| {
      StarterNumbering(front, dict, i);
      assert r[..i + 1] == prev[..i + 1];
    } else {
      assert r[..i + 1][..i] == prev;
    }
  }

  /** Taxi rows come exactly from the catalogued taxi ids, numbered 1.. . */
  lemma {:induction false} TaxiSlotsFromTaxi(taxi: seq<string>, dict: map<string, SleeperPlayer>)
    ensures Pids(TaxiSlots(taxi, dict)) == TaxiIds(taxi, dict)
    ensures var r := TaxiSlots(taxi, dict); forall i :: 0 <= i < |r| ==> r[i].order == i + 1
  {
    TaxiIdsFromTaxi(taxi, dict);
    TaxiNumbering(taxi, dict);
  }

  lemma {:induction false} TaxiNumbering(taxi: seq<string>, dict: map<string, SleeperPlayer>)
    ensures forall i :: 0 <= i < |TaxiSlots(taxi, dict)| ==> TaxiSlots(taxi, dict)[i].order == i + 1
  {
    if |taxi| > 0 {
      TaxiNumbering(taxi[..|taxi| - 1], dict);
    }
  }

  lemma {:induction false} TaxiIdsFromTaxi(taxi: seq<string>, dict: map<string, SleeperPlayer>)
    ensures Pids(TaxiSlots(taxi, dict)) == TaxiIds(taxi, dict)
  {
    if |taxi| > 0 {
      var front := taxi[..|taxi| - 1];
      var pid := taxi[|taxi| - 1];
      TaxiIdsFromTaxi(front, dict);
      Lists.FilterSnoc(front, pid, TaxiTest(dict));
      assert taxi == front + [pid];
      var prev := TaxiSlots(front, dict);
      if TaxiEligible(pid, dict) {
        PidsSnoc(prev, Slot(pid, RowId(dict[pid]), TAXI, |prev| + 1));
      }
    }
  }

  /** Bench rows continue their group's count from `base`. */
  lemma {:induction false} BenchNumbering(players: seq<string>, starters: seq<string>, taxi: seq<string>,
                                          dict: map<string, SleeperPlayer>, shown: set<string>, base: map<string, nat>, i: nat)
    requires forall g :: g in PositionGroups ==> g in base
    requires i < |BenchSlots(players, starters, taxi, dict, shown, base)|
    ensures var r := BenchSlots(players, starters, taxi, dict, shown, base);
            r[i].group in base && r[i].order == base[r[i].group] + CountIn(r[..i + 1], r[i].group)
  {
    var r := BenchSlots(players, starters, taxi, dict, shown, base);
    var front := players[..|players| - 1];
    var prev := BenchSlots(front, starters, taxi, dict, shown, base);
    if i < |prev| {
      BenchNumbering(front, starters, taxi, dict, shown, base, i);
      assert r[..i + 1] == prev[..i + 1];
    } else {
      var pid := players[|players| - 1];
      assert r == BenchNext(prev, pid, starters, taxi, dict, shown, base);
      var g := GroupOf(dict[pid]).value;
      var x := Slot(pid, RowId(dict[pid]), g, base[g] + CountIn(prev, g) + 1);
      assert r == prev + [x];
      assert r[..i + 1] == prev + [x];
      CountInSnoc(prev, x, g);
    }
  }

  /** No bench row repeats a row id already shown or shown earlier on the
      bench. */
  lemma {:induction false} BenchNoRepeats(players: seq<string>, starters: seq<string>, taxi: seq<string>,
                                          dict: map<string, SleeperPlayer>, shown: set<string>, base: map<string, nat>, i: nat)
    requires forall g :: g in PositionGroups ==> g in base
    requires i < |BenchSlots(players, starters, taxi, dict, shown, base)|
    ensures var r := BenchSlots(players, starters, taxi, dict, shown, base);
            r[i].id !in shown && r[i].id !in Ids(r[..i])
  {
    var r := BenchSlots(players, starters, taxi, dict, shown, base);
    var front := players[..|players| - 1];
    var prev := BenchSlots(front, starters, taxi, dict, shown, base);
    if i < |prev| {
      BenchNoRepeats(front, starters, taxi, dict, shown, base, i);
      assert r[..i] == prev[..i] && r[i] == prev[i];
    } else {
      assert r[..i] == prev;
    }
  }

  /** Every bench-eligible roster id ends up shown: already, or on the bench. */
  lemma {:induction false} BenchComplete(players: seq<string>, starters: seq<string>, taxi: seq<string>,
                                         dict: map<string, SleeperPlayer>, shown: set<string>, base: map<string, nat>, k: nat)
    requires forall g :: g in PositionGroups ==> g in base
    requires k < |players| && BenchEligible(players[k], starters, taxi, dict)
    ensures RowId(dict[players[k]]) in shown + Ids(BenchSlots(players, starters, taxi, dict, shown, base))
  {
    var front := players[..|players| - 1];
    var prev := BenchSlots(front, starters, taxi, dict, shown, base);
    var pid := players[|players| - 1];
    if k < |front| {
      assert front[k] == players[k];
      BenchComplete(front, starters, taxi, dict, shown, base, k);
    }
    if BenchEligible(pid, starters, taxi, dict) && RowId(dict[pid]) !in shown + Ids(prev) {
      var g := GroupOf(dict[pid]).value;
      IdsSnoc(prev, Slot(pid, RowId(dict[pid]), g, base[g] + CountIn(prev, g) + 1));
    }
  }

  const PositionGroupSet: set<string> := set g | g in PositionGroups

  /** Every position group's counter at zero. */
  function StartCounters(): (m: map<string, nat>)
    ensures m.Keys == PositionGroupSet && forall g :: g in PositionGroups ==> m[g] == 0
  {
    map g | g in PositionGroups :: 0
  }

  /** The group counts of the starter rows, where the bench continues. */
  function StarterCounts(s: seq<Slot>): (m: map<string, nat>)
    ensures m.Keys == PositionGroupSet && forall g :: g in PositionGroups ==> m[g] == CountIn(s, g)
  {
    map g | g in PositionGroups :: CountIn(s, g)
  }

  /** All three passes, as slots: starters, taxi squad, bench. */
  function AllSlots(starters: seq<string>, taxi: seq<string>, players: seq<string>, dict: map<string, SleeperPlayer>)
    : seq<Slot>
  {
    var s := StarterSlots(starters, dict);
    var t := TaxiSlots(taxi, dict);
    s + t + BenchSlots(players, starters, taxi, dict, Ids(s + t), StarterCounts(s))
  }

  /** Renders one slot. */
  function Render(s: Slot, dict: map<string, SleeperPlayer>): Player
    requires s.pid in dict
  {
    RowFor(dict[s.pid], s.group, s.order)
  }

  /** `counters` holds each position group's count of rows in `slots`. */
  predicate CountsOf(counters: map<string, nat>, slots: seq<Slot>) {
    counters.Keys == PositionGroupSet && forall g :: g in PositionGroups ==> g in counters && counters[g] == CountIn(slots, g)
  }

  lemma CountsOfStarterCounts(counters: map<string, nat>, slots: seq<Slot>)
    requires CountsOf(counters, slots)
    ensures counters == StarterCounts(slots)
  {
    var m := StarterCounts(slots);
    forall g | g in counters ensures counters[g] == m[g] {
      assert g in PositionGroups;
    }
  }

  /** The starter loop, counting per group as it goes. */
  method StarterPass(starters: seq<string>, dict: map<string, SleeperPlayer>) returns (slots: seq<Slot>, counters: map<string, nat>)
    ensures slots == StarterSlots(starters, dict)
    ensures counters == StarterCounts(slots)
  {
    slots := [];
    counters := StartCounters();
    var k := 0;
    while k < |starters|
      invariant 0 <= k <= |starters|
      invariant slots == StarterSlots(starters[..k], dict)
      invariant CountsOf(counters, slots)
    {
      slots, counters := StarterVisit(starters, k, dict, slots, counters);
      k := k + 1;
    }
    assert starters[..k] == starters;
    CountsOfStarterCounts(counters, slots);
  }

  /** One starter id: an eligible starter gets the next number of its group. */
  method StarterVisit(starters: seq<string>, k: nat, dict: map<string, SleeperPlayer>, slots: seq<Slot>, counters: map<string, nat>)
    returns (slots': seq<Slot>, counters': map<string, nat>)
    requires k < |starters|
    requires slots == StarterSlots(starters[..k], dict) && CountsOf(counters, slots)
    ensures slots' == StarterSlots(starters[..k + 1], dict) && CountsOf(counters', slots')
  {
    var pid := starters[k];
    StarterSlotsStep(starters, k, dict);
    slots', counters' := slots, counters;
    if pid != "" && pid in dict && GroupOf(dict[pid]).Some? {
      var g := GroupOf(dict[pid]).value;
      var x := Slot(pid, RowId(dict[pid]), g, counters[g] + 1);
      slots' := slots + [x];
      counters' := counters[g := counters[g] + 1];
      forall h | h in PositionGroups ensures counters'[h] == CountIn(slots', h) {
        CountInSnoc(slots, x, h);
      }
    }
  }

  /** The taxi loop, with its one running number. */
  method TaxiPass(taxi: seq<string>, dict: map<string, SleeperPlayer>) returns (slots: seq<Slot>)
    ensures slots == TaxiSlots(taxi, dict)
  {
    slots := [];
    var txOrder := 0;
    var k := 0;
    while k < |taxi|
      invariant 0 <= k <= |taxi|
      invariant slots == TaxiSlots(taxi[..k], dict) && txOrder == |slots|
    {
      var pid := taxi[k];
      assert taxi[..k + 1][..k] == taxi[..k];
      if pid in dict {
        txOrder := txOrder + 1;
        slots := slots + [Slot(pid, RowId(dict[pid]), TAXI, txOrder)];
      }
      k := k + 1;
    }
    assert taxi[..k] == taxi;
  }

  /** The bench counters continue the starter counters over the bench rows. */
  predicate BenchCounters(bench: map<string, nat>, counters: map<string, nat>, slots: seq<Slot>)
    requires forall g :: g in PositionGroups ==> g in counters
  {
    forall g :: g in PositionGroups ==> g in bench && bench[g] == counters[g] + CountIn(slots, g)
  }

  /** One iteration of the bench loop. */
  method BenchVisit(slots: seq<Slot>, seen: set<string>, bench: map<string, nat>, pid: string,
                    starters: seq<string>, taxi: seq<string>, dict: map<string, SleeperPlayer>,
                    shown: set<string>, counters: map<string, nat>)
    returns (slots': seq<Slot>, seen': set<string>, bench': map<string, nat>)
    requires forall g :: g in PositionGroups ==> g in counters
    requires seen == shown + Ids(slots) && BenchCounters(bench, counters, slots)
    ensures slots' == BenchNext(slots, pid, starters, taxi, dict, shown, counters)
    ensures seen' == shown + Ids(slots') && BenchCounters(bench', counters, slots')
  {
    slots', seen', bench' := slots, seen, bench;
    if pid != "" && pid !in starters && pid !in taxi && pid in dict && GroupOf(dict[pid]).Some? {
      var g := GroupOf(dict[pid]).value;
      var id := RowId(dict[pid]);
      if id !in seen {
        var x := Slot(pid, id, g, bench[g] + 1);
        slots' := slots + [x];
        forall h | h in PositionGroups ensures bench[g := bench[g] + 1][h] == counters[h] + CountIn(slots', h) {
          CountInSnoc(slots, x, h);
        }
        bench' := bench[g := bench[g] + 1];
        IdsSnoc(slots, x);
        seen' := seen + {id};
      }
    }
  }

  /** The bench loop over the whole roster, with the set of row ids seen. */
  method BenchPass(players: seq<string>, starters: seq<string>, taxi: seq<string>, dict: map<string, SleeperPlayer>,
                   shown: set<string>, counters: map<string, nat>) returns (slots: seq<Slot>)
    requires forall g :: g in PositionGroups ==> g in counters
    ensures slots == BenchSlots(players, starters, taxi, dict, shown, counters)
  {
    slots := [];
    var seen := shown;
    var bench := counters;
    var k := 0;
    while k < |players|
      invariant 0 <= k <= |players|
      invariant slots == BenchSlots(players[..k], starters, taxi, dict, shown, counters)
      invariant seen == shown + Ids(slots) && BenchCounters(bench, counters, slots)
    {
      BenchSlotsStep(players, k, starters, taxi, dict, shown, counters);
      slots, seen, bench := BenchVisit(slots, seen, bench, players[k], starters, taxi, dict, shown, counters);
      k := k + 1;
    }
    assert players[..k] == players;
  }

  /** The row-numbering block of the loader: starters, then the taxi squad,
      then the rest of the roster, each rendered as a row. */
  method BuildRows(starters: seq<string>, taxi: seq<string>, players: seq<string>, dict: map<string, SleeperPlayer>)
    returns (rows: seq<Player>)
    ensures var slots := AllSlots(starters, taxi, players, dict);
            |rows| == |slots| && forall i :: 0 <= i < |slots| ==> slots[i].pid in dict && rows[i] == Render(slots[i], dict)
  {
    var starterSlots, counters := StarterPass(starters, dict);
    var taxiSlots := TaxiPass(taxi, dict);
    var benchSlots := BenchPass(players, starters, taxi, dict, Ids(starterSlots + taxiSlots), counters);
    var slots := starterSlots + taxiSlots + benchSlots;
    forall i | 0 <= i < |slots| ensures slots[i].pid in dict {
      if i < |starterSlots| {
        StarterProvenance(starters, dict, i);
      } else if i < |starterSlots| + |taxiSlots| {
        TaxiProvenance(taxi, dict, i - |starterSlots|);
      } else {
        BenchProvenance(players, starters, taxi, dict, Ids(starterSlots + taxiSlots), counters, i - |starterSlots| - |taxiSlots|);
      }
    }
    rows := seq(|slots|, i requires 0 <= i < |slots| && slots[i].pid in dict => Render(slots[i], dict));
  }
}
