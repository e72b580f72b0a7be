/** The depth-chart CSV import: position labels, pick cells, and the row loop
    that turns the parsed rows into one team. The CSV tokenizer itself is not
    modelled; its output, one record per data row keyed by header, is the
    input. */
module ParseCsv {
  import opened Wrappers
  import opened Text
  import opened Entities
  import opened Sorting
  import Lists

  /** `String(v ?? "").trim()` for a cell that may be missing. */
  function Norm(v: Option<string>): string {
    Trim(v.GetOr(""))
  }

  /** A parsed position label: its group and its number. */
  datatype PosInfo = PosInfo(group: string, order: int)

  /** `p` is the group name followed by one or more decimal digits. */
  predicate MatchLabel(p: string, g: string) {
    |p| > |g| && p[..|g|] == g && AllDigits(p[|g|..])
  }

  /** The regular expression `^(QB|RB|WR|TE|DEF)(\d+)$`, trying the groups of
      `gs` in turn. */
  function FirstMatch(p: string, gs: seq<string>): (r: Option<PosInfo>)
    ensures r.None? <==> forall k :: 0 <= k < |gs| ==> !MatchLabel(p, gs[k])
    ensures r.Some? ==> r.value.group in gs && MatchLabel(p, r.value.group)
                        && r.value.order == DigitsValue(p[|r.value.group|..])
  {
    if |gs| == 0 then None
    else if MatchLabel(p, gs[0]) then Some(PosInfo(gs[0], DigitsValue(p[|gs[0]|..])))
    else FirstMatch(p, gs[1..])
  }

  /** The normalised label: trimmed and upper-cased. */
  function Label(posRaw: Option<string>): string {
    Upper(Norm(posRaw))
  }

  /** `parsePos` as written, on the normalised label: exactly "TX" is the
      taxi squad, a group name with a number is that group and number,
      anything else is rejected. */
  function ParseLabel(p: string): Option<PosInfo> {
    if p == "" then None
    else if p == "TX" then Some(PosInfo(TAXI, 999))
    else FirstMatch(p, PositionGroups)
  }

  function ParsePos(posRaw: Option<string>): Option<PosInfo> {
    ParseLabel(Label(posRaw))
  }

  /** A taxi label as the template writes it: "TX" and an optional number. */
  predicate TaxiLabel(p: string) {
    |p| >= 2 && p[..2] == "TX" && AllDigits(p[2..])
  }

  /** The label parser with taxi labels accepted with or without a number,
      as the template and the slot labels of the views write them. */
  function ParseLabelFixed(p: string): Option<PosInfo> {
    if p == "" then None
    else if TaxiLabel(p) then Some(PosInfo(TAXI, 999))
    else FirstMatch(p, PositionGroups)
  }

  function ParsePosFixed(posRaw: Option<string>): Option<PosInfo> {
    ParseLabelFixed(Label(posRaw))
  }

  /** What a label parser promises of a normalised label `p`: nothing exactly
      when no rule applies; the taxi squad exactly when `taxi` holds of `p`;
      otherwise the group whose name starts `p`, numbered by the digits after
      it. */
  ghost predicate ParsesBy(parse: string -> Option<PosInfo>, taxi: string -> bool, p: string) {
    var r := parse(p);
    (r.None? <==> !taxi(p) && forall k :: 0 <= k < |PositionGroups| ==> !MatchLabel(p, PositionGroups[k]))
    && (r.Some? && r.value.group == TAXI <==> taxi(p))
    && (r.Some? && r.value.group == TAXI ==> r.value.order == 999)
    && (r.Some? && r.value.group != TAXI ==>
          r.value.group in PositionGroups && MatchLabel(p, r.value.group) && r.value.order == DigitsValue(p[|r.value.group|..]))
  }

  lemma ParseLabelCases(p: string)
    ensures ParsesBy(ParseLabel, p => p == "TX", p)
  {
    if p != "" && p != "TX" {
      var r := FirstMatch(p, PositionGroups);
      assert r.Some? ==> r.value.group != TAXI;
    }
  }

  lemma ParseLabelFixedCases(p: string)
    ensures ParsesBy(ParseLabelFixed, TaxiLabel, p)
  {
    if p == "" {
      assert !TaxiLabel(p);
    } else if !TaxiLabel(p) {
      var r := FirstMatch(p, PositionGroups);
      assert r.Some? ==> r.value.group != TAXI;
    }
  }

  /** One differing character rules a group out. */
  lemma NoMatchAt(p: string, g: string, i: nat)
    requires i < |g| && i < |p| && p[i] != g[i]
    ensures !MatchLabel(p, g)
  {
    if |g| <= |p| {
      assert p[..|g|][i] == p[i];
    }
  }

  /** A taxi label matches no group. */
  lemma TaxiLabelNoGroup(p: string)
    requires TaxiLabel(p)
    ensures forall k :: 0 <= k < |PositionGroups| ==> !MatchLabel(p, PositionGroups[k])
  {
    assert p[0] == p[..2][0] && p[1] == p[..2][1];
    NoMatchAt(p, QB, 0);
    NoMatchAt(p, RB, 0);
    NoMatchAt(p, WR, 0);
    NoMatchAt(p, TE, 1);
    NoMatchAt(p, DEF, 0);
  }

  /** The corrected parser differs from the as-written one only on numbered
      taxi labels, which the as-written one rejects. */
  lemma ParseLabelFixedAgrees(p: string)
    ensures ParseLabel(p) != ParseLabelFixed(p) <==> TaxiLabel(p) && p != "TX"
    ensures ParseLabel(p) != ParseLabelFixed(p) ==> ParseLabel(p).None?
  {
    if TaxiLabel(p) {
      TaxiLabelNoGroup(p);
    }
    if p == "TX" {
      assert p[..2] == p && p[2..] == "";
    }
  }

  /** A label already trimmed and upper-case is its own normal form. */
  lemma LabelNoop(s: string)
    requires Trimmed(s) && NoLowerAscii(s)
    ensures Label(Some(s)) == s
  {
    TrimNoop(s);
    UpperNoop(s);
  }

  /** "TX" and a number is already normal, and a taxi label. */
  lemma TaxiLabelNormal(n: nat)
    ensures var s := "TX" + NatToString(n);
            Label(Some(s)) == s && s != "TX" && TaxiLabel(s)
  {
    var d := NatToString(n);
    var s := "TX" + d;
    assert s[0] == 'T' && s[|s| - 1] == d[|d| - 1];
    assert NoLowerAscii(s) by {
      forall i | 0 <= i < |s| ensures !('a' <= s[i] <= 'z') {
        if i >= 2 {
          assert s[i] == d[i - 2];
        }
      }
    }
    LabelNoop(s);
    assert s[..2] == "TX" && s[2..] == d;
  }

  /** The as-written parser rejects every numbered taxi label, such as the
      "TX1" to "TX5" the template emits; the corrected one reads each as the
      taxi squad. */
  lemma NumberedTaxiLabelRejected(n: nat)
    ensures ParsePos(Some("TX" + NatToString(n))) == None
    ensures ParsePosFixed(Some("TX" + NatToString(n))) == Some(PosInfo(TAXI, 999))
  {
    var s := "TX" + NatToString(n);
    TaxiLabelNormal(n);
    TaxiLabelNoGroup(s);
    ParseLabelFixedAgrees(s);
  }

  /** The alternation picks the first group that matches. */
  lemma {:induction false} FirstMatchAt(p: string, gs: seq<string>, k: nat)
    requires k < |gs| && MatchLabel(p, gs[k])
    requires forall j :: 0 <= j < k ==> !MatchLabel(p, gs[j])
    ensures FirstMatch(p, gs) == Some(PosInfo(gs[k], DigitsValue(p[|gs[k]|..])))
    decreases k
  {
    if k > 0 {
      assert !MatchLabel(p, gs[0]);
      FirstMatchAt(p, gs[1..], k - 1);
    }
  }

  /** A group name and a number is already normal, and matches that group. */
  lemma GroupLabelNormal(g: string, n: nat)
    requires |g| >= 2 && NoLowerAscii(g) && !IsSpace(g[0])
    ensures var s := g + NatToString(n);
            Label(Some(s)) == s && s[0] == g[0] && s[1] == g[1] && MatchLabel(s, g) && DigitsValue(s[|g|..]) == n
  {
    var d := NatToString(n);
    var s := g + d;
    assert s[0] == g[0] && s[|s| - 1] == d[|d| - 1];
    assert NoLowerAscii(s) by {
      forall i | 0 <= i < |s| ensures !('a' <= s[i] <= 'z') {
        if i >= |g| {
          assert s[i] == d[i - |g|];
        } else {
          assert s[i] == g[i];
        }
      }
    }
    LabelNoop(s);
    assert s[..|g|] == g && s[|g|..] == d;
    NatToStringRoundTrip(n);
  }

  /** The group names are upper-case letters; only TE starts like "TX". */
  lemma GroupNameShape(k: nat)
    requires k < |PositionGroups|
    ensures var g := PositionGroups[k];
            |g| >= 2 && NoLowerAscii(g) && !IsSpace(g[0])
            && (k == 3 ==> g[1] == 'E') && (k != 3 ==> g[0] != 'T')
  {
    if k == 0 {} else if k == 1 {} else if k == 2 {} else if k == 3 {} else {}
  }

  /** A label differing from "TX" in one of its first two characters is no
      taxi label. */
  lemma NotTaxiAt(p: string, i: nat)
    requires i < 2 <= |p| && p[i] != "TX"[i]
    ensures !TaxiLabel(p) && p != "TX"
  {
    assert p[..2][i] == p[i];
  }

  /** A label that starts like group `k` and matches it is no taxi label
      and is read as that group. */
  lemma GroupLabelParses(k: nat, s: string)
    requires k < |PositionGroups|
    requires var g := PositionGroups[k]; |s| >= 2 && s[0] == g[0] && s[1] == g[1] && MatchLabel(s, g)
    ensures var g := PositionGroups[k];
            s != "" && !TaxiLabel(s) && s != "TX" && FirstMatch(s, PositionGroups) == Some(PosInfo(g, DigitsValue(s[|g|..])))
  {
    GroupNameShape(k);
    if k == 3 {
      NotTaxiAt(s, 1);
    } else {
      NotTaxiAt(s, 0);
    }
    forall j | 0 <= j < k ensures !MatchLabel(s, PositionGroups[j]) {
      NoMatchAt(s, PositionGroups[j], 0);
    }
    FirstMatchAt(s, PositionGroups, k);
  }

  /** A group name and a number is normal, no taxi label, and matched by
      that group alone. */
  lemma GroupLabelMatch(k: nat, n: nat)
    requires k < |PositionGroups|
    ensures var g := PositionGroups[k];
            var s := g + NatToString(n);
            Label(Some(s)) == s && s != "" && !TaxiLabel(s) && s != "TX"
            && FirstMatch(s, PositionGroups) == Some(PosInfo(g, n))
  {
    GroupNameShape(k);
    GroupLabelNormal(PositionGroups[k], n);
    GroupLabelParses(k, PositionGroups[k] + NatToString(n));
  }

  /** A label made of a group name and a number parses to that group and
      number, with either parser. */
  lemma GroupLabelRoundTrip(k: nat, n: nat)
    requires k < |PositionGroups|
    ensures var g := PositionGroups[k];
            ParsePos(Some(g + NatToString(n))) == Some(PosInfo(g, n))
            && ParsePosFixed(Some(g + NatToString(n))) == Some(PosInfo(g, n))
  {
    GroupLabelMatch(k, n);
  }

  // ----------------------------------------------------------------- picks

  predicate IsPickSep(c: char) {
    c == ',' || c == ';' || c == '/' || c == '|'
  }

  /** Each piece trimmed. */
  function TrimAll(ps: seq<string>): (r: seq<string>)
    ensures |r| == |ps| && forall i :: 0 <= i < |ps| ==> r[i] == Trim(ps[i])
  {
    seq(|ps|, i requires 0 <= i < |ps| => Trim(ps[i]))
  }

  /** `filter(Boolean)` on strings: the non-empty pieces. */
  function NonEmpty(ps: seq<string>): seq<string> {
    Lists.Filter(ps, (p: string) => p != "")
  }

  /** `splitPicks`: the cell's pieces between separators, each trimmed, empty
      pieces dropped. */
  function SplitPicks(cell: Option<string>): seq<string> {
    if cell.None? || cell.value == "" then []
    else NonEmpty(TrimAll(Split(Norm(cell), IsPickSep)))
  }

  /** Every pick of a cell is non-empty and trimmed. */
  lemma SplitPicksTrimmed(cell: Option<string>)
    ensures var r := SplitPicks(cell); forall i :: 0 <= i < |r| ==> r[i] != "" && Trimmed(r[i])
  {
    if cell.Some? && cell.value != "" {
      var t := TrimAll(Split(Norm(cell), IsPickSep));
      forall i | 0 <= i < |t| ensures Trimmed(t[i]) {
        TrimTrimmed(Split(Norm(cell), IsPickSep)[i]);
      }
    }
  }

  /** No piece of a split cell contains a separator. */
  lemma SplitPicksNoSep(cell: Option<string>)
    ensures var r := SplitPicks(cell); forall i :: 0 <= i < |r| ==> NoSep(r[i], IsPickSep)
  {
    if cell.Some? && cell.value != "" {
      var pieces := Split(Norm(cell), IsPickSep);
      var trimmed := TrimAll(pieces);
      forall i | 0 <= i < |trimmed| ensures NoSep(trimmed[i], IsPickSep) {
        TrimIsSlice(pieces[i]);
        var a, b :| 0 <= a <= b <= |pieces[i]| && trimmed[i] == pieces[i][a..b];
        assert NoSep(pieces[i], IsPickSep);
      }
    }
  }

  /** Trimming trimmed pieces changes nothing. */
  lemma TrimAllNoop(ps: seq<string>)
    requires forall i :: 0 <= i < |ps| ==> Trimmed(ps[i])
    ensures TrimAll(ps) == ps
  {
    forall i | 0 <= i < |ps| ensures TrimAll(ps)[i] == ps[i] {
      TrimNoop(ps[i]);
    }
  }

  /** The picks joined by commas form a trimmed, non-empty cell. */
  lemma JoinedCell(picks: seq<string>)
    requires |picks| > 0
    requires forall i :: 0 <= i < |picks| ==> picks[i] != "" && Trimmed(picks[i])
    ensures var j := Join(picks, ','); j != "" && Norm(Some(j)) == j
  {
    var j := Join(picks, ',');
    JoinFirst(picks, ',');
    JoinLast(picks, ',');
    TrimNoop(j);
  }

  /** Writing picks joined by commas and splitting the cell again gives the
      picks back, when each is non-empty, trimmed and separator-free. */
  lemma SplitPicksJoin(picks: seq<string>)
    requires forall i :: 0 <= i < |picks| ==> picks[i] != "" && Trimmed(picks[i]) && NoSep(picks[i], IsPickSep)
    ensures SplitPicks(Some(Join(picks, ','))) == picks
  {
    if |picks| > 0 {
      var j := Join(picks, ',');
      JoinedCell(picks);
      SplitJoinRoundTrip(picks, ',', IsPickSep);
      TrimAllNoop(picks);
      Lists.FilterAll(picks, (p: string) => p != "");
      assert SplitPicks(Some(j)) == NonEmpty(TrimAll(Split(j, IsPickSep)));
    }
  }

  // ------------------------------------------------------------------ rows

  /** One data row, by column name; a missing column is nothing. */
  datatype CsvRow = CsvRow(
    pos: Option<string>,
    name: Option<string>,
    age: Option<string>,
    team: Option<string>,
    picks2026: Option<string>,
    picks2027: Option<string>,
    picks2028: Option<string>)

  const PickYears: seq<string> := ["2026", "2027", "2028"]

  function PickCell(row: CsvRow, year: string): Option<string> {
    if year == "2026" then row.picks2026
    else if year == "2027" then row.picks2027
    else if year == "2028" then row.picks2028
    else None
  }

  /** A label parser, as the row loop uses it. */
  type Parser = Option<string> -> Option<PosInfo>

  /** A row yields a player when its label parses and its name is not blank. */
  predicate Accepted(parse: Parser, row: CsvRow) {
    parse(row.pos).Some? && Norm(row.name) != ""
  }

  /** The accepted rows, in order. */
  function AcceptedRows(parse: Parser, rows: seq<CsvRow>): seq<CsvRow> {
    if |rows| == 0 then []
    else AcceptedRows(parse, rows[..|rows| - 1]) + (if Accepted(parse, rows[|rows| - 1]) then [rows[|rows| - 1]] else [])
  }

  function CountTaxi(ps: seq<Player>): nat {
    if |ps| == 0 then 0 else CountTaxi(ps[..|ps| - 1]) + (if ps[|ps| - 1].group == TAXI then 1 else 0)
  }

  /** The player an accepted row yields, given its id and its taxi number. */
  function RowPlayer(parse: Parser, row: CsvRow, id: string, taxiNumber: int): Player
    requires Accepted(parse, row)
  {
    var info := parse(row.pos).value;
    var order := if info.group == TAXI then taxiNumber else info.order;
    Player(id, Norm(row.name), Norm(row.age), Norm(row.team), info.group, info.group, Rank(order), None, "")
  }

  /** The players of the rows, in row order, before sorting. The `k`-th
      player gets `playerId(k)`; taxi players are numbered 1, 2, ... */
  function RowPlayers(parse: Parser, rows: seq<CsvRow>, playerId: nat -> string): seq<Player> {
    if |rows| == 0 then []
    else RowStep(parse, RowPlayers(parse, rows[..|rows| - 1], playerId), rows[|rows| - 1], playerId)
  }

  /** One row of the loop: an accepted row appends its player. */
  function RowStep(parse: Parser, prev: seq<Player>, row: CsvRow, playerId: nat -> string): seq<Player> {
    if Accepted(parse, row) then prev + [RowPlayer(parse, row, playerId(|prev|), CountTaxi(prev) + 1)] else prev
  }

  /** Every pick of every row for one year, rows with no player included. */
  function AllPicks(rows: seq<CsvRow>, year: string): seq<string> {
    if |rows| == 0 then [] else AllPicks(rows[..|rows| - 1], year) + SplitPicks(PickCell(rows[|rows| - 1], year))
  }

  lemma {:induction false} RowPlayersLength(parse: Parser, rows: seq<CsvRow>, playerId: nat -> string)
    ensures |RowPlayers(parse, rows, playerId)| == |AcceptedRows(parse, rows)|
  {
    if |rows| > 0 {
      RowPlayersLength(parse, rows[..|rows| - 1], playerId);
    }
  }

  /** A row step only appends. */
  lemma RowStepExtends(parse: Parser, prev: seq<Player>, row: CsvRow, playerId: nat -> string)
    ensures |RowStep(parse, prev, row, playerId)| >= |prev|
    ensures RowStep(parse, prev, row, playerId)[..|prev|] == prev
  {
  }

  /** The imported players come exactly from the accepted rows, in order: the
      `i`-th player is built from the `i`-th accepted row, and a taxi player's
      number counts the taxi players up to and including it. */
  lemma {:induction false} RowPlayersFromRows(parse: Parser, rows: seq<CsvRow>, playerId: nat -> string, i: nat)
    requires i < |RowPlayers(parse, rows, playerId)|
    ensures i < |AcceptedRows(parse, rows)|
    ensures Accepted(parse, AcceptedRows(parse, rows)[i])
    ensures RowPlayers(parse, rows, playerId)[i]
              == RowPlayer(parse, AcceptedRows(parse, rows)[i], playerId(i),
                           CountTaxi(RowPlayers(parse, rows, playerId)[..i]) + 1)
  {
    var front := rows[..|rows| - 1];
    var row := rows[|rows| - 1];
    var prev := RowPlayers(parse, front, playerId);
    var ps := RowPlayers(parse, rows, playerId);
    var acc, accFront := AcceptedRows(parse, rows), AcceptedRows(parse, front);
    assert ps == RowStep(parse, prev, row, playerId);
    RowStepExtends(parse, prev, row, playerId);
    RowPlayersLength(parse, front, playerId);
    if i < |prev| {
      RowPlayersFromRows(parse, front, playerId, i);
      assert acc[i] == accFront[i];
      assert ps[..i] == prev[..i] && ps[i] == prev[i];
    } else {
      assert Accepted(parse, row) && acc == accFront + [row];
      assert ps[..i] == prev;
    }
  }

  /** The accepted rows are the rows the filter keeps. */
  lemma {:induction false} AcceptedRowsFilter(parse: Parser, rows: seq<CsvRow>)
    ensures AcceptedRows(parse, rows) == Lists.Filter(rows, row => Accepted(parse, row))
  {
    if |rows| > 0 {
      AcceptedRowsFilter(parse, rows[..|rows| - 1]);
    }
  }

  /** With the corrected label parser every player is in a known group and
      named; the taxi squad is exactly the rows with a taxi label, and a taxi
      player carries its counter number. */
  lemma RowPlayerFields(row: CsvRow, id: string, taxiNumber: int)
    requires Accepted(ParsePosFixed, row)
    ensures var p := RowPlayer(ParsePosFixed, row, id, taxiNumber);
            p.group in AllGroups && p.name != "" && p.injured.None?
            && (p.group == TAXI <==> TaxiLabel(Label(row.pos)))
            && (p.group == TAXI ==> p.order == Rank(taxiNumber))
  {
    ParseLabelFixedCases(Label(row.pos));
  }

  /** The sort comparator's key: group name, then `order ?? 999`. */
  function CsvKey(p: Player): SortKey {
    SortKey(p.group, SortValue(p.order))
  }

  const TemplateTeamName := "Team Name"
  const TemplateLeagueName := "League Name"

  lemma CountTaxiSnoc(ps: seq<Player>, p: Player)
    ensures CountTaxi(ps + [p]) == CountTaxi(ps) + (if p.group == TAXI then 1 else 0)
  {
    assert (ps + [p])[..|ps|] == ps;
  }

  /** One iteration of the row loop's player part, with the taxi counter. */
  method VisitRow(parse: Parser, row: CsvRow, players: seq<Player>, taxiCounter: int, playerId: nat -> string)
    returns (players': seq<Player>, taxiCounter': int)
    requires taxiCounter == CountTaxi(players) + 1
    ensures players' == RowStep(parse, players, row, playerId) && taxiCounter' == CountTaxi(players') + 1
  {
    players', taxiCounter' := players, taxiCounter;
    var posInfo := parse(row.pos);
    if posInfo.Some? {
      var name := Norm(row.name);
      if name != "" {
        var order := if posInfo.value.group == TAXI then taxiCounter else posInfo.value.order;
        if posInfo.value.group == TAXI {
          taxiCounter' := taxiCounter + 1;
        }
        var p := Player(playerId(|players|), name, Norm(row.age), Norm(row.team), posInfo.value.group,
                        posInfo.value.group, Rank(order), None, "");
        assert p == RowPlayer(parse, row, playerId(|players|), CountTaxi(players) + 1);
        CountTaxiSnoc(players, p);
        players' := players + [p];
      }
    }
  }

  /** One more row: its player, if any, is appended. */
  lemma PlayersStep(parse: Parser, rows: seq<CsvRow>, k: nat, playerId: nat -> string)
    requires k < |rows|
    ensures RowPlayers(parse, rows[..k + 1], playerId) == RowStep(parse, RowPlayers(parse, rows[..k], playerId), rows[k], playerId)
  {
    assert rows[..k + 1][..k] == rows[..k];
  }

  /** One more row: its picks for `year` are appended. */
  lemma PicksStep(rows: seq<CsvRow>, k: nat, year: string)
    requires k < |rows|
    ensures AllPicks(rows[..k + 1], year) == AllPicks(rows[..k], year) + SplitPicks(PickCell(rows[k], year))
  {
    assert rows[..k + 1][..k] == rows[..k];
  }

  /** One iteration of the row loop. */
  method ReadRow(parse: Parser, rows: seq<CsvRow>, k: nat, playerId: nat -> string,
                 players: seq<Player>, taxiCounter: int, p26: seq<string>, p27: seq<string>, p28: seq<string>)
    returns (players': seq<Player>, taxiCounter': int, p26': seq<string>, p27': seq<string>, p28': seq<string>)
    requires k < |rows|
    requires players == RowPlayers(parse, rows[..k], playerId) && taxiCounter == CountTaxi(players) + 1
    requires p26 == AllPicks(rows[..k], "2026") && p27 == AllPicks(rows[..k], "2027") && p28 == AllPicks(rows[..k], "2028")
    ensures players' == RowPlayers(parse, rows[..k + 1], playerId) && taxiCounter' == CountTaxi(players') + 1
    ensures p26' == AllPicks(rows[..k + 1], "2026") && p27' == AllPicks(rows[..k + 1], "2027") && p28' == AllPicks(rows[..k + 1], "2028")
  {
    var row := rows[k];
    PicksStep(rows, k, "2026");
    PicksStep(rows, k, "2027");
    PicksStep(rows, k, "2028");
    p26' := p26 + SplitPicks(row.picks2026);
    p27' := p27 + SplitPicks(row.picks2027);
    p28' := p28 + SplitPicks(row.picks2028);
    PlayersStep(parse, rows, k, playerId);
    players', taxiCounter' := VisitRow(parse, row, players, taxiCounter, playerId);
  }

  /** The row loop: the players of the accepted rows and every row's picks. */
  method ReadRows(parse: Parser, rows: seq<CsvRow>, playerId: nat -> string)
    returns (players: seq<Player>, p26: seq<string>, p27: seq<string>, p28: seq<string>)
    ensures players == RowPlayers(parse, rows, playerId)
    ensures p26 == AllPicks(rows, "2026") && p27 == AllPicks(rows, "2027") && p28 == AllPicks(rows, "2028")
  {
    players, p26, p27, p28 := [], [], [], [];
    var taxiCounter := 1;
    var k := 0;
    while k < |rows|
      invariant 0 <= k <= |rows|
      invariant players == RowPlayers(parse, rows[..k], playerId) && taxiCounter == CountTaxi(players) + 1
      invariant p26 == AllPicks(rows[..k], "2026") && p27 == AllPicks(rows[..k], "2027") && p28 == AllPicks(rows[..k], "2028")
    {
      players, taxiCounter, p26, p27, p28 := ReadRow(parse, rows, k, playerId, players, taxiCounter, p26, p27, p28);
      k := k + 1;
    }
    assert rows[..k] == rows;
  }

  /** `parseDepthChartCsv` after tokenizing: one team of the sorted players,
      with the picks of every row under the three pick years. The source's
      import passes the as-written `ParsePos` as `parse`; passing
      `ParsePosFixed` gives the corrected import. The players are sorted
      stably, so rows with equal keys keep their file order. */
  method ParseDepthChart(parse: Parser, rows: seq<CsvRow>, playerId: nat -> string, teamId: string) returns (r: AppState)
    ensures |r.teams| == 1
    ensures var t := r.teams[0];
            t.id == teamId && t.name == TemplateTeamName && t.leagueName == TemplateLeagueName
            && t.picksByYear.Keys == {"2026", "2027", "2028"}
            && (forall y :: y in t.picksByYear ==> t.picksByYear[y] == AllPicks(rows, y))
            && multiset(t.players) == multiset(RowPlayers(parse, rows, playerId))
            && Sorted(t.players, CsvKey)
            && t.players == Sort(RowPlayers(parse, rows, playerId), CsvKey)
  {
    var players, p26, p27, p28 := ReadRows(parse, rows, playerId);
    var picks := map["2026" := p26, "2027" := p27, "2028" := p28];
    var sorted := Sort(players, CsvKey);
    r := AppState([Team(teamId, TemplateLeagueName, TemplateTeamName, sorted, picks, [], false)]);
  }
}
