/** The records the roster organizer passes around: players, teams, the saved
    application state, and the entries of the durable edit ledger. */
module Entities {
  import opened Wrappers

  const QB := "QB"
  const RB := "RB"
  const WR := "WR"
  const TE := "TE"
  const DEF := "DEF"
  const TAXI := "TAXI"

  /** The position groups a fetched or imported player can be sorted into. */
  const PositionGroups: seq<string> := [QB, RB, WR, TE, DEF]

  /** Every group the views show, the roster-reserve group last. */
  const AllGroups: seq<string> := PositionGroups + [TAXI]

  /** A player's `order` field as the source sees it: absent (`undefined`,
      for which `Number` gives NaN), `null` (for which `Number` gives 0), or a
      number. */
  datatype Order = Unset | NullOrder | Rank(n: int)

  /** `Number.isFinite(Number(o))`. */
  predicate IsFinite(o: Order) {
    !o.Unset?
  }

  /** `Number(o)` for a finite order. */
  function NumericValue(o: Order): int
    requires IsFinite(o)
  {
    if o.Rank? then o.n else 0
  }

  /** `o ?? 999`: the sort key, unranked players last. */
  function SortValue(o: Order): int {
    if o.Rank? then o.n else 999
  }

  datatype Player = Player(
    id: string,
    name: string,
    age: string,
    nflTeam: string,
    group: string,
    position: string,
    order: Order,
    injured: Option<bool>,
    note: string)

  /** `!!p.injured`. */
  predicate Injured(p: Player) {
    p.injured == Some(true)
  }

  datatype Team = Team(
    id: string,
    leagueName: string,
    name: string,
    players: seq<Player>,
    picksByYear: map<string, seq<string>>,
    settingsPills: seq<string>,
    isBestBall: bool)

  datatype AppState = AppState(teams: seq<Team>)

  /** One ledger entry, a partial patch: an absent field means no opinion. */
  datatype Edit = Edit(group: Option<string>, order: Order, injured: Option<bool>)

  const NoEdit := Edit(None, Unset, None)

  /** What the reserved bench-start key of a team's edit map holds. */
  datatype BenchSlot = NoBench | BenchObject(starts: map<string, int>) | BenchNonObject

  /** A team's edit map: player id to entry, plus the bench-start markers kept
      under the reserved key. */
  datatype TeamEdits = TeamEdits(players: map<string, Edit>, bench: BenchSlot)

  const NoTeamEdits := TeamEdits(map[], NoBench)

  /** The whole ledger: team id to that team's edit map. */
  type Ledger = map<string, TeamEdits>
}
