# Dynasty depth chart: a Dafny model of the roster organizer's core

The roster organizer is a browser app. It shows the user's fantasy-football
rosters as ordered depth charts, one list per position group (QB, RB, WR, TE,
DEF and the TAXI reserve), plus a picks tab and a read-only roster overview.
Teams come from the Sleeper league platform or from an imported CSV. The
user's manual reordering and injured flags must survive a page reload and a
disconnect/reconnect. For that, a durable per-team edit ledger is kept in
browser storage next to a snapshot of the whole state. Each time the teams
are fetched again, the fresh data and both layers of saved edits are
reconciled.

This project models that core as pure Dafny functions and small methods:

- `Entities`: the records (players, teams, app state, ledger entries), plus
  JavaScript's three kinds of `order` (absent, `null`, a number).
- `Storage` and `EditLedger`: the browser store, the edit ledger, and the
  bench-start markers kept in it.
- `Reconcile` and `ReconcileProperties`: the merge of fresh teams with the
  snapshot and the ledger, and what it guarantees.
- `Mutators` and `AppViews`: reordering a group, toggling an injured flag,
  the per-group views, the tab list, and the initial UI choice.
- `SleeperLeague`, `SleeperPicks` and `SleeperRoster`: the Sleeper adapter.
  These cover league settings, pick text, draft-pick ownership, and the
  numbering of roster rows.
- `ParseCsv` and `TemplateCsv`: the CSV import and the blank template.
- `MergeTeams`: the helper that fills missing team fields, with teams as
  plain JavaScript values.
- `FantasyCalc`: the player-value cache key, the cache freshness rule, and
  the value lookup.
- `PlayerList` and `MacroRoster`: the sortable list (drag reorder, bench
  split, row labels and buttons) and the overview's group cards and totals.
- `Text`, `Sorting`, `Lists` and `Wrappers`: helpers. These are trimming,
  upper-casing, decimal text, split and join; a stable insertion sort with
  JavaScript's comparator semantics; filtering; and `Option`.

Anything the core gets from outside becomes a parameter. That covers the
clock, the random UUIDs, the HTTP response bodies and the stored blobs.

## Model

| member | source | states |
|---|---|---|
| Text.TrimIsSlice | src/services/parseCsv.js:10-12 | a trimmed cell is a slice of the cell with only whitespace cut from both ends |
| Text.TrimIdempotent | src/services/parseCsv.js:10-12 | normalising a cell twice is normalising it once |
| Text.Upper | src/services/parseCsv.js:15 | upper-casing keeps the length and maps each character on its own |
| Text.IntToStringRoundTrip | src/data/sources/fantasycalc/fantasycalc.js:11 | the decimal text of a number reads back as that number |
| Text.SplitJoinRoundTrip | src/services/templateCsv.js:25 | joining separator-free parts and splitting on the separator gives the parts back |
| Sorting.Sort | src/App.jsx:308-310 | the group sort returns a permutation of its input, ordered by the key |
| Sorting.SortStable | src/App.jsx:309 | the sort is stable: players with equal keys keep their relative order |
| Sorting.SortSortedNoop | src/App.jsx:309 | sorting an already ordered list changes nothing |
| Sorting.StrLessTotal | src/services/parseCsv.js:86 | the group-name comparison orders any two different names one way or the other |
| Sorting.StrLessTransitive | src/services/parseCsv.js:86 | the group-name comparison is transitive |
| Storage.LoadEdits | src/App.jsx:30-36 | the ledger is what was stored under the edits key, and empty when nothing readable is there |
| Storage.SaveEdits | src/App.jsx:38-40 | after saving, loading returns the saved ledger, and every other key is untouched |
| Storage.LoadAppState | src/services/storage.js:3-10 | the snapshot is present exactly when a readable state is stored under its key |
| Storage.SaveAppState | src/services/storage.js:12-14 | after saving, loading returns the saved state, and every other key is untouched |
| Storage.ClearAppState | src/services/storage.js:16-18 | after clearing there is no snapshot, and every other key is untouched |
| Storage.StoresIndependent | src/services/storage.js:1 | clearing the snapshot keeps the ledger, and saving the ledger keeps the snapshot, since the keys differ |
| EditLedger.GetTeamEdits | src/App.jsx:42-45 | a team's edits are its ledger entry, or empty when it has none |
| EditLedger.MergePatch | src/App.jsx:51 | `{...prev, ...patch}`: each field comes from the patch when the patch sets it, else from the previous entry |
| EditLedger.MergePatchAssociative | src/App.jsx:51 | applying two patches in turn equals applying their merge |
| EditLedger.MergePatchIdempotent | src/App.jsx:51 | re-applying a patch changes nothing; the empty patch is neutral on both sides |
| EditLedger.SetTeamEdit | src/App.jsx:47-54 | the entry for (team, player) becomes the merged patch; every other entry and every bench marker is unchanged |
| EditLedger.WriteTeamEdit | src/App.jsx:47-54 | writing through storage stores the updated ledger and leaves the snapshot alone |
| EditLedger.GetTeamBenchStarts | src/App.jsx:58-62 | the bench starts are the team's marker object, or empty when the marker is not an object |
| EditLedger.SetTeamBenchStart | src/App.jsx:64-81 | a null index deletes the group's start and a number sets it; other groups, player entries and other teams are unchanged |
| EditLedger.BenchStartIndex | src/App.jsx:546-551 | an index is shown exactly when there is a team id and a stored start for the active tab, and it is that stored start |
| EditLedger.BenchStartRoundTrip | src/App.jsx:64-81 | setting a group's bench start and reading it back for that tab gives the value that was set, or none |
| Reconcile.LastWithId | src/App.jsx:102 | a `Map` built from a list finds an entry exactly when some element has the id, and it is one of them |
| Reconcile.LastWithIdIsLast | src/App.jsx:102 | the `Map` keeps the last element with a given id |
| Reconcile.PatchPlayer | src/App.jsx:127-146 | without an entry the player is unchanged; with one the injured flag is the entry's or the old flag, and the order is the entry's only when the groups match and the order is not null |
| Reconcile.GroupMax | src/App.jsx:119-125 | a group's maximum is at least 0, bounds every finite fresh order of that group, and is attained when positive |
| Reconcile.MaxOrderFoldIsGroupMax | src/App.jsx:119-125 | the loop over fresh players computes each group's maximum finite order |
| Reconcile.Normalize | src/App.jsx:149-157 | each player with a finite order is kept; each other player gets the next number after its group's running maximum |
| Reconcile.ReconcileTeam | src/App.jsx:101-161 | the team's other fields, the list length, and each player's other fields are kept; injured and order come from the ledger entry, else the snapshot, else the fetched value or the next free number |
| Reconcile.ReconcileTeams | src/App.jsx:101-161 | one reconciled team per fetched team, in order, each reconciled against the last saved team with its id and the ledger |
| ReconcileProperties.NewPlayerAppended | src/App.jsx:149-157 | a player with no usable order is numbered after every finite fresh order of its group |
| ReconcileProperties.AppendedIncreasing | src/App.jsx:153-155 | appended players of one group get strictly increasing orders in list order |
| ReconcileProperties.FirstAppendedFollowsMax | src/App.jsx:154 | the first appended player of a group gets that group's maximum plus one |
| ReconcileProperties.LedgerEntryWins | src/App.jsx:132 | when the ledger has an entry for a player, the snapshot does not affect the result |
| ReconcileProperties.GroupChangeGuard | src/App.jsx:141-143 | an entry recorded under another group never supplies the order |
| ReconcileProperties.AllRanked | src/App.jsx:148-157 | after reconciling, every player has a finite order |
| ReconcileProperties.NoPriorDataKeepsFetchedOrder | src/App.jsx:101-161 | with no snapshot and no ledger, a team whose orders are all finite comes back unchanged |
| ReconcileProperties.ReconcileKeepsIds | src/App.jsx:127 | reconciling keeps distinct player ids distinct |
| ReconcileProperties.ReconcileTeamIdempotent | src/App.jsx:101-161 | when the result's player ids are unique and every player carries a boolean injured flag, reconciling it against itself as the snapshot, with the same ledger, changes nothing |
| ReconcileProperties.ReconcileKeepsTeamIds | src/App.jsx:104 | distinct fetched team ids stay distinct |
| ReconcileProperties.ReconcileTeamsIdempotent | src/App.jsx:101-161 | reconciling the whole result list against itself changes nothing |
| Mutators.Renumber | src/App.jsx:509 | the dropped list keeps its players and their other fields, numbered 1..n in list order |
| Mutators.RenumberSorted | src/App.jsx:509 | the renumbered list is in order for the view's sort |
| Mutators.WriteOrderEdits | src/App.jsx:512-514 | each listed player gets an entry with the group and the order of the last listed player with that id, keeping its injured flag; all else is unchanged |
| Mutators.UpdateGroupOrder | src/App.jsx:508-525 | the team becomes the other groups' players followed by the renumbered list, and the ledger gets the order edits; other teams are unchanged |
| Mutators.UpdateGroupOrderShown | src/App.jsx:508-525 | after a reorder, the group's view is exactly the dropped list, numbered 1..n |
| Mutators.OrderSurvivesReconnect | src/App.jsx:511-514 | reconciling a re-fetched copy of the team against the written ledger gives each reordered player its new position |
| Mutators.TogglePlayerInjured | src/App.jsx:527-544 | only the first player with the id flips its flag, and the ledger records group and flag; with no such player nothing changes |
| Mutators.ToggleTwice | src/App.jsx:536 | toggling twice restores the flag as a boolean, and the ledger holds the restored value |
| Mutators.InjuredSurvivesReconnect | src/App.jsx:539-540 | reconciling a re-fetched copy of the team against the written ledger gives the player the toggled flag |
| AppViews.TeamAt | src/App.jsx:301 | a team exists exactly at an in-range index |
| AppViews.OfGroup | src/App.jsx:305-307 | the group's list holds exactly the team's players of that group |
| AppViews.PlayersByGroup | src/App.jsx:303-312 | there is one list per group; each is sorted by order and is a permutation of the team's players of that group |
| AppViews.PlayersByGroupMembers | src/App.jsx:303-312 | a player is in a group's list exactly when it is on the team with that group |
| AppViews.PlayersByGroupStable | src/App.jsx:309 | players with equal sort keys keep their fetched relative order in the view |
| AppViews.TabsFor | src/App.jsx:343-351 | the tabs are the four position tabs, DEF when wanted, TAXI when wanted, then PICKS and ROSTER, with no repeats |
| AppViews.VisibleTabs | src/App.jsx:340-352 | no team gives no tabs; DEF appears exactly when the DEF view is non-empty, and TAXI exactly when the league is not best ball |
| AppViews.ActiveTabFallback | src/App.jsx:501-506 | a tab that is not visible falls back to the first visible tab; a visible tab, or an empty tab list, keeps the current tab |
| AppViews.ActiveTabFallbackSettles | src/App.jsx:501-506 | with a team selected, a hidden tab falls back to QB, and running the effect again on its result changes nothing |
| AppViews.ComputeInitialUi | src/App.jsx:83-98 | the team index is the first saved team with the preferred id, else 0; the tab is the preferred one, else QB |
| SleeperLeague.CountStarters | src/data/sources/sleeper/sleeperAdapter.js:29-38 | no positions give no count; otherwise the count is the number of slots that are not bench, taxi or reserve, ignoring case (the length of the starter-slot filter) |
| SleeperLeague.CountWhereFilter | src/data/sources/sleeper/sleeperAdapter.js:29-38 | counting the slots that satisfy a test equals the length of the list filtered by that test |
| SleeperLeague.CountStartersAppend | src/data/sources/sleeper/sleeperAdapter.js:29-38 | the starters of two concatenated slot lists are the sum of the starters of each |
| SleeperLeague.CountStartersIgnoresCase | src/data/sources/sleeper/sleeperAdapter.js:33 | upper-casing the slot names does not change the count |
| SleeperLeague.QbPill | src/data/sources/sleeper/sleeperAdapter.js:129-132 | the pill is SF for superflex, else 2QB for two QB slots, else 1QB |
| SleeperLeague.PillAgreesWithValuation | src/data/sources/sleeper/sleeperAdapter.js:512 | the value lookup asks for two QBs exactly when the pill is not 1QB |
| SleeperLeague.TwoQbSlotsGiveTwoQbPill | src/data/sources/sleeper/sleeperAdapter.js:46-51 | two QB slots without a superflex slot give the 2QB pill |
| SleeperLeague.ToGroupFromPosition | src/data/sources/sleeper/sleeperAdapter.js:172-177 | a position maps to its upper-cased name exactly when that is one of the five position groups |
| SleeperLeague.ToGroupProperties | src/data/sources/sleeper/sleeperAdapter.js:172-177 | no position maps to TAXI, and case does not matter |
| SleeperLeague.RosterHasUser | src/data/sources/sleeper/sleeperAdapter.js:199-212 | a roster belongs to the user when the user is its owner or one of its co-owners |
| SleeperLeague.RookieRounds | src/data/sources/sleeper/sleeperAdapter.js:243-251 | the rookie rounds if 1..10, else the draft rounds if 1..10, else 5 |
| SleeperLeague.RoundToText | src/data/sources/sleeper/sleeperAdapter.js:233-239 | 1st, 2nd and 3rd for rounds 1-3, else the number followed by "th" |
| SleeperLeague.RoundToTextInjective | src/data/sources/sleeper/sleeperAdapter.js:233-239 | different rounds get different text |
| SleeperLeague.PadStart2 | src/data/sources/sleeper/sleeperAdapter.js:255 | the slot is left-padded with zeros to at least two characters |
| SleeperLeague.FormatSlotPickRoundTrip | src/data/sources/sleeper/sleeperAdapter.js:253-257 | a "round.slot" pick reads back as its round and slot |
| SleeperLeague.FormatFuturePick | src/data/sources/sleeper/sleeperAdapter.js:259-269 | an own pick is the round text alone; another team's pick adds that team's name; the two never coincide |
| SleeperPicks.Lookup | src/data/sources/sleeper/sleeperAdapter.js:294-317 | a pick's owner is found exactly when the table has an entry for the pick |
| SleeperPicks.Put | src/data/sources/sleeper/sleeperAdapter.js:312-316 | `Map.set`: the pick gets the new owner, other picks are unchanged, and a new pick goes to the end |
| SleeperPicks.Baseline | src/data/sources/sleeper/sleeperAdapter.js:294-300 | every own pick of the configured years and rounds is owned by the user, and nothing else is in the table |
| SleeperPicks.OverlayLookup | src/data/sources/sleeper/sleeperAdapter.js:302-317 | after the overlay, a pick's owner is the one in its last valid traded-pick record, else its baseline owner |
| SleeperPicks.InvalidPickIgnored | src/data/sources/sleeper/sleeperAdapter.js:305-310 | a record for another year, an out-of-range round, or an empty roster or owner id is skipped |
| SleeperPicks.OwnedKeysExact | src/data/sources/sleeper/sleeperAdapter.js:319-348 | the listed picks of a year are exactly those of that year the user owns, each listed once |
| SleeperPicks.PicksByYear | src/data/sources/sleeper/sleeperAdapter.js:280-349 | each configured year lists the formatted picks the user owns, in table order |
| SleeperPicks.PickOwnership | src/data/sources/sleeper/sleeperAdapter.js:280-349 | the user owns a pick exactly when its last valid record names the user, or it is an own pick in range with no valid record |
| SleeperRoster.DisplayName | src/data/sources/sleeper/sleeperAdapter.js:180-184 | the full name when present, "Unknown" when every name part is empty, and never the empty string |
| SleeperRoster.RowIdInjective | src/data/sources/sleeper/sleeperAdapter.js:187 | different catalogue players get different row ids |
| SleeperRoster.RowFor | src/data/sources/sleeper/sleeperAdapter.js:179-197 | a row carries the prefixed id, the group as group and position, the order, no note, and not injured |
| SleeperRoster.StarterSlotsFromStarters | src/data/sources/sleeper/sleeperAdapter.js:458-465 | the starter rows are the starter ids that are present and in a position group, in starter order |
| SleeperRoster.StarterNumbering | src/data/sources/sleeper/sleeperAdapter.js:463-464 | each starter row is numbered by its rank within its group among the starters |
| SleeperRoster.TaxiSlotsFromTaxi | src/data/sources/sleeper/sleeperAdapter.js:468-474 | the taxi rows are the taxi ids found in the catalogue, numbered 1..n |
| SleeperRoster.BenchNumbering | src/data/sources/sleeper/sleeperAdapter.js:478-493 | each bench row continues its group's count from the starter counts |
| SleeperRoster.BenchNoRepeats | src/data/sources/sleeper/sleeperAdapter.js:489-494 | no bench row repeats a row id already shown |
| SleeperRoster.BenchComplete | src/data/sources/sleeper/sleeperAdapter.js:480-495 | every eligible roster player is shown, either earlier or on the bench |
| SleeperRoster.StarterPass | src/data/sources/sleeper/sleeperAdapter.js:457-465 | the starter loop builds the starter rows and leaves each group's counter at its starter count |
| SleeperRoster.TaxiPass | src/data/sources/sleeper/sleeperAdapter.js:468-474 | the taxi loop builds the taxi rows |
| SleeperRoster.BenchPass | src/data/sources/sleeper/sleeperAdapter.js:477-495 | the bench loop builds the bench rows |
| SleeperRoster.BuildRows | src/data/sources/sleeper/sleeperAdapter.js:451-495 | the rows are the starter, taxi and bench rows in that order, each rendered from the catalogue |
| ParseCsv.FirstMatch | src/services/parseCsv.js:23 | a label matches exactly when some group name followed by digits fits it, and the reported group is one that fits |
| ParseCsv.ParseLabelCases | src/services/parseCsv.js:14-30 | as written: empty gives none, exactly "TX" gives TAXI order 999, group plus digits gives that group and number, anything else gives none |
| ParseCsv.ParseLabelFixedCases | src/services/templateCsv.js:19 | corrected: as above, but "TX" followed by digits is also the taxi squad |
| ParseCsv.ParseLabelFixedAgrees | src/services/parseCsv.js:19-21 | the corrected parser differs from the as-written one only on numbered taxi labels, which the as-written one rejects |
| ParseCsv.NumberedTaxiLabelRejected | src/services/parseCsv.js:19-24 | as written, "TX1", "TX2" and so on are rejected; the corrected parser reads them as the taxi squad |
| ParseCsv.GroupLabelRoundTrip | src/services/parseCsv.js:23-29 | a group name followed by a number parses as that group and number |
| ParseCsv.SplitPicksTrimmed | src/services/parseCsv.js:32-38 | every pick from a cell is non-empty and trimmed |
| ParseCsv.SplitPicksNoSep | src/services/parseCsv.js:35 | no pick contains a separator |
| ParseCsv.SplitPicksJoin | src/services/parseCsv.js:32-38 | splitting a comma-joined list of clean picks gives the list back |
| ParseCsv.RowPlayersLength | src/services/parseCsv.js:61-66 | one player per row with a recognised position and a non-empty name |
| ParseCsv.RowPlayersFromRows | src/services/parseCsv.js:61-80 | the i-th imported player is built from the i-th accepted row and gets the i-th supplied id, and a taxi player's number counts the taxi players before it plus one |
| ParseCsv.AcceptedRowsFilter | src/services/parseCsv.js:61-66 | the accepted rows are exactly what filtering the rows on "label parses and name not blank" keeps, in order |
| ParseCsv.RowPlayerFields | src/services/parseCsv.js:65-80 | an imported player has a shown group, a non-empty name and no injured flag; it is on the taxi squad exactly for a taxi label, and then its order is the taxi counter |
| ParseCsv.VisitRow | src/services/parseCsv.js:55-81 | one loop step appends the row's player, and the taxi counter stays one past the taxi players so far |
| ParseCsv.ReadRows | src/services/parseCsv.js:55-81 | the loop collects the row players in order and each year's picks from every row |
| ParseCsv.ParseDepthChart | src/services/parseCsv.js:40-103 | one team holding the row players sorted stably by the template key (a sorted permutation), and the three pick years each with every row's picks |
| TemplateCsv.AddSlots | src/services/templateCsv.js:7-12 | appends one blank row per label prefix1..prefixN |
| TemplateCsv.TemplateCsv | src/services/templateCsv.js:1-26 | the template is the header, then the hint row, then one blank row per slot label, joined by newlines |
| TemplateCsv.SlotCount | src/services/templateCsv.js:14-19 | there are 41 slot rows |
| TemplateCsv.SlotLabelParses | src/services/templateCsv.js:10 | every slot label is a prefix followed by its number; it is alphanumeric and reads back, through the corrected parser, as its group and number, taxi labels as TAXI 999; the as-written parser rejects exactly the taxi labels |
| TemplateCsv.FilledTaxiRowDropped | src/services/templateCsv.js:19 | as written, a taxi row of the template with a name filled in is not imported |
| TemplateCsv.HeaderSplit | src/services/templateCsv.js:2 | the header splits on commas into exactly the nine column names and holds no line break |
| TemplateCsv.HintSplit | src/services/templateCsv.js:3 | the hint row splits on commas into its nine cells and holds no line break |
| TemplateCsv.HintLabel | src/services/templateCsv.js:2-3 | the header's third column is Pos, and the hint row's position cell reads as the first quarterback slot |
| TemplateCsv.SlotRowFields | src/services/templateCsv.js:10 | a slot row splits into nine cells with the label third and no line break |
| TemplateCsv.TemplateLines | src/services/templateCsv.js:25 | the template's lines are the header and the 42 rows, and each slot row's cells are its label's cells |
| MergeTeams.MergeTeams | src/data/mergeTeams.js:2-11 | one filled team per truthy entry of the one-level flattening |
| MergeTeams.FillKeepsFields | src/data/mergeTeams.js:10 | a filled team has the team's own fields, unchanged, plus the three default fields |
| MergeTeams.FillDefaults | src/data/mergeTeams.js:7-9 | a missing field gets the three empty pick years, the empty settings text, or the empty player list |
| MergeTeams.FillNoPadding | src/data/mergeTeams.js:7-10 | a picks object without some year is not padded, and a non-array players value passes through |
| MergeTeams.FillIdempotent | src/data/mergeTeams.js:6-11 | filling a filled team changes nothing |
| MergeTeams.MergeTeamsAppend | src/data/mergeTeams.js:3 | merging concatenated arguments concatenates the results, keeping order |
| MergeTeams.MergeTeamsDropsFalsy | src/data/mergeTeams.js:3 | a falsy argument contributes nothing |
| MergeTeams.MergeTeamsOfList | src/data/mergeTeams.js:2-11 | one list of team objects gives one filled team per team, in order |
| MergeTeams.MergeTeamsSpreadArgs | src/data/mergeTeams.js:3 | passing the teams as one array or as separate arguments gives the same result |
| MergeTeams.MergeTeamsIdempotent | src/data/mergeTeams.js:2-11 | merging the merged teams again changes nothing |
| FantasyCalc.Settings | src/data/sources/fantasycalc/fantasycalc.js:7-10 | no params means not dynasty with 1 QB, 12 teams and PPR 1; otherwise each missing number defaults the same way |
| FantasyCalc.MakeKeyRoundTrip | src/data/sources/fantasycalc/fantasycalc.js:6-12 | the cache key reads back as the settings it was made from |
| FantasyCalc.MakeKeyInjective | src/data/sources/fantasycalc/fantasycalc.js:6-12 | two parameter sets share a key exactly when their settings agree |
| FantasyCalc.MakeKeyDefaults | src/data/sources/fantasycalc/fantasycalc.js:6-12 | with no counts given the key is "dyn\|qbs=1\|teams=12\|ppr=1" for a dynasty league and "red\|qbs=1\|teams=12\|ppr=1" otherwise, including when the parameters are missing altogether |
| FantasyCalc.GetCache | src/data/sources/fantasycalc/fantasycalc.js:29-40 | cached data is returned exactly when it has a non-zero timestamp and data and is at most a day old |
| FantasyCalc.GetUpdatedAt | src/data/sources/fantasycalc/fantasycalc.js:14-27 | the update time is the stored non-zero timestamp, else none |
| FantasyCalc.CacheRoundTrip | src/data/sources/fantasycalc/fantasycalc.js:42-49 | data written at a non-zero time is read back until a day has passed, and the update time is the write time |
| FantasyCalc.CacheFreshnessMonotone | src/data/sources/fantasycalc/fantasycalc.js:35 | an entry fresh at a later time was fresh earlier, and an expired entry stays expired |
| FantasyCalc.CacheImpliesUpdatedAt | src/data/sources/fantasycalc/fantasycalc.js:14-40 | whenever cached data is served, the update time is its timestamp |
| FantasyCalc.BuildValues | src/data/sources/fantasycalc/fantasycalc.js:74-81 | the loop builds the reference value map from the body, and an absent or non-array body gives the empty map |
| FantasyCalc.ValuesOfLastWins | src/data/sources/fantasycalc/fantasycalc.js:74-81 | a player has a value exactly when some row with its id has a finite value, and the value is the last such row's |
| FantasyCalc.NullValueRecordsZero | src/data/sources/fantasycalc/fantasycalc.js:77-80 | a null value records 0, a missing value is skipped, and a row without an id is skipped |
| FantasyCalc.GetValues | src/data/sources/fantasycalc/fantasycalc.js:54-85 | fresh cached data is served unchanged; else a failed fetch gives nothing; else the fetched map is returned and cached at the current time |
| PlayerList.ArrayMoveFacts | src/components/PlayerList.jsx:334 | the moved player lands at the target index, the others keep their order, and nothing is lost |
| PlayerList.ArrayMoveInverse | src/components/PlayerList.jsx:334 | moving back undoes a move |
| PlayerList.DragEnd | src/components/PlayerList.jsx:328-336 | no drop target, or a drop on the dragged row itself, reports no reorder |
| PlayerList.DragEndMoves | src/components/PlayerList.jsx:328-336 | a reported reorder is a permutation with the dragged player at the target's old index and the rest in order |
| PlayerList.DragEndUndo | src/components/PlayerList.jsx:328-336 | with unique ids, dragging the player back onto whoever now holds its old index restores the list |
| PlayerList.ClampBenchStart | src/components/PlayerList.jsx:338-341 | a number is clamped into 0..length, and a non-number gives none |
| PlayerList.Render | src/components/PlayerList.jsx:355-366 | one row per player, in order |
| PlayerList.RenderBenchSuffix | src/components/PlayerList.jsx:106-110 | the bench rows are exactly those from the clamped start on, a suffix of the list |
| PlayerList.RenderDivider | src/components/PlayerList.jsx:362-364 | at most one divider, above the first bench row, shown exactly when the start is a row index |
| PlayerList.RenderActions | src/components/PlayerList.jsx:247-301 | the bench-start row offers Clear, and every other row offers Bench from its own index |
| PlayerList.SlotLabelParses | src/components/PlayerList.jsx:67 | a row label reads back as its group and number; as written, taxi labels are rejected |
| MacroRoster.GroupTotal | src/components/MacroRosterView.jsx:19-33 | no map or no players gives no total; otherwise a total exists exactly when some player has a numeric value, and it is their sum |
| MacroRoster.SumCountedAppend | src/components/MacroRosterView.jsx:24-31 | the total over two lists is the sum of their totals |
| MacroRoster.SumCountedSwap | src/components/MacroRosterView.jsx:24-31 | the total does not depend on player order |
| MacroRoster.MacroGroups | src/components/MacroRosterView.jsx:266-278 | the cards are QB, RB, WR, TE, then DEF exactly when it has players, then TAXI exactly when it has players |
| MacroRoster.MacroGroupsAndTabs | src/components/MacroRosterView.jsx:266-278 | the cards are the group part of the tab list, built with TAXI shown exactly when it has players |
| MacroRoster.MacroGroupsWithinTabs | src/components/MacroRosterView.jsx:268 | every card has a tab when the league shows taxi; in best ball a non-empty taxi squad gets a card but no tab |

## Left out

- SleeperPicks.InvalidPickIgnored: a traded-pick record with no `owner_id` is not skipped by the source, since `String(undefined)` is the non-empty text "undefined" and becomes the owner; the model takes owner ids as strings and does not represent a missing one.

- SleeperPicks.PicksByYear: the source keys the pick table by the text `year-round-original` and reads the original owner back with `split("-")[2]` (sleeperAdapter.js:327-330), which would cut an owner id containing "-"; the model keys picks by a record, which agrees for Sleeper's numeric roster ids.

- Browser storage, React state and effects, toasts, theming, drag sensors and
  layout are left out. Storage is a map from key to decoded value, and JSON
  encoding is idealised: what is written is read back. `Unparseable` stands
  for stored text that does not parse.
- The clock, `crypto.randomUUID`, the HTTP calls and the Sleeper API client
  are parameters: `now`, an id function, and the response bodies.
- The Papa Parse tokenizer is left out. The CSV import starts from rows
  already split into cells, and its blank-line skipping is not modelled.
- Numbers are integers. Fractional orders, rounds, PPR values and value
  scaling (`scaleFantasyCalcValue` and `valuesByPlayerId` in
  src/App.jsx:321-338) are left out, because they need floating point.
- Strings are sequences of code units. Trimming covers ASCII whitespace plus
  NBSP and BOM. Upper-casing covers ASCII only. `localeCompare` is code-unit
  order.
- The other settings pills (team count, PPR text, best ball), `isBestBall`,
  `buildTeamName` and the league and user selection loop of
  `loadTeamsFromSleeper` are left out. They are display text or network
  orchestration that feed nothing the model checks.
- `downloadCsv`, `SettingsPanel`, `PicksView`, and the player catalogue
  cache are not part of this model.
- A player whose id is `__benchStarts` is not modelled. The ledger keeps
  bench markers in a separate field, while the source keeps them under that
  reserved player key.
- The source does not check that a reordered list holds the group's players.
  The model follows the code and does not check either.
- MergeTeams.OwnFields: spreading a string or an array copies index keys in
  JavaScript. The model copies nothing from non-objects, because teams are
  objects or falsy in every caller.
- PlayerList.DragEnd: an id not found in the list is treated as no reorder.
  JavaScript's `arrayMove` with index -1 would move from the end. The
  draggable ids are always those of the rendered list.
- PlayerList.ClampBenchStart: a NaN bench start is not modelled. The stored
  value is an integer or absent.
- FantasyCalc.Settings: the numeric parameters are integers. `Number` of a
  non-numeric string, which would give NaN in the key, is not modelled.
- Mutators.WriteOrderEdits: for a listed player with no order, the written
  entry's order is not stated. Renumbered lists always carry orders.
- SleeperRoster.DisplayName: name parts that are not strings are not
  modelled. Catalogue names are strings or absent.

## Findings

| source | as written | input that shows it | evidently intended | confidence | as-written member | corrected member |
|---|---|---|---|---|---|---|
| src/services/parseCsv.js:19-24 | the position parser accepts exactly "TX" for the taxi squad, but the template (src/services/templateCsv.js:19) writes taxi rows as TX1..TX5 | a template row `,,TX1,Jane Doe,,,,,` is silently dropped on import | numbered taxi labels "TX<digits>" parse as the taxi squad (order 999, then numbered by the taxi counter) | not executed | ParseCsv.NumberedTaxiLabelRejected | ParseCsv.ParseLabelFixedCases |
