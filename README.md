# Handball tournament scoreboard, modelled in Dafny

The scoreboard is a small Next.js application for a one-day U11/U13 youth
handball tournament. Three page components carry its logic:

- **the administration page** (`src/app/admin/page.tsx`):
  - generates the day's fixtures: a morning round robin per category on two fields with a kick-off every ten minutes, then one afternoon fixture per category;
  - splits the fetched fixtures into a morning tab and an afternoon tab;
  - writes scores back, field by field.
- **the public page** (`src/app/public/page.tsx`):
  - groups the fetched fixtures by category;
  - computes a league table per category;
  - deals a shared 15-minute timetable out to the two categories' fixtures.
- **the original tournament page** (`src/app/page.tsx`):
  - posts one fixture per pairing of each four-team roster;
  - lets a score be typed into any fixture;
  - shows the same league table.

The model keeps the pages' own shape:
- **Loops** become methods with loops and invariants, each proved equal to a specification function:
  - the nested fixture loops;
  - the clock;
  - the slot-dealing loop;
  - the `forEach` that feeds the league table;
  - the grouping by category.
- **Page state** becomes a class whose methods change its sequences: `AdminBoard`, `PublicBoard` and `ScoreBoard`.
- **Pure helpers** become functions: the logo paths, the phase filter and the half-time total.

Lemmas then state what the pages promise about those functions.

Modules:
- `Common`: `Option` for nullable fields and `filter`.
- `Clock`: minutes since midnight and the `HHhMM` label.
- `Text`: `toLowerCase`, `split`, `join` and the `/ .*/` replacement.
- `RoundRobin`: the i < j pair enumeration.
- `Fixtures`: the fixture record and the grouping by category.
- `Ranking`: `calculateRanking`. It is identical in both pages that have it, so it is modelled once.
- `RankingLaws`: the league-table lemmas.
- `AdminPage`, `PublicPage` and `TournamentPage`.

Time is an integer number of minutes since midnight, not a `Date`. A label shows `(t / 60) % 24` hours, as a `Date` that has rolled past midnight would.

`Array.prototype.sort` is modelled as a stable insertion sort with the page's comparator. ECMAScript 2019 and later require `sort` to be stable. `Object.entries` is modelled as roster order, which is the order the table's keys were inserted.

## Model

| member | source | states |
|---|---|---|
| Clock.LabelShape | src/app/admin/page.tsx:38-46 | every kick-off label is two digits, the letter `h`, then two digits |
| Clock.ParseLabelOfLabel | src/app/admin/page.tsx:38-39 | reading a label back gives its time of day, so minutes past 59 have carried into the hour |
| Clock.LabelCarry | src/app/admin/page.tsx:55 | ten minutes after 10h50 is labelled 11h00 |
| Clock.LabelInjective | src/app/public/page.tsx:29-31 | two labels are equal only for the same time of day |
| Clock.LabelOrder | src/app/public/page.tsx:29-31 | within one day, string order of labels (JavaScript `<`) is time order, in both directions |
| Text.IndexOf | src/app/public/page.tsx:17 | None exactly when the character is absent, otherwise the position of its first occurrence |
| Text.LowerFacts | src/app/admin/page.tsx:21 | lower-casing twice equals lower-casing once, and spaces stay where they were |
| Text.JoinSplit | src/app/public/page.tsx:17-18 | splitting at spaces and joining with `-` replaces every space by `-` and changes nothing else |
| Text.JoinSplitRoundTrip | src/app/public/page.tsx:17-18 | splitting and joining with the same separator gives the string back |
| Text.DotStarLength | src/app/admin/page.tsx:21 | a greedy `.*` consumes exactly the characters before the first line terminator |
| Text.DeleteFromFirstSpaceOneLine | src/app/admin/page.tsx:21 | on a one-line string, deleting `/ .*/` leaves exactly the text before the first space, which holds no space |
| RoundRobin.PairsCount | src/app/admin/page.tsx:36-37 | an n-team roster gives n(n-1)/2 pairings, and none below two teams |
| RoundRobin.PairsEnumeration | src/app/admin/page.tsx:36-37 | the nested loops visit every pair i < j < n exactly once, in lexicographic order, and nothing else |
| RoundRobin.PairsOfFour | src/app/page.tsx:62-63 | for four teams the order is (0,1), (0,2), (0,3), (1,2), (1,3), (2,3) |
| Fixtures.GroupByCategory | src/app/public/page.tsx:49-53 | the push loop leaves each category's records in fetched order; None when a record's category is neither U11 nor U13, because `push` on undefined throws before any state is set |
| Fixtures.GroupedPartition | src/app/page.tsx:32-35 | a grouping that succeeds loses and duplicates nothing: the two lists together are the fetched records, each in its own category's list |
| Ranking.Award | src/app/public/page.tsx:79-88 | a side earns 3 points exactly when it wins, 1 exactly when it loses, 2 exactly on a draw |
| Ranking.Step | src/app/public/page.tsx:71-89 | one fixture never adds or removes a team from the table |
| Ranking.Entries | src/app/public/page.tsx:91 | `Object.entries` gives one row per roster team, in roster order |
| Ranking.RecordResult | src/app/public/page.tsx:72-88 | the callback's six in-place increments equal `Step`, including a fixture of a team against itself and the throw on a team outside the table |
| Ranking.CalculateRanking | src/app/public/page.tsx:65-95 | the initialisation loop, the `forEach` and the sort together compute `Standings` |
| RankingLaws.SortStandingsSorted | src/app/public/page.tsx:91-94 | the sorted rows are in descending points, then descending goal difference |
| RankingLaws.SortStandingsPermutes | src/app/public/page.tsx:91-94 | sorting is a permutation of the rows and of the team column |
| RankingLaws.SortStandingsStable | src/app/page.tsx:128-131 | for every pair of keys, the rows with those keys keep their input order |
| RankingLaws.SortStandingsEqualKeys | src/app/page.tsx:128-131 | rows that all tie are left exactly as they were |
| RankingLaws.StepTotals | src/app/public/page.tsx:73-88 | a scored fixture adds 4 points and 2 games played to the table, and leaves the goal-difference total unchanged |
| RankingLaws.AccumulateFails | src/app/public/page.tsx:74-75 | the `forEach` throws exactly when some scored fixture names a team absent from the table |
| RankingLaws.AccumulateIgnoresUnscored | src/app/public/page.tsx:72 | fixtures missing a score leave the table as it was |
| RankingLaws.AccumulateRow | src/app/public/page.tsx:74-75 | a team's games played grow by the number of scored sides it took; a team with none keeps its row |
| RankingLaws.RankingFails | src/app/page.tsx:111-112 | the table fails exactly when a scored fixture has a team outside the roster |
| RankingLaws.RankingCoversRoster | src/app/public/page.tsx:66-69 | the table has one row per roster team: its team column is a permutation of the roster |
| RankingLaws.RankingSorted | src/app/public/page.tsx:91-94 | every earlier row has more points, or equal points and at least the goal difference |
| RankingLaws.RankingStable | src/app/page.tsx:128-131 | teams level on both keys appear in roster order |
| RankingLaws.RankingRows | src/app/page.tsx:104-112 | every row is a roster team whose games played count its scored sides; a team with none shows 0/0/0 |
| RankingLaws.RankingTotals | src/app/public/page.tsx:73-88 | for a roster of distinct teams, the columns total 4 points and 2 games per scored fixture, and goal difference totals 0 |
| RankingLaws.RankingIgnoresUnscored | src/app/page.tsx:109 | dropping the fixtures without both scores does not change the table |
| RankingLaws.RankingWithoutResults | src/app/page.tsx:103-106 | with no scored fixture every roster team shows 0/0/0, in roster order |
| RankingLaws.WinExample | src/app/public/page.tsx:79-81 | a 3-1 win gives the winner 3 points and +2, the loser 1 point and -2 |
| RankingLaws.DrawExample | src/app/public/page.tsx:85-88 | a 2-2 draw gives each side 2 points; tied teams stay in roster order |
| RankingLaws.HalfScoredExample | src/app/public/page.tsx:72 | a fixture with one score missing counts for nothing |
| AdminPage.LogoSrcFirstWord | src/app/admin/page.tsx:20-22 | for a one-line name the path is `/logos/` plus the lower-cased first word plus `.png`, and that word holds no space |
| AdminPage.FirstWord | src/app/admin/page.tsx:21 | the first word is the whole text when it has no space, otherwise the text before the first space |
| AdminPage.LogoSameClub | src/app/admin/page.tsx:20-22 | both squads of a club, and the club's bare name, get the same logo |
| AdminPage.LogoOfForgesSquad | src/app/admin/page.tsx:20-22 | every one-line name that starts with `Forges `, e.g. "Forges 1", gets `/logos/forges.png` |
| AdminPage.ClockStep | src/app/admin/page.tsx:52-56 | the clock moves on by ten minutes after each second fixture and stays put after the others |
| AdminPage.ScheduleRow | src/app/admin/page.tsx:37-57 | one pass of the inner loop emits team i against each later team, keeping fixture k on field `Field(k)` at `KickOff(k)` |
| AdminPage.GenerateMorningMatches | src/app/admin/page.tsx:28-60 | the generator returns `MorningFixtures`: fixture k is pairing k, on field 1 or 2 by parity, at 10h00 + 10·⌊k/2⌋ |
| AdminPage.MorningCount | src/app/admin/page.tsx:36-37 | n teams give n(n-1)/2 morning fixtures, six for each roster |
| AdminPage.MorningFixturesWellFormed | src/app/admin/page.tsx:40-49 | each morning fixture has the given category, phase `matin`, no scores, and two roster positions i < j |
| AdminPage.MorningEveryPairMeets | src/app/admin/page.tsx:36-43 | every two roster positions meet in the morning, the earlier one listed first |
| AdminPage.MorningNoRematch | src/app/admin/page.tsx:36-43 | with distinct names no two fixtures pair the same two teams, in either order, and no team meets itself |
| AdminPage.MorningTimetable | src/app/admin/page.tsx:31-56 | fields alternate 1, 2; two fixtures share a kick-off exactly when they are fixtures 2m and 2m+1; labels increase from one kick-off to the next; no two fixtures share a field and a time |
| AdminPage.KickOffLabels | src/app/admin/page.tsx:38-39 | among the first 153 fixtures, two share a label exactly when they are fixtures 2m and 2m+1; labels of later pairs come later in string order |
| AdminPage.MorningFirstTeamDoubleBooked | src/app/admin/page.tsx:36-56 | with three or more teams, the first team plays on both fields at 10h00 |
| AdminPage.MorningU11Example | src/app/admin/page.tsx:28-60 | the U11 morning runs 10h00, 10h00, 10h10, 10h10, 10h20, 10h20 on fields 1, 2, 1, 2, 1, 2, from Forges 1 v Forges 2 to Foucarmont 1 v Foucarmont 2 |
| AdminPage.PartitionByPhaseFacts | src/app/admin/page.tsx:103-104 | the two tabs together hold each record of a known phase once, each in its own tab; records of other phases appear in neither |
| AdminPage.AllMatchesShape | src/app/admin/page.tsx:121-125 | a confirmed generation posts 6 + 6 + 2 unscored bodies; an unconfirmed one posts none |
| AdminPage.PhaseSplit | src/app/admin/page.tsx:103-104 | morning records followed by afternoon records split back into exactly those two runs |
| AdminPage.AllMatchesPhases | src/app/admin/page.tsx:121-134 | fetched back, the generated bodies put the twelve round-robin fixtures in the morning tab and the two others in the afternoon tab |
| AdminPage.GenerateAllMatches | src/app/admin/page.tsx:115-132 | the store is emptied exactly when the user confirms, and then the morning U11, morning U13 and afternoon bodies are posted in that order |
| AdminPage.FindById | src/app/admin/page.tsx:139 | `find` gives None exactly when no record has the id, otherwise the first record that has it |
| AdminPage.AfternoonTotalAsWrittenDisagrees | src/app/admin/page.tsx:156 | the stored total as written equals the displayed sum exactly when the first half is empty or the second is empty or 0 |
| AdminPage.AfternoonTotalCounterexample | src/app/admin/page.tsx:156 | halves of 3 and 4 store 3 while the tab shows 7 |
| AdminPage.AfternoonTotal | src/app/admin/page.tsx:273 | the corrected total is the displayed sum: both halves added, with an empty half counting 0 |
| AdminPage.AfternoonTotalMatchesDisplay | src/app/admin/page.tsx:154-156 | after a half is entered, the corrected total is the entered value plus the other half, an empty other half counting 0 |
| AdminPage.AdminBoard.constructor | src/app/admin/page.tsx:94-95 | both tabs start empty |
| AdminPage.AdminBoard.ApplyFetch | src/app/admin/page.tsx:103-104 | a fetch sets the morning tab to the `matin` records and the afternoon tab to the `apresmidi` records, in fetched order |
| AdminPage.AdminBoard.GenerateAll | src/app/admin/page.tsx:115-134 | a confirmed generation followed by its fetch leaves the twelve round-robin fixtures in the morning tab and the two afternoon fixtures in the other; an unconfirmed one changes nothing |
| AdminPage.AdminBoard.ClearDatabase | src/app/admin/page.tsx:187-191 | a confirmed clear empties both tabs; an unconfirmed one changes nothing |
| AdminPage.AdminBoard.UpdateScoreMatin | src/app/admin/page.tsx:138-148 | an unknown id changes nothing and posts nothing; otherwise the first record with that id gets the score, is posted, and nothing else changes |
| AdminPage.AdminBoard.UpdateScoreAprem | src/app/admin/page.tsx:151-163 | as above for a half-time field, with `score1` set to the corrected total |
| PublicPage.RosterDistinct | src/app/public/page.tsx:8-11 | each category's roster has three distinct names |
| PublicPage.RosterInitial | src/app/public/page.tsx:8-11 | every roster name starts with `U`, the category's initial |
| PublicPage.ForeignTeamFailsTable | src/app/public/page.tsx:65-77 | one scored fixture whose first team does not start with `U`, as the administration page's `Forges 1` does not, makes the table fail |
| PublicPage.LogoSrcClub | src/app/public/page.tsx:15-20 | the path holds the text after the first space, with spaces turned into `-`, lower-cased; a name without a space gives `/logos/.png` |
| PublicPage.LogoSrcOfRosterName | src/app/public/page.tsx:15-20 | a one-word prefix and a one-word club give `/logos/` plus the lower-cased club plus `.png` |
| PublicPage.LogoOfForges | src/app/public/page.tsx:15-20 | "U11 Forges" and every other one-word prefix before Forges give `/logos/forges.png` |
| PublicPage.Schedule | src/app/public/page.tsx:23-38 | the timetable for n fixtures has n labels |
| PublicPage.GenerateMatchSchedule | src/app/public/page.tsx:23-38 | the loop produces label k = 9h30 + 15k minutes for every k < n |
| PublicPage.ScheduleIncreasing | src/app/public/page.tsx:28-35 | label k reads back as 9h30 + 15k (modulo a day); up to 58 slots the labels strictly increase |
| PublicPage.CountStep | src/app/public/page.tsx:108-114 | a category's counter moves on exactly at the slots it receives |
| PublicPage.SlotsOfLength | src/app/public/page.tsx:106-115 | as written, U11 holds min(⌈k/2⌉, n11) of the first k slots, and U13 the rest, up to n13 |
| PublicPage.SlotsOfCover | src/app/public/page.tsx:106-115 | U11, U13 and the unused slots together hold k of the first k slots |
| PublicPage.SlotsOfPartition | src/app/public/page.tsx:106-115 | each of the first k slots goes to exactly one of U11, U13 and nobody: the three lists together are those slots, counted with multiplicity |
| PublicPage.DealAsWrittenPartition | src/app/public/page.tsx:106-115 | dealing the whole timetable as written, each slot goes to exactly one of U11, U13 and nobody |
| PublicPage.SlotsOfFrom | src/app/public/page.tsx:106-115 | every label a category receives comes from the timetable's first k slots |
| PublicPage.SlotsOfIncreasing | src/app/public/page.tsx:106-115 | each category's labels are in strictly increasing timetable order |
| PublicPage.DealSlots | src/app/public/page.tsx:100-115 | the loop as written gives each category the slots `SlotsOf` assigns it |
| PublicPage.DealAsWrittenCounts | src/app/public/page.tsx:106-115 | as written, U13 always receives all its slots; U11 receives all its slots exactly when n11 ≤ n13 + 1 |
| PublicPage.DealAsWrittenCounterexample | src/app/public/page.tsx:106-115 | two U11 fixtures and no U13 fixture leave the second U11 fixture without a kick-off |
| PublicPage.SlotOwnerCorrected | src/app/public/page.tsx:108-114 | with the fallback, a slot goes unused only when both categories are full |
| PublicPage.DealCorrectedLengths | src/app/public/page.tsx:106-115 | corrected, each of the first n11 + n13 slots goes to a category, and neither category gets more than its fixture count |
| PublicPage.DealCorrectedFacts | src/app/public/page.tsx:106-115 | corrected, each of the first k slots goes to exactly one category, neither past its count, as a multiset partition of those slots |
| PublicPage.DealCorrectedComplete | src/app/public/page.tsx:170 | corrected, every fixture of both categories gets a kick-off and every slot is used |
| PublicPage.DealCorrectedIncreasing | src/app/public/page.tsx:106-115 | corrected, each category's labels come from the timetable and strictly increase |
| PublicPage.OwnerAgrees | src/app/public/page.tsx:108-114 | when n11 ≤ n13 + 1 the corrected and as-written owners of each slot agree |
| PublicPage.DealCorrectedAgrees | src/app/public/page.tsx:106-115 | when U11 has at most one fixture more than U13, the correction deals exactly as the source does |
| PublicPage.DealSlotsCorrected | src/app/public/page.tsx:100-115 | the loop with the fallback branch computes `DealCorrected` |
| PublicPage.PublicBoard.constructor | src/app/public/page.tsx:41 | both categories start empty |
| PublicPage.PublicBoard.FetchData | src/app/public/page.tsx:44-57 | a fetch replaces the state with the records grouped by category, or leaves it unchanged when the grouping throws |
| PublicPage.PublicBoard.CalculateRanking | src/app/public/page.tsx:65-95 | the table shown for a category is `Standings` of its fixtures over its roster |
| PublicPage.PublicBoard.KickOffs | src/app/public/page.tsx:97-115 | the labels shown are the corrected dealing of the 9h30 timetable: one per fixture, the slots used once each |
| TournamentPage.TeamsDistinct | src/app/page.tsx:9-12 | each category has four distinct team names |
| TournamentPage.PostRow | src/app/page.tsx:63-84 | one pass of the inner loop posts team i against each later team |
| TournamentPage.PostRoundRobin | src/app/page.tsx:61-85 | the nested loops post one unscored body per pairing of the roster, in loop order |
| TournamentPage.GenerateMatches | src/app/page.tsx:59-86 | the category loop posts U11's round robin and then U13's |
| TournamentPage.CategorySize | src/app/page.tsx:62-63 | each category's four-team roster gives six bodies |
| TournamentPage.GeneratedShape | src/app/page.tsx:60-74 | twelve bodies in all: six for U11, then six for U13 |
| TournamentPage.RoundRobinCovers | src/app/page.tsx:62-74 | each body is an unscored fixture of the category between roster positions i < j, and every two positions meet |
| TournamentPage.RoundRobinNoRematch | src/app/page.tsx:62-71 | with distinct names no two posted bodies pair the same two teams, in either order, and no team meets itself |
| TournamentPage.GroupedConcat | src/app/page.tsx:32-35 | U11 records followed by U13 records group back into those two runs |
| TournamentPage.FetchGenerated | src/app/page.tsx:32-35 | fetched back, the generated bodies give each category its own six fixtures |
| TournamentPage.RoundRobinOnRoster | src/app/page.tsx:46-49 | the generated fixtures name roster teams only, and entering a score keeps that so |
| TournamentPage.RankingDefinedOnRoster | src/app/page.tsx:108-112 | over fixtures between roster teams the table never throws |
| TournamentPage.FreshTable | src/app/page.tsx:103-106 | right after generation every team shows 0/0/0, in roster order |
| TournamentPage.ScoreBoard.constructor | src/app/page.tsx:25 | both categories start empty |
| TournamentPage.ScoreBoard.FetchData | src/app/page.tsx:27-40 | a fetch replaces the state with the records grouped by category, or leaves it unchanged when the grouping throws |
| TournamentPage.ScoreBoard.UpdateScore | src/app/page.tsx:46-57 | only field `team` of the fixture at `index` in the category changes, and that fixture is posted; the other category is unchanged; an index with no fixture changes nothing and posts nothing |
| TournamentPage.ScoreBoard.ClearDatabase | src/app/page.tsx:91-100 | a confirmed clear empties both categories; an unconfirmed one changes nothing |
| TournamentPage.ScoreBoard.CalculateRanking | src/app/page.tsx:102-132 | the table shown for a category is `Standings` of its fixtures over its four-team roster |

## Left out

- HTTP and persistence are not modelled:
  - `fetch` and the `/api/scores` route are left out;
  - a fetch is modelled by the list it returns, and a POST by the body it sends;
  - `src/app/api/scores/route.ts` is not part of this model, so neither is the upsert on (categorie, equipe1, equipe2) that it performs;
  - neither is the subset of fields it persists.
- `AdminPage.AdminBoard.GenerateAll` assumes the store returns, after the DELETE, exactly the bodies posted.
- `TournamentPage.FetchGenerated` assumes the same.
- React rendering, hooks and the 10-second `setInterval` refresh of the public page are left out.
- The user's answer to `confirm` is a `bool` parameter.
- `alert`, `console.error`, `localStorage` and the logout handler are left out.
- `src/app/login/page.tsx`, `src/app/head.tsx` and `next.config.ts` are not part of this model.
- The updates are not followed by a re-fetch:
  - `AdminPage.AdminBoard.UpdateScoreMatin` and `AdminPage.AdminBoard.UpdateScoreAprem` do not model the `fetchData` that follows each POST, because the store is not modelled;
  - both score the record in the tab's sequence directly, so the in-place mutation of the shared object has no separate meaning.
- `TournamentPage.ScoreBoard.UpdateScore` shares the old and new arrays' fixture objects in the source; values have no aliasing, so the state update is modelled without it.
- `parseInt` is left out. The parsed score is an `int` input, so the `NaN` an empty or non-numeric input produces, and its spread through the sums, are not modelled.
- Null and undefined fields are merged, both as `None`. They differ in what `JSON.stringify` sends, which the model does not send, and in one sum:
  - at `src/app/admin/page.tsx:156` an absent first half leaves `0 + miTemps2`, which is 0 for `null` but `NaN` for `undefined`;
  - the store never writes `miTemps1` or `miTemps2`, so on a fetched afternoon record both halves are `undefined`;
  - `updateScoreAprem` sets the half just entered before it evaluates line 156, so on that path the sum never meets an absent second half together with an absent first half.
- `AdminPage.AfternoonTotalAsWritten` and `AdminPage.AfternoonTotalAsWrittenDisagrees` are stated for every `Match`. For a record whose two halves are both `undefined`, the source stores `NaN` where these members give 0; no modelled path reaches that record.
- `Ranking.CalculateRanking` requires distinct roster names:
  - every roster in the source is a constant with distinct names;
  - a repeated name would collapse into one key of the `points` object;
  - integer-like team names, which object keys would reorder, are not modelled either;
  - nor are names that `Object.prototype` already provides (`__proto__`, `toString`, `constructor`, `valueOf`, `hasOwnProperty` and the rest). `points` is an object literal, so `points[name]` for such a name is the inherited value, not `undefined`.
- `Ranking.Step`: for a scored fixture naming an inherited property, the source does not throw. `.played++` writes `NaN` onto that inherited value, and the other team is still credited. `Ranking.Step` instead fails, as it does for any name outside the roster.
- `Text.LowerChar` lower-cases ASCII and Latin-1 capitals only. `toLowerCase` on other scripts, and strings as UTF-16 code units, are not modelled.
- `AdminPage.MorningTimetable`: the label order holds only for rosters of at most 18 teams, because a longer morning would run past midnight and the labels would wrap.
- `PublicPage.ScheduleIncreasing`: strict increase holds only for up to 58 slots, for the same reason.
- `PublicPage.SlotsOfIncreasing` and `PublicPage.DealCorrectedIncreasing` have the same 58-slot bound.
- `AdminPage.AdminBoard.UpdateScoreAprem` stores the corrected total of both halves, `AdminPage.AfternoonTotal`, not the expression as written at line 156. The as-written total is `AdminPage.AfternoonTotalAsWritten`, and its discrepancy is proved under "Findings".
- `PublicPage.PublicBoard.KickOffs` deals the timetable with the corrected loop, `PublicPage.DealSlotsCorrected`. The loop as written is `PublicPage.DealSlots`, and it is related to the correction under "Findings".
- The constants `teamsU11Aprem` and `teamsU13Aprem` of the administration page are not modelled, because nothing reads them.
- The `activeTab` state of the administration and public pages only selects what is rendered, so it is not modelled.

## Findings

| source | as written | input that shows it | evidently intended | confidence | as-written member | corrected member |
|---|---|---|---|---|---|---|
| src/app/admin/page.tsx:156 | the afternoon total is written with `??` and `+` unparenthesised. Since `+` binds tighter, it reads `miTemps1 ?? (0 + miTemps2) ?? 0`: the first half alone when it is set | first half 3, second half 4: `score1` becomes 3 while the tab (line 273) shows 7 | `score1` is the sum of both halves, an empty half counting 0, as displayed | high (not executed) | AdminPage.AfternoonTotalCounterexample | AdminPage.AfternoonTotal |
| src/app/public/page.tsx:106-115 | an odd slot goes to U13 or to nobody. Once U13 is full, the odd slots are skipped, and U11 fixtures past ⌈(n11+n13)/2⌉ get no kick-off | two U11 fixtures and no U13 fixture: the second U11 fixture shows an undefined kick-off | every fixture of both categories gets a slot, which happens exactly when the leftover slot falls back to U11 | high (not executed) | PublicPage.DealAsWrittenCounterexample | PublicPage.DealSlotsCorrected |
