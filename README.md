# Tournament tally, modelled in Dafny

This models the league tally of `tournament.go`. Match records of the form
`team1;team2;outcome` are read in order, and each outcome is `win`, `draw` or
`loss` as seen by the first team. A team is created the first time it is
named. Each match updates matches played (MP), won (W), drawn (D), lost (L)
and points (P) of both teams: 3 points for a win, 1 for a draw. The league
then sorts its teams by points, checks neighbouring teams for ties, and
produces the table.

Files and modules:

- `split.dfy`, module `GoSplit`: Go's `strings.Split` for a one-character
  separator. There is always one part more than there are separators, and
  parts may be empty. Splitting and `strings.Join` undo each other.
- `standings.dfy`, module `Standings`: the value-level meaning of a tally.
  It defines the `Team` record, the scoring rule and find-or-create by exact
  name. `Handle` takes one match and `Parse` takes a list of records. Lemmas
  give the scoring table, the error cases and the league invariant:
  MP = W + D + L and P = 3W + D for every team, names unique, total wins equal
  total losses, and total MP equal to twice the number of accepted records.
- `ranking.dfy`, module `Ranking`: orderings by points. `IsRanking(t, s)`
  means `t` is a permutation of `s` with points never increasing. The module
  proves that when no two teams share a point total, the ranking is unique.
- `independence.dfy`, module `Independence`: the order of two well-formed
  records does not matter. Swapping them leaves the same teams with the same
  counters, and the same table when no two teams tie. A league is seen
  through its names: which names it holds, and the team under each name.
- `league.dfy`, module `Tournament`: the program's `League` object. It is a
  class whose `teams` field is a sequence grown and updated in place. Each
  method is proved against the matching function of `Standings`:
  - `FindOrCreateTeam` is a loop, like the source's.
  - `HandleResults` updates teams by position. Go's shared `*Team` pointers
    become positions, so when both names are equal, both updates land on the
    same team, as in Go.
  - `ParseData` is a loop that stops at the first failure.
  - The two sorts are chosen nondeterministically, among all admissible
    results.
  - `Tally` puts it together on records that have already been read.
- `example.dfy`, module `TallyExample`: the six-match data of
  `tournament_test.go`. It is proved for any four distinct `;`-free names,
  and then for the names of the test. It also covers a two-field record, an
  unknown outcome, and two teams tied on points.

Sorting. `sort.Slice` is not stable, so `SortLeagueByPoints` is modelled as
"some permutation with points non-increasing". The second `sort.Slice` in
`SortByName` uses a comparator that compares `team1` with `team2` and
ignores the positions it is asked about (tournament.go:102-104). That
comparator defines no order, so the model lets this sort return any
permutation of the teams.

The comparator at tournament.go:103, `team1.Name > team2.Name`, looks like a
tie-break by name, but it ignores `i` and `j`, so it applies no name order at
all. One consequence: once any two neighbouring teams tie, the contract of
`CheckTie` promises only that the teams are kept, not that they stay sorted
by points. When no two teams share a point total, `Tally` is proved to return
rows sorted by points, and `RankingUnique` makes that order unique.

## Model

| member | source | states |
|---|---|---|
| GoSplit.Split | tournament.go:26 | the number of parts is the number of `;` plus one, and no part contains the separator |
| GoSplit.JoinSplit | tournament.go:26 | joining the parts of a split with the separator gives back the original string |
| GoSplit.SplitJoin | tournament.go:26 | splitting a join of separator-free parts gives back exactly those parts |
| Standings.Record | tournament.go:44-52 | one outcome adds one match played and one of W/D/L, keeps the name, and keeps MP = W+D+L and P = 3W+D |
| Standings.IndexOfName | tournament.go:61-65 | the position of the first team with the name, or the list length when no team has it |
| Standings.FindOrCreate | tournament.go:60-70 | an existing name gives its first position and leaves the list unchanged; an absent name appends one zero team at the end; unique names stay unique |
| Standings.Register | tournament.go:40-41 | both positions name their teams; the old list is a prefix; only zero teams are added; under unique names the two positions coincide exactly when the names are equal |
| Standings.FindOrCreateHas | tournament.go:60-70 | after a find-or-create, a name is present exactly when it was before or it is the name looked up |
| Standings.RegisterAdds | tournament.go:40-41 | the teams added are zero teams named `name1` or `name2`, one per name not yet present, counted once when the names are equal; when both names are present the list is unchanged |
| Standings.Handle | tournament.go:39-57 | the one-record step behind `HandleResults`: it succeeds exactly when the outcome word is `win`, `draw` or `loss`, and it keeps the registered list's length; the scores are stated by HandleEffect and HandleSelf, the invariant by HandleKeepsInvariant |
| Standings.HandleEffect | tournament.go:39-57 | for two different names: the exact win/draw/loss deltas of both teams, every other team unchanged, and any other outcome an error after both teams are registered |
| Standings.HandleSelf | tournament.go:39-57 | a team playing itself gets both updates: win or loss adds MP 2, W 1, L 1, P 3, and draw adds MP 2, D 2, P 2 |
| Standings.TotalUpdate | tournament.go:44-52 | replacing one team changes a column sum by exactly that team's difference |
| Standings.RegisterKeepsTotals | tournament.go:40-70 | creating teams leaves every column sum unchanged |
| Standings.ScoreKeepsTeams | tournament.go:44-52 | scoring one match keeps the names and the consistency of every team |
| Standings.ScoreTotals | tournament.go:44-52 | scoring one match adds 2 to total MP and the same amount to total W and total L |
| Standings.RegisterKeepsInvariant | tournament.go:40-41 | registering teams keeps the league invariant and total MP |
| Standings.HandleKeepsInvariant | tournament.go:39-57 | one record keeps the league invariant, also for a team playing itself, and adds 2 to total MP exactly when it succeeds |
| Standings.RecordError | tournament.go:27-33 | the error is the field-count error exactly when the record does not have two `;` |
| Standings.Parse | tournament.go:24-36 | the run behind `ParseData`: the team list never shrinks and grows by at most two teams per record; which records apply and with what error is stated by ParseOutcomeOfRun, the invariant by ParseKeepsInvariant |
| Standings.FirstInvalid | tournament.go:25-33 | every record before the returned position is well formed, and the record at that position is not |
| Standings.HandleOk | tournament.go:30-33 | a three-field record is accepted exactly when it is well formed |
| Standings.ParseAtInvalid | tournament.go:27-54 | a malformed record ends the run with its error; when its outcome is unknown, both its teams have already been added |
| Standings.ParseConcat | tournament.go:25-35 | records are applied in order: a run of `a + b` is a run of `b` from where `a` left the league |
| Standings.ParseAtFirstInvalid | tournament.go:25-35 | the records before the first malformed one are all applied without error, and the run continues from there |
| Standings.ParseFails | tournament.go:25-33 | with a malformed record, the run ends with that record's error after the records before it; none after it is applied |
| Standings.ParseOutcomeOfRun | tournament.go:24-36 | a run fails exactly when some record is malformed; the error, the teams applied and the teams added are those of the first malformed record |
| Standings.ParseStops | tournament.go:27-33 | after a failure, further records change nothing |
| Standings.ParseKeepsInvariant | tournament.go:24-36 | a run keeps the league invariant, and total MP grows by twice the number of records applied |
| Ranking.Ranked | tournament.go:94-98 | every team list has a ranking: a permutation with points non-increasing |
| Ranking.TieFreeHasNoAdjacentTie | tournament.go:108-109 | without ties among the teams, no two neighbours tie, so the tie check never fires |
| Ranking.RankingUnique | tournament.go:94-98 | when no two teams share a point total, any two rankings of the same teams are equal |
| Ranking.ReorderKeepsTeams | tournament.go:94-105 | a permutation keeps every team consistent and the names unique |
| Independence.IndexOfSameNames | tournament.go:61-65 | leagues with the same names at every position find every name at the same position |
| Independence.Members | tournament.go:60-65 | with unique names, a team is in the league exactly when its name is and it is the team found under that name |
| Independence.LookupRegister | tournament.go:40-41 | registering the teams of a match adds their names and changes no team found by name |
| Independence.LookupUpdate | tournament.go:44-52 | updating a team in place changes only what is found under its name, and keeps the names unique |
| Independence.LookupHandle | tournament.go:39-57 | a recorded match adds its two names, and credits each team with its part of the match, both parts for a team playing itself |
| Independence.RecordAdds | tournament.go:44-52 | recording an outcome adds 1 match, with 3 points and a win, 1 point and a draw, or a loss |
| Independence.CreditAdds | tournament.go:44-52 | crediting a match to a team adds that team's share of it |
| Independence.CreditCommutes | tournament.go:44-52 | crediting two matches to one team gives the same team in either order |
| Independence.ParseTwo | tournament.go:24-36 | two well-formed records are both accepted, one after the other |
| Independence.SameMembers | tournament.go:94-97 | two leagues with unique names that hold the same teams are permutations of each other |
| Independence.SwapRecords | tournament.go:24-57 | swapping two well-formed records leaves both runs successful with the same teams and counters |
| Independence.SwapSameTable | tournament.go:94-98 | when no two teams tie, swapping two well-formed records gives the same ranked table |
| Tournament.League.constructor | tournament.go:117 | a league starts with no teams |
| Tournament.League.AddTeam | tournament.go:73-75 | the team is appended at the end |
| Tournament.League.FindOrCreateTeam | tournament.go:60-70 | the scan leaves the league as FindOrCreate does and returns its position |
| Tournament.League.HandleResults | tournament.go:39-57 | the new teams and the status are those of Handle on the old teams |
| Tournament.League.ParseData | tournament.go:24-36 | the new teams and the status are those of Parse on the old teams |
| Tournament.League.SortLeagueByPoints | tournament.go:94-98 | the new teams are a ranking of the old ones |
| Tournament.League.SortByName | tournament.go:100-105 | the new teams are a permutation of the old ones |
| Tournament.League.CheckTie | tournament.go:107-113 | the teams are a permutation of the old ones, and are unchanged when no neighbours tie |
| Tournament.League.BuildTable | tournament.go:78-91 | the rows are the teams after the tie check, in order |
| Tournament.Tally | tournament.go:116-132 | fails exactly when parsing fails, with the same error; otherwise the rows are the parsed teams, consistent and uniquely named, and sorted by points when no two share a point total |
| TallyExample.ParseMatches | tournament_test.go:16-23 | the six matches of the test are all accepted and leave the expected counters |
| TallyExample.ExpectedIsRanking | tournament_test.go:24-29 | the expected table is a ranking of the parsed league |
| TallyExample.TallyMatches | tournament_test.go:14-30 | for any four distinct `;`-free names, the tally of the six matches is exactly the expected table |
| TallyExample.TallyTestData | tournament_test.go:14-30 | with the test's names, the table is Donkeys 3/2/1/0/7, Alaskians 3/2/0/1/6, Badgers 3/1/0/2/3, Californians 3/0/1/2/1 |
| TallyExample.TwoFields | tournament.go:26-28 | a record with two fields fails before any team is created |
| TallyExample.UnknownOutcome | tournament.go:39-57 | the outcome `tie` fails after both teams have been created |
| TallyExample.ParseMutualWins | tournament.go:44-46 | two wins against each other leave both teams at MP 2, W 1, L 1, P 3 |
| TallyExample.TallyTie | tournament.go:107-113 | with the two teams tied, the table holds both, in one of the two orders |

## Left out

- Reading input (`readData`, tournament.go:134-142) is not modelled. CSV parsing, `#` comments, blank lines, quoting and the CSV field-count rule all belong to it. A record is the first CSV field of a row, given as a string.
- The second test case ("ignore comments and newlines") depends on that reader, so it is not part of this model.
- The table text is not modelled: `text/tabwriter` column alignment and writing to an `io.Writer` (tournament.go:82-90). `BuildTable` returns the rows in order instead.
- `io.Reader` and `io.Writer` are not modelled. Error message text and error wrapping are reduced to the two error kinds, `WrongFieldCount` and `InvalidOutcome`.
- The counters are unbounded naturals, so integer overflow is not modelled. Go's `int` has 64 bits on 64-bit platforms and 32 bits on 32-bit ones. Points grow by 3 per win, so they would wrap after about 2^63/3 wins, or about 7×10^8 wins with 32 bits.
- The sorting algorithm Go uses is not modelled. `SortLeagueByPoints` may return any ranking, and the second sort in `SortByName` any permutation. Once a tie fires, that second sort may reorder the whole table, not only the tied teams, and the order Go's `sort.Slice` happens to produce then is not captured.
- Swapping records is proved for two records in a row from the same league (Independence.SwapRecords). Reordering a longer list is not stated.
- Tournament.League.SortByName: states only that the teams are a permutation. Its comparator ignores the positions it is given, so no order follows from the code.
- Tournament.League.CheckTie: when teams tie, states only that the teams are kept. The order it leaves then depends on `sort.Slice` internals.
- Teams are values in a sequence, not separately allocated `*Team` objects. The one aliasing that matters, both names of a record naming the same team, is captured by equal positions.
