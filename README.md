# Tournament manager core, modelled in Dafny

The application runs FIFA-style tournaments among a fixed roster of
players. This project models its core in Dafny and proves properties of that model.

The roster store (`src/stores/playerStore.ts`) keeps the registered players.
Names must be non-empty after trimming and unique without regard to case.

The tournament store (`src/stores/tournamentStore.ts`) holds three things:
- the list of tournaments;
- the tournament being played;
- the last error message.

It creates, updates, deletes and starts tournaments. Starting a tournament
generates its matches, in one of three formats:

- a **league**: a full round-robin;
- a **knockout**: a first round of shuffled pairs, then rounds of placeholder
  matches;
- **champions**: one group stage, then two semifinals (1st v 4th, 2nd v 3rd),
  a third-place match and a final. The slots of these four matches hold
  sentinel players.

The store records and edits results. In a champions tournament it moves
qualifiers and semifinal results into the sentinel slots. It then decides
whether the tournament is complete and who won. The league table awards 3
points for a win and 1 for a draw, and sorts on points, then goal difference,
then goals scored.

The format picker (`src/components/atoms/FormatSelector.tsx`) shows, for each
format, the number of matches, an estimated time and a recommended size.

Files:

- `Types.dfy`: `Player`, `Match`, `Tournament` and `Standing` (`LeagueStanding`), from `src/types/index.ts`. Optional fields are `Option`s and dates are an integer `Time`.
- `Text.dfy`: `trim`, `toLowerCase`, `startsWith`, and the decimal rendering of integers.
- `Roster.dfy`: the player store, a class with fields `players` and `error`.
- `Generation.dfy`: `generateMatches`. Each format is a loop method, proved equal to a schedule function. Lemmas about the schedule state what the source promises.
- `Standings.dfy`: `getLeagueStandings`. The dictionary accumulator becomes a `map` plus its insertion order, updated in loops. The sort becomes a stable insertion sort.
- `Progression.dfy`: what recording and editing a result does. This covers the substitution loops, the completion check and the winner lookup.
- `TournamentStore.dfy`: the tournament store, a class with fields `tournaments`, `currentTournament` and `error`.
- `FormatEstimates.dfy`: the picker's arithmetic, cross-checked against the generator.

Environment inputs are parameters:
- **The shuffle.** `order: nat -> nat`: the k-th pick takes the remaining player at `order(k) mod (number left)`. The shuffle is proved to be a permutation.
- **The even-N draws.** `pick: (nat, nat) -> nat`, indexed by round and step: the partner index is `1 + pick mod (length - 1)`.
- **Ids.** `crypto.randomUUID()` for the k-th generated match is `uuid(k)`. New tournaments and players take a `freshId` parameter.
- **The clock.** `new Date()` is a `now: Time` parameter.

The model follows the code as written, including these behaviours:

- **Last branch wins.** In each substitution loop, every `if` spreads the match as it was before the loop body. So only the last applicable branch survives. One pass fills only the 4th-placed player into semifinal 1 and the 3rd-placed player into semifinal 2. A second pass is needed for the other slots (`Progression.SemifinalsNeedTwoPasses`).
- **Placeholders count as done.** A match with either slot id beginning `tbd` counts as finished. A champions tournament therefore reads `completed` as soon as its last group match is recorded (`Progression.RecordCompletes` with `Progression.KnockoutStageAllPlaceholders`).
- **Winner in round 5.** The champions winner is looked up in round 5. With an even number of players, the third-place match comes first in that round, so it can provide the "winner" (`Progression.ChampionsWinnerMayBeThirdPlace`). For an odd number of players of at least 5, round 5 is a group round.
- **Editing uses fixed rounds.** Editing takes the group stage to be rounds 1-3 and refills round 4.
- **Knockout placeholders stay.** Nothing ever fills the knockout placeholders.
- **Completed matches can be recorded again.** Recording a result does not refuse a completed match.
- **Completed with no winner.** Recording keeps a completed status but looks the winner up only when every match is resolved (`Progression.RecordStatusCases`). Once the group stage of a completed champions tournament is complete, a further record fills the `tbd-1st` slot of a semifinal whose other slot already holds a player. That semifinal is then unresolved, so the tournament stays completed with no winner and its completion time is stamped again (`Progression.CompletedChampionsLosesWinner`).
- **Empty renames skip validation.** `updatePlayer` only validates a truthy name. Renaming to `""` stores an empty name (`Roster.EmptyRenameSkipsValidation`).
- **Estimates can differ from the generator.**
  - The knockout estimate N - 1 matches the generator only for powers of two: with 5 players the generator emits 3 matches and the card says 4 (`FormatEstimates.KnockoutFivePlayersShort`).
  - The champions card says 0 below 4 players, while the generator still emits 7 matches for 2 or 3 players.
  - For 0 players the knockout estimate reads "-6min".

## Model

| member | source | states |
|---|---|---|
| Roster.PlayerStore.AddPlayer | src/stores/playerStore.ts:77-109 | A blank name or a name already present (ignoring case) sets the error and leaves the roster alone. Otherwise one player with the trimmed name is appended and the error is cleared. |
| Roster.AddOutcomeCases | src/stores/playerStore.ts:78-96 | Adding refuses with the empty-name message exactly when the name is all whitespace. It refuses as a duplicate exactly when some player's name equals the trimmed name ignoring case. Otherwise it appends one player with the trimmed name, in last position. |
| Roster.AddKeepsWellFormed | src/stores/playerStore.ts:78-103 | Adding keeps every name non-empty, trimmed and unique ignoring case. It keeps ids distinct when the new id is fresh. |
| Roster.PlayerStore.UpdatePlayer | src/stores/playerStore.ts:111-151 | An unknown id, a blank new name or a name another player has (ignoring case) sets the error and changes nothing. Otherwise only the player at the found index is replaced. |
| Roster.UpdateTouchesOnlyTarget | src/stores/playerStore.ts:113-145 | Updating refuses an unknown id exactly when no player has it. On success the length is kept and only the position of the id changes. |
| Roster.UpdateStoresTrimmedName | src/stores/playerStore.ts:120-136 | The updated player carries the trimmed new name when one is given. The other given fields are spread over it. |
| Roster.UpdateKeepsWellFormed | src/stores/playerStore.ts:123-135 | A rename that is not to the empty string keeps the roster well formed. The uniqueness check skips only the player itself. |
| Roster.EmptyRenameSkipsValidation | src/stores/playerStore.ts:123 | A one-player roster renamed to "" is accepted and is no longer well formed. |
| Roster.PlayerStore.DeletePlayer | src/stores/playerStore.ts:153-167 | The roster becomes the players with a different id, in order, and the error is cleared. |
| Roster.DeleteKeepsWellFormed | src/stores/playerStore.ts:159 | Deleting keeps the roster well formed. |
| Roster.DeleteUnknownId | src/stores/playerStore.ts:159 | Deleting an id nobody has changes nothing. |
| Roster.WithoutId | src/stores/playerStore.ts:159 | A player survives the filter exactly when it was in the roster with another id. |
| Roster.PlayerStore.InitializeDefaultPlayers | src/stores/playerStore.ts:47-75 | A non-empty roster is left alone. An empty one becomes the six default players, in order. |
| Roster.DefaultsWellFormed | src/stores/playerStore.ts:48-59 | The default roster has the six names in order and is well formed. Its ids are distinct when the drawn ids are. |
| Roster.PlayerStore.LoadPlayers | src/stores/playerStore.ts:29-38 | The stored roster is installed, or the defaults when it is empty. |
| Text.TrimShape | src/stores/playerStore.ts:78 | Trimming keeps one contiguous piece of the input, cut only at whitespace, and neither end of it is whitespace. |
| Text.TrimEmptyIffBlank | src/stores/playerStore.ts:79 | A string trims to empty exactly when it is all whitespace. |
| Text.TrimIsTrimmed | src/stores/playerStore.ts:94 | Trimming yields a trimmed string, and leaves one alone. |
| Text.NatToStringRoundTrip | src/components/atoms/FormatSelector.tsx:89-91 | Reading back the decimal digits of a number gives the number. |
| TournamentStore.Store.CreateTournament | src/stores/tournamentStore.ts:61-104 | A refusal sets the error and leaves the list and the current tournament alone. Success appends the new tournament, makes it current and clears the error. |
| TournamentStore.CreateOutcomeCases | src/stores/tournamentStore.ts:62-90 | The checks, in order: a name that is blank, then fewer than 2 players, then a name already used ignoring case. Only these refuse. The new tournament has the fresh id, the trimmed non-empty name, the players as given, no matches, status setup and no winner. |
| TournamentStore.CreateKeepsNamesDistinct | src/stores/tournamentStore.ts:70-73 | Creation keeps tournament names distinct ignoring case. |
| TournamentStore.Store.UpdateTournament | src/stores/tournamentStore.ts:117-141 | The tournament replaces every entry with its id. It becomes current exactly when the current one has its id. The error is cleared. |
| TournamentStore.ReplaceThenFind | src/stores/tournamentStore.ts:122-124 | Writing back keeps every id in place and leaves other ids' entries alone. Looking the id up afterwards finds the tournament just written, at the same position. |
| TournamentStore.Store.DeleteTournament | src/stores/tournamentStore.ts:143-158 | The list keeps exactly the tournaments with another id. The current tournament is cleared exactly when it has that id. |
| TournamentStore.WithoutTournament | src/stores/tournamentStore.ts:149 | A tournament survives deletion exactly when it was listed with another id. |
| TournamentStore.DeleteKeepsNamesDistinct | src/stores/tournamentStore.ts:149 | Deleting keeps tournament names distinct ignoring case. |
| TournamentStore.Store.StartTournament | src/stores/tournamentStore.ts:160-184 | An unknown id, or fewer than 2 players, sets the matching error and changes nothing. Otherwise the tournament is written back with its generated matches and status in progress. |
| TournamentStore.StartSchedules | src/stores/tournamentStore.ts:175-183 | The started tournament is in progress. Its k-th match belongs to it, is unplayed, is numbered k + 1 and carries the k-th generated fixture. The id, name, format, players and winner are unchanged. |
| TournamentStore.Store.UpdateMatchResult | src/stores/tournamentStore.ts:385-538 | With no current tournament, or an unknown match id, the error is set and nothing else changes. Otherwise the recorded tournament is written back and the error is cleared. |
| TournamentStore.Store.EditMatchResult | src/stores/tournamentStore.ts:540-611 | As recording, and a match that is not completed is refused with its own message. |
| TournamentStore.Store.GetLeagueStandings | src/stores/tournamentStore.ts:613-679 | Returns the league table of the tournament's players and matches. |
| TournamentStore.Store.ClearError | src/stores/tournamentStore.ts:681-683 | Only the error changes, to none. |
| Generation.GenerateMatches | src/stores/tournamentStore.ts:186-383 | The matches are the fixtures of the format, in order. Each gets the next uuid, match number k + 1, the tournament id and no result. |
| Generation.GenerateLeague | src/stores/tournamentStore.ts:189-208 | The double loop emits the league fixtures in order. |
| Generation.LeagueSchedule | src/stores/tournamentStore.ts:194-206 | There are N(N-1)/2 league matches, all in round 1. The pair i < j sits at its position, and every match is such a pair. |
| Generation.PairPositionOrder | src/stores/tournamentStore.ts:194-203 | The match numbers run in outer-i, inner-j order. |
| Generation.ShuffleFrom | src/stores/tournamentStore.ts:212 | The shuffle is a permutation of the players. |
| Generation.CeilLog2 | src/stores/tournamentStore.ts:217 | The number of rounds r is the least with N <= 2^r. |
| Generation.GenerateKnockout | src/stores/tournamentStore.ts:209-253 | The knockout loops emit the first round of the shuffled players, then the placeholder rounds. |
| Generation.AppendPlaceholders | src/stores/tournamentStore.ts:239-250 | One later round appends its count of matches of the one placeholder fixture, numbered on from the matches before them. |
| Generation.KnockoutFirstRound | src/stores/tournamentStore.ts:220-232 | Round 1 pairs shuffled positions (0,1), (2,3), and so on, giving floor(N/2) matches. An odd last player is unpaired. |
| Generation.KnockoutPlaceholders | src/stores/tournamentStore.ts:234-251 | All later matches are placeholder against placeholder, in rounds 2 to ceil(log2 N). |
| Generation.KnockoutRoundSizes | src/stores/tournamentStore.ts:235-240 | Round r holds the iterated halving of ceil(N/2) down to floor, and no round outside 1 to ceil(log2 N) exists. |
| Generation.GenerateChampions | src/stores/tournamentStore.ts:254-380 | The champions loops emit the group stage of the shuffled players, then the four sentinel matches. |
| Generation.ChampionsOddRound | src/stores/tournamentStore.ts:262-293 | For odd N, round r leaves out shuffled player r - 1 and pairs the rest in order. That gives floor(N/2) matches, everyone else exactly once, nobody against themselves. |
| Generation.ChampionsEvenRound | src/stores/tournamentStore.ts:294-327 | For even N, each of rounds 1-3 is a perfect matching of all players by draws, with nobody against themselves. |
| Generation.DrawPair | src/stores/tournamentStore.ts:303-322 | A draw pairs the first available player with the one at 1 + draw mod (pool size - 1), an index from 1 to the last, and removes exactly those two. The rest keep their order. |
| Generation.ChampionsKnockoutStage | src/stores/tournamentStore.ts:329-377 | Round G + 1 holds the two sentinel semifinals and round G + 2 the third-place match and final, in that order. These are the last four matches and no later round exists. |
| Generation.ChampionsMatchCount | src/stores/tournamentStore.ts:260-377 | The generator emits G rounds of floor(N/2) matches plus 4. |
| Standings.GetLeagueStandings | src/stores/tournamentStore.ts:613-679 | The dictionary loops and sort compute the specified table. |
| Standings.CreditMatch | src/stores/tournamentStore.ts:635-665 | A completed match credits each of its slots whose player has a row, and no other row. No key is added or dropped. |
| Standings.FinalRows | src/stores/tournamentStore.ts:669-671 | The rows are the dictionary's values in insertion order, each with its goal difference, and they equal the specified rows. |
| Standings.SortByRank | src/stores/tournamentStore.ts:673-677 | The rows are sorted by points, goal difference and goals for, all descending. The result is a permutation, and rows with equal keys keep their order. |
| Standings.InsertKeys | src/stores/tournamentStore.ts:674-678 | Insertion is stable. Among rows with the same points, goal difference and goals for, the inserted row goes first and the others keep their order. |
| Standings.StandingsOnePerPlayer | src/stores/tournamentStore.ts:617-629 | There is one row per distinct player id and no id twice. Every tournament player has a row. |
| Standings.StandingsRowsConsistent | src/stores/tournamentStore.ts:632-667 | In every row, points = 3 wins + draws, games = wins + draws + losses, and goal difference = for - against. |
| Standings.StandingsIgnoreIncomplete | src/stores/tournamentStore.ts:632 | Matches that are not completed do not affect the table. |
| Standings.StandingsIgnoreOutsiders | src/stores/tournamentStore.ts:635-665 | A match between two non-players does not affect the table. |
| Standings.MatchAwardsThreeOrTwo | src/stores/tournamentStore.ts:640-664 | A decisive match hands out 3 points in all and a draw 2. |
| Progression.RecordResult | src/stores/tournamentStore.ts:398-537 | The body of recording computes the specified recorded tournament. |
| Progression.AdvanceToSemifinals | src/stores/tournamentStore.ts:414-460 | Once every group-stage match is completed, the top four of the table are placed in the semifinals. Otherwise nothing changes. |
| Progression.AdvanceToFinals | src/stores/tournamentStore.ts:463-501 | Once every semifinal is completed, their losers and winners are placed in the round-G + 2 matches. Otherwise nothing changes. |
| Progression.FillSemifinals | src/stores/tournamentStore.ts:432-460 | The semifinal loop applies the one-match step to every match. |
| Progression.FillFinals | src/stores/tournamentStore.ts:477-500 | The final loop applies the one-match step to every match. |
| Progression.SemiFill | src/stores/tournamentStore.ts:433-459 | Only a not yet completed semifinal changes, in one slot at most. A slot is written only from its sentinel: 1st or 2nd into player1, 4th or 3rd into player2. |
| Progression.FinalFill | src/stores/tournamentStore.ts:478-499 | Only a not yet completed round G + 2 match changes, in one slot at most. A slot is written only from its sentinel, with the semifinal winner or loser. |
| Progression.ProgressionTouches | src/stores/tournamentStore.ts:414-502 | The passes change only champions matches that are not completed: semifinals once the group stage is complete, round G + 2 once all semifinals are completed. They change one slot at most. |
| Progression.RecordSetsTarget | src/stores/tournamentStore.ts:399-411 | The target gets both scores and is completed. Its winner is the higher-scoring slot, or nobody on a draw. Its players stay. |
| Progression.RecordKeepsOthers | src/stores/tournamentStore.ts:410-502 | Each other match stays, except one slot of a not yet completed champions knockout-stage match. |
| Progression.RecordCompletes | src/stores/tournamentStore.ts:505-533 | If every other match is completed or has placeholders in both slots, the tournament becomes completed, stamped now. |
| Progression.RecordStatusCases | src/stores/tournamentStore.ts:505-533 | The status becomes completed exactly when every match is resolved after the passes or it already was, and is kept otherwise. The winner is the looked-up one when every match is resolved and none otherwise. The completion time is now exactly when the status is completed, and none otherwise. |
| Progression.LeaderIsRegistered | src/stores/tournamentStore.ts:423-425 | With a player registered, the qualified list is non-empty and its leader is a registered player. |
| Progression.SemiFillsLeader | src/stores/tournamentStore.ts:414-460 | Once the group stage is complete, an open `tbd-1st` slot of a semifinal with a player in the other slot gets the leader, leaving that semifinal unresolved and in its round. |
| Progression.LeaderSlot | src/stores/tournamentStore.ts:433-459 | In a semifinal whose only open slot is `tbd-1st`, the pass puts the leader there and changes nothing else. |
| Progression.CompletedChampionsLosesWinner | src/stores/tournamentStore.ts:505-533 | A completed champions tournament whose semifinal gets its `tbd-1st` slot filled next to a real player stays completed, loses its winner and is stamped now. |
| Progression.KnockoutStageAllPlaceholders | src/stores/tournamentStore.ts:335-377 | The generated knockout stage has placeholders in every slot and nothing completed. |
| Progression.SemifinalsNeedTwoPasses | src/stores/tournamentStore.ts:435-458 | One pass gives 1st v 4th only its 4th-placed player and 2nd v 3rd only its 3rd-placed player. The second pass fills the other slots. |
| Progression.LoserIsTheOtherSlot | src/stores/tournamentStore.ts:472-473 | The loser handed on is the slot that did not win, which is player1 on a draw. |
| Progression.MaxCompletedRoundBounds | src/stores/tournamentStore.ts:517-518 | The latest completed round bounds every completed match and is attained. It is absent exactly when nothing is completed. |
| Progression.LeagueWinnerTopsTable | src/stores/tournamentStore.ts:513-515 | A league with players has a winner: the top row, which no row ranks ahead of. |
| Progression.KnockoutWinnerLatestRound | src/stores/tournamentStore.ts:516-520 | The knockout winner is the winner of the first completed match of the latest completed round. There is none when nothing is completed. |
| Progression.ChampionsWinnerRoundFive | src/stores/tournamentStore.ts:521-525 | The champions winner is the winner of the first completed round-5 match, and none without one. |
| Progression.ChampionsWinnerMayBeThirdPlace | src/stores/tournamentStore.ts:524 | When a completed round-5 match comes first (the third-place match, for even N), its winner is the champion. |
| Progression.EditResult | src/stores/tournamentStore.ts:557-610 | The body of editing computes the specified edited tournament. |
| Progression.RefillSemifinals | src/stores/tournamentStore.ts:581-596 | The edit's round-4 loop applies the one-match step to every match. |
| Progression.EditSemiFill | src/stores/tournamentStore.ts:583-595 | Only a not yet completed round-4 match changes, in one slot at most. A seat is rewritten from its sentinel or from the player now in that place, with the player now in that place or the sentinel. |
| Progression.EditSetsTarget | src/stores/tournamentStore.ts:557-608 | Editing rewrites the target's scores, winner and time, and keeps it completed. It leaves the status, winner, completion time and players alone. |
| Progression.EditKeepsOthers | src/stores/tournamentStore.ts:573-598 | Other matches stay, except one slot of a not yet completed champions round-4 match once rounds 1-3 are complete. |
| Types.FindFirst | src/stores/tournamentStore.ts:392 | `findIndex` by id: the first position whose key is the id, or none when no element has it. |
| Progression.FindMatch | src/stores/tournamentStore.ts:392 | Finds the first match with the id, or reports that none has it. |
| FormatEstimates.EstimateSplitsMinutes | src/components/atoms/FormatSelector.tsx:83-86 | For a non-negative count, 60 hours + minutes = 6 count, with minutes in 0..59. The hours are positive exactly from 10 matches. |
| FormatEstimates.EstimateText | src/components/atoms/FormatSelector.tsx:83-92 | The text is "<h>h <m>min" from 10 matches and "<6 count>min" below, and its numbers read back to the total. |
| FormatEstimates.EmptyKnockoutEstimate | src/components/atoms/FormatSelector.tsx:59-92 | No players in a knockout counts -1 matches, shown as "-6min". |
| FormatEstimates.RecommendedSizes | src/components/atoms/FormatSelector.tsx:14-97 | League and champions are recommended up to 8 players, knockout up to 16. |
| FormatEstimates.NoRecommendationNeverRecommended | src/components/atoms/FormatSelector.tsx:95 | A missing or zero recommendation is never recommended. |
| FormatEstimates.RecommendedMonotone | src/components/atoms/FormatSelector.tsx:96 | Fewer players stay recommended. |
| FormatEstimates.LeagueCountMatchesSchedule | src/components/atoms/FormatSelector.tsx:57-58 | The league count is the number of league matches generated. |
| FormatEstimates.ChampionsCountMatchesSchedule | src/components/atoms/FormatSelector.tsx:61-77 | From 4 players the champions count is the number of matches generated. |
| FormatEstimates.ChampionsEstimateBelowFour | src/components/atoms/FormatSelector.tsx:63 | Below 4 players the card says 0 while 7 matches are generated. |
| FormatEstimates.KnockoutCountMatchesPowerOfTwo | src/components/atoms/FormatSelector.tsx:59-60 | For 2^k players the knockout count equals the matches generated. |
| FormatEstimates.KnockoutFivePlayersShort | src/components/atoms/FormatSelector.tsx:59-60 | With 5 players 3 matches are generated while the card says 4. |

## Left out

- Persistence: `localStorageService` calls are taken never to throw, and their `catch` branches are not modelled.
- `loadTournaments`, `loadCurrentTournament` and `setCurrentTournament` are not modelled: they only read or write storage and copy its result into the store. The same applies to the `loading` flag.
- `console.log` tracing is not modelled.
- Randomness: `Math.random` in the shuffle and the even-N draws becomes the `order` and `pick` parameters. The `sort(() => Math.random() - 0.5)` shuffle is modelled as an arbitrary selection order, not its actual (biased) distribution.
- `Math.ceil(Math.log2(n))` is the integer `Generation.CeilLog2`, which is exact. Floating-point rounding is not modelled.
- Every `new Date()` of one action is the same `now`.
- Scores are integers. Non-integer numbers are not modelled.
- `Text.LowerChar`: `toLowerCase` is modelled on Basic Latin and Latin-1 letters only.
- `Text.IsWhitespace`: it is the ECMAScript WhiteSpace and LineTerminator set, with the `Zs` category fixed at its current 17 code points. Later additions to `Zs` in newer Unicode versions are not tracked.
- `Standings.FinalRows`: `Object.values` lists integer-like keys first, in numeric order. The model assumes player ids are not integer-like, so the enumeration order is the insertion order. Generated UUIDs are never integer-like.
- The `default: return []` branch of `generateMatches` and the `default: return 0` of `getMatchCount` cannot happen, because the format type has exactly three values.
- `Progression.ChampionsWinnerRoundFive` and `Progression.KnockoutWinnerLatestRound` state the lookup as written, including its quirks. The model does not claim the winner is the final's.
- The rendering components, the theme store and the display helpers are not part of this model.
