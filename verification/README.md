# Tennis data service: a verified model

The service collects tennis results from mirrors of public data files, rates players, derives
tournament histories and answers questions about them over HTTP. This project models the parts
of it that compute rather than transport, and proves what they promise for every input, every
run and every interleaving.

| component | modules |
|---|---|
| From a serve probability to a match probability, and back | `Playouts`, `Match`, `MatchLaws`, `MatchOrders`, `MatchInversion` |
| Concurrent ingest: readers, feeder, one writer and a resumable ledger | `IngestModel`, `IngestRun`, `IngestProof`, `IngestTheorems`, `IngestOutcomes`, `IngestStore`, `IngestReader` |
| Rebuilding a draw from an unordered list of matches | `Brackets`, `BracketLines`, `BracketLaws`, `BracketTrees`, `KnockoutRecords`, `RebuiltDraws` |
| Playing a draw out many times | `DrawOdds`, `DrawOddsLaws` |
| Reading and printing scores | `Text`, `Lexical`, `Decimal`, `Scores`, `ScoreParser`, `ScoreLaws`, `ScoreRoundTrip`, `ScoreReadings` |
| Replaying results into weekly ratings | `RatingEngine`, `RatingMoves`, `RatingLaws` |
| Limiting requests per client | `RateLimit`, `RateLimitLaws` |
| Proposing merges of duplicate players | `Identity`, `Reconciling`, `ReconcilePlan` |
| Deriving events from tournament rows, and their slugs | `Events`, `EventResolving`, `EventReadings`, `EventSlugs` |
| Finding the row a charted match belongs to | `Charting`, `ChartingLookup`, `ChartingReadings` |
| Comparing two players meeting by meeting | `HeadToHeads`, `HeadToHeadReadings` |
| Shared: optional values, counting, the library sort | `Collections`, `Sorting` |

Code that changes state in the program is a method or a class here, proved against a
specification function of the old state; the laws are lemmas about those functions.
Probabilities are reals and integers are unbounded. What the program asks of the outside world
is a parameter: what opening a file gives and whether a write succeeds, whether a row callback
accepts a row, the random numbers, the clock, name folding, and the rating curve.
Every lemma carries `{:induction false}`, so that no proof rests on induction the verifier guesses.

## Findings

What the code turns out not to do, each with a lemma that shows it and, where the property
holds on some inputs, the exact condition.

- Six all, in a tiebreak and in an advantage set, passes the chance of winning both of a pair to
  a race that squares its arguments again (`internal/simulate/match.go:87-93`, `126`, `160`). The
  value is the one its own next pair implies exactly when the two serves are equal or one of them
  is certain: `TiebreakSixAllIsConsistentIff`, `AdvantageSixAllIsConsistentIff`, and 0.7 against
  0.6 in `SixAllIsNotConsistentEverywhere`. The laws of the chain hold all the same.
- An ingest need not return once a file breaks partway. The reading loop leaves only at the end of the
  file or by a send that a cancellation wins; every other read error counts one more rejected row and
  reads again (`internal/ingest/pipeline.go:332-352`). A body that fails every read from some point on, as
  a download does that is cut off, times out, or is interrupted by the run's own cancellation
  (`internal/ingest/reader.go:111-142`), leaves its reader turning for ever once the last full batch is
  sent, without a look at the context, and the run waits for it:
  `BrokenBodyNeverReturns` is a run of one file, `BrokenIsNeverRead` the reader, and
  `SpinningNeverReturns` says no later schedule helps. Exactly: some schedule returns if and only if no
  reader is in that state (`ReturnsIffNoneSpins`); without a further cancellation, if and only if
  besides no uncancelled reader is on a broken body at all (`ReturnsUncancelledIff`); and wherever a
  schedule has run out of steps it has returned if and only if no reader is in that state, which it
  always has when no body broke (`EndsReturnedUnlessSpinning`). The store and the ledger stay sound
  all the while.
- A cancelled ingest can return no error with files unread, because the feeder just stops
  (`internal/ingest/pipeline.go:144-153`): `CancelledRunCanReturnNil`. `NilRunSettles` says exactly
  when a run that returns no error has settled every file.
- Three or more sets of single digits run together with nothing between them are accepted as fewer
  sets when their number is odd: `RunTogetherReadBackIff`.
- Abandoned prints no status word (`internal/score/score.go:193-206`), so it reads back as Complete, or as Unknown when there are no sets;
  everything else about the score survives: `ParsePrintParse`.
- Rebuilding a draw does not check that the record is a knockout. A record in which the champion
  plays twice in the first round, and loses once, is accepted, with a line that does not play it:
  `NoKnockoutIsAcceptedToo`. A line plays a record exactly when the record is a knockout and
  rebuilds into that line: `PlayedIffKnockoutRebuilt`.
- The charting index keeps rows by surname, so it misses a row whose players agree with the charted
  ones only when spaces are dropped from their names ("ab c" and "a bc"), although that is agreement
  enough for the person check (`internal/charting/resolve.go:145-161`): `SpacesAloneAreNotFound`.
- The rating engine refuses results whose week goes back, not results whose day does
  (`internal/rating/engine.go:100-113`): `ReplayAll` has the accepted runs exactly. Two players who
  beat each other on two days of a week end rated as in calendar order exactly when the second step
  undoes the first (`DaysMayGoBack`), and with steps of 32 and a favourite given three chances in four
  they do not (`DayOrderMatters`).

## Model

| member | source | states |
|---|---|---|
| Match.TiebreakTable | internal/simulate/match.go:105-136 | the table filled backwards from 6-6 gives the point-by-point value of the tiebreak from love all |
| Match.Tiebreak | internal/simulate/match.go:102-137 | the tiebreak played point by point with the alternating serve, six all settled by the race |
| Match.SetTable | internal/simulate/match.go:163-202 | the backward-filled table gives the game-by-game value of the set, terminal scores answered without a cell |
| Match.Set | internal/simulate/match.go:153-203 | the set game by game, six all a tiebreak or played out to two clear |
| Match.Solve | internal/simulate/match.go:47-63 | every rung of the chain is the recursion for it, and the two sides' set and match chances sum to one |
| MatchLaws.GameIsPointByPoint | internal/simulate/match.go:71-77 | the closed form of a game is the point-by-point recursion with the race as the value of deuce |
| MatchLaws.DeuceEquation | internal/simulate/match.go:79-94 | deuce is worth what winning, losing or returning to deuce two points later is worth |
| MatchLaws.RaceTimesTotal | internal/simulate/match.go:86-94 | the race times its total is the favourable part, dead races included |
| MatchLaws.RaceMirror | internal/simulate/match.go:86-94 | the two sides of a race sum to one, the endless race being a half |
| MatchLaws.RaceMonotone | internal/simulate/match.go:86-94 | a better chance at both ends never lowers the race, dead races included |
| MatchLaws.MatchIsSetBySet | internal/simulate/match.go:207-217 | the closed form of a match is the set-by-set recursion, best of three or five, with its own chance for the decider |
| MatchLaws.FormatDecides | internal/simulate/match.go:15-63 | a best of five is the set-by-set match to three sets and any other the match to two, the decider alone an advantage set where the format has one |
| MatchLaws.SixAllByKind | internal/simulate/match.go:153-161 | six games all is a tiebreak in a set and a lead of two games in an advantage set |
| MatchLaws.TiebreakFromIsPlayout | internal/simulate/match.go:102-148 | a tiebreak stopped at seven points is twelve points played out, from every score |
| MatchLaws.SetFromIsPlayout | internal/simulate/match.go:163-202 | a set stopped at six games two clear is ten games played out, with five all worth two more games or six all |
| Playouts.PlayoutExchange | internal/simulate/match.go:38-46 | exchanging the units inside consecutive pairs changes the value of no schedule |
| MatchLaws.TiebreakMirror | internal/simulate/match.go:96-137 | a tiebreak is worth the same whoever serves first |
| MatchLaws.SetChanceMirror | internal/simulate/match.go:150-203 | a set, with or without an advantage decider, is worth the same whoever serves first |
| MatchLaws.ServeOrderDoesNotMatter | internal/simulate/match.go:38-63 | swapping the players mirrors the match chance for every pair of reals and every format, so who serves first does not matter |
| MatchOrders.EveryRungIsAChance | internal/simulate/match.go:26-63 | from chances, every rung of the chain is between nought and one |
| MatchOrders.BetterPointsNeverLoseMatches | internal/simulate/match.go:47-217 | the match chance never falls when A's serve improves or B's worsens, certain servers included |
| MatchOrders.BetterServeWinsMore | internal/simulate/match.go:47-217 | and it strictly rises when A's serve does, up to a pair short of certainty |
| MatchOrders.HoldDeterminesServe | internal/simulate/match.go:71-77 | equal holds come only from equal serves |
| MatchOrders.TiebreakSixAllIsConsistentIff | internal/simulate/match.go:123-128 | the value of six points all is what two more points imply exactly when the serves are equal or one is certain |
| MatchOrders.AdvantageSixAllIsConsistentIff | internal/simulate/match.go:156-161 | the same of six games all in an advantage set, in terms of the serves |
| MatchOrders.SixAllIsNotConsistentEverywhere | internal/simulate/match.go:123-128 | a pair of serves at which it fails |
| MatchInversion.Invert | internal/simulate/match.go:229-259 | the answer averages the clamped anchor with both serves from 0.01 to 0.99, reports the match it achieves, and is the middle of an interval of width 2*spread/2^60 whose ends are on their own sides of the target or where they started |
| MatchInversion.SplitsInBounds | internal/simulate/match.go:241-247 | the anchor is brought to the nearest serve from 0.01 to 0.99, and the splits searched are exactly those that leave both serves in those bounds |
| MatchInversion.SplitsInOrder | internal/simulate/match.go:229-259 | a wider split is a strictly better match, which is what the bisection relies on |
| MatchInversion.BracketMeaning | internal/simulate/match.go:237-259 | the final interval straddles every target within reach, contains every split that hits it, and touches the nearest end for every target that is not |
| MatchInversion.OutOfReach | internal/simulate/match.go:237-259 | a target out of reach is answered spread/2^60 short of the end nearest to it; one within reach lies between the matches of the splits that far either side of the answer |
| MatchInversion.OneSplitPerTarget | internal/simulate/match.go:229-236 | no two splits achieve the same match, so the pair found is the pair |
| IngestModel.ReadFile | internal/ingest/pipeline.go:283-368 | watched for any number of reads, a reader has sent the chunks those reads bring about, in order and as many as get through before a cancellation; it has ended, failed, been cancelled or is reading still, and on a broken body it never ends |
| IngestModel.ReadBody | internal/ingest/pipeline.go:317-367 | the reading loop, over a body that ends or that fails every read from some point on, sends exactly the batches its reads fill and closes only at the end |
| IngestModel.ScanKeepsRecords | internal/ingest/pipeline.go:317-352 | after any records the batches sent and the one still open hold the parsed rows in order and count every record; every batch sent has exactly the batch size, and the open one has fewer |
| IngestModel.PlanWellFormed | internal/ingest/pipeline.go:317-366 | the chunks of a file that ends carry its parsed rows in order, count every record seen, and end in exactly one closing chunk with the validator of what was read; a broken body is never closed and a beginning of its rows is sent |
| IngestModel.BrokenIsNeverRead | internal/ingest/pipeline.go:332-352 | however long its reader is watched, a broken body has neither ended nor had more sent than the full batches before the break, and those it has once the reads pass the break |
| IngestModel.Writer.constructor | internal/ingest/pipeline.go:161-166 | the writer starts with zero counts, nothing failed and no tallies |
| IngestModel.Writer.Consume | internal/ingest/pipeline.go:167-205 | one turn of the writer's loop takes the counts, the tallies, the store and the ledger to exactly the specified next state |
| IngestModel.Writer.Record | internal/ingest/pipeline.go:248-257 | a file is recorded only with a ledger and a validator, and a refusal leaves the ledger as it was |
| IngestProof.InvKept | internal/ingest/pipeline.go:125-205 | every step of every interleaving of feeder, readers, writer, failures and cancellation keeps the run's invariant |
| IngestProof.TakenContinues | internal/ingest/pipeline.go:125-170 | the chunk at the head of the channel continues its own file's plan where the writer left it |
| IngestProof.ClosedFileIsStored | internal/ingest/pipeline.go:184-192 | when a file's closing chunk, with a validator, is taken with nothing failed, every row of the file is stored and its tally has counted the whole file |
| IngestTheorems.LedgerNeverLies | internal/ingest/pipeline.go:164-205 | after any sequence of runs, failed, cancelled or killed, every file the ledger names is stored in full |
| IngestTheorems.SkippedFilesAreStored | internal/ingest/pipeline.go:285-294 | a file skipped as unchanged is one the store already held in full, in the version its ledger entry names |
| IngestTheorems.NilRunSettles | internal/ingest/pipeline.go:207-230 | a run that returns no error has read, skipped or found missing every planned file exactly when it read on to the end and lost none, and always when it was not cancelled |
| IngestTheorems.NilRunStoresEverything | internal/ingest/pipeline.go:161-230 | an uncancelled run with no error has stored every row of every file it read, none of them failed or broken, and seen = written + rejected + collapsed |
| IngestTheorems.ErrorBufferNeverFills | internal/ingest/pipeline.go:129-138 | the buffered error channel has room for every error any step can add |
| IngestTheorems.NeverStuck | internal/ingest/pipeline.go:125-211 | until the run returns, and unless a reader spins on a broken body, some step other than a cancellation is always possible, whatever has failed |
| IngestTheorems.StepsRunDown | internal/ingest/pipeline.go:125-211 | every step of the run but a cancellation lowers one bounded measure, broken bodies or not, so no schedule takes steps for ever |
| IngestTheorems.RunReturns | internal/ingest/pipeline.go:107-231 | from any reachable state in which no reader spins the run can go on to return, and with no cancellation unless a body that broke is still being read |
| IngestTheorems.SpinningNeverReturns | internal/ingest/pipeline.go:332-352 | once a reader has run out of full batches on a broken body it stays there and no schedule returns, cancelled or not |
| IngestTheorems.ReturnsIffNoneSpins | internal/ingest/pipeline.go:107-231 | from a reachable state some schedule returns exactly when no reader spins |
| IngestTheorems.ReturnsUncancelledIff | internal/ingest/pipeline.go:107-231 | with no further cancellation some schedule returns exactly when no reader spins and, short of an earlier cancellation, none is on a broken body |
| IngestTheorems.EndsReturnedUnlessSpinning | internal/ingest/pipeline.go:107-231 | where nothing but a cancellation is left to do, the run has returned exactly when no reader spins, and always when no body broke |
| IngestTheorems.BrokenBodyNeverReturns | internal/ingest/pipeline.go:334-350 | one file whose body breaks before its first row, after which no schedule returns |
| IngestTheorems.CancelledRunCanReturnNil | internal/ingest/pipeline.go:144-153 | a schedule in which a cancelled run returns no error with a file unread |
| IngestOutcomes.HistoryAccounts | internal/ingest/pipeline.go:161-205 | after any run, however it stopped, told from the chunks taken and the answers to their writes: the files skipped, missing and read are the chunks of each kind, the run has failed exactly when a batch could not be written, the rows written and collapsed are those of the batches before that, and each file's ledger entry is that of its last recorded closing, with what was seen and written of the file |
| IngestOutcomes.AnswerMeans | internal/ingest/pipeline.go:207-230 | a finished run answers that it failed exactly when a batch could not be written or a reader failed on a file; else that it found nothing exactly when no file sent whole had a body or was unchanged; else that all is well |
| IngestOutcomes.SummaryMeans | internal/ingest/pipeline.go:161-230 | an uncancelled run that did not fail counts each planned file once as read, unchanged or missing, every record of the bodies as seen and every unreadable one as rejected, the rest written or collapsed, and has found nothing exactly when every planned file was missing |
| IngestStore.SameMatchKey | internal/ingest/store.go:122-135 | two rows share a key exactly when they are the same match, winner and loser in either order |
| IngestStore.MatchesAndCollapsedAreRows | internal/ingest/store.go:371-389 | matches and collapsed rows add up to the rows |
| IngestStore.QueueKeys | internal/ingest/store.go:298-365 | every row is queued under its key, or the batch fails on a row naming an unwritten tournament or player |
| IngestStore.ReadAnswers | internal/ingest/store.go:366-389 | answers are read in queue order: each match keeps the id its last row was answered with, and repeats are counted as collapsed; an answer that is an error, or results that fail to close, fail the batch |
| IngestStore.UpsertMatches | internal/ingest/store.go:298-390 | a batch gives the ids and the collapsed count of all its rows, or nothing, exactly when a row names what was not written, an answer is an error, or the results of a batch that was sent fail to close |
| IngestReader.Reader.UniqueSynthetic | internal/ingest/reader.go:193-211 | the probe terminates while fewer than 31000 numbers are used, gives the first free number from its start round the range, and marks that one used for that tournament only |
| IngestReader.Reader.NumberFile | internal/ingest/reader.go:174-211 | numbers the source gave are kept, invented ones never repeat within a tournament of a file and never meet a given one |
| Brackets.GroupByRound | internal/simulate/draw.go:86-97 | the matches of each round in order, and each round once as first met |
| Brackets.CheckRounds | internal/simulate/draw.go:100-118 | accepts exactly when every round above the first is full and none is over-full |
| Brackets.CollectWinners | internal/simulate/draw.go:103-128 | who won what in each round, a later match of the same winner replacing an earlier |
| Brackets.Walker.Walk | internal/simulate/draw.go:130-148 | the walk appends the leaves under a winner and counts the byes among them, or fails where a player above the first round won nothing |
| Brackets.BuildBracket | internal/simulate/draw.go:81-158 | gives the entrants, byes, rounds and champion of the line the record rebuilds into, or the error it fails with |
| BracketLaws.RebuiltLinePlaysTheMatches | internal/simulate/draw.go:66-158 | soundness: a knockout record that is accepted becomes a line that, played forward, plays exactly its matches, each once and in its own round |
| BracketLaws.PlayedLineIsRebuilt | internal/simulate/draw.go:66-158 | completeness: the matches of any line, in any order, are accepted and give back that line |
| BracketLaws.RebuiltIffPlayed | internal/simulate/draw.go:66-158 | a knockout record rebuilds into a line exactly when that line plays its matches |
| KnockoutRecords.PlayedIsKnockout | internal/simulate/draw.go:66-80 | the matches of a line are a knockout: nobody meets themself, plays twice in a round, or plays on after losing |
| KnockoutRecords.PlayedIffKnockoutRebuilt | internal/simulate/draw.go:66-158 | a line plays a record exactly when the record is a knockout and rebuilds into that line |
| KnockoutRecords.NoKnockoutIsAcceptedToo | internal/simulate/draw.go:150-155 | a record that is no knockout, is accepted, and is not played by its line |
| BracketLaws.BracketShape | internal/simulate/draw.go:36-52 | a rebuilt bracket has a power of two of lines, the champion on the first, a bye on each empty line and one entrant more than matches |
| BracketLaws.NamesAreOfTheirRounds | internal/simulate/draw.go:101-112 | the i-th name is the round of some match of the i-th round played |
| BracketLaws.EntrantsAreOfTheirLines | internal/simulate/draw.go:130-148 | on every line stands the player it names, and the zero entrant where it names nobody or nobody known |
| BracketLaws.ChampionWonTheFinal | internal/simulate/draw.go:124-158 | the champion stands on the first line and won a match no other match comes after |
| BracketLaws.RefusedFor | internal/simulate/draw.go:81-112 | a record is refused for having no matches exactly when it has none, and for its size exactly when some round has more matches than the tree has room for or a round above the first has fewer |
| BracketTrees.TreePlays | internal/simulate/draw.go:66-80 | the winners-first line of a tournament tree plays the tree's own matches, round by round |
| BracketTrees.AnyTreeIsRebuilt | internal/simulate/draw.go:66-158 | the matches of any full tree, byes on its first line only, in any order, rebuild into that tree with each winner's half first |
| RebuiltDraws.RebuiltIsDrawn | internal/simulate/draw.go:130-158 | what a knockout record of known players rebuilds into can be simulated: every first-round pair holds a player |
| DrawOdds.StorePair | internal/simulate/montecarlo.go:173-184 | one pairing and its mirror are written, for two players the callback's answer for the lower line against the higher and one minus it, and every other pairing already written stands |
| DrawOdds.NewPairOdds | internal/simulate/montecarlo.go:166-187 | every pairing of entrants is the callback's chance asked one way round and mirrored the other, a bye losing to a player |
| DrawOdds.PairingsAsked | internal/simulate/montecarlo.go:160-187 | for two players on lines i < j the entry at i*n+j is the callback's answer for the first against the second and the two entries sum to one; a bye has no chance, and nobody loses to one |
| DrawOdds.CellIsFlat | internal/simulate/montecarlo.go:189 | the table's row and column land where the flat index i*n+j says |
| DrawOdds.PlayMatch | internal/simulate/montecarlo.go:136-146 | the winner of lines 2i and 2i+1 by the next number lands at i, and the rest of the field stands |
| DrawOdds.PlayRound | internal/simulate/montecarlo.go:135-147 | a round played in place equals the round played on a copy: no pair is read after it was overwritten, and each winner is counted once |
| DrawOdds.PlayOnce | internal/simulate/montecarlo.go:131-148 | one whole run in place adds to the tally exactly the winners of every round |
| DrawOdds.Work | internal/simulate/montecarlo.go:83-103 | a worker's tally counts, for each line and round, the runs of its share that the line won that round in |
| DrawOdds.SplitRuns | internal/simulate/montecarlo.go:83-92 | the runs split over the workers with the remainder to the first ones |
| DrawOdds.AddTally | internal/simulate/montecarlo.go:105-110 | adding a worker's counts gives the totals of all the workers so far |
| DrawOdds.RunDraw | internal/simulate/montecarlo.go:60-125 | each entrant's row is its share of the runs won round by round and its title, in line order, byes left out; ten thousand runs where fewer than one is asked for |
| DrawOddsLaws.BlockIsRange | internal/simulate/montecarlo.go:127-148 | after r rounds the block of a line is the 2^r lines around it |
| DrawOddsLaws.OneWinnerPerBlock | internal/simulate/montecarlo.go:127-148 | in every run exactly one line of each block of 2^r has won its first r rounds: the one at the block's place |
| DrawOddsLaws.StartIs | internal/simulate/montecarlo.go:96-103 | a worker's k-th run starts at its number k(n-1), n lines using a number for each of their n-1 matches |
| DrawOddsLaws.MatchDecided | internal/simulate/montecarlo.go:131-148 | match i of round r of any run is between places 2i and 2i+1 of the field before it and goes to the first exactly when the match's own number is below the entry of the odds in that line's row and the other's column |
| DrawOddsLaws.SurvivorsWereThere | internal/simulate/montecarlo.go:131-148 | whoever is in the field after a round was in it before |
| DrawOddsLaws.ByesNeverWin | internal/simulate/montecarlo.go:166-187 | a bye wins no round of any run, for any numbers in [0,1) |
| DrawOddsLaws.WinnersPerRound | internal/simulate/montecarlo.go:131-148 | each run has as many winners of a round as the round has matches |
| DrawOddsLaws.SharesAreTheRuns | internal/simulate/montecarlo.go:83-92 | the workers' shares add up to the runs asked for |
| DrawOddsLaws.ReachedSumsToMatches | internal/simulate/montecarlo.go:112-125 | over the entrants the chances of winning a round sum to the number of its matches, whatever the odds, the numbers and the split |
| DrawOddsLaws.TitlesSumToOne | internal/simulate/montecarlo.go:112-125 | over the entrants the titles sum to one |
| DrawOddsLaws.ReachedNeverRises | internal/simulate/montecarlo.go:112-125 | no entrant is likelier to win a round than the one before, and every figure is a chance |
| DrawOddsLaws.RowOfLine | internal/simulate/montecarlo.go:111-124 | there is a row for each player, in the order of the lines, with its own line's share of the runs for each round and the last of them for its title |
| DrawOddsLaws.TwoPlayerTitle | internal/simulate/montecarlo.go:60-125 | in a draw of two players the first line's title is the share of the numbers drawn, one a run, that lie below its chance of beating the second, over the shares of all the workers |
| Decimal.NumberOfDigits | internal/score/score.go:77-91 | a number reads back from its decimal digits |
| Scores.PrintScore | internal/score/score.go:182-191 | the printed line is the printed sets and the status word, joined by spaces |
| ScoreParser.Scanner.SkipDigits | internal/score/parse.go:250-255 | the position moves past the longest run of digits the cap allows |
| ScoreParser.Scanner.Int | internal/score/parse.go:250-269 | reads exactly what the specification reads at the position and advances past it, or leaves an error |
| ScoreParser.Scanner.ReadOne | internal/score/parse.go:272-306 | reads one set with its tiebreak as specified, the position strictly advancing |
| ScoreParser.ScanSets | internal/score/parse.go:182-199 | the scan of a token is all its sets, hyphen or digit between two, or an error |
| ScoreParser.ParseSuperTiebreak | internal/score/parse.go:201-219 | reads a bracketed match tiebreak, the closing bracket optional |
| ScoreParser.ParseToken | internal/score/parse.go:156-180 | reads a token greedily and, where that fails, a digit at a time |
| ScoreParser.HealFields | internal/score/parse.go:120-136 | rejoins a field left of a trailing hyphen and a field that opens a bracket |
| ScoreParser.NormaliseText | internal/score/parse.go:67-116 | strips prose and markers and names the outcome they say |
| ScoreParser.Parse | internal/score/parse.go:29-63 | a line is read as its tokens' sets and its outcome, with the empty and unreadable lines the errors the specification gives |
| ScoreLaws.ReadPrintedSet | internal/score/score.go:77-91 | a printed set reads back as itself before the end or a hyphen, short and long tiebreaks included |
| ScoreLaws.HyphenJoinedSetsReadBack | internal/score/parse.go:182-199 | printed sets joined by hyphens scan back to exactly those sets |
| ScoreLaws.SingleDigitsReadBack | internal/score/parse.go:156-180 | read a digit at a time, sets run together come apart where they were joined |
| ScoreLaws.GreedyTogether | internal/score/parse.go:182-199 | the greedy scan of plain sets run together fails for an even number of them and accepts an odd number as about half as many |
| ScoreLaws.RunTogetherReadBackIff | internal/score/parse.go:156-180 | plain sets run together are told apart exactly when there is one or an even number of them |
| ScoreRoundTrip.PrintReadsBack | internal/score/parse.go:156-219 | a printed set, match tiebreaks included, is a token that reads back as that set alone |
| ScoreRoundTrip.HealKeepsEveryCharacter | internal/score/parse.go:118-136 | healing only rejoins: no character of the fields is lost, added or moved |
| ScoreRoundTrip.NormalisePrinted | internal/score/parse.go:67-116 | a line of clean tokens and a status word is left as those tokens and that outcome |
| ScoreRoundTrip.PrintThenRead | internal/score/score.go:182-206 | printing then parsing gives the sets back and the outcome the status word names, a line of no sets and no status word being Unknown |
| ScoreRoundTrip.AcceptedScores | internal/score/parse.go:29-63 | every accepted score can be printed, and a completed one has at least one set |
| ScoreRoundTrip.ParsePrintParse | internal/score/parse.go:29-63 | for every accepted line, parsing the printed score gives the same sets, and the same outcome unless that was Abandoned |
| ScoreRoundTrip.PrintingSettles | internal/score/score.go:182-191 | once through the parser, a score prints the same way again |
| ScoreReadings.GamesAsWritten | internal/score/parse.go:272-287 | "a-b" is a games for the winner and b for the loser, and no tiebreak |
| ScoreReadings.TiebreakAsWritten | internal/score/parse.go:288-306 | "a-b(c-d)" is that set with a tiebreak of c for its winner and d, whatever they are |
| ScoreReadings.ShortTiebreakAsWritten | internal/score/parse.go:12-20 | "a-b(p)" is that set with a tiebreak of w to p where w is seven or, where that is not two clear, p + 2 |
| ScoreReadings.SevenSix | internal/score/parse.go:12-20 | the same of "7-6(p)" for every p up to 99 |
| ScoreReadings.MatchTiebreakAsWritten | internal/score/parse.go:201-219 | "[c-d]" is a match tiebreak of c to d and no games |
| ScoreReadings.SplitSetsAreJoined | internal/score/parse.go:118-136 | "a-" and "b" with a space between are one set, and so are a set and its tiebreak in brackets |
| ScoreReadings.WordSaysOutcome | internal/score/parse.go:83-114 | any sets followed by W/O, WO, RET, DEF, ABD, UNK or ?-? are read as those sets and a walkover, a retirement, a default, an abandoned match or an unknown outcome |
| ScoreReadings.WordsHoweverWritten | internal/score/parse.go:92-102 | each of those words counts in small letters or capitals, with or without a full stop or comma |
| ScoreReadings.ProseSaysAbandoned | internal/score/parse.go:71-81 | any sets followed by prose that starts "played and", "unfinished" or "abandoned", however capitalised, are read as those sets of an abandoned match |
| ScoreReadings.SetsAlone | internal/score/parse.go:29-63 | any sets alone are a completed match, and no sets an unknown one |
| ScoreReadings.CompletedIsAllRead | internal/score/parse.go:46-62 | a match is called completed only when every token of its line gave a set |
| RatingEngine.WeekOfIsMonday | internal/rating/engine.go:262-268 | a week is named by a Monday and holds the seven days from it |
| RatingEngine.Engine.constructor | internal/rating/engine.go:89-96 | a new engine has rated nobody and written nothing |
| RatingEngine.Engine.RateMatch | internal/rating/engine.go:204-216 | both players of a series move by the update from their ratings before it, both are counted and marked as moved; how far each moves is `RateMoves` |
| RatingEngine.Engine.SortedKeys | internal/rating/engine.go:230-249 | the keys moved this week by player, then by the name of the series |
| RatingEngine.Engine.Flush | internal/rating/engine.go:230-260 | the week's rows are written in order up to the first refusal, and the week is closed exactly when none is refused |
| RatingEngine.Engine.MakePrediction | internal/rating/engine.go:172-183 | the prediction is from the overall ratings before the result |
| RatingEngine.Engine.Add | internal/rating/engine.go:98-123 | a result of an earlier week is refused; otherwise the old week is written if a new one opens and the result is rated in the overall and its surface series |
| RatingEngine.Engine.Close | internal/rating/engine.go:125-126 | the open week is written |
| RatingEngine.Engine.Rating | internal/rating/engine.go:128-136 | a rating and its matches, the base for an unrated series |
| RatingMoves.RateMoves | internal/rating/elo.go:12-24 | the winner rises by k(its own matches) * weight * (1 - expected) and the loser falls by k(its own matches) times the same, from 1500 and no matches if unrated; both have a match more, and nobody else is touched |
| RatingMoves.RatedMoves | internal/rating/engine.go:117-123 | a result so moves the overall series and its surface's, each from where it stood before the result, and no other entry |
| RatingMoves.AddMoves | internal/rating/engine.go:98-123 | so it does to the ratings of an engine that takes it, whether or not it opens a week |
| RatingMoves.RateSelf | internal/rating/engine.go:204-216 | a result of a player against itself falls on its one entry as a loser's and counts twice |
| RatingMoves.PredictedBefore | internal/rating/engine.go:172-183 | a prediction is the expected score of the winner's overall rating against the loser's before the result, with the matches behind each |
| RatingMoves.KeysByPlayerThenName | internal/rating/engine.go:238-243 | rows are ordered by player and, within one, by the series' name as text |
| RatingLaws.ReplayAll | internal/rating/run.go:55-63 | a whole run succeeds only in week order with every row accepted, the rows are then the log, and in order it fails only on a refused row with a prefix of the log written |
| RatingLaws.SparseLogIsDense | internal/rating/engine.go:64-123 | for any run in week order, closed at the end, the last row of a series at or before a week is its state after every result up to that week, and there is none exactly when it is unrated by then |
| RatingLaws.LogIncreases | internal/rating/engine.go:226-260 | the log strictly increases in week, player and series |
| RatingLaws.RowsAreWeeksPlayed | internal/rating/engine.go:64-70 | a series has a row for a week exactly when some result of that week names it |
| RatingLaws.LogCountsMatches | internal/rating/engine.go:46-63 | the matches on the row read at a week are the results that counted for the series by then |
| RatingLaws.DaysMayGoBack | internal/rating/engine.go:98-113 | results of one week are taken in either order of days, with the same end exactly when the second step undoes the first |
| RatingLaws.DayOrderMatters | internal/rating/engine.go:98-113 | curves and two results of one week, in reversed days, that are accepted and end elsewhere than in calendar order |
| RatingLaws.UnplayedStands | internal/rating/engine.go:64-70 | a series nobody moved in a week stands where the week before left it |
| RateLimit.RateLimiter.constructor | internal/httpapi/ratelimit.go:36-43 | a minute's calls in a burst, refilled over a minute, with no buckets |
| RateLimit.RateLimiter.Sweep | internal/httpapi/ratelimit.go:72-84 | drops exactly the buckets idle for ten minutes, at most once a minute |
| RateLimit.RateLimiter.Allow | internal/httpapi/ratelimit.go:45-70 | sweeps, refills the caller's bucket up to the burst, and spends a token or answers the wait; no other bucket changes |
| RateLimit.Serve | internal/httpapi/ratelimit.go:24-70 | the answers of a whole run in time order |
| RateLimitLaws.EvictionIsUnseen | internal/httpapi/ratelimit.go:72-84 | over any run in time order every answer, with its wait, is the one a limiter that never evicts gives |
| RateLimitLaws.AnswersAreOnesOwn | internal/httpapi/ratelimit.go:45-70 | an answer is that of the client's own calls alone |
| RateLimitLaws.AllowanceHolds | internal/httpapi/ratelimit.go:20-70 | a client is allowed at most a burst and the refill of the span, over any span of any run |
| RateLimitLaws.BurstIsAllowed | internal/httpapi/ratelimit.go:34-70 | with n calls a minute allowed, the first n of a client's calls at one instant are allowed and every further one is told to wait the least whole number of seconds w with w*n at least sixty |
| RateLimitLaws.WaitIsLeast | internal/httpapi/ratelimit.go:60-69 | the wait is the least whole number of seconds whose refill brings a token |
| RateLimitLaws.WaitingIsEnough | internal/httpapi/ratelimit.go:45-70 | a client that waits as told, with no call allowed in between, is admitted; a whole second too soon, it is not |
| Identity.InsertionSort | internal/identity/identity.go:98-107 | sorts the words of a name in place: the same words, in order |
| Identity.Key | internal/identity/identity.go:89-109 | the folded words of a name, commas as spaces, sorted and joined |
| Identity.KeysAgreeIff | internal/identity/identity.go:89-109 | two names share a key exactly when they have the same words equally often, in any order |
| Identity.CommasAreSpaces | internal/identity/identity.go:96-97 | a comma in a name stands for a space, and every other character for itself |
| Identity.ScoreIsSymmetric | internal/identity/identity.go:111-180 | which player is which side does not matter to a score |
| Identity.AutoMeans | internal/identity/identity.go:111-180 | a pair merges unasked exactly when birth dates agree with countries not at odds or, short of two dates, countries agree and known birth years do |
| Identity.ScoreCases | internal/identity/identity.go:111-180 | what every pair that shares a key scores, case by case: by two dates of birth with the countries; short of them by country and the years of birth, agreeing, one apart with one of them exact, further apart or unknown |
| Identity.StubMeans | internal/identity/identity.go:60-79 | a stub is a row whose source id is empty or not all digits, or that no player table carries |
| Identity.BestTwo | internal/identity/identity.go:325-339 | the highest scoring candidate and the best of the rest, where there are so many |
| Reconciling.FoldDay | internal/identity/identity.go:296-313 | every row of a day after the longest career is folded into it, and dropped |
| Reconciling.FoldSameSource | internal/identity/identity.go:279-323 | every backed row that does not lead its day is folded into the one that does, once; the rest remain |
| Reconciling.LeadsMeans | internal/identity/identity.go:296-304 | a row leads its day when it has more matches than every other row of it or, of those with as many, the lowest id |
| ReconcilePlan.LinkStub | internal/identity/identity.go:248-275 | a stub is linked to a best candidate when that is worth proposing, for review where another does as well |
| ReconcilePlan.StubLinkSays | internal/identity/identity.go:248-275 | a stub's link is as sure as it scores, or 0.50 where another candidate scores as well; it is never below 0.50 and merges unasked from 0.90 |
| ReconcilePlan.ReconcileGroup | internal/identity/identity.go:233-277 | the links of namesakes: each the one it should be, each row at most once, and exactly the rows to be folded |
| ReconcilePlan.Reconcile | internal/identity/identity.go:207-231 | the plan of a tour is a star forest, each link is one its group calls for, and a player is folded exactly when his group calls for it |
| ReconcilePlan.PlanIsStarForest | internal/identity/identity.go:233-323 | nobody is folded twice, and nobody others are folded into is folded |
| ReconcilePlan.AutoIsStrictlyBest | internal/identity/identity.go:248-275 | a stub is merged unasked only into a candidate that scores strictly above every other |
| ReconcilePlan.MergedIsHome | internal/identity/identity.go:207-231 | merging a star forest in the order given leaves everybody's matches with the row their link names |
| ReconcilePlan.MergeOrderDoesNotMatter | internal/identity/identity.go:207-231 | the links may be merged in any order with the same end |
| Events.OnePlace | internal/events/events.go:186-258 | a row has one place among given rows |
| Events.OrdinalsWithinSeason | internal/events/events.go:348-379 | each waiting row gets its ordinal: one more than the rows of its name, tour, tier and season before it in the calendar |
| Events.OrdinalIsPosition | internal/events/events.go:352-379 | the ordinal of a row is its position in its group in calendar order |
| EventResolving.OrdinalReadsBack | internal/events/events.go:335-346 | a name's key reads back as its ordinal, the first of a name as none |
| EventResolving.NameKeysDiffer | internal/events/events.go:146-155 | keys of two names, or of two editions of one, never collide |
| EventResolving.Sift | internal/events/events.go:186-221 | team ties, overridden and numbered rows are placed at once, and the rest wait in order |
| EventResolving.PlaceByName | internal/events/events.go:222-258 | the first of a name is bridged to a numbered event when exactly one carries it, and keyed by name otherwise |
| EventResolving.PlaceAll | internal/events/events.go:186-258 | every row is placed, on its one place |
| EventResolving.Gather | internal/events/events.go:260-278 | every event's editions, each placed row once, and the rows counted by link |
| EventResolving.Build | internal/events/events.go:279-312 | an event for each key, its editions in order, and its name, ordinal and span from them |
| EventResolving.Resolve | internal/events/events.go:186-312 | the events of the rows and the counts by link |
| EventReadings.PlacedByItself | internal/events/events.go:186-220 | a team tie goes to its competition; any other row with an override to the override's number, whatever its own; and one with a number to that |
| EventReadings.PlacedByName | internal/events/events.go:222-258 | a row of a name goes to the name's run numbered by how many of the name came before it in the season; the first to the one number with an edition of the name, if exactly one has, and to the bare run otherwise |
| EventReadings.EventSays | internal/events/events.go:279-303 | an event's editions come by season, start and id, its first and last seasons are the least and greatest of theirs, and its name is the pinned one where there is one |
| EventReadings.EventsByTourThenKey | internal/events/events.go:304-310 | the events come by tour and, within one, by key |
| EventReadings.CountsSay | internal/events/events.go:260-263 | each figure of the report is the number of rows its own link placed |
| EventResolving.OneResolution | internal/events/events.go:168-312 | a set of rows has only one resolution |
| EventResolving.OrderOfRowsDoesNotMatter | internal/events/events.go:168-312 | the same rows in any order give the same events |
| EventResolving.OneEventPerRow | internal/events/events.go:168-185 | a row is an edition of exactly one event, under one link |
| EventResolving.CountIsLinked | internal/events/events.go:260-278 | each count is the number of rows its link placed |
| EventResolving.CountsAreOfAllRows | internal/events/events.go:260-278 | the counts by link sum to the rows |
| EventResolving.EarlierIsLower | internal/events/events.go:348-379 | an earlier row of a group has a lower ordinal |
| EventResolving.OrdinalsRunFromOne | internal/events/events.go:348-379 | the ordinals of a group in calendar order are 1, 2, 3, ... |
| EventResolving.OneEditionPerSeason | internal/events/events.go:222-258 | an event keyed by name has at most one edition in a season |
| EventSlugs.TriesRunOut | internal/events/store.go:181-197 | a free slug is found within one try more than there are slugs taken |
| EventSlugs.Mint | internal/events/store.go:178-197 | the first of the base and its numbered forms that is not taken, the base carrying the tour |
| EventSlugs.BaseCarriesTour | internal/events/store.go:178-188 | a new slug's base is the name's slug, or the key's where that is empty, and has the tour as a word: where it is already, or put at the end |
| EventSlugs.MintedSays | internal/events/store.go:189-197 | a slug minted is the base where that is free and otherwise the base with the least number from two that is |
| EventSlugs.AssignSlugs | internal/events/store.go:75-105 | every event keeps the slug it had; the new ones are named most recent first, then longest, then by key, each getting the first of its tries that is then free, so none repeats; and only slugs change |
| EventSlugs.NamedBefore | internal/events/store.go:80-101 | of two new events the more recent is named first, then the one with more editions, then the lesser key |
| EventSlugs.SlugsStayDistinct | internal/events/store.go:75-105 | no two events share a slug if none did |
| EventSlugs.AssigningAgainChangesNothing | internal/events/store.go:60-105 | run again on what it wrote, it mints nothing and changes no slug |
| Charting.KeysAgreeIff | internal/charting/resolve.go:214-219 | two keys agree exactly when the rounds do, spaces aside, and the surnames do, in either order |
| Charting.IndexRow | internal/charting/resolve.go:47-60 | a row is kept under every pair of its players' surnames, by its round and by none |
| Charting.NewIndex | internal/charting/resolve.go:47-60 | under each key, exactly the rows kept under it, in order |
| ChartingLookup.UnderPairIff | internal/charting/resolve.go:102-120 | a row is under a pair of surnames exactly when its players have them, either way round |
| ChartingLookup.Candidates | internal/charting/resolve.go:100-120 | exactly the rows a linear reading would find - in window, in the round, both players the same person, a surname shared by each - once each |
| ChartingLookup.Resolve | internal/charting/resolve.go:62-98 | the one row strictly nearest in time, asking for the round first and then for any; otherwise not found or ambiguous |
| ChartingReadings.NearerMeans | internal/charting/resolve.go:31-134 | the window is a week before an event's start to three weeks after it, and in it an event that had begun is nearer than one that had not, the later of two that had, and the earlier of two that had not |
| ChartingReadings.SurnamesAre | internal/charting/resolve.go:189-212 | a name's surnames are the words after its first that are no particles, and all the words after its first run together; of a single word, that word |
| ChartingReadings.SamePersonWhen | internal/charting/resolve.go:136-161 | two names are one person's when spelt alike, spaces aside, and otherwise only with a surname in common and the same initial or a given name in common |
| ChartingReadings.WhoIsWho | internal/charting/resolve.go:92-98 | the answer gives each charted player the id of the row's player it is |
| ChartingLookup.AnswerKind | internal/charting/resolve.go:62-98 | which of the three answers is right depends on the rows alone |
| ChartingLookup.AnswersAgree | internal/charting/resolve.go:62-98 | a lookup has one right answer, the same in whatever order the rows were read |
| ChartingLookup.SpacesAloneAreNotFound | internal/charting/resolve.go:136-161 | a row whose players agree only with spaces dropped is not found |
| HeadToHeads.Splits.AddSplit | internal/httpapi/h2h.go:488-497 | one more match, and one more win for the side, on the named split; a new name goes last |
| HeadToHeads.Splits.CollectSplits | internal/httpapi/h2h.go:499-505 | the splits in the order their names were met |
| HeadToHeads.BuildHeadToHead | internal/httpapi/h2h.go:376-486 | the record, serve totals, closeness, splits and meetings of the rows a filter keeps, in order |
| HeadToHeads.OtherEndIsTheMirror | internal/httpapi/h2h.go:376-486 | asked for the other way round, with the serve lines the other way round, the comparison is the mirror image under any filter |
| HeadToHeads.SplitsAddUp | internal/httpapi/h2h.go:376-505 | the surface splits and the tier splits each add up to the record, in matches and in each side's wins |
| HeadToHeadReadings.KeepsTheWanted | internal/httpapi/h2h.go:189-238 | a meeting is kept exactly when it meets each condition the filter has |
| HeadToHeadReadings.RecordIsCounted | internal/httpapi/h2h.go:427-431 | the record counts the meetings asked for, each side's wins among them and those left unfinished |
| HeadToHeadReadings.ClosenessIsCounted | internal/httpapi/h2h.go:388-409 | over all the meetings, whatever the filter: how many say whether they went the distance, how many did and to whom, and how many tiebreaks each side won |
| HeadToHeadReadings.ServeIsCounted | internal/httpapi/h2h.go:300-322 | each side's serve totals add up its own lines of the meetings asked for, figure by figure, lines without serve points left out |
| HeadToHeadReadings.SplitsAreCounted | internal/httpapi/h2h.go:437-444 | there is one split for each surface and each tier met among the meetings asked for, with their number and each side's wins |
| HeadToHeadReadings.MeetingsAreKept | internal/httpapi/h2h.go:432-480 | the meetings asked for are passed on in order with who won and the tiebreaks in the order of the players, with their tiers and the last of their seasons |

## Left out

- Postgres, HTTP handlers, CSV and JSON, configuration, logging and the generated queries: foreign calls or plumbing.
- Floating-point rounding: reals throughout. The exponent of the K-factor, the expected-score formula and the weights are parameters of the replay.
- Machine integers: counters and the digits of a score are unbounded, so a number too long for 64 bits is not modelled.
- Case folding of letters outside ASCII in score lines, and byte offsets: the prose and the marker words are searched in a text folded letter by letter, so the two texts have the same positions. The program slices the original by an offset into a lower-cased copy (`internal/score/parse.go:150-152`), whose bytes can differ in number when a letter's lower case is longer or shorter, and can then run past the end; the model does not capture that.
- Name folding, the id patterns and slug making are functions about which nothing is assumed beyond what a contract says.
- The counting methods of a score (sets won and decided, games, tiebreaks, whether it went to a decider): one loop each, nothing that spans operations.
- The random generator and the confidence interval of a title: the numbers drawn are any stream in [0,1).
- Goroutines of the simulation: each worker owns its arrays and its stream, so they are modelled one after another. In the ingest every send, take, cancellation and return is a step of its own; opening a file, and the reads between two sends, are part of the step before.
- Pointers shared through maps (a series' state, a client's bucket, a split, a file's tally) are entries updated in their map.
- The overrides file's unmatched entries, the ambiguous and numbered name counts, and display names from editions: reporting beside the events.
- Hand decisions about merges and the SQL that carries a merge out: decisions may chain, and their order is the database's.
- The wording of errors and of merge reasons.
- Serve percentages, availability explanations and the players' own details in a comparison.
- The share of the runs is split before the workers start rather than as each starts; the shares are the same.
- NormaliseText: see the line on case folding above.
- Parse: the same.
- EventResolving.Resolve: gives the events and the counts by link, not the ambiguous and numbered name counts or the unmatched overrides.
- BuildHeadToHead: not the players, the filters echoed back, the number of all meetings, or the serve rates made of the totals.
- RunDraw: not the seed it echoes or the interval of each title; and a draw with rounds has 2^rounds lines, as `BuildBracket` makes it; the program takes any. The sums over entrants also need a player in every first-round pair, which `RebuiltIsDrawn` gives for what is rebuilt from a knockout record of known players.
- LedgerNeverLies: a validator names one content of a file; a mirror that gives the same validator to two contents is not modelled, and nor is a read that fails once and then goes on past what it lost, as one rejected row, to an end that is recorded.
- ClosedFileIsStored: a file whose mirror gives no validator is never recorded, so nothing is said of it here; `NilRunStoresEverything` covers it.
- UniqueSynthetic: fewer than 31000 numbers used and a start in the invented range, since the program would probe for ever otherwise.
- NumberFile: at most 31000 rows of a tournament in a file need an invented number, for the same reason.
- RebuiltLinePlaysTheMatches: needs a knockout record, which the program does not check; `NoKnockoutIsAcceptedToo` shows why.
- OneEditionPerSeason: folded names and tiers have no colon, as the folding and the tiers of the source guarantee.
- NameKeysDiffer: the same, and OrdinalReadsBack with it.
- Candidates: folded names have no bar, as the folding of the source guarantees.
- OtherEndIsTheMirror: every meeting was won by one of the two players, as the query selects them.
- EvictionIsUnseen: the clock never goes back and at least one call a minute is allowed, and likewise for the other laws of the limiter.
- SparseLogIsDense: weeks from the year 1 on, the engine's initial week.
