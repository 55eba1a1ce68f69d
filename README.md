# BallersLab tournament core, modelled in Dafny

BallersLab runs single-elimination basketball tournaments. This project models the core of its backend and one client hook:

- **Registration.** A tournament is created open for registration. Players join it by id or by its code, and may leave while registration is open. A creator may update or delete their own tournament under guards.
- **Status sweep.** A scheduled sweep moves every live tournament through its statuses by its dates and its player count. The manual status route bypasses the rule.
- **Bracket generation.** When a tournament starts, its bracket is generated:
  - the number of slots is the least power of two that holds the registered players;
  - one match is created per position, in rounds that halve;
  - each match is linked to the match its winner feeds;
  - the shuffled players are seated in round one by the standard seed order, and byes advance at once.
- **Match progression.** Both players of a match report the score. Two agreeing reports confirm the match and advance the winner. Two differing reports dispute it.
- **Client side.** The tournament list can be sorted by five keys in either direction. Tournament codes are random six-character strings over A-Z and 0-9, drawn until one is free.

The database is the class `Store.Store`, with one map per table and a `nextId` counter for new brackets and matches. The bracket and match services, the status service and the route handlers are methods that read and write that object, in the order the source issues its queries. The pure parts are functions, and lemmas state their properties:

- the bracket arithmetic;
- the seed order;
- the status rule;
- the comparator;
- the views.

Modules:

- `Wrappers`: Option and Result.
- `Entities`: the records and the statuses.
- `BracketMath`: slots and rounds.
- `Seeding`: the seed order, the matchups and the shuffle.
- `Layout`: planning and linking the matches.
- `SeededLayout`: seating round one.
- `Store`: the store and bracket generation.
- `Views`: `formatMatchData`, `formatBracketData` and `getRoundName`.
- `MatchService`: the score protocol.
- `Lifecycle`: the status service.
- `Registration`: the tournament routes.
- `Sorting`: the sorting hook.
- `Codes`: the code generator.

No modelled operation assigns a tournament code. `Registration.Create` stores none, as the create route does. A successful `Registration.JoinByCode` therefore needs a tournament whose code was set by a route outside this model; `Codes.GenerateUniqueTournamentCode` models how such a code is drawn.

Source paths below are relative to the repository root.

## Model

| member | source | states |
|---|---|---|
| BracketMath.CeilLog2 | backend/services/bracketGenerationService.js:42 | `Math.ceil(Math.log2(n))` is the least k with 2^k >= n |
| BracketMath.TotalSlotsIsLeastPowerOfTwo | backend/services/bracketGenerationService.js:42 | totalSlots is a power of two, at least the player count, and no smaller power of two is |
| BracketMath.ByesBelowHalf | backend/services/bracketGenerationService.js:42-44 | with at least two players the slots are even, more than half of them hold players, and the byes are fewer than half, so no matchup pairs two byes |
| BracketMath.Log2 | backend/services/bracketGenerationService.js:43 | the logarithm of a power of two is exact: 2^result is the argument |
| BracketMath.RoundsMatchSlots | backend/services/bracketGenerationService.js:306-308 | `calculateRounds(n)` equals `log2(totalSlots)` for the same n |
| BracketMath.RoundStartClosedForm | backend/services/bracketGenerationService.js:86-97 | rounds 1 .. r-1 of an R-round bracket hold 2^R - 2^(R-r+1) matches |
| BracketMath.TotalMatches | backend/services/bracketGenerationService.js:86-97 | a bracket of R rounds holds 2^R - 1 matches |
| BracketMath.InRoundUnique | backend/services/bracketGenerationService.js:86-97 | every match position lies in exactly one round |
| BracketMath.RoundOf | backend/services/bracketGenerationService.js:86-97 | every position of the bracket has a round it lies in |
| BracketMath.ParentInNextRound | backend/services/bracketGenerationService.js:130-141 | the match a round-r position feeds lies in round r+1 |
| BracketMath.TwoPredecessors | backend/services/bracketGenerationService.js:130-141 | exactly the two positions 2j and 2j+1 of round r feed match j of round r+1 |
| Seeding.BuildSeeds | backend/services/bracketGenerationService.js:219-228 | the recursive doubling loop computes the seed order of n slots |
| Seeding.SeedOrderIsPermutation | backend/services/bracketGenerationService.js:219-228 | the seed order of n slots lists each seed 1..n exactly once |
| Seeding.SeedOrderPairs | backend/services/bracketGenerationService.js:223-226 | adjacent seeds 2i, 2i+1 sum to n+1, and the first of each pair is a top-half seed |
| Seeding.GenerateSeedOrder | backend/services/bracketGenerationService.js:214-231 | fails exactly when the slot count is not a power of two; otherwise returns the seed order, a permutation of 1..n |
| Seeding.Matchups | backend/services/bracketGenerationService.js:204-206 | matchup i pairs order[2i] with order[2i+1], which is absent past the end |
| Seeding.MatchupsOfSeedOrder | backend/services/bracketGenerationService.js:200-209 | every matchup of the seed order pairs a top-half seed s with its partner n+1-s |
| Seeding.GenerateCorrectBracketMatchups | backend/services/bracketGenerationService.js:200-209 | fails exactly when the slot count is not a power of two; otherwise the matchups of the seed order, each pairing a top seed with its partner |
| Seeding.PlayerWithSeed | backend/services/bracketGenerationService.js:165-182 | the player holding seed s, when seeds are numbered by list position, exists exactly for 1 <= s <= n and is the (s-1)th player |
| Seeding.ShuffleArray | backend/services/bracketGenerationService.js:313-320 | the shuffle returns a permutation of its input |
| Seeding.PermutationKeepsDistinct | backend/services/bracketGenerationService.js:162 | shuffling a list of distinct players gives distinct players, and the same ones |
| Layout.PlanMatches | backend/services/bracketGenerationService.js:82-97 | round by round, 2^(R-r) rows for round r, numbered 1, 2, ... across the bracket, all WAITING_FOR_PLAYERS without players or successor |
| Layout.LinkedRowShape | backend/services/bracketGenerationService.js:111-146 | a linked match has a successor exactly when its round is not the last, and the successor is the next-round match its pair feeds |
| Layout.FilterRoundOfBlock | backend/services/bracketGenerationService.js:113-127 | over matches laid out by position, the ordered round query returns exactly that round's block of ids, in order |
| Layout.PairIds | backend/services/bracketGenerationService.js:136 | the pair at i is both ids, or the one id when the round has an odd count |
| Layout.LinkPairsEffect | backend/services/bracketGenerationService.js:130-144 | after n pairs of a round, its first 2n matches point at the next-round match their pair feeds, and nothing else has changed |
| Layout.LinkRoundsKeepQueries | backend/services/bracketGenerationService.js:111-146 | linking changes only successor links, so every later round query returns the same ids |
| Layout.LinkedBracket | backend/services/bracketGenerationService.js:111-146 | linking rounds 1 .. R-1 of a freshly planned bracket gives every position its planned row with its link |
| Layout.LinkedBracketOutside | backend/services/bracketGenerationService.js:111-146 | linking a bracket changes no match outside it |
| SeededLayout.AssignRoundOne | backend/services/bracketGenerationService.js:184-193 | two resolved seeds give a PENDING match between them; one gives a BYE for that player; none leaves the row as it was |
| SeededLayout.ByeAdvance | backend/services/bracketGenerationService.js:268-299 | the bye player takes player1 if it is empty and player2 otherwise; the successor is PENDING exactly when both slots are filled after the write |
| SeededLayout.LinkedIsSeedable | backend/services/bracketGenerationService.js:152-158 | a freshly linked bracket has its round-one matches first, each pointing at round-two position 2^(R-1) + j/2 |
| SeededLayout.LinkedRoundOne | backend/services/bracketGenerationService.js:152-158 | the round-one query of a freshly linked bracket returns its first 2^(R-1) ids, in order |
| SeededLayout.SeatMatchupShape | backend/services/bracketGenerationService.js:177-194 | one seating step writes only the seated match and, for a bye, its successor; no successor link changes |
| SeededLayout.SeededMapSeated | backend/services/bracketGenerationService.js:177-194 | after the first `done` matchups, round-one match j < done holds the players of matchup j |
| SeededLayout.RoundOneSeated | backend/services/bracketGenerationService.js:177-194 | after seeding, every round-one match holds its top-seed player as player1, PENDING against the partner seed's player or a BYE with no player2 |
| SeededLayout.SeededBracket | backend/services/bracketGenerationService.js:151-195 | seeding keeps the table's ids and every match's position fields, changes nothing outside the bracket, and seats every round-one match |
| Store.Store.ListRegisteredPlayers | backend/services/bracketGenerationService.js:34-35 | lists each REGISTERED participant of the tournament exactly once |
| Store.Store.UpdateNextMatchMany | backend/services/bracketGenerationService.js:133-142 | every listed match, and only those, now points at the successor |
| Store.Store.CreateBracketRecord | backend/services/bracketGenerationService.js:49-55 | a new bracket under a fresh id, with the rounds and players given and no matches yet |
| Store.Store.CreateMany | backend/services/bracketGenerationService.js:100-102 | the rows are stored in order under consecutive fresh ids, older matches unchanged |
| Store.Store.CreateAllMatches | backend/services/bracketGenerationService.js:82-106 | 2^R - 1 new matches at consecutive ids, each the linked row of its position; older matches unchanged |
| Store.Store.SetupNextMatchRelationships | backend/services/bracketGenerationService.js:111-146 | the match table after the round loop is the linking of the table before it |
| Store.Store.LinkRound | backend/services/bracketGenerationService.js:113-144 | one round pass: the two ordered queries, then every pair linked to its next-round match |
| Store.Store.AssignPlayersToMatch | backend/services/bracketGenerationService.js:236-245 | the match gets both players and becomes PENDING; nothing else changes |
| Store.Store.AssignPlayerVsBye | backend/services/bracketGenerationService.js:250-263 | the match becomes a BYE for the player, who then advances to the successor |
| Store.Store.AdvanceByePlayerToNextRound | backend/services/bracketGenerationService.js:268-299 | a successor, when there is one, receives the bye player as ByeAdvance states |
| Store.Store.SeatPlayers | backend/services/bracketGenerationService.js:184-193 | one loop iteration of seeding on the store, as SeatMatchup states |
| Store.Store.SeedPlayersWithByes | backend/services/bracketGenerationService.js:151-195 | the seeded order is a permutation of the players, and the table becomes the seeding of all matchups of the standard seed order |
| Store.Store.GenerateBracket | backend/services/bracketGenerationService.js:8-77 | fails, writing nothing, exactly for a missing tournament, one already marked generated, or fewer than two REGISTERED players; otherwise marks the tournament and builds a fresh bracket whose players, a permutation of the registered ones, are seated by the seed order with byes advanced |
| Store.Store.BuildBracket | backend/services/bracketGenerationService.js:41-69 | the bracket record and 2^R - 1 linked matches are created at fresh ids; the seeded players are a permutation of the registered ones, seated by the seed order with byes advanced; older matches are untouched |
| Store.GeneratedFromSeeding | backend/services/bracketGenerationService.js:57-61 | creating, linking and seeding a bracket gives exactly the new block of ids, keeps older matches, keeps position fields and seats round one |
| Store.GeneratedSeatsEachPlayerOnce | backend/services/bracketGenerationService.js:151-195 | in a generated bracket every registered player sits in exactly one slot of exactly one round-one match |
| Store.GeneratedRoundTwo | backend/services/bracketGenerationService.js:250-299 | in a generated bracket, round-two match t holds the byes of its feeders 2t and 2t + 1, the earlier first; it is PENDING exactly when both feeders were byes, and has no winner |
| SeededLayout.SeatedExactlyOnce | backend/services/bracketGenerationService.js:177-194 | after every matchup is seated, each seeded player occupies exactly one slot of round one |
| SeededLayout.SeededMapRoundTwo | backend/services/bracketGenerationService.js:268-299 | after the first `done` matchups, round-two match t holds the bye advancements of those of its feeders seated so far |
| SeededLayout.RoundTwoAfterSeeding | backend/services/bracketGenerationService.js:268-299 | after seeding, an empty round-two match holds the byes of its two feeders, PENDING exactly when both exist |
| Views.FindSubmission | backend/services/bracketMatchService.js:313-314 | finds the first submission by the player, and none exactly when the player made none |
| Views.FormatMatchData | backend/services/bracketMatchService.js:311-345 | the view copies the match fields; a player's submission is shown exactly when that player submitted; the confirmed scores are player 1's report |
| Views.ShownSubmissionIsTheOnlyOne | backend/services/bracketMatchService.js:313 | when each player submits at most once, the view shows, for player 1 and for player 2 alike, exactly the submission that player made |
| Views.DecimalRoundTrip | backend/services/bracketMatchService.js:365 | the decimal text of a round number reads back as that number |
| Views.RoundNamesDistinct | backend/services/bracketMatchService.js:350-366 | distinct rounds of one bracket get distinct names |
| Views.FinalRoundNames | backend/services/bracketMatchService.js:350-366 | the last round is FINAL and the one before is SEMI-FINALS; beyond eight rounds, round 1 is "ROUND 1" |
| Views.RoundRecords | backend/services/bracketMatchService.js:290 | the round filter keeps exactly the records of that round |
| Views.RoundRecordsKeepOrder | backend/services/bracketMatchService.js:290 | the round filter of records in (roundNumber, matchNumber) order keeps that order, and so lists the round by matchNumber |
| Views.RoundRecordsCount | backend/services/bracketMatchService.js:290 | the filter keeps every copy of a record of the round and no copy of any other record |
| Views.RoundRecordsConcat | backend/services/bracketMatchService.js:290 | filtering a concatenation concatenates the filtered parts: the filter works record by record, in order |
| Views.InsertByRound | backend/services/bracketMatchService.js:49-52 | inserting a record into a list in (roundNumber, matchNumber) order keeps it in that order and adds exactly that record |
| Views.SortByRoundThenNumber | backend/services/bracketMatchService.js:49-52 | the ordered include: the same records, each as often, in ascending (roundNumber, matchNumber) order |
| Views.EveryRoundByMatchNumber | backend/services/bracketMatchService.js:49-52 | from records in (roundNumber, matchNumber) order, every round filter lists its matches by matchNumber |
| Views.FormatMatches | backend/services/bracketMatchService.js:295 | each match of the round is formatted, in order |
| Views.FormatBracketData | backend/services/bracketMatchService.js:286-306 | one round view per round 1..totalRounds, each holding that round's matches; the header copies the bracket |
| Views.EachMatchInItsRound | backend/services/bracketMatchService.js:289-296 | every match of the bracket appears in the view of its own round, and in no other |
| MatchService.RecordsOf | backend/services/bracketMatchService.js:10-55 | the records of the listed matches, with their submissions, in the order listed |
| MatchService.BracketRecords | backend/services/bracketMatchService.js:10-55 | the bracket's matches with their submissions, the same records the store lists for the bracket, in (roundNumber, matchNumber) order |
| MatchService.GetMatchDetails | backend/services/bracketMatchService.js:71-112 | fails with MatchNotFound exactly when the match is missing; otherwise the formatted match with its submissions |
| MatchService.GetBracketForTournament | backend/services/bracketMatchService.js:8-66 | fails with BracketNotFound exactly when the tournament has no bracket; otherwise a bracket of that tournament, its header (id, tournament, totalRounds, totalPlayers) copied from the bracket, and one view per round formatted from its ordered matches, each round listed by matchNumber |
| MatchService.WinnerOutscoresLoser | backend/services/bracketMatchService.js:209-210 | on distinct scores, winner and loser are the two players, different, and the winner's score is the higher |
| MatchService.ConfirmedRow | backend/services/bracketMatchService.js:213-219 | the match becomes CONFIRMED with the higher scorer as winner; players, successor and position are kept |
| MatchService.FillSlotAsWritten | backend/services/bracketMatchService.js:261-276 | the write as the source has it: fails with NextMatchFull exactly when both slots are taken; otherwise the winner takes the first empty slot, filled slots are kept, the status is WAITING_FOR_PLAYERS, and nothing else changes |
| MatchService.AsWrittenNeverPending | backend/services/bracketMatchService.js:261-276 | as written, a successful advancement always leaves the successor WAITING_FOR_PLAYERS |
| MatchService.AsWrittenFullMatchStaysWaiting | backend/services/bracketMatchService.js:274 | a successor that receives its second player stays WAITING_FOR_PLAYERS |
| MatchService.FillSlot | backend/services/bracketMatchService.js:261-276 | the corrected write (see Findings): fails with NextMatchFull exactly when both slots are taken; otherwise the winner takes the first empty slot, filled slots are kept, the status follows the slots after the write, and nothing else changes |
| MatchService.SecondWinnerMakesPending | backend/services/bracketMatchService.js:261-276 | with the corrected status, the successor becomes PENDING when its second player arrives |
| MatchService.Advanced | backend/services/bracketMatchService.js:249-281 | as written: no successor changes nothing; a missing successor is NextMatchNotFound; a full one is NextMatchFull; otherwise only the successor changes, keeping its filled slots and left WAITING_FOR_PLAYERS |
| MatchService.Eliminate | backend/services/bracketMatchService.js:222-232 | only the loser's participant row changes, recording the round; no row appears or goes |
| MatchService.MatchesAfterConfirm | backend/services/bracketMatchService.js:212-237 | the match is confirmed, every filled slot of the table is kept, and no match appears or goes, even when the advancement throws; a successor with a free slot is left WAITING_FOR_PLAYERS, a full one unchanged |
| MatchService.AdvanceWinnerToNextRound | backend/services/bracketMatchService.js:249-281 | the store's matches become the as-written Advanced of the old ones, or stay unchanged on failure; no other table changes |
| MatchService.ConfirmMatch | backend/services/bracketMatchService.js:193-244 | MatchNotFound for a missing match; otherwise the confirmation, the loser's elimination and the as-written advancement, reporting the advancement's failure; on success, the formatted match |
| MatchService.SubmitCheck | backend/services/bracketMatchService.js:119-144 | in order: MatchNotFound, NotAuthorizedForMatch for a non-player, AlreadySubmitted, MatchNotReady unless PENDING or SUBMITTED |
| MatchService.SubmitMatchScore | backend/services/bracketMatchService.js:117-188 | a rejected report writes nothing; an accepted one is appended; then one report gives SUBMITTED, two differing give DISPUTED, two agreeing confirm and advance as written; the submission invariant is kept |
| MatchService.ResolveReports | backend/services/bracketMatchService.js:157-181 | one report gives SUBMITTED, two differing give DISPUTED, two agreeing confirm with the first report's scores and advance as written; filled slots are kept |
| MatchService.SubmitKeepsSound | backend/services/bracketMatchService.js:126-154 | an accepted report keeps a match's submissions at most two, by distinct players of the match |
| MatchService.TwoSubmissionsCoverThePlayers | backend/services/bracketMatchService.js:159-163 | once two reports are stored, every player of the match has reported |
| MatchService.SoundWhenSlotsKept | backend/services/bracketMatchService.js:235-237 | rewriting matches while keeping their filled slots preserves the submission invariant |
| MatchService.NoThirdSubmission | backend/services/bracketMatchService.js:137-139 | a match whose two players have both reported refuses every further report |
| Lifecycle.DetermineStatus | backend/services/tournamentStatusService.js:61-93 | only forward moves or cancellation; each answer characterised both ways: IN_PROGRESS exactly at the start date for a full open or closed tournament, REGISTRATION_CLOSED exactly for a full open one before its start, CANCELLED exactly for an under-filled one at its start or past an open one's deadline, or two days in progress, and no change exactly otherwise |
| Lifecycle.SweepSettlesInTwoPasses | backend/services/tournamentStatusService.js:24-47 | a second pass only cancels a tournament the first pass started more than two days late, and a third pass changes nothing |
| Lifecycle.SweepOne | backend/services/tournamentStatusService.js:25-46 | writes the rule's status and reports whether it changed; a bracket is generated exactly when the tournament starts without one and has two players, and then belongs to it and is built from its registered players; otherwise the bracket and match tables are untouched |
| Lifecycle.UpdateAllTournamentStatuses | backend/services/tournamentStatusService.js:9-56 | every live tournament gets the rule's status and only status and bracket flag change; returns the number changed; each new bracket belongs to a tournament that started without one, each such tournament with two players gets exactly one, existing brackets and matches are kept, and with no such tournament those tables are untouched |
| Lifecycle.ManualStatusUpdate | backend/services/tournamentStatusService.js:98-120 | TournamentNotFound for a missing tournament; otherwise the status is overwritten and nothing else changes |
| Entities.ParseStatus | backend/routes/tournaments.js:856-859 | an accepted name is the name of the status returned |
| Entities.ParseStatusName | backend/routes/tournaments.js:856-859 | each of the seven status names is accepted, as that status |
| Registration.RosterInsert | backend/routes/tournaments.js:475-508 | a new participant row grows its tournament's roster by one and no other |
| Registration.RosterRemove | backend/routes/tournaments.js:667-688 | a removed participant row shrinks its tournament's roster by one and no other |
| Registration.NewTournament | backend/routes/tournaments.js:36-37 | a new tournament is REGISTRATION_OPEN, empty, without a bracket or a code |
| Registration.Create | backend/routes/tournaments.js:9-38 | stores the new tournament and keeps the count and capacity invariants |
| Registration.JoinCheck | backend/routes/tournaments.js:450-472 | in order: not open, deadline passed (strictly after it), full, already registered; none exactly when all pass |
| Registration.ByCodeCheck | backend/routes/tournaments.js:556-569 | not open, full, already registered, in order; none exactly when all pass |
| Registration.JoinsDifferOnlyInDeadline | backend/routes/tournaments.js:455-458 | the join by code admits everything the join by id admits, and more only past the deadline |
| Registration.Admitted | backend/routes/tournaments.js:498-519 | one more player, and REGISTRATION_CLOSED exactly when the tournament is now full |
| Registration.Admit | backend/routes/tournaments.js:475-519 | adds the REGISTERED row and the admitted count and status; keeps the count and capacity invariants |
| Registration.Join | backend/routes/tournaments.js:434-529 | TournamentNotFound, then the checks in order; a failure writes nothing; a success admits the user |
| Registration.UpperAscii | backend/routes/tournaments.js:543 | upper-cases exactly the ASCII lower-case letters |
| Registration.UpperAsciiFixes | backend/routes/tournaments.js:543 | upper-casing is idempotent, and fixes a string without lower-case letters |
| Registration.JoinByCode | backend/routes/tournaments.js:532-635 | CodeRequired for a missing or empty code; CodeNotFound when no tournament has the upper-cased code; then the by-code checks; a success admits the user |
| Registration.Leave | backend/routes/tournaments.js:638-710 | TournamentNotFound, then not open, then not registered; a success removes the row and lowers the count; invariants kept |
| Registration.Patched | backend/routes/tournaments.js:343-352 | the given fields, status included, are replaced, and the others kept |
| Registration.UpdateMayShrinkBelowPlayers | backend/routes/tournaments.js:343-352 | the update may set maxPlayers below the players already registered |
| Registration.UpdateMaySetAnyStatus | backend/routes/tournaments.js:320-352 | the update writes any status it is given, IN_PROGRESS and COMPLETED included, without generating a bracket |
| Registration.Update | backend/routes/tournaments.js:320-397 | TournamentNotFound, NotCreator, then AlreadyStarted for IN_PROGRESS or COMPLETED; otherwise the patch, status included, is written and nothing else changes |
| Registration.Delete | backend/routes/tournaments.js:400-431 | TournamentNotFound, NotCreator, then HasParticipants while it has players; otherwise the tournament is removed and the invariants kept |
| Registration.EmptyRosterHasNoRows | backend/routes/tournaments.js:418-424 | a tournament whose count is zero owns no participant row, so deleting it orphans none |
| Registration.UpdateStatusRoute | backend/routes/tournaments.js:850-874 | InvalidStatus for a name outside the seven, then TournamentNotFound; otherwise the manual update with that status |
| Sorting.UpdateSort | hooks/useTournamentSorting.ts:17-22 | the selected field is sorted, descending exactly when it was already sorted ascending |
| Sorting.UpdateSortToggles | hooks/useTournamentSorting.ts:17-22 | a new field starts ascending, and repeated selection alternates the direction |
| Sorting.KeyOf | hooks/useTournamentSorting.ts:29-52 | the title key is text, the others are numbers, and an unknown field has no key |
| Sorting.TextLessTotal | hooks/useTournamentSorting.ts:54-58 | string `<` is total |
| Sorting.KeyLessOrder | hooks/useTournamentSorting.ts:54-58 | on the keys of one field, `<` is a strict total order |
| Sorting.Compare | hooks/useTournamentSorting.ts:25-61 | the comparator answers -1, 0 or 1, and 0 for an unknown field |
| Sorting.DescendingNegatesAscending | hooks/useTournamentSorting.ts:54-60 | the descending comparator is the ascending one negated |
| Sorting.CompareAntisymmetric | hooks/useTournamentSorting.ts:54-60 | the comparator is antisymmetric; ascending, it puts the smaller key first |
| Sorting.CompareTransitive | hooks/useTournamentSorting.ts:54-60 | "not after" is transitive, so the comparator is a consistent total preorder |
| Sorting.InsertSorted | hooks/useTournamentSorting.ts:24-61 | inserting into a sorted list keeps it sorted |
| Sorting.SortTournaments | hooks/useTournamentSorting.ts:24-61 | a sorted copy holding the same listings, each as often |
| Sorting.SortedBothWaysMeansTies | hooks/useTournamentSorting.ts:54-60 | a list sorted both ways consists of ties only |
| Codes.CharAt | backend/utils/tournamentCodeGenerator.js:9-13 | each of the 36 positions gives an upper-case letter or a digit |
| Codes.CharAtIsOneToOne | backend/utils/tournamentCodeGenerator.js:9 | the 36 positions give 36 different characters, covering the alphabet |
| Codes.GenerateRandomCode | backend/utils/tournamentCodeGenerator.js:8-17 | a code of the requested length over the alphabet |
| Codes.GeneratedCodeIsUpperCase | backend/utils/tournamentCodeGenerator.js:8-17 | a generated code is its own upper case, so the join by code finds it |
| Codes.GenerateUniqueTournamentCode | backend/utils/tournamentCodeGenerator.js:25-48 | a returned code is held by no tournament, with the requested length, or one more after the ten-attempt fallback; failure only after every lookup, at most maxAttempts plus 5 |
| Codes.GenerateDefaultCode | backend/utils/tournamentCodeGenerator.js:25-48 | with the defaults: a free code of six or seven characters, after at most fifteen lookups |

## Left out

- The database is maps in one object. Prisma's includes, the profile and avatar fields of the views, HTTP status codes and response bodies are not modelled. A route's error response is an `Error` value.
- Each operation is a sequential read-modify-write, not concurrent. Races between concurrent joins or submissions, and the transaction of the join by code, are not modelled.
- The clock is the parameter `now`, in integer milliseconds. Date parsing, invalid dates (NaN) and time zones are left out.
- `Math.random` is a nondeterministic choice:
  - `Seeding.ShuffleArray` promises only a permutation, not a uniform one;
  - `Codes.GenerateRandomCode` picks any index.
- Console logging is left out.
- `String.prototype.toUpperCase` and `toLowerCase` are modelled on ASCII letters only; other Unicode case mappings are not.
- The request validators become preconditions:
  - maxPlayers is 2 to 128, in `Registration.Create` and `Registration.Update`;
  - an updated startDate or registrationDeadline lies after `now`, in `Registration.Update`;
  - the two scores are distinct non-negative integers, in `MatchService.SubmitMatchScore`.
- A call the source would crash on is excluded by `requires`, for example a null dereference on a match without its bracket (`MatchService.ConfirmMatch` requires every match's bracket to exist).
- Player slots and winners are `Option` values. JavaScript truthiness of ids is modelled as Some/None.
- Submissions of a match are listed in creation order; the source's `findMany` gives no order.
- The join by code looks a tournament up by a code the schema keeps unique. The model picks any tournament with that code; uniqueness is not an invariant here.
- `PUT /update/:id` is modelled on startDate, registrationDeadline, maxPlayers and status. The route also writes the descriptive fields (title, description, location, coordinates, skill level, visibility); nothing in this model reads them, so they are not carried.
- Listing, details, my-tournaments, participants and status-history routes, the leaderboard, the scheduler's timer, authentication and the user interface are not part of this model.
- The source does not implement these, so they are not modelled:
  - setting a participant's status to ELIMINATED (confirmMatch records only `eliminatedInRound`);
  - awarding points;
  - completing the tournament after the final;
  - resolving a DISPUTED match.
- The closed-form facts about a generated bracket assume it is generated by `Store.Store.GenerateBracket` on a fresh block of ids, as the store allocates them.
- Seeding.GenerateSeedOrder: a slot count of 0 passes the source's bit test and then recurses without end. The model refuses it with `NotPowerOfTwo`. `generateBracket` never passes 0.
- Sorting.SortTournaments: stability is not stated. The result is sorted and a permutation, but ties are not promised to keep their input order.
- Codes.GenerateUniqueTournamentCode: `lookups` counts the store lookups as a ghost value. Randomness means no bound on collisions is promised.
- Lifecycle.SweepOne: a bracket generation failure is swallowed as in the source. Its error is not reported.
- MatchService.GetBracketForTournament: the source finds the bracket by its unique tournamentId. The model picks any bracket of the tournament; one bracket per tournament is not an invariant of the store here. A bracket's matches are the ones the store lists for it.
- Sorting.TextLess: compares code points, while JavaScript's `<` compares UTF-16 code units. The two orders differ only for characters outside the Basic Multilingual Plane.

## Findings

| source | as written | input that shows it | evidently intended | confidence | as-written member | corrected member |
|---|---|---|---|---|---|---|
| backend/services/bracketMatchService.js:274 | the successor's status is computed from its slots before the winner is written, so an advancement never makes a match PENDING | a successor holding player 1 only receives the second winner: both slots are filled, and the status stays WAITING_FOR_PLAYERS, in which no score can be submitted | the status follows the slots after the write, as `advanceByePlayerToNextRound` (bracketGenerationService.js:286-289) does: PENDING once both players are in | not executed | MatchService.AsWrittenFullMatchStaysWaiting | MatchService.SecondWinnerMakesPending |

The operations follow the code as written: `MatchService.Advanced`, and through it `MatchService.ConfirmMatch` and `MatchService.SubmitMatchScore`, use `MatchService.FillSlotAsWritten`. `MatchService.FillSlot` is the corrected write. It is proved against the intended property and is used by nothing else.
