/**
 * The tournament store and the operations of the bracket engine on it.
 * The database is a single object holding one map per table; each
 * operation is a sequential read-modify-write of those maps.
 */
module Store {
  import opened Wrappers
  import opened Entities
  import opened BracketMath
  import opened Seeding
  import opened Layout
  import opened SeededLayout

  /** The errors the operations throw or the route handlers answer with. */
  datatype Error =
    | TournamentNotFound
    | BracketAlreadyGenerated
    | NotEnoughPlayers
    | BracketNotFound
    | MatchNotFound
    | NotAuthorizedForMatch
    | AlreadySubmitted
    | MatchNotReady
    | NextMatchNotFound
    | NextMatchFull
    | NotOpenForRegistration
    | RegistrationDeadlinePassed
    | TournamentFull
    | AlreadyRegistered
    | CodeRequired
    | CodeNotFound
    | NotRegistered
    | NotCreator
    | AlreadyStarted
    | HasParticipants
    | InvalidStatus
    | CodeGenerationFailed

  class Store {
    var tournaments: map<TournamentId, Tournament>
    /** Participant rows, keyed by the unique (tournamentId, userId) pair. */
    var participants: map<(TournamentId, UserId), Participant>
    var brackets: map<BracketId, Bracket>
    var matches: map<MatchId, Match>
    /** The store's ordered index: each bracket's match ids in ascending matchNumber. */
    var matchOrder: map<BracketId, seq<MatchId>>
    /** The submissions of each match, in the order they were created. */
    var submissions: map<MatchId, seq<Submission>>
    /** The next identifier the store hands out for a bracket or a match. */
    var nextId: nat

    /** Identifier allocation, and the ordered index, which points at stored matches. */
    ghost predicate Valid()
      reads this
    {
      && (forall id :: id in matches ==> id < nextId)
      && (forall b :: b in brackets ==> b < nextId)
      && (forall b :: b in matchOrder ==> b in brackets)
      && (forall b, i :: b in matchOrder && 0 <= i < |matchOrder[b]| ==> matchOrder[b][i] in matches)
    }

    constructor ()
      ensures Valid()
      ensures tournaments == map[] && participants == map[] && brackets == map[] && matches == map[]
      ensures submissions == map[]
    {
      tournaments, participants, brackets, matches := map[], map[], map[], map[];
      matchOrder, submissions, nextId := map[], map[], 0;
    }

    // -------------------------------------------------------------------
    // Queries
    // -------------------------------------------------------------------

    /** The users whose participant row for the tournament has status REGISTERED. */
    function RegisteredPlayers(tournamentId: TournamentId): set<UserId>
      reads this`participants
    {
      set key | key in participants && key.0 == tournamentId && participants[key].status == Registered :: key.1
    }

    /** `findMany({ where: { bracketId, roundNumber }, orderBy: { matchNumber: 'asc' } })`. */
    function RoundMatchIds(bracketId: BracketId, round: nat): seq<MatchId>
      reads this
      requires Valid() && bracketId in matchOrder
    {
      FilterRound(matchOrder[bracketId], matches, round)
    }

    /**
     * `tournament.participants.filter(p => p.status === 'REGISTERED')`: the
     * registered players, each once, in whatever order the store returns them.
     */
    method ListRegisteredPlayers(tournamentId: TournamentId) returns (players: seq<UserId>)
      ensures Distinct(players) && |players| == |RegisteredPlayers(tournamentId)|
      ensures forall p :: p in players <==> p in RegisteredPlayers(tournamentId)
    {
      var remaining := RegisteredPlayers(tournamentId);
      players := [];
      while remaining != {}
        invariant Distinct(players)
        invariant forall p :: p in players ==> p !in remaining
        invariant forall p :: p in players || p in remaining <==> p in RegisteredPlayers(tournamentId)
        invariant |players| + |remaining| == |RegisteredPlayers(tournamentId)|
        decreases |remaining|
      {
        var p :| p in remaining;
        players := players + [p];
        remaining := remaining - {p};
      }
    }

    // -------------------------------------------------------------------
    // Single-row writes
    // -------------------------------------------------------------------

    /** `bracketMatch.update`: replaces one match row. */
    method PutMatch(id: MatchId, m: Match)
      requires Valid() && id in matches
      modifies this
      ensures Valid()
      ensures matches == old(matches)[id := m]
      ensures tournaments == old(tournaments) && participants == old(participants) && brackets == old(brackets)
      ensures matchOrder == old(matchOrder) && submissions == old(submissions) && nextId == old(nextId)
    {
      matches := matches[id := m];
    }

    /** `setupNextMatchRelationships`' `updateMany`: points every listed match at one successor. */
    method UpdateNextMatchMany(ids: seq<MatchId>, next: MatchId)
      requires Valid() && next in matches
      modifies this
      ensures Valid()
      ensures matches == SetNextMany(old(matches), ids, next)
      ensures tournaments == old(tournaments) && participants == old(participants) && brackets == old(brackets)
      ensures matchOrder == old(matchOrder) && submissions == old(submissions) && nextId == old(nextId)
    {
      matches := SetNextMany(matches, ids, next);
    }

    // -------------------------------------------------------------------
    // Bracket construction
    // -------------------------------------------------------------------

    /** `tournamentBracket.create`: a new bracket record under a fresh id, with no matches yet. */
    method CreateBracketRecord(tournamentId: TournamentId, totalRounds: nat, totalPlayers: nat) returns (b: BracketId)
      requires Valid()
      modifies this
      ensures Valid()
      ensures b == old(nextId) && b !in old(brackets) && nextId == b + 1
      ensures brackets == old(brackets)[b := Bracket(tournamentId, totalRounds, totalPlayers)]
      ensures matchOrder == old(matchOrder)[b := []]
      ensures matches == old(matches) && submissions == old(submissions)
      ensures tournaments == old(tournaments) && participants == old(participants)
    {
      b := nextId;
      brackets := brackets[b := Bracket(tournamentId, totalRounds, totalPlayers)];
      matchOrder := matchOrder[b := []];
      nextId := nextId + 1;
    }

    /** `bracketMatch.createMany`: stores the rows, in order, under consecutive fresh ids. */
    method CreateMany(b: BracketId, rows: seq<Match>)
      requires Valid() && b in matchOrder && matchOrder[b] == []
      requires forall k :: 0 <= k < |rows| ==> rows[k].bracketId == b && rows[k].nextMatchId == None
      modifies this
      ensures Valid()
      ensures nextId == old(nextId) + |rows|
      ensures forall id :: id in matches <==> id in old(matches) || old(nextId) <= id < nextId
      ensures forall id :: id in old(matches) ==> id < old(nextId) && id in matches && matches[id] == old(matches)[id]
      ensures forall id :: old(nextId) <= id < nextId ==> id in matches && matches[id] == rows[id - old(nextId)]
      ensures matchOrder == old(matchOrder)[b := Range(old(nextId), nextId)]
      ensures brackets == old(brackets) && submissions == old(submissions)
      ensures tournaments == old(tournaments) && participants == old(participants)
    {
      var first := nextId;
      matches := matches + Allocate(first, rows);
      matchOrder := matchOrder[b := Range(first, first + |rows|)];
      nextId := first + |rows|;
    }

    /**
     * `createAllMatches`: plans 2^(R-r) rows for each round r, stores them
     * under the consecutive fresh ids base .. base + 2^R - 2 and links them;
     * every new match ends as its linked row and no older match changes.
     */
    method CreateAllMatches(b: BracketId, totalRounds: nat) returns (ghost base: MatchId)
      requires Valid() && b in matchOrder && matchOrder[b] == []
      modifies this
      ensures Valid()
      ensures base == old(nextId) && nextId == base + Pow2(totalRounds) - 1
      ensures matchOrder == old(matchOrder)[b := Range(base, nextId)]
      ensures IsLinkedTable(old(matches), matches, b, base, totalRounds)
      ensures tournaments == old(tournaments) && participants == old(participants) && brackets == old(brackets)
      ensures submissions == old(submissions)
    {
      var rows := PlanMatches(b, totalRounds);
      base := nextId;
      CreateMany(b, rows);
      ghost var created := matches;
      ghost var ids := matchOrder[b];
      if totalRounds >= 1 {
        LinkedAfterCreate(created, rows, ids, b, base, nextId, totalRounds);
        KeptAfterCreate(old(matches), created, rows, ids, b, base, nextId, totalRounds);
      }
      SetupNextMatchRelationships(b, totalRounds);
    }

    /**
     * `setupNextMatchRelationships`: for each round r < R, queries the
     * matches of rounds r and r+1 in matchNumber order and points matches
     * 2j and 2j+1 of round r at match j of round r+1, when round r+1 has a
     * match j. The new match table is LinkRounds of the old one.
     */
    method SetupNextMatchRelationships(b: BracketId, totalRounds: nat)
      requires Valid() && b in matchOrder
      modifies this
      ensures Valid()
      ensures matches == LinkRounds(old(matches), old(matchOrder[b]), if totalRounds == 0 then 1 else totalRounds)
      ensures tournaments == old(tournaments) && participants == old(participants) && brackets == old(brackets)
      ensures matchOrder == old(matchOrder) && submissions == old(submissions) && nextId == old(nextId)
    {
      ghost var created, ids := matches, matchOrder[b];
      var round := 1;
      while round < totalRounds
        invariant 1 <= round && (round <= totalRounds || round == 1)
        invariant Valid() && b in matchOrder && matchOrder[b] == ids
        invariant matches == LinkRounds(created, ids, round)
        invariant tournaments == old(tournaments) && participants == old(participants) && brackets == old(brackets)
        invariant matchOrder == old(matchOrder) && submissions == old(submissions) && nextId == old(nextId)
      {
        LinkNextRound(b, round, created);
        round := round + 1;
      }
    }

    /** One iteration of `setupNextMatchRelationships`' round loop, on the linking done so far. */
    method LinkNextRound(b: BracketId, round: nat, ghost created: map<MatchId, Match>)
      requires Valid() && b in matchOrder && round >= 1
      requires forall k :: 0 <= k < |matchOrder[b]| ==> matchOrder[b][k] in created
      requires matches == LinkRounds(created, matchOrder[b], round)
      modifies this
      ensures Valid()
      ensures tournaments == old(tournaments) && participants == old(participants) && brackets == old(brackets)
      ensures matchOrder == old(matchOrder) && submissions == old(submissions) && nextId == old(nextId)
      ensures matches == LinkRounds(created, matchOrder[b], round + 1)
    {
      LinkRound(b, round);
    }

    /** One iteration of `setupNextMatchRelationships`' round loop: links the pairs of round r. */
    method LinkRound(b: BracketId, round: nat)
      requires Valid() && b in matchOrder
      modifies this
      ensures Valid()
      ensures matches == LinkRoundOf(old(matches), old(matchOrder[b]), round)
      ensures tournaments == old(tournaments) && participants == old(participants) && brackets == old(brackets)
      ensures matchOrder == old(matchOrder) && submissions == old(submissions) && nextId == old(nextId)
    {
      ghost var ids := matchOrder[b];
      var currentRoundMatches := RoundMatchIds(b, round);
      var nextRoundMatches := RoundMatchIds(b, round + 1);
      FilterRoundMembers(ids, matches, round + 1);
      var i := 0;
      ghost var n := 0;
      while i < |currentRoundMatches|
        invariant i == 2 * n && 2 * n <= |currentRoundMatches| + 1
        invariant Valid() && b in matchOrder
        invariant matches == LinkPairs(old(matches), currentRoundMatches, nextRoundMatches, n)
        invariant tournaments == old(tournaments) && participants == old(participants) && brackets == old(brackets)
        invariant matchOrder == old(matchOrder) && submissions == old(submissions) && nextId == old(nextId)
      {
        var nextMatchIndex := i / 2;
        assert nextMatchIndex == n;
        LinkPairsNext(old(matches), currentRoundMatches, nextRoundMatches, n);
        if nextMatchIndex < |nextRoundMatches| {
          assert nextRoundMatches[nextMatchIndex] in ids;
          UpdateNextMatchMany(PairIds(currentRoundMatches, i), nextRoundMatches[nextMatchIndex]);
        }
        i := i + 2;
        n := n + 1;
      }
      LinkRoundOfPairs(old(matches), ids, round, currentRoundMatches, nextRoundMatches, n);
    }

    // -------------------------------------------------------------------
    // Seeding round one
    // -------------------------------------------------------------------

    /** `assignPlayersToMatch`: two players meet in the match, which becomes PENDING. */
    method AssignPlayersToMatch(id: MatchId, player1: UserId, player2: UserId)
      requires Valid() && id in matches
      modifies this
      ensures Valid()
      ensures matches == old(matches)[id := old(matches)[id].(player1 := Some(player1), player2 := Some(player2), status := Pending)]
      ensures tournaments == old(tournaments) && participants == old(participants) && brackets == old(brackets)
      ensures matchOrder == old(matchOrder) && submissions == old(submissions) && nextId == old(nextId)
    {
      PutMatch(id, matches[id].(player1 := Some(player1), player2 := Some(player2), status := Pending));
    }

    /**
     * `advanceByePlayerToNextRound`: when the match has a successor, the
     * player takes its first empty slot (player2 when player1 is taken) and
     * the successor's status follows from its slots after the write.
     */
    method AdvanceByePlayerToNextRound(id: MatchId, playerId: UserId)
      requires Valid() && id in matches
      requires matches[id].nextMatchId.Some? ==> matches[id].nextMatchId.value in matches
      modifies this
      ensures Valid()
      ensures matches == AdvanceBye(old(matches), id, playerId)
      ensures tournaments == old(tournaments) && participants == old(participants) && brackets == old(brackets)
      ensures matchOrder == old(matchOrder) && submissions == old(submissions) && nextId == old(nextId)
    {
      var row := matches[id];
      if row.nextMatchId.Some? {
        var nextMatch := matches[row.nextMatchId.value];
        var newPlayer1, newPlayer2;
        if nextMatch.player1.None? {
          newPlayer1, newPlayer2 := Some(playerId), nextMatch.player2;
        } else {
          newPlayer1, newPlayer2 := nextMatch.player1, Some(playerId);
        }
        var newStatus := if newPlayer1.Some? && newPlayer2.Some? then Pending else WaitingForPlayers;
        PutMatch(row.nextMatchId.value, nextMatch.(player1 := newPlayer1, player2 := newPlayer2, status := newStatus));
      }
    }

    /** `assignPlayerVsBye`: the match becomes a BYE for the player, who advances at once. */
    method AssignPlayerVsBye(id: MatchId, playerId: UserId)
      requires Valid() && id in matches
      requires matches[id].nextMatchId.Some? ==> matches[id].nextMatchId.value in matches
      modifies this
      ensures Valid()
      ensures matches == AdvanceBye(old(matches)[id := old(matches)[id].(player1 := Some(playerId), player2 := None, status := Bye)],
                                    id, playerId)
      ensures tournaments == old(tournaments) && participants == old(participants) && brackets == old(brackets)
      ensures matchOrder == old(matchOrder) && submissions == old(submissions) && nextId == old(nextId)
    {
      PutMatch(id, matches[id].(player1 := Some(playerId), player2 := None, status := Bye));
      AdvanceByePlayerToNextRound(id, playerId);
    }

    /**
     * The body of `seedPlayersWithByes`' loop for one matchup: two players
     * are assigned to the match, a single player gets a bye, and a matchup
     * of two byes leaves the match untouched.
     */
    method SeatPlayers(id: MatchId, player1: Option<UserId>, player2: Option<UserId>)
      requires Valid() && id in matches
      requires matches[id].nextMatchId.Some? ==> matches[id].nextMatchId.value in matches
      modifies this
      ensures Valid()
      ensures matches == SeatMatchup(old(matches), id, player1, player2)
      ensures tournaments == old(tournaments) && participants == old(participants) && brackets == old(brackets)
      ensures matchOrder == old(matchOrder) && submissions == old(submissions) && nextId == old(nextId)
    {
      if player1.Some? && player2.Some? {
        AssignPlayersToMatch(id, player1.value, player2.value);
      } else if player1.Some? {
        AssignPlayerVsBye(id, player1.value);
      } else if player2.Some? {
        AssignPlayerVsBye(id, player2.value);
      }
    }

    /**
     * `seedPlayersWithByes` on the bracket `createAllMatches` has just
     * linked at ids base .. base + 2^R - 2: shuffles the players, numbers
     * them 1, 2, ... in that order, and seats matchup i of the standard
     * seeding of 2^R slots in round-one match i. The seeded order is a
     * permutation of the players, and afterwards the match table is the
     * seeded table of all the matchups.
     */
    method SeedPlayersWithByes(b: BracketId, players: seq<UserId>, totalByes: nat, ghost base: MatchId, ghost totalRounds: nat)
      returns (ghost seeded: seq<UserId>, ghost pairs: seq<Matchup>)
      requires Valid() && b in matchOrder && totalRounds >= 1
      requires |players| + totalByes == Pow2(totalRounds)
      requires SeedableTable(matches, base, totalRounds)
      requires RoundMatchIds(b, 1) == Range(base, base + Pow2(totalRounds - 1))
      modifies this
      ensures Valid()
      ensures |seeded| == |players| && multiset(seeded) == multiset(players)
      ensures IsPowerOfTwo(Pow2(totalRounds))
      ensures pairs == Matchups(SeedOrder(Pow2(totalRounds)))
      ensures SeedingShape(totalRounds, pairs) && matches == SeededMap(old(matches), base, pairs, seeded, |pairs|)
      ensures tournaments == old(tournaments) && participants == old(participants) && brackets == old(brackets)
      ensures matchOrder == old(matchOrder) && submissions == old(submissions) && nextId == old(nextId)
    {
      var firstRoundMatches := RoundMatchIds(b, 1);
      var sortedPlayers := ShuffleArray(players);
      var totalSlots := |sortedPlayers| + totalByes;
      Pow2IsPowerOfTwo(totalRounds);
      var res := GenerateCorrectBracketMatchups(totalSlots);
      assert res.Success?;
      var matchups := res.value;
      assert Pow2(totalRounds) == 2 * Pow2(totalRounds - 1);
      SeedOrderBounds(totalSlots);
      SeatRoundOne(firstRoundMatches, matchups, sortedPlayers, base, totalRounds);
      seeded, pairs := sortedPlayers, matchups;
    }

    /**
     * One iteration of `seedPlayersWithByes`' loop: resolves the seeds of
     * matchup i to players (seed s is seededPlayers[s - 1]; a seed beyond
     * the players is a bye) and seats them in round-one match i.
     */
    method SeatMatchupAt(firstRoundMatches: seq<MatchId>, matchups: seq<Matchup>, seededPlayers: seq<UserId>, i: nat,
                         ghost linked: map<MatchId, Match>, ghost base: MatchId, ghost totalRounds: nat)
      requires Valid() && SeedingShape(totalRounds, matchups) && SeedableTable(linked, base, totalRounds)
      requires firstRoundMatches == Range(base, base + |matchups|) && i < |matchups|
      requires matches == SeededMap(linked, base, matchups, seededPlayers, i)
      modifies this
      ensures Valid()
      ensures matches == SeededMap(linked, base, matchups, seededPlayers, i + 1)
      ensures tournaments == old(tournaments) && participants == old(participants) && brackets == old(brackets)
      ensures matchOrder == old(matchOrder) && submissions == old(submissions) && nextId == old(nextId)
    {
      var matchId := firstRoundMatches[i];
      var player1 := Seat1(matchups, seededPlayers, i);
      var player2 := Seat2(matchups, seededPlayers, i);
      SeededMapReady(linked, base, totalRounds, matchups, seededPlayers, i);
      SeatPlayers(matchId, player1, player2);
      SeededMapNext(old(matches), matches, matchId, player1, player2, linked, base, matchups, seededPlayers, i);
    }

    /** The loop of `seedPlayersWithByes`: seats every matchup, in order. */
    method SeatRoundOne(firstRoundMatches: seq<MatchId>, matchups: seq<Matchup>, seededPlayers: seq<UserId>,
                        ghost base: MatchId, ghost totalRounds: nat)
      requires Valid() && SeedingShape(totalRounds, matchups) && SeedableTable(matches, base, totalRounds)
      requires firstRoundMatches == Range(base, base + |matchups|)
      modifies this
      ensures Valid()
      ensures matches == SeededMap(old(matches), base, matchups, seededPlayers, |matchups|)
      ensures tournaments == old(tournaments) && participants == old(participants) && brackets == old(brackets)
      ensures matchOrder == old(matchOrder) && submissions == old(submissions) && nextId == old(nextId)
    {
      ghost var linked := matches;
      var i := 0;
      while i < |matchups|
        invariant 0 <= i <= |matchups|
        invariant Valid()
        invariant matches == SeededMap(linked, base, matchups, seededPlayers, i)
        invariant tournaments == old(tournaments) && participants == old(participants) && brackets == old(brackets)
        invariant matchOrder == old(matchOrder) && submissions == old(submissions) && nextId == old(nextId)
      {
        SeatMatchupAt(firstRoundMatches, matchups, seededPlayers, i, linked, base, totalRounds);
        i := i + 1;
      }
    }
  
    // -------------------------------------------------------------------
    // Bracket generation
    // -------------------------------------------------------------------

    /**
     * `generateBracket`: fails, writing nothing, when the tournament is
     * missing, already has a bracket, or has fewer than two REGISTERED
     * participants. Otherwise it builds the bracket for the n registered
     * players (see BuildBracket) and marks the tournament's bracket as
     * generated.
     */
    method GenerateBracket(tournamentId: TournamentId) returns (r: Result<BracketId, Error>, ghost seeded: seq<UserId>)
      requires Valid()
      modifies this
      ensures Valid()
      ensures tournamentId !in old(tournaments) ==> r == Failure(TournamentNotFound)
      ensures tournamentId in old(tournaments) && old(tournaments[tournamentId].bracketGenerated) ==>
                r == Failure(BracketAlreadyGenerated)
      ensures (tournamentId in old(tournaments) && !old(tournaments[tournamentId].bracketGenerated)
                && |old(RegisteredPlayers(tournamentId))| < 2) ==> r == Failure(NotEnoughPlayers)
      ensures (tournamentId in old(tournaments) && !old(tournaments[tournamentId].bracketGenerated)
                && |old(RegisteredPlayers(tournamentId))| >= 2) ==> r.Success?
      ensures r.Failure? ==>
                && tournaments == old(tournaments) && participants == old(participants) && brackets == old(brackets)
                && matches == old(matches) && matchOrder == old(matchOrder) && submissions == old(submissions)
                && nextId == old(nextId)
      ensures r.Success? ==>
                && tournamentId in old(tournaments) && |old(RegisteredPlayers(tournamentId))| >= 2
                && tournaments == old(tournaments)[tournamentId := old(tournaments[tournamentId]).(bracketGenerated := true)]
                && Built(old(brackets), old(matches), old(matchOrder), old(nextId), tournamentId,
                         old(RegisteredPlayers(tournamentId)), seeded, r.value)
                && participants == old(participants) && submissions == old(submissions)
    {
      seeded := [];
      if tournamentId !in tournaments {
        r := Failure(TournamentNotFound);
        return;
      }
      var tournament := tournaments[tournamentId];
      if tournament.bracketGenerated {
        r := Failure(BracketAlreadyGenerated);
        return;
      }
      var participants := ListRegisteredPlayers(tournamentId);
      if |participants| < 2 {
        r := Failure(NotEnoughPlayers);
        return;
      }
      var b;
      b, seeded := BuildBracket(tournamentId, participants, RegisteredPlayers(tournamentId));
      tournaments := tournaments[tournamentId := tournament.(bracketGenerated := true)];
      r := Success(b);
    }

    /**
     * The state after BuildBracket, relative to the state before it: the
     * players were seeded in the order `seeded`, which lists every one of
     * them once, and the match table is the linked bracket with them seated.
     */
    ghost predicate Built(brackets0: map<BracketId, Bracket>, matches0: map<MatchId, Match>,
                          matchOrder0: map<BracketId, seq<MatchId>>, nextId0: nat,
                          tournamentId: TournamentId, players: set<UserId>, seeded: seq<UserId>, b: BracketId)
      reads this
    {
      && |seeded| >= 2 && |seeded| == |players| && Distinct(seeded) && (forall p :: p in seeded <==> p in players)
      && var totalRounds := CalculateRounds(|seeded|);
      && b == nextId0 && nextId == b + Pow2(totalRounds)
      && brackets == brackets0[b := Bracket(tournamentId, totalRounds, |seeded|)]
      && matchOrder == matchOrder0[b := Range(b + 1, nextId)]
      && GeneratedMatches(matches0, matches, b, b + 1, totalRounds, b + Pow2(totalRounds), players)
      && SeededFrom(matches0, matches, b, b + 1, seeded)
    }

    /**
     * The body of `generateBracket` once its checks have passed, for the n
     * registered players listed in `players`: totalSlots is the least power
     * of two at least n, totalRounds its logarithm, and the byes the slots
     * left over; it creates the bracket record under the next fresh id, the
     * 2^R - 1 linked matches right after it, and seats the players in
     * round one. Every round-one match ends PENDING between two registered
     * players or a BYE for one; every new match keeps the position fields it
     * was linked with; older matches are untouched.
     */
    method BuildBracket(tournamentId: TournamentId, players: seq<UserId>, ghost registered: set<UserId>)
      returns (b: BracketId, ghost seeded: seq<UserId>)
      requires Valid() && |players| >= 2 && Distinct(players) && |players| == |registered|
      requires forall p :: p in players <==> p in registered
      modifies this
      ensures Valid()
      ensures Built(old(brackets), old(matches), old(matchOrder), old(nextId), tournamentId, registered, seeded, b)
      ensures tournaments == old(tournaments) && participants == old(participants) && submissions == old(submissions)
    {
      var playerCount := |players|;
      var totalSlots := TotalSlots(playerCount);
      TotalSlotsIsLeastPowerOfTwo(playerCount, totalSlots);
      var totalRounds := Log2(totalSlots);
      RoundsMatchSlots(playerCount);
      var totalByes := totalSlots - playerCount;
      ByesBelowHalf(playerCount);
      b := CreateLinkedBracket(tournamentId, totalRounds, playerCount);
      ghost var linked := matches;
      ghost var pairs;
      seeded, pairs := SeedPlayersWithByes(b, players, totalByes, b + 1, totalRounds);
      SeedingFinished(old(matches), linked, matches, b, b + 1, totalRounds, pairs, players, seeded, registered);
    }

    /**
     * `tournamentBracket.create` followed by `createAllMatches`: the bracket
     * record under the next fresh id, and its 2^R - 1 linked matches at the
     * ids right after it, listed in the ordered index.
     */
    method CreateLinkedBracket(tournamentId: TournamentId, totalRounds: nat, playerCount: nat) returns (b: BracketId)
      requires Valid() && totalRounds >= 1
      modifies this
      ensures Valid()
      ensures b == old(nextId) && nextId == b + Pow2(totalRounds)
      ensures brackets == old(brackets)[b := Bracket(tournamentId, totalRounds, playerCount)]
      ensures matchOrder == old(matchOrder)[b := Range(b + 1, nextId)]
      ensures IsLinkedTable(old(matches), matches, b, b + 1, totalRounds)
      ensures SeedableTable(matches, b + 1, totalRounds)
      ensures RoundMatchIds(b, 1) == Range(b + 1, b + 1 + Pow2(totalRounds - 1))
      ensures tournaments == old(tournaments) && participants == old(participants) && submissions == old(submissions)
    {
      b := CreateBracketRecord(tournamentId, totalRounds, playerCount);
      ghost var base := CreateAllMatches(b, totalRounds);
      assert base == b + 1;
      UpdateTwice(old(matchOrder), b, [], Range(base, nextId));
      LinkedIsSeedable(matches, b, base, totalRounds);
      LinkedRoundOne(matches, b, base, totalRounds);
    }
  }

  /** Writing a key twice keeps the second value. */
  lemma UpdateTwice<K, V>(m: map<K, V>, k: K, v1: V, v2: V)
    ensures m[k := v1][k := v2] == m[k := v2]
  {
  }

  /**
   * `linked` is `before` with bracket b's 2^R - 1 matches created at the
   * ids base, base + 1, ... and linked: the older rows are kept and
   * position k holds its linked row.
   */
  ghost predicate IsLinkedTable(before: map<MatchId, Match>, linked: map<MatchId, Match>, b: BracketId, base: MatchId,
                                totalRounds: nat)
  {
    && (forall id :: id in linked <==> id in before || base <= id < base + Pow2(totalRounds) - 1)
    && (forall id :: id in before ==> linked[id] == before[id])
    && (forall k :: 0 <= k < Pow2(totalRounds) - 1 ==> linked[base + k] == LinkedRow(b, base, totalRounds, k))
  }

  /**
   * The seeding step of `generateBracket` for the players in the order
   * `seeded`: `after` is `before` with bracket b's linked matches added at
   * the ids from base = b + 1 on and the matchups of the standard seed
   * order seated, byes advanced.
   */
  ghost predicate SeededFrom(before: map<MatchId, Match>, after: map<MatchId, Match>, b: BracketId, base: MatchId,
                             seeded: seq<UserId>)
  {
    && base == b + 1 && |seeded| >= 1
    && var totalRounds := CalculateRounds(|seeded|);
    Pow2IsPowerOfTwo(totalRounds);
    var pairs := Matchups(SeedOrder(Pow2(totalRounds)));
    exists linked :: IsLinkedTable(before, linked, b, base, totalRounds)
                     && after == SeededMap(linked, base, pairs, seeded, |pairs|)
  }

  /**
   * The match table after `generateBracket` created bracket b's matches at
   * ids base .. last - 1 on top of `before` and seeded them: the new ids
   * are exactly that block, older matches are untouched, every new match
   * has the position fields of its linked row, and every round-one match
   * is seated with the given players.
   */
  ghost predicate GeneratedMatches(before: map<MatchId, Match>, after: map<MatchId, Match>, b: BracketId, base: MatchId,
                                   totalRounds: nat, last: MatchId, players: set<UserId>)
  {
    && totalRounds >= 1 && last == base + Pow2(totalRounds) - 1
    && (forall id :: id in after <==> id in before || base <= id < last)
    && (forall id :: id in before ==> after[id] == before[id])
    && (forall k :: 0 <= k < Pow2(totalRounds) - 1 ==>
          base + k in after && SamePosition(after[base + k], LinkedRow(b, base, totalRounds, k)))
    && (forall id :: base <= id < base + Pow2(totalRounds - 1) ==> id in after && SeatedRoundOne(after[id], players))
  }

  /**
   * Seeding the freshly linked bracket b with a permutation `seeded` of the
   * registered players leaves the table GeneratedMatches and SeededFrom
   * describe, and `seeded` lists every registered player once.
   */
  lemma SeedingFinished(before: map<MatchId, Match>, linked: map<MatchId, Match>, after: map<MatchId, Match>,
                        b: BracketId, base: MatchId, totalRounds: nat, pairs: seq<Matchup>, players: seq<UserId>,
                        seeded: seq<UserId>, registered: set<UserId>)
    requires |players| >= 2 && Distinct(players) && |players| == |registered|
    requires forall p :: p in players <==> p in registered
    requires |seeded| == |players| && multiset(seeded) == multiset(players)
    requires totalRounds == CalculateRounds(|players|) && IsPowerOfTwo(Pow2(totalRounds))
    requires base == b + 1 && forall id :: id in before ==> id < b
    requires IsLinkedTable(before, linked, b, base, totalRounds) && SeedableTable(linked, base, totalRounds)
    requires pairs == Matchups(SeedOrder(Pow2(totalRounds))) && SeedingShape(totalRounds, pairs)
    requires after == SeededMap(linked, base, pairs, seeded, |pairs|)
    ensures Distinct(seeded) && forall p :: p in seeded <==> p in registered
    ensures GeneratedMatches(before, after, b, b + 1, CalculateRounds(|seeded|), b + Pow2(CalculateRounds(|seeded|)), registered)
    ensures SeededFrom(before, after, b, base, seeded)
  {
    PermutationKeepsDistinct(players, seeded);
    assert CalculateRounds(|seeded|) == totalRounds;
    SeededTableGenerated(before, linked, after, b, totalRounds, pairs, seeded, registered);
    SeededTableWitness(before, linked, after, b, base, totalRounds, pairs, seeded);
  }

  /** The seeded table, stated with the round count the bracket was created with. */
  lemma SeededTableGenerated(before: map<MatchId, Match>, linked: map<MatchId, Match>, after: map<MatchId, Match>,
                             b: BracketId, totalRounds: nat, pairs: seq<Matchup>,
                             seeded: seq<UserId>, registered: set<UserId>)
    requires |seeded| >= 2 && totalRounds == CalculateRounds(|seeded|) && IsPowerOfTwo(Pow2(totalRounds))
    requires forall p :: p in seeded ==> p in registered
    requires forall id :: id in before ==> id < b
    requires IsLinkedTable(before, linked, b, b + 1, totalRounds) && SeedableTable(linked, b + 1, totalRounds)
    requires pairs == Matchups(SeedOrder(Pow2(totalRounds))) && SeedingShape(totalRounds, pairs)
    requires after == SeededMap(linked, b + 1, pairs, seeded, |pairs|)
    ensures GeneratedMatches(before, after, b, b + 1, totalRounds, b + Pow2(totalRounds), registered)
  {
    ByesBelowHalf(|seeded|);
    MatchupsOfSeedOrder(Pow2(totalRounds));
    GeneratedFromSeeding(before, linked, after, b, b + 1, totalRounds, b + Pow2(totalRounds), pairs, seeded, registered);
  }

  /** The linked table is the witness that the seeded table came from seeding. */
  lemma SeededTableWitness(before: map<MatchId, Match>, linked: map<MatchId, Match>, after: map<MatchId, Match>,
                           b: BracketId, base: MatchId, totalRounds: nat, pairs: seq<Matchup>, seeded: seq<UserId>)
    requires |seeded| >= 1 && totalRounds == CalculateRounds(|seeded|) && base == b + 1
    requires IsPowerOfTwo(Pow2(totalRounds)) && IsLinkedTable(before, linked, b, base, totalRounds)
    requires pairs == Matchups(SeedOrder(Pow2(totalRounds)))
    requires after == SeededMap(linked, base, pairs, seeded, |pairs|)
    ensures SeededFrom(before, after, b, base, seeded)
  {
    assert IsLinkedTable(before, linked, b, base, CalculateRounds(|seeded|));
  }

  /** Creating, linking and seeding a bracket leaves a GeneratedMatches table. */
  lemma GeneratedFromSeeding(before: map<MatchId, Match>, linked: map<MatchId, Match>, after: map<MatchId, Match>,
                             b: BracketId, base: MatchId, totalRounds: nat, last: MatchId,
                             pairs: seq<Matchup>, seeded: seq<UserId>, players: set<UserId>)
    requires totalRounds >= 1 && last == base + Pow2(totalRounds) - 1
    requires IsLinkedTable(before, linked, b, base, totalRounds) && forall id :: id in before ==> id < base
    requires SeedingShape(totalRounds, pairs) && SeedableTable(linked, base, totalRounds)
    requires PairsTopSeedWithPartner(pairs, Pow2(totalRounds))
    requires Pow2(totalRounds) / 2 < |seeded| <= Pow2(totalRounds)
    requires forall p :: p in seeded ==> p in players
    requires after == SeededMap(linked, base, pairs, seeded, |pairs|)
    ensures GeneratedMatches(before, after, b, base, totalRounds, last, players)
  {
    SeededBracket(linked, base, totalRounds, pairs, seeded, players);
    assert |pairs| == Pow2(totalRounds - 1);
    forall k | 0 <= k < Pow2(totalRounds) - 1
      ensures base + k in after && SamePosition(after[base + k], LinkedRow(b, base, totalRounds, k))
    {
      assert base + k in linked;
    }
  }

  /**
   * After `generateBracket` seeds bracket b, each registered player sits in
   * exactly one slot of exactly one round-one match of the bracket.
   */
  lemma GeneratedSeatsEachPlayerOnce(before: map<MatchId, Match>, after: map<MatchId, Match>, b: BracketId,
                                     base: MatchId, seeded: seq<UserId>, p: UserId)
    requires SeededFrom(before, after, b, base, seeded) && |seeded| >= 2 && Distinct(seeded) && p in seeded
    ensures var roundOne := Pow2(CalculateRounds(|seeded|) - 1);
      && (exists id, side :: base <= id < base + roundOne && (side == 1 || side == 2) && id in after
                              && Slot(after[id], side) == Some(p))
      && (forall id1, side1, id2, side2 ::
            && base <= id1 < base + roundOne && (side1 == 1 || side1 == 2) && id1 in after
            && base <= id2 < base + roundOne && (side2 == 1 || side2 == 2) && id2 in after
            && Slot(after[id1], side1) == Some(p) && Slot(after[id2], side2) == Some(p)
            ==> id1 == id2 && side1 == side2)
  {
    var totalRounds := CalculateRounds(|seeded|);
    Pow2IsPowerOfTwo(totalRounds);
    var pairs := Matchups(SeedOrder(Pow2(totalRounds)));
    var linked :| IsLinkedTable(before, linked, b, base, totalRounds)
                  && after == SeededMap(linked, base, pairs, seeded, |pairs|);
    ByesBelowHalf(|seeded|);
    LinkedIsSeedable(linked, b, base, totalRounds);
    var i :| 0 <= i < |seeded| && seeded[i] == p;
    SeatedExactlyOnce(linked, base, totalRounds, seeded, i);
    SeedOrderPairs(Pow2(totalRounds));
    assert Pow2(totalRounds) == 2 * Pow2(totalRounds - 1);
  }

  /**
   * Round-two match t of a freshly seeded bracket of at least two rounds
   * holds exactly the byes of its feeders, round-one matches 2t and 2t + 1,
   * the earlier feeder's bye in player1, and is PENDING exactly when both
   * feeders were byes.
   */
  lemma GeneratedRoundTwo(before: map<MatchId, Match>, after: map<MatchId, Match>, b: BracketId,
                          base: MatchId, seeded: seq<UserId>, totalRounds: nat, t: nat)
    requires SeededFrom(before, after, b, base, seeded) && |seeded| >= 2
    requires totalRounds == CalculateRounds(|seeded|) && IsPowerOfTwo(Pow2(totalRounds))
    requires totalRounds >= 2 && t < Pow2(totalRounds - 2)
    ensures var pairs := Matchups(SeedOrder(Pow2(totalRounds)));
      var x := base + Pow2(totalRounds - 1) + t;
      var bye0, bye1 := ByeOf(pairs, seeded, 2 * t), ByeOf(pairs, seeded, 2 * t + 1);
      && x in after
      && after[x].player1 == (if bye0.Some? then bye0 else bye1)
      && after[x].player2 == (if bye0.Some? then bye1 else None)
      && after[x].status == (if bye0.Some? && bye1.Some? then Pending else WaitingForPlayers)
      && after[x].bracketId == b && after[x].winnerId.None?
  {
    var pairs := Matchups(SeedOrder(Pow2(totalRounds)));
    var linked :| IsLinkedTable(before, linked, b, base, totalRounds)
                  && after == SeededMap(linked, base, pairs, seeded, |pairs|);
    SeedingShapeOf(totalRounds);
    SeededRoundTwo(before, linked, after, b, base, totalRounds, pairs, seeded, t);
  }

  /** GeneratedRoundTwo for a given linked table and matchup list. */
  lemma SeededRoundTwo(before: map<MatchId, Match>, linked: map<MatchId, Match>, after: map<MatchId, Match>,
                       b: BracketId, base: MatchId, totalRounds: nat, pairs: seq<Matchup>, seeded: seq<UserId>, t: nat)
    requires IsLinkedTable(before, linked, b, base, totalRounds)
    requires SeedingShape(totalRounds, pairs) && totalRounds >= 2 && t < Pow2(totalRounds - 2)
    requires after == SeededMap(linked, base, pairs, seeded, |pairs|)
    ensures var x := base + Pow2(totalRounds - 1) + t;
      var bye0, bye1 := ByeOf(pairs, seeded, 2 * t), ByeOf(pairs, seeded, 2 * t + 1);
      && x in after
      && after[x].player1 == (if bye0.Some? then bye0 else bye1)
      && after[x].player2 == (if bye0.Some? then bye1 else None)
      && after[x].status == (if bye0.Some? && bye1.Some? then Pending else WaitingForPlayers)
      && after[x].bracketId == b && after[x].winnerId.None?
  {
    LinkedIsSeedable(linked, b, base, totalRounds);
    LinkedRoundTwoRow(before, linked, b, base, totalRounds, t);
    RoundTwoAfterSeeding(linked, base, totalRounds, pairs, seeded, t);
  }

  /** Before seeding, every round-two match of the linked bracket is empty and waiting. */
  lemma LinkedRoundTwoRow(before: map<MatchId, Match>, linked: map<MatchId, Match>, b: BracketId, base: MatchId,
                          totalRounds: nat, t: nat)
    requires IsLinkedTable(before, linked, b, base, totalRounds) && totalRounds >= 2 && t < Pow2(totalRounds - 2)
    ensures var x := base + Pow2(totalRounds - 1) + t;
      && x in linked && linked[x].player1.None? && linked[x].player2.None? && linked[x].status == WaitingForPlayers
      && linked[x].bracketId == b && linked[x].winnerId.None?
  {
    assert Pow2(totalRounds) == 2 * Pow2(totalRounds - 1);
    assert Pow2(totalRounds - 1) == 2 * Pow2(totalRounds - 2);
    var k := Pow2(totalRounds - 1) + t;
    assert linked[base + k] == LinkedRow(b, base, totalRounds, k);
    LinkedRowShape(b, base, totalRounds, k);
  }
}
