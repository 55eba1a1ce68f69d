/**
 * Match progression: the two-party score protocol (`submitMatchScore`),
 * winner and loser resolution (`confirmMatch`), the advancement of a
 * winner into the successor match (`advanceWinnerToNextRound`) and the
 * not-found behaviour of the two read operations. The service holds no
 * state of its own; every operation reads and writes the store.
 */
module MatchService {
  import opened Wrappers
  import opened Entities
  import opened Store
  import opened Views

  // ---------------------------------------------------------------------
  // Reading the store
  // ---------------------------------------------------------------------

  /** The store's foreign key from a match to its bracket. */
  ghost predicate MatchesHaveBrackets(db: Store)
    reads db
  {
    forall id :: id in db.matches ==> db.matches[id].bracketId in db.brackets
  }

  /** `bracketMatchSubmission.findMany({ where: { matchId } })`, in creation order. */
  function SubmissionsOf(db: Store, id: MatchId): seq<Submission>
    reads db
  {
    if id in db.submissions then db.submissions[id] else []
  }

  /** A match with its submissions included. */
  function RecordOf(db: Store, id: MatchId): MatchRecord
    reads db
    requires id in db.matches
  {
    MatchRecord(id, db.matches[id], SubmissionsOf(db, id))
  }

  /** The records of the listed matches, in the order listed. */
  function RecordsOf(db: Store, ids: seq<MatchId>): (r: seq<MatchRecord>)
    reads db
    requires forall k :: 0 <= k < |ids| ==> ids[k] in db.matches
    ensures |r| == |ids| && forall k :: 0 <= k < |ids| ==> r[k] == RecordOf(db, ids[k])
  {
    if ids == [] then [] else [RecordOf(db, ids[0])] + RecordsOf(db, ids[1..])
  }

  /**
   * `getMatchDetails`: a missing match is an error; otherwise the match is
   * formatted with its submissions.
   */
  method GetMatchDetails(db: Store, matchId: MatchId) returns (r: Result<MatchView, Error>)
    ensures r.Failure? <==> matchId !in db.matches
    ensures r.Failure? ==> r.error == MatchNotFound
    ensures r.Success? ==> r.value == FormatMatchData(RecordOf(db, matchId))
  {
    if matchId !in db.matches {
      return Failure(MatchNotFound);
    }
    r := Success(FormatMatchData(RecordOf(db, matchId)));
  }

  /**
   * The bracket's matches as `getBracketForTournament` includes them: the
   * records of the matches the store lists for the bracket, ordered by
   * (roundNumber, matchNumber).
   */
  function BracketRecords(db: Store, b: BracketId): (r: seq<MatchRecord>)
    reads db
    requires db.Valid()
    ensures ByRoundThenNumber(r)
    ensures b in db.matchOrder ==> multiset(r) == multiset(RecordsOf(db, db.matchOrder[b]))
    ensures b !in db.matchOrder ==> r == []
  {
    SortByRoundThenNumber(RecordsOf(db, if b in db.matchOrder then db.matchOrder[b] else []))
  }

  /**
   * `getBracketForTournament`: a tournament without a bracket is an error;
   * otherwise its bracket is formatted round by round from its ordered
   * matches, so every round lists its matches by matchNumber.
   */
  method GetBracketForTournament(db: Store, tournamentId: TournamentId) returns (r: Result<BracketView, Error>)
    requires db.Valid()
    ensures r.Failure? <==> !exists b :: b in db.brackets && db.brackets[b].tournamentId == tournamentId
    ensures r.Failure? ==> r.error == BracketNotFound
    ensures r.Success? ==> var b := r.value.id;
      && b in db.brackets && db.brackets[b].tournamentId == tournamentId
      && r.value.tournamentId == tournamentId
      && r.value.totalRounds == db.brackets[b].totalRounds && r.value.totalPlayers == db.brackets[b].totalPlayers
      && |r.value.rounds| == db.brackets[b].totalRounds
      && forall i :: 0 <= i < |r.value.rounds| ==>
           && r.value.rounds[i] == RoundViewOf(BracketRecords(db, b), i + 1, db.brackets[b].totalRounds)
           && ByMatchNumber(RoundRecords(BracketRecords(db, b), i + 1))
  {
    if !exists b :: b in db.brackets && db.brackets[b].tournamentId == tournamentId {
      return Failure(BracketNotFound);
    }
    var b :| b in db.brackets && db.brackets[b].tournamentId == tournamentId;
    var records := BracketRecords(db, b);
    var view := FormatBracketData(b, db.brackets[b], records);
    EveryRoundByMatchNumber(records);
    r := Success(view);
  }

  // ---------------------------------------------------------------------
  // Winner, loser and advancement as functions of the rows
  // ---------------------------------------------------------------------

  predicate IsPlayer(m: Match, p: UserId)
  {
    m.player1 == Some(p) || m.player2 == Some(p)
  }

  /** `score1 > score2 ? player1Id : player2Id`. */
  function Winner(m: Match, score1: int, score2: int): Option<UserId>
  {
    if score1 > score2 then m.player1 else m.player2
  }

  function Loser(m: Match, score1: int, score2: int): Option<UserId>
  {
    if score1 > score2 then m.player2 else m.player1
  }

  /** The score a player of the match reported for their own side. */
  function OwnScore(m: Match, p: UserId, score1: int, score2: int): int
  {
    if m.player1 == Some(p) then score1 else score2
  }

  /**
   * On the scores the route accepts (distinct), the winner and the loser
   * are the two players of the match, and the winner's score is the higher.
   */
  lemma WinnerOutscoresLoser(m: Match, score1: int, score2: int)
    requires m.player1.Some? && m.player2.Some? && m.player1 != m.player2 && score1 != score2
    ensures {Winner(m, score1, score2), Loser(m, score1, score2)} == {m.player1, m.player2}
    ensures Winner(m, score1, score2) != Loser(m, score1, score2)
    ensures OwnScore(m, Winner(m, score1, score2).value, score1, score2)
              > OwnScore(m, Loser(m, score1, score2).value, score1, score2)
  {
  }

  /** The match as `confirmMatch` writes it: CONFIRMED, with its winner. */
  function ConfirmedRow(m: Match, score1: int, score2: int): (r: Match)
    ensures r.status == Confirmed && r.winnerId == Winner(m, score1, score2)
    ensures r.player1 == m.player1 && r.player2 == m.player2 && r.nextMatchId == m.nextMatchId
    ensures r.bracketId == m.bracketId && r.roundNumber == m.roundNumber && r.matchNumber == m.matchNumber
  {
    m.(status := Confirmed, winnerId := Winner(m, score1, score2))
  }

  /** Every slot that was filled in a still holds the same player in b. */
  predicate SlotsKept(a: Match, b: Match)
  {
    && (a.player1.Some? ==> b.player1 == a.player1)
    && (a.player2.Some? ==> b.player2 == a.player2)
  }

  /** The status a match's slots call for: PENDING once both are filled. */
  function SlotStatus(m: Match): MatchStatus
  {
    if m.player1.Some? && m.player2.Some? then Pending else WaitingForPlayers
  }

  /**
   * `advanceWinnerToNextRound`'s write, as the source has it: the winner
   * takes player1 if it is empty, else player2 if that is empty, else the
   * call throws; the status is computed from the slots as they were
   * before the write.
   */
  function FillSlotAsWritten(next: Match, winner: Option<UserId>): (r: Result<Match, Error>)
    ensures r.Failure? <==> next.player1.Some? && next.player2.Some?
    ensures r.Failure? ==> r.error == NextMatchFull
    ensures r.Success? ==> SlotsKept(next, r.value) && r.value.status == WaitingForPlayers
    ensures r.Success? ==> (if next.player1.None? then r.value.player1 == winner && r.value.player2 == next.player2
                            else r.value.player2 == winner)
    ensures r.Success? ==> r.value == next.(player1 := r.value.player1, player2 := r.value.player2,
                                            status := r.value.status)
  {
    if next.player1.None? then Success(next.(player1 := winner, status := SlotStatus(next)))
    else if next.player2.None? then Success(next.(player2 := winner, status := SlotStatus(next)))
    else Failure(NextMatchFull)
  }

  /**
   * As written, a successful advancement always leaves the successor
   * WAITING_FOR_PLAYERS: it only proceeds when a slot was empty before the
   * write, and the status is read from those slots.
   */
  lemma AsWrittenNeverPending(next: Match, winner: Option<UserId>)
    requires FillSlotAsWritten(next, winner).Success?
    ensures FillSlotAsWritten(next, winner).value.status == WaitingForPlayers
  {
  }

  /**
   * The input that shows it: a successor already holding player 1 receives
   * the second winner, ends with both players and stays WAITING_FOR_PLAYERS,
   * a status in which no score can be submitted.
   */
  lemma AsWrittenFullMatchStaysWaiting()
    ensures var next := Match(7, 2, 5, Some(1), None, WaitingForPlayers, None, None);
      var r := FillSlotAsWritten(next, Some(2));
      && r.Success? && r.value.player1 == Some(1) && r.value.player2 == Some(2)
      && r.value.status == WaitingForPlayers && r.value.status != SlotStatus(r.value)
      && r.value.status != Pending && r.value.status != Submitted
  {
  }

  /**
   * The corrected advancement: the winner takes the first empty slot and
   * the status follows the slots after the write, as the bye path of
   * bracket generation already does.
   */
  function FillSlot(next: Match, winner: Option<UserId>): (r: Result<Match, Error>)
    ensures r.Failure? <==> next.player1.Some? && next.player2.Some?
    ensures r.Failure? ==> r.error == NextMatchFull
    ensures r.Success? ==> SlotsKept(next, r.value) && r.value.status == SlotStatus(r.value)
    ensures r.Success? ==> (if next.player1.None? then r.value.player1 == winner && r.value.player2 == next.player2
                            else r.value.player2 == winner)
    ensures r.Success? ==> r.value == next.(player1 := r.value.player1, player2 := r.value.player2,
                                            status := r.value.status)
  {
    if next.player1.None? then
      var filled := next.(player1 := winner);
      Success(filled.(status := SlotStatus(filled)))
    else if next.player2.None? then
      var filled := next.(player2 := winner);
      Success(filled.(status := SlotStatus(filled)))
    else Failure(NextMatchFull)
  }

  /**
   * The corrected advancement makes a successor PENDING exactly when its
   * second winner arrives; the counterexample above becomes ready to play.
   */
  lemma SecondWinnerMakesPending(next: Match, winner: UserId)
    requires next.player1.Some? != next.player2.Some?
    ensures FillSlot(next, Some(winner)).Success? && FillSlot(next, Some(winner)).value.status == Pending
  {
  }

  /**
   * The match table after advancing the winner into `next`, when the match
   * has a successor, with the write as the source has it.
   */
  function Advanced(ms: map<MatchId, Match>, next: Option<MatchId>, winner: Option<UserId>): (r: Result<map<MatchId, Match>, Error>)
    ensures next.None? ==> r == Success(ms)
    ensures next.Some? && next.value !in ms ==> r == Failure(NextMatchNotFound)
    ensures next.Some? && next.value in ms ==>
              (r.Success? <==> ms[next.value].player1.None? || ms[next.value].player2.None?)
    ensures r.Success? && next.Some? ==> next.value in r.value && r.value[next.value].status == WaitingForPlayers
    ensures r.Success? ==> r.value.Keys == ms.Keys
    ensures r.Success? ==> forall id :: id in ms ==> SlotsKept(ms[id], r.value[id])
    ensures r.Success? ==> forall id :: id in ms && Some(id) != next ==> r.value[id] == ms[id]
  {
    if next.None? then Success(ms)
    else if next.value !in ms then Failure(NextMatchNotFound)
    else match FillSlotAsWritten(ms[next.value], winner)
      case Success(row) => Success(ms[next.value := row])
      case Failure(e) => Failure(e)
  }

  /** `tournamentParticipant.updateMany` on the loser's row: it records the round the loser went out in. */
  function Eliminate(ps: map<(TournamentId, UserId), Participant>, tournamentId: TournamentId, loser: Option<UserId>,
                     round: nat): (r: map<(TournamentId, UserId), Participant>)
    ensures r.Keys == ps.Keys
    ensures forall k :: k in ps && (loser.None? || k != (tournamentId, loser.value)) ==> r[k] == ps[k]
    ensures loser.Some? && (tournamentId, loser.value) in ps ==>
              r[(tournamentId, loser.value)] == ps[(tournamentId, loser.value)].(eliminatedInRound := Some(round))
  {
    if loser.Some? && (tournamentId, loser.value) in ps then
      ps[(tournamentId, loser.value) := ps[(tournamentId, loser.value)].(eliminatedInRound := Some(round))]
    else ps
  }

  /** The match table once the match is confirmed, before the winner advances. */
  function ConfirmWrite(ms: map<MatchId, Match>, matchId: MatchId, score1: int, score2: int): map<MatchId, Match>
    requires matchId in ms
  {
    ms[matchId := ConfirmedRow(ms[matchId], score1, score2)]
  }

  /** The advancement step of `confirmMatch`, on the table it has just written. */
  function AdvanceAfterConfirm(ms: map<MatchId, Match>, matchId: MatchId, score1: int, score2: int)
    : Result<map<MatchId, Match>, Error>
    requires matchId in ms
  {
    Advanced(ConfirmWrite(ms, matchId, score1, score2), ms[matchId].nextMatchId, Winner(ms[matchId], score1, score2))
  }

  /** The match table `confirmMatch` leaves: the confirmation stays even when the advancement throws. */
  function MatchesAfterConfirm(ms: map<MatchId, Match>, matchId: MatchId, score1: int, score2: int)
    : (r: map<MatchId, Match>)
    requires matchId in ms
    ensures r.Keys == ms.Keys
    ensures forall id :: id in ms ==> SlotsKept(ms[id], r[id])
    ensures ms[matchId].nextMatchId != Some(matchId) ==> r[matchId] == ConfirmedRow(ms[matchId], score1, score2)
    ensures var next := ms[matchId].nextMatchId;
      next.Some? && next.value in ms && next.value != matchId ==>
        && (ms[next.value].player1.Some? && ms[next.value].player2.Some? ==> r[next.value] == ms[next.value])
        && (ms[next.value].player1.None? || ms[next.value].player2.None? ==> r[next.value].status == WaitingForPlayers)
  {
    var a := AdvanceAfterConfirm(ms, matchId, score1, score2);
    if a.Success? then a.value else ConfirmWrite(ms, matchId, score1, score2)
  }

  // ---------------------------------------------------------------------
  // The submission protocol's invariant
  // ---------------------------------------------------------------------

  predicate HasSubmitted(subs: seq<Submission>, p: UserId)
  {
    exists i :: 0 <= i < |subs| && subs[i].submittedBy == p
  }

  /** The submissions of one match as the protocol keeps them: at most two, by distinct players of the match. */
  predicate SoundSubmissions(subs: seq<Submission>, m: Match)
  {
    && |subs| <= 2
    && (forall i, j :: 0 <= i < j < |subs| ==> subs[i].submittedBy != subs[j].submittedBy)
    && (forall i :: 0 <= i < |subs| ==> IsPlayer(m, subs[i].submittedBy))
  }

  ghost predicate SubmissionsSound(db: Store)
    reads db
  {
    forall id :: id in db.submissions ==> id in db.matches && SoundSubmissions(db.submissions[id], db.matches[id])
  }

  /** Once both players of a match have submitted, every player of the match has. */
  lemma TwoSubmissionsCoverThePlayers(subs: seq<Submission>, m: Match, p: UserId)
    requires SoundSubmissions(subs, m) && |subs| == 2 && IsPlayer(m, p)
    ensures HasSubmitted(subs, p)
  {
    assert IsPlayer(m, subs[0].submittedBy) && IsPlayer(m, subs[1].submittedBy);
    if subs[0].submittedBy != p {
      assert subs[1].submittedBy == p;
    }
  }

  /** The invariant survives any rewrite of the match table that keeps the rows and their filled slots. */
  lemma SoundWhenSlotsKept(db: Store, before: map<MatchId, Match>)
    requires forall id :: id in db.submissions ==> id in before && SoundSubmissions(db.submissions[id], before[id])
    requires forall id :: id in before ==> id in db.matches && SlotsKept(before[id], db.matches[id])
    ensures SubmissionsSound(db)
  {
    forall id | id in db.submissions
      ensures id in db.matches && SoundSubmissions(db.submissions[id], db.matches[id])
    {
      var subs := db.submissions[id];
      assert forall i :: 0 <= i < |subs| ==> IsPlayer(db.matches[id], subs[i].submittedBy);
    }
  }

  // ---------------------------------------------------------------------
  // The operations
  // ---------------------------------------------------------------------

  /**
   * `advanceWinnerToNextRound`: a missing successor or a successor with
   * both slots filled throws and changes nothing; otherwise the winner
   * takes the first empty slot.
   */
  method AdvanceWinnerToNextRound(db: Store, nextMatchId: MatchId, winnerId: Option<UserId>) returns (r: Result<(), Error>)
    requires db.Valid()
    modifies db
    ensures db.Valid()
    ensures var a := Advanced(old(db.matches), Some(nextMatchId), winnerId);
      && (r.Success? <==> a.Success?) && (a.Failure? ==> r.error == a.error)
      && db.matches == (if a.Success? then a.value else old(db.matches))
    ensures db.tournaments == old(db.tournaments) && db.participants == old(db.participants)
    ensures db.brackets == old(db.brackets) && db.matchOrder == old(db.matchOrder)
    ensures db.submissions == old(db.submissions) && db.nextId == old(db.nextId)
  {
    if nextMatchId !in db.matches {
      return Failure(NextMatchNotFound);
    }
    var filled := FillSlotAsWritten(db.matches[nextMatchId], winnerId);
    if filled.Failure? {
      return Failure(filled.error);
    }
    db.PutMatch(nextMatchId, filled.value);
    r := Success(());
  }

  /**
   * `confirmMatch`: the match becomes CONFIRMED with the higher scorer as
   * winner, the loser's participant row records the round, and the winner
   * advances when the match has a successor. The writes are not undone
   * when the advancement throws.
   */
  method ConfirmMatch(db: Store, matchId: MatchId, score1: int, score2: int) returns (r: Result<MatchView, Error>)
    requires db.Valid() && MatchesHaveBrackets(db)
    modifies db
    ensures db.Valid() && MatchesHaveBrackets(db)
    ensures matchId !in old(db.matches) ==> r == Failure(MatchNotFound) && db.matches == old(db.matches)
                                            && db.participants == old(db.participants)
    ensures matchId in old(db.matches) ==>
      var m := old(db.matches)[matchId];
      var a := AdvanceAfterConfirm(old(db.matches), matchId, score1, score2);
      && db.matches == MatchesAfterConfirm(old(db.matches), matchId, score1, score2)
      && db.participants == Eliminate(old(db.participants), old(db.brackets)[m.bracketId].tournamentId,
                                      Loser(m, score1, score2), m.roundNumber)
      && (r.Success? <==> a.Success?) && (a.Failure? ==> r.error == a.error)
    ensures r.Success? ==> r.value == FormatMatchData(RecordOf(db, matchId))
    ensures db.tournaments == old(db.tournaments) && db.brackets == old(db.brackets)
    ensures db.matchOrder == old(db.matchOrder) && db.submissions == old(db.submissions) && db.nextId == old(db.nextId)
  {
    if matchId !in db.matches {
      return Failure(MatchNotFound);
    }
    var m := db.matches[matchId];
    var winnerId := Winner(m, score1, score2);
    var loserId := Loser(m, score1, score2);
    db.PutMatch(matchId, ConfirmedRow(m, score1, score2));
    if loserId.Some? {
      var tournamentId := db.brackets[m.bracketId].tournamentId;
      db.participants := Eliminate(db.participants, tournamentId, loserId, m.roundNumber);
    }
    if m.nextMatchId.Some? {
      var advanced := AdvanceWinnerToNextRound(db, m.nextMatchId.value, winnerId);
      if advanced.Failure? {
        return Failure(advanced.error);
      }
    }
    r := GetMatchDetails(db, matchId);
  }

  /** The match accepts score reports: PENDING or SUBMITTED. */
  predicate OpenForScores(status: MatchStatus)
  {
    status == Pending || status == Submitted
  }

  /** The checks `submitMatchScore` makes before it writes, in its order. */
  function SubmitCheck(ms: map<MatchId, Match>, subs: seq<Submission>, matchId: MatchId, playerId: UserId)
    : (e: Option<Error>)
    ensures matchId !in ms ==> e == Some(MatchNotFound)
    ensures matchId in ms && !IsPlayer(ms[matchId], playerId) ==> e == Some(NotAuthorizedForMatch)
    ensures matchId in ms && IsPlayer(ms[matchId], playerId) && HasSubmitted(subs, playerId) ==> e == Some(AlreadySubmitted)
    ensures matchId in ms && IsPlayer(ms[matchId], playerId) && !HasSubmitted(subs, playerId) ==>
              (e.None? <==> OpenForScores(ms[matchId].status)) && (e.Some? ==> e == Some(MatchNotReady))
  {
    if matchId !in ms then Some(MatchNotFound)
    else if !IsPlayer(ms[matchId], playerId) then Some(NotAuthorizedForMatch)
    else if HasSubmitted(subs, playerId) then Some(AlreadySubmitted)
    else if !OpenForScores(ms[matchId].status) then Some(MatchNotReady)
    else None
  }

  /**
   * `submitMatchScore`, behind the route's checks that both scores are
   * non-negative integers and differ. A rejected report writes nothing.
   * An accepted one is stored; then the first report makes the match
   * SUBMITTED, two agreeing reports confirm it, and two differing reports
   * make it DISPUTED. The submission protocol's invariant is kept.
   */
  method SubmitMatchScore(db: Store, matchId: MatchId, playerId: UserId, score1: int, score2: int, now: int)
    returns (r: Result<MatchView, Error>)
    requires db.Valid() && MatchesHaveBrackets(db)
    requires score1 >= 0 && score2 >= 0 && score1 != score2
    modifies db
    ensures db.Valid() && MatchesHaveBrackets(db)
    ensures old(SubmissionsSound(db)) ==> SubmissionsSound(db)
    ensures var e := SubmitCheck(old(db.matches), old(SubmissionsOf(db, matchId)), matchId, playerId);
      e.Some? ==> r == Failure(e.value) && db.matches == old(db.matches) && db.submissions == old(db.submissions)
                  && db.participants == old(db.participants)
    ensures var e := SubmitCheck(old(db.matches), old(SubmissionsOf(db, matchId)), matchId, playerId);
      e.None? ==>
        var m := old(db.matches)[matchId];
        var subs := old(SubmissionsOf(db, matchId)) + [Submission(playerId, score1, score2, now)];
        && db.submissions == old(db.submissions)[matchId := subs]
        && (|subs| != 2 ==> r.Success? && db.participants == old(db.participants)
                            && db.matches == old(db.matches)[matchId := m.(status := Submitted)])
        && (|subs| == 2 && (subs[0].score1 != subs[1].score1 || subs[0].score2 != subs[1].score2) ==>
              r.Success? && db.participants == old(db.participants)
              && db.matches == old(db.matches)[matchId := m.(status := Disputed)])
        && (|subs| == 2 && subs[0].score1 == subs[1].score1 && subs[0].score2 == subs[1].score2 ==>
              && db.matches == MatchesAfterConfirm(old(db.matches), matchId, score1, score2)
              && db.participants == Eliminate(old(db.participants), old(db.brackets)[m.bracketId].tournamentId,
                                              Loser(m, score1, score2), m.roundNumber)
              && (r.Success? <==> AdvanceAfterConfirm(old(db.matches), matchId, score1, score2).Success?))
    ensures r.Success? ==> r.value == FormatMatchData(RecordOf(db, matchId))
    ensures db.tournaments == old(db.tournaments) && db.brackets == old(db.brackets)
    ensures db.matchOrder == old(db.matchOrder) && db.nextId == old(db.nextId)
  {
    ghost var sound := SubmissionsSound(db);
    var check := SubmitCheck(db.matches, SubmissionsOf(db, matchId), matchId, playerId);
    if check.Some? {
      return Failure(check.value);
    }
    var report := Submission(playerId, score1, score2, now);
    var submissions := SubmissionsOf(db, matchId) + [report];
    if sound {
      SubmitKeepsSound(db, matchId, report);
    }
    db.submissions := db.submissions[matchId := submissions];
    ghost var ms0 := db.matches;
    var resolved := ResolveReports(db, matchId, submissions);
    if sound {
      SoundWhenSlotsKept(db, ms0);
    }
    if resolved.Failure? {
      return Failure(resolved.error);
    }
    r := GetMatchDetails(db, matchId);
  }

  /**
   * The status step of `submitMatchScore` once the report is stored: a
   * single report makes the match SUBMITTED; two agreeing reports confirm
   * it with the first report's scores; two differing reports make it
   * DISPUTED.
   */
  method ResolveReports(db: Store, matchId: MatchId, subs: seq<Submission>) returns (r: Result<(), Error>)
    requires db.Valid() && MatchesHaveBrackets(db) && matchId in db.matches
    modifies db
    ensures db.Valid() && MatchesHaveBrackets(db)
    ensures forall id :: id in old(db.matches) ==> id in db.matches && SlotsKept(old(db.matches)[id], db.matches[id])
    ensures var m := old(db.matches)[matchId];
      && (|subs| != 2 ==> r.Success? && db.participants == old(db.participants)
                          && db.matches == old(db.matches)[matchId := m.(status := Submitted)])
      && (|subs| == 2 && (subs[0].score1 != subs[1].score1 || subs[0].score2 != subs[1].score2) ==>
            r.Success? && db.participants == old(db.participants)
            && db.matches == old(db.matches)[matchId := m.(status := Disputed)])
      && (|subs| == 2 && subs[0].score1 == subs[1].score1 && subs[0].score2 == subs[1].score2 ==>
            && db.matches == MatchesAfterConfirm(old(db.matches), matchId, subs[0].score1, subs[0].score2)
            && db.participants == Eliminate(old(db.participants), old(db.brackets)[m.bracketId].tournamentId,
                                            Loser(m, subs[0].score1, subs[0].score2), m.roundNumber)
            && (r.Success? <==> AdvanceAfterConfirm(old(db.matches), matchId, subs[0].score1, subs[0].score2).Success?))
    ensures db.tournaments == old(db.tournaments) && db.brackets == old(db.brackets)
    ensures db.matchOrder == old(db.matchOrder) && db.submissions == old(db.submissions) && db.nextId == old(db.nextId)
  {
    var m := db.matches[matchId];
    r := Success(());
    if |subs| == 2 {
      if subs[0].score1 == subs[1].score1 && subs[0].score2 == subs[1].score2 {
        var confirmed := ConfirmMatch(db, matchId, subs[0].score1, subs[0].score2);
        if confirmed.Failure? {
          r := Failure(confirmed.error);
        }
      } else {
        db.PutMatch(matchId, m.(status := Disputed));
      }
    } else {
      db.PutMatch(matchId, m.(status := Submitted));
    }
  }

  /** An accepted report keeps the protocol's invariant for the store with the new submission. */
  lemma SubmitKeepsSound(db: Store, matchId: MatchId, s: Submission)
    requires SubmissionsSound(db)
    requires SubmitCheck(db.matches, SubmissionsOf(db, matchId), matchId, s.submittedBy).None?
    ensures matchId in db.matches && SoundSubmissions(SubmissionsOf(db, matchId) + [s], db.matches[matchId])
  {
    var playerId := s.submittedBy;
    var before := SubmissionsOf(db, matchId);
    var subs := before + [s];
    var m := db.matches[matchId];
    if |before| == 2 {
      TwoSubmissionsCoverThePlayers(before, m, playerId);
    }
    assert |before| <= 1;
    forall i, j | 0 <= i < j < |subs| ensures subs[i].submittedBy != subs[j].submittedBy {
      assert subs[i] == before[i];
    }
    forall i | 0 <= i < |subs| ensures IsPlayer(m, subs[i].submittedBy) {
      if i < |before| {
        assert subs[i] == before[i];
      }
    }
  }

  /**
   * A match whose two players have both reported accepts no further
   * report, and in particular a DISPUTED match keeps its two submissions.
   */
  lemma NoThirdSubmission(db: Store, matchId: MatchId, playerId: UserId)
    requires SubmissionsSound(db) && matchId in db.matches && |SubmissionsOf(db, matchId)| == 2
    ensures SubmitCheck(db.matches, SubmissionsOf(db, matchId), matchId, playerId).Some?
  {
    if IsPlayer(db.matches[matchId], playerId) {
      TwoSubmissionsCoverThePlayers(SubmissionsOf(db, matchId), db.matches[matchId], playerId);
    }
  }
}
