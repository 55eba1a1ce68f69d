/**
 * The records of the tournament store: tournaments, participants, brackets,
 * bracket matches and score submissions, with their status enumerations.
 * Identifiers are naturals; dates are integer milliseconds.
 */
module Entities {
  import opened Wrappers

  type UserId = nat
  type TournamentId = nat
  type BracketId = nat
  type MatchId = nat

  /** Lifecycle of a tournament. */
  datatype TournamentStatus =
    | Draft
    | Published
    | RegistrationOpen
    | RegistrationClosed
    | InProgress
    | Completed
    | Cancelled

  datatype ParticipantStatus = Registered | Eliminated | Winner

  /** States of a bracket match. */
  datatype MatchStatus =
    | WaitingForPlayers
    | Bye
    | Pending
    | Submitted
    | Disputed
    | Confirmed

  datatype Tournament = Tournament(
    createdBy: UserId,
    status: TournamentStatus,
    startDate: int,
    registrationDeadline: Option<int>,
    maxPlayers: int,
    currentPlayers: int,
    bracketGenerated: bool,
    code: Option<string>)

  datatype Participant = Participant(status: ParticipantStatus, eliminatedInRound: Option<int>)

  datatype Bracket = Bracket(tournamentId: TournamentId, totalRounds: nat, totalPlayers: nat)

  /** A bracket match; an empty player slot is None, and nextMatchId is None only for the final. */
  datatype Match = Match(
    bracketId: BracketId,
    roundNumber: nat,
    matchNumber: nat,
    player1: Option<UserId>,
    player2: Option<UserId>,
    status: MatchStatus,
    winnerId: Option<UserId>,
    nextMatchId: Option<MatchId>)

  /** One player's report of a match result. */
  datatype Submission = Submission(submittedBy: UserId, score1: int, score2: int, submittedAt: int)

  /** The name of a tournament status as the store and the API spell it. */
  function StatusName(s: TournamentStatus): string
  {
    match s
    case Draft => "DRAFT"
    case Published => "PUBLISHED"
    case RegistrationOpen => "REGISTRATION_OPEN"
    case RegistrationClosed => "REGISTRATION_CLOSED"
    case InProgress => "IN_PROGRESS"
    case Completed => "COMPLETED"
    case Cancelled => "CANCELLED"
  }

  /** The whitelist of the manual status update: only the seven names are accepted. */
  function ParseStatus(name: string): (r: Option<TournamentStatus>)
    ensures r.Some? ==> StatusName(r.value) == name
  {
    if name == "DRAFT" then Some(Draft)
    else if name == "PUBLISHED" then Some(Published)
    else if name == "REGISTRATION_OPEN" then Some(RegistrationOpen)
    else if name == "REGISTRATION_CLOSED" then Some(RegistrationClosed)
    else if name == "IN_PROGRESS" then Some(InProgress)
    else if name == "COMPLETED" then Some(Completed)
    else if name == "CANCELLED" then Some(Cancelled)
    else None
  }

  /** Every status name is accepted and read back as that status, so ParseStatus accepts exactly the seven names. */
  lemma ParseStatusName(s: TournamentStatus)
    ensures ParseStatus(StatusName(s)) == Some(s)
  {
  }
}
