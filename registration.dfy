/**
 * The tournament routes that change registration: create, join, join by
 * code, leave, the update and delete guards, and the manual status route.
 * The authenticated user is a parameter, the clock is `now`, and the
 * route validators' demands on the request body are preconditions.
 */
module Registration {
  import opened Wrappers
  import opened Entities
  import opened Store
  import Lifecycle

  // ---------------------------------------------------------------------
  // The store's registration invariant
  // ---------------------------------------------------------------------

  /** The participant rows of one tournament. */
  ghost function Roster(ps: map<(TournamentId, UserId), Participant>, tournamentId: TournamentId)
    : set<(TournamentId, UserId)>
  {
    set k | k in ps && k.0 == tournamentId
  }

  /**
   * currentPlayers counts the tournament's participant rows, and every
   * participant row belongs to a stored tournament.
   */
  ghost predicate Counted(db: Store)
    reads db
  {
    && (forall k :: k in db.participants ==> k.0 in db.tournaments)
    && (forall id :: id in db.tournaments ==> db.tournaments[id].currentPlayers == |Roster(db.participants, id)|)
  }

  /** No tournament holds more players than it admits. */
  ghost predicate WithinCapacity(db: Store)
    reads db
  {
    forall id :: id in db.tournaments ==> db.tournaments[id].currentPlayers <= db.tournaments[id].maxPlayers
  }

  /** A new participant row adds one row to its tournament's roster and none to another's. */
  lemma {:induction false} RosterInsert(ps: map<(TournamentId, UserId), Participant>, k: (TournamentId, UserId), p: Participant)
    requires k !in ps
    ensures Roster(ps[k := p], k.0) == Roster(ps, k.0) + {k}
    ensures |Roster(ps[k := p], k.0)| == |Roster(ps, k.0)| + 1
    ensures forall id :: id != k.0 ==> Roster(ps[k := p], id) == Roster(ps, id)
  {
    assert k !in Roster(ps, k.0);
  }

  /** Removing a participant row removes one row from its tournament's roster and none from another's. */
  lemma {:induction false} RosterRemove(ps: map<(TournamentId, UserId), Participant>, k: (TournamentId, UserId))
    requires k in ps
    ensures Roster(ps - {k}, k.0) == Roster(ps, k.0) - {k}
    ensures |Roster(ps - {k}, k.0)| == |Roster(ps, k.0)| - 1
    ensures forall id :: id != k.0 ==> Roster(ps - {k}, id) == Roster(ps, id)
  {
    assert k in Roster(ps, k.0);
  }

  // ---------------------------------------------------------------------
  // create
  // ---------------------------------------------------------------------

  /** The row `POST /create` writes: open for registration, empty, without a bracket or a code. */
  function NewTournament(createdBy: UserId, startDate: int, registrationDeadline: Option<int>, maxPlayers: int)
    : (t: Tournament)
    ensures t.status == RegistrationOpen && t.currentPlayers == 0 && !t.bracketGenerated && t.code.None?
    ensures t.createdBy == createdBy && t.startDate == startDate && t.maxPlayers == maxPlayers
    ensures t.registrationDeadline == registrationDeadline
  {
    Tournament(createdBy, RegistrationOpen, startDate, registrationDeadline, maxPlayers, 0, false, None)
  }

  /**
   * `POST /create`: stores a new tournament under the identifier the store
   * assigns. The validator admits 2 to 128 players.
   */
  method Create(db: Store, id: TournamentId, user: UserId, startDate: int, registrationDeadline: Option<int>,
                maxPlayers: int)
    requires db.Valid() && id !in db.tournaments
    requires 2 <= maxPlayers <= 128
    modifies db
    ensures db.Valid()
    ensures db.tournaments == old(db.tournaments)[id := NewTournament(user, startDate, registrationDeadline, maxPlayers)]
    ensures old(Counted(db)) ==> Counted(db)
    ensures old(WithinCapacity(db)) ==> WithinCapacity(db)
    ensures db.participants == old(db.participants) && db.brackets == old(db.brackets)
    ensures db.matches == old(db.matches) && db.submissions == old(db.submissions)
    ensures db.matchOrder == old(db.matchOrder) && db.nextId == old(db.nextId)
  {
    ghost var counted := Counted(db);
    db.tournaments := db.tournaments[id := NewTournament(user, startDate, registrationDeadline, maxPlayers)];
    if counted {
      assert Roster(db.participants, id) == {};
    }
  }

  // ---------------------------------------------------------------------
  // join and join by code
  // ---------------------------------------------------------------------

  /** The checks of `POST /join/:id` on a stored tournament, in the route's order. */
  function JoinCheck(t: Tournament, registered: bool, now: int): (e: Option<Error>)
    ensures e.None? <==> t.status == RegistrationOpen && !(t.registrationDeadline.Some? && now > t.registrationDeadline.value)
                         && t.currentPlayers < t.maxPlayers && !registered
    ensures t.status != RegistrationOpen ==> e == Some(NotOpenForRegistration)
  {
    if t.status != RegistrationOpen then Some(NotOpenForRegistration)
    else if t.registrationDeadline.Some? && now > t.registrationDeadline.value then Some(RegistrationDeadlinePassed)
    else if t.currentPlayers >= t.maxPlayers then Some(TournamentFull)
    else if registered then Some(AlreadyRegistered)
    else None
  }

  /** The checks of `POST /join-by-code` once the tournament is found: the same, without the deadline. */
  function ByCodeCheck(t: Tournament, registered: bool): (e: Option<Error>)
    ensures e.None? <==> t.status == RegistrationOpen && t.currentPlayers < t.maxPlayers && !registered
  {
    if t.status != RegistrationOpen then Some(NotOpenForRegistration)
    else if t.currentPlayers >= t.maxPlayers then Some(TournamentFull)
    else if registered then Some(AlreadyRegistered)
    else None
  }

  /**
   * The two joins differ only in the deadline: whatever the join by id
   * admits the join by code admits, and the join by code admits past the
   * deadline what the join by id refuses for that reason alone.
   */
  lemma JoinsDifferOnlyInDeadline(t: Tournament, registered: bool, now: int)
    ensures JoinCheck(t, registered, now).None? ==> ByCodeCheck(t, registered).None?
    ensures ByCodeCheck(t, registered).None? && JoinCheck(t, registered, now).Some? ==>
              JoinCheck(t, registered, now) == Some(RegistrationDeadlinePassed)
    ensures JoinCheck(t, registered, now) != Some(RegistrationDeadlinePassed) ==>
              JoinCheck(t, registered, now) == ByCodeCheck(t, registered)
  {
  }

  /** The tournament row after one more player joins: the count grows, and registration closes once it is full. */
  function Admitted(t: Tournament): (u: Tournament)
    ensures u.currentPlayers == t.currentPlayers + 1
    ensures u.status == (if t.currentPlayers + 1 >= t.maxPlayers then RegistrationClosed else t.status)
    ensures u == t.(currentPlayers := u.currentPlayers, status := u.status)
  {
    t.(currentPlayers := t.currentPlayers + 1,
       status := if t.currentPlayers + 1 >= t.maxPlayers then RegistrationClosed else t.status)
  }

  /** The participant row a join creates: REGISTERED, not eliminated. */
  const Fresh: Participant := Participant(Registered, None)

  /** The writes of a successful join: the participant row, then the count and the status. */
  method Admit(db: Store, id: TournamentId, user: UserId)
    requires db.Valid() && id in db.tournaments && (id, user) !in db.participants
    requires db.tournaments[id].currentPlayers < db.tournaments[id].maxPlayers
    modifies db
    ensures db.Valid()
    ensures db.participants == old(db.participants)[(id, user) := Fresh]
    ensures db.tournaments == old(db.tournaments)[id := Admitted(old(db.tournaments)[id])]
    ensures old(Counted(db)) ==> Counted(db)
    ensures old(WithinCapacity(db)) ==> WithinCapacity(db)
    ensures db.brackets == old(db.brackets) && db.matches == old(db.matches) && db.submissions == old(db.submissions)
    ensures db.matchOrder == old(db.matchOrder) && db.nextId == old(db.nextId)
  {
    ghost var counted := Counted(db);
    ghost var ps := db.participants;
    RosterInsert(ps, (id, user), Fresh);
    db.participants := db.participants[(id, user) := Fresh];
    db.tournaments := db.tournaments[id := Admitted(db.tournaments[id])];
  }

  /**
   * `POST /join/:id`: after the checks, in order, that the tournament
   * exists, is open, is before its deadline, is not full and does not
   * already have the user, the user joins; any failed check writes nothing.
   */
  method Join(db: Store, id: TournamentId, user: UserId, now: int) returns (r: Result<(), Error>)
    requires db.Valid()
    modifies db
    ensures db.Valid()
    ensures id !in old(db.tournaments) ==> r == Failure(TournamentNotFound)
    ensures id in old(db.tournaments) ==>
      var e := JoinCheck(old(db.tournaments)[id], (id, user) in old(db.participants), now);
      (e.Some? ==> r == Failure(e.value)) && (e.None? ==> r.Success?)
    ensures r.Failure? ==> db.tournaments == old(db.tournaments) && db.participants == old(db.participants)
    ensures r.Success? ==> db.participants == old(db.participants)[(id, user) := Fresh]
                           && db.tournaments == old(db.tournaments)[id := Admitted(old(db.tournaments)[id])]
    ensures old(Counted(db)) ==> Counted(db)
    ensures old(WithinCapacity(db)) ==> WithinCapacity(db)
    ensures db.brackets == old(db.brackets) && db.matches == old(db.matches) && db.submissions == old(db.submissions)
    ensures db.matchOrder == old(db.matchOrder) && db.nextId == old(db.nextId)
  {
    if id !in db.tournaments {
      return Failure(TournamentNotFound);
    }
    var check := JoinCheck(db.tournaments[id], (id, user) in db.participants, now);
    if check.Some? {
      return Failure(check.value);
    }
    Admit(db, id, user);
    r := Success(());
  }

  /** `String.prototype.toUpperCase` on ASCII letters; every other character is kept. */
  function UpperAscii(s: string): (u: string)
    ensures |u| == |s|
    ensures forall i :: 0 <= i < |s| ==> u[i] == (if 'a' <= s[i] <= 'z' then (s[i] as int - 32) as char else s[i])
  {
    if s == [] then []
    else [if 'a' <= s[0] <= 'z' then (s[0] as int - 32) as char else s[0]] + UpperAscii(s[1..])
  }

  /** Upper-casing twice is upper-casing once, and a string without lower-case letters is its own upper case. */
  lemma UpperAsciiFixes(s: string)
    ensures UpperAscii(UpperAscii(s)) == UpperAscii(s)
    ensures (forall i :: 0 <= i < |s| ==> !('a' <= s[i] <= 'z')) ==> UpperAscii(s) == s
  {
  }

  /** The tournaments whose code is exactly `code`. */
  ghost predicate HasCode(db: Store, id: TournamentId, code: string)
    reads db
  {
    id in db.tournaments && db.tournaments[id].code == Some(code)
  }

  /**
   * `POST /join-by-code`: a missing or empty code is refused; the code is
   * upper-cased and looked up; then the status, capacity and duplicate
   * checks of the join by id apply, but not its deadline check.
   */
  method JoinByCode(db: Store, code: Option<string>, user: UserId) returns (r: Result<TournamentId, Error>)
    requires db.Valid()
    modifies db
    ensures db.Valid()
    ensures code.None? || code.value == [] ==> r == Failure(CodeRequired)
    ensures code.Some? && code.value != [] && (forall id :: !old(HasCode(db, id, UpperAscii(code.value)))) ==>
              r == Failure(CodeNotFound)
    ensures r.Failure? && r.error != CodeRequired && r.error != CodeNotFound ==>
              exists id :: old(HasCode(db, id, UpperAscii(code.value)))
                && ByCodeCheck(old(db.tournaments)[id], (id, user) in old(db.participants)) == Some(r.error)
    ensures r.Failure? ==> db.tournaments == old(db.tournaments) && db.participants == old(db.participants)
    ensures r.Success? ==> var id := r.value;
      && code.Some? && old(HasCode(db, id, UpperAscii(code.value)))
      && ByCodeCheck(old(db.tournaments)[id], (id, user) in old(db.participants)).None?
      && db.participants == old(db.participants)[(id, user) := Fresh]
      && db.tournaments == old(db.tournaments)[id := Admitted(old(db.tournaments)[id])]
    ensures old(Counted(db)) ==> Counted(db)
    ensures old(WithinCapacity(db)) ==> WithinCapacity(db)
    ensures db.brackets == old(db.brackets) && db.matches == old(db.matches) && db.submissions == old(db.submissions)
    ensures db.matchOrder == old(db.matchOrder) && db.nextId == old(db.nextId)
  {
    if code.None? || code.value == [] {
      return Failure(CodeRequired);
    }
    var wanted := UpperAscii(code.value);
    if !exists id :: id in db.tournaments && db.tournaments[id].code == Some(wanted) {
      return Failure(CodeNotFound);
    }
    var id :| id in db.tournaments && db.tournaments[id].code == Some(wanted);
    assert HasCode(db, id, wanted);
    var check := ByCodeCheck(db.tournaments[id], (id, user) in db.participants);
    if check.Some? {
      return Failure(check.value);
    }
    Admit(db, id, user);
    r := Success(id);
  }

  // ---------------------------------------------------------------------
  // leave
  // ---------------------------------------------------------------------

  /**
   * `POST /leave/:id`: only while registration is open and only for a
   * registered user; the participant row goes and the count drops by one.
   */
  method Leave(db: Store, id: TournamentId, user: UserId) returns (r: Result<(), Error>)
    requires db.Valid()
    modifies db
    ensures db.Valid()
    ensures id !in old(db.tournaments) ==> r == Failure(TournamentNotFound)
    ensures id in old(db.tournaments) && old(db.tournaments)[id].status != RegistrationOpen ==>
              r == Failure(NotOpenForRegistration)
    ensures id in old(db.tournaments) && old(db.tournaments)[id].status == RegistrationOpen ==>
              (r.Failure? <==> (id, user) !in old(db.participants)) && (r.Failure? ==> r.error == NotRegistered)
    ensures r.Failure? ==> db.tournaments == old(db.tournaments) && db.participants == old(db.participants)
    ensures r.Success? ==>
              && db.participants == old(db.participants) - {(id, user)}
              && db.tournaments == old(db.tournaments)[id := old(db.tournaments)[id].(
                                     currentPlayers := old(db.tournaments)[id].currentPlayers - 1)]
    ensures old(Counted(db)) ==> Counted(db)
    ensures old(Counted(db)) && r.Success? ==> db.tournaments[id].currentPlayers >= 0
    ensures old(WithinCapacity(db)) ==> WithinCapacity(db)
    ensures db.brackets == old(db.brackets) && db.matches == old(db.matches) && db.submissions == old(db.submissions)
    ensures db.matchOrder == old(db.matchOrder) && db.nextId == old(db.nextId)
  {
    if id !in db.tournaments {
      return Failure(TournamentNotFound);
    }
    var t := db.tournaments[id];
    if t.status != RegistrationOpen {
      return Failure(NotOpenForRegistration);
    }
    if (id, user) !in db.participants {
      return Failure(NotRegistered);
    }
    ghost var ps := db.participants;
    RosterRemove(ps, (id, user));
    db.participants := db.participants - {(id, user)};
    db.tournaments := db.tournaments[id := t.(currentPlayers := t.currentPlayers - 1)];
    r := Success(());
  }

  // ---------------------------------------------------------------------
  // update, delete and the manual status route
  // ---------------------------------------------------------------------

  /**
   * The fields of `PUT /update/:id` this model carries; None leaves a field
   * as it is. The validator admits a status among the fields, and the route
   * writes it like any other.
   */
  datatype Patch = Patch(startDate: Option<int>, registrationDeadline: Option<int>, maxPlayers: Option<int>,
                         status: Option<TournamentStatus>)

  function Patched(t: Tournament, p: Patch): (u: Tournament)
    ensures u.startDate == (if p.startDate.Some? then p.startDate.value else t.startDate)
    ensures u.maxPlayers == (if p.maxPlayers.Some? then p.maxPlayers.value else t.maxPlayers)
    ensures p.registrationDeadline.Some? ==> u.registrationDeadline == p.registrationDeadline
    ensures u.status == (if p.status.Some? then p.status.value else t.status)
    ensures u == t.(startDate := u.startDate, registrationDeadline := u.registrationDeadline,
                    maxPlayers := u.maxPlayers, status := u.status)
  {
    t.(startDate := if p.startDate.Some? then p.startDate.value else t.startDate,
       registrationDeadline := if p.registrationDeadline.Some? then p.registrationDeadline else t.registrationDeadline,
       maxPlayers := if p.maxPlayers.Some? then p.maxPlayers.value else t.maxPlayers,
       status := if p.status.Some? then p.status.value else t.status)
  }

  /**
   * The update does not compare a new maxPlayers with the players already
   * registered: a tournament of five can be shrunk to two.
   */
  lemma UpdateMayShrinkBelowPlayers()
    ensures var t := Tournament(1, RegistrationOpen, 0, None, 8, 5, false, None);
      var u := Patched(t, Patch(None, None, Some(2), None));
      t.currentPlayers <= t.maxPlayers && u.currentPlayers > u.maxPlayers
  {
  }

  /**
   * Nor does it check the status it writes against the lifecycle: the creator
   * of an open tournament can move it straight to IN_PROGRESS or COMPLETED
   * with no bracket generated, or back to DRAFT.
   */
  lemma UpdateMaySetAnyStatus(t: Tournament, s: TournamentStatus)
    ensures var u := Patched(t, Patch(None, None, None, Some(s)));
      u.status == s && u.bracketGenerated == t.bracketGenerated && u.currentPlayers == t.currentPlayers
  {
  }

  /** The tournament has started: no more updates. */
  predicate Started(s: TournamentStatus)
  {
    s == InProgress || s == Completed
  }

  /**
   * `PUT /update/:id`: refused for a missing tournament, for anyone but its
   * creator, and once it is IN_PROGRESS or COMPLETED; otherwise the patch
   * is written. The validator admits 2 to 128 players and only dates after
   * `now`.
   */
  method Update(db: Store, id: TournamentId, user: UserId, patch: Patch, now: int) returns (r: Result<(), Error>)
    requires db.Valid()
    requires patch.maxPlayers.Some? ==> 2 <= patch.maxPlayers.value <= 128
    requires patch.startDate.Some? ==> patch.startDate.value > now
    requires patch.registrationDeadline.Some? ==> patch.registrationDeadline.value > now
    modifies db
    ensures db.Valid()
    ensures id !in old(db.tournaments) ==> r == Failure(TournamentNotFound)
    ensures id in old(db.tournaments) && old(db.tournaments)[id].createdBy != user ==> r == Failure(NotCreator)
    ensures id in old(db.tournaments) && old(db.tournaments)[id].createdBy == user ==>
              (r.Failure? <==> Started(old(db.tournaments)[id].status)) && (r.Failure? ==> r.error == AlreadyStarted)
    ensures r.Failure? ==> db.tournaments == old(db.tournaments)
    ensures r.Success? ==> db.tournaments == old(db.tournaments)[id := Patched(old(db.tournaments)[id], patch)]
    ensures old(Counted(db)) ==> Counted(db)
    ensures db.participants == old(db.participants) && db.brackets == old(db.brackets)
    ensures db.matches == old(db.matches) && db.submissions == old(db.submissions)
    ensures db.matchOrder == old(db.matchOrder) && db.nextId == old(db.nextId)
  {
    if id !in db.tournaments {
      return Failure(TournamentNotFound);
    }
    var t := db.tournaments[id];
    if t.createdBy != user {
      return Failure(NotCreator);
    }
    if Started(t.status) {
      return Failure(AlreadyStarted);
    }
    db.tournaments := db.tournaments[id := Patched(t, patch)];
    r := Success(());
  }

  /**
   * `DELETE /delete/:id`: refused for a missing tournament, for anyone but
   * its creator, and while it has players; otherwise the tournament goes.
   */
  method Delete(db: Store, id: TournamentId, user: UserId) returns (r: Result<(), Error>)
    requires db.Valid()
    modifies db
    ensures db.Valid()
    ensures id !in old(db.tournaments) ==> r == Failure(TournamentNotFound)
    ensures id in old(db.tournaments) && old(db.tournaments)[id].createdBy != user ==> r == Failure(NotCreator)
    ensures id in old(db.tournaments) && old(db.tournaments)[id].createdBy == user ==>
              (r.Failure? <==> old(db.tournaments)[id].currentPlayers > 0) && (r.Failure? ==> r.error == HasParticipants)
    ensures r.Failure? ==> db.tournaments == old(db.tournaments)
    ensures r.Success? ==> db.tournaments == old(db.tournaments) - {id}
    ensures old(Counted(db)) ==> Counted(db)
    ensures old(WithinCapacity(db)) ==> WithinCapacity(db)
    ensures db.participants == old(db.participants) && db.brackets == old(db.brackets)
    ensures db.matches == old(db.matches) && db.submissions == old(db.submissions)
    ensures db.matchOrder == old(db.matchOrder) && db.nextId == old(db.nextId)
  {
    if id !in db.tournaments {
      return Failure(TournamentNotFound);
    }
    var t := db.tournaments[id];
    if t.createdBy != user {
      return Failure(NotCreator);
    }
    if t.currentPlayers > 0 {
      return Failure(HasParticipants);
    }
    ghost var counted := Counted(db);
    if counted {
      EmptyRosterHasNoRows(db.participants, id);
    }
    db.tournaments := db.tournaments - {id};
    r := Success(());
  }

  /** A tournament with an empty roster owns no participant row. */
  lemma EmptyRosterHasNoRows(ps: map<(TournamentId, UserId), Participant>, id: TournamentId)
    requires |Roster(ps, id)| == 0
    ensures forall k :: k in ps ==> k.0 != id
  {
    assert forall k :: k in ps && k.0 == id ==> k in Roster(ps, id);
  }

  /**
   * `PUT /update-status/:id`: the status must be one of the seven names
   * (checked before the tournament is looked up); then the manual status
   * update applies.
   */
  method UpdateStatusRoute(db: Store, id: TournamentId, name: string) returns (r: Result<(), Error>)
    requires db.Valid()
    modifies db
    ensures db.Valid()
    ensures ParseStatus(name).None? ==> r == Failure(InvalidStatus)
    ensures ParseStatus(name).Some? && id !in old(db.tournaments) ==> r == Failure(TournamentNotFound)
    ensures r.Failure? ==> db.tournaments == old(db.tournaments)
    ensures r.Success? ==> ParseStatus(name).Some? && StatusName(ParseStatus(name).value) == name
                           && db.tournaments == old(db.tournaments)[id := old(db.tournaments)[id].(status := ParseStatus(name).value)]
    ensures db.participants == old(db.participants) && db.brackets == old(db.brackets)
    ensures db.matches == old(db.matches) && db.submissions == old(db.submissions)
    ensures db.matchOrder == old(db.matchOrder) && db.nextId == old(db.nextId)
  {
    var status := ParseStatus(name);
    if status.None? {
      return Failure(InvalidStatus);
    }
    if id !in db.tournaments {
      return Failure(TournamentNotFound);
    }
    r := Lifecycle.ManualStatusUpdate(db, id, status.value);
  }
}
