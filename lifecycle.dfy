/**
 * The scheduled status sweep of the tournament status service: the rule
 * that decides a tournament's next status from its dates and its player
 * count, the sweep that applies it to every live tournament (generating
 * the bracket of a tournament that starts), and the manual override.
 * Dates are integer milliseconds; the clock is the parameter `now`.
 */
module Lifecycle {
  import opened Wrappers
  import opened Entities
  import opened Store

  /** `48 * 60 * 60 * 1000`: how long a tournament may stay IN_PROGRESS. */
  const TwoDays: int := 48 * 60 * 60 * 1000

  /** The moves the sweep may make: forward through registration and play, or to CANCELLED. */
  predicate Transition(from: TournamentStatus, to: TournamentStatus)
  {
    || (from == RegistrationOpen && (to == RegistrationClosed || to == InProgress || to == Cancelled))
    || (from == RegistrationClosed && (to == InProgress || to == Cancelled))
    || (from == InProgress && to == Cancelled)
  }

  /** The registration deadline is set and has been reached. */
  predicate DeadlinePassed(t: Tournament, now: int)
  {
    t.registrationDeadline.Some? && t.registrationDeadline.value <= now
  }

  /**
   * `determineStatus`: the status a tournament should now have, or None
   * when it should keep its own. A tournament starts at its start date only
   * when it is full, else it is cancelled; registration closes at the
   * deadline (cancelling an under-filled tournament) or as soon as it is
   * full; a tournament still running two days after its start is cancelled.
   */
  function DetermineStatus(t: Tournament, now: int): (r: Option<TournamentStatus>)
    ensures r.Some? ==> Transition(t.status, r.value)
    ensures r == Some(InProgress) <==>
              t.startDate <= now && (t.status == RegistrationOpen || t.status == RegistrationClosed)
              && t.currentPlayers >= t.maxPlayers
    ensures r == Some(RegistrationClosed) <==>
              t.status == RegistrationOpen && now < t.startDate && t.currentPlayers >= t.maxPlayers
    ensures r == Some(Cancelled) <==>
              || ((t.status == RegistrationOpen || t.status == RegistrationClosed) && t.currentPlayers < t.maxPlayers
                  && (t.startDate <= now || (t.status == RegistrationOpen && DeadlinePassed(t, now))))
              || (t.status == InProgress && now >= t.startDate + TwoDays)
    ensures r.None? <==>
              && !(t.startDate <= now && (t.status == RegistrationOpen || t.status == RegistrationClosed))
              && !(t.status == RegistrationOpen && (DeadlinePassed(t, now) || t.currentPlayers >= t.maxPlayers))
              && !(t.status == InProgress && now >= t.startDate + TwoDays)
  {
    if t.startDate <= now && (t.status == RegistrationClosed || t.status == RegistrationOpen) then
      if t.currentPlayers < t.maxPlayers then Some(Cancelled) else Some(InProgress)
    else if t.status == RegistrationOpen && DeadlinePassed(t, now) then
      if t.currentPlayers < t.maxPlayers then Some(Cancelled) else Some(RegistrationClosed)
    else if t.status == RegistrationOpen && t.currentPlayers >= t.maxPlayers then
      Some(RegistrationClosed)
    else if t.status == InProgress && now >= t.startDate + TwoDays then
      Some(Cancelled)
    else
      None
  }

  /** The status filter of the sweep's query: `status notIn [CANCELLED, COMPLETED]`. */
  predicate Live(t: Tournament)
  {
    t.status != Cancelled && t.status != Completed
  }

  /** The status one pass of the sweep leaves a tournament with. */
  function NextStatus(t: Tournament, now: int): TournamentStatus
  {
    if Live(t) && DetermineStatus(t, now).Some? then DetermineStatus(t, now).value else t.status
  }

  function Swept(t: Tournament, now: int): Tournament
  {
    t.(status := NextStatus(t, now))
  }

  /**
   * The sweep reaches a fixed point: a second pass at the same instant may
   * still cancel a tournament that the first pass started, and after that
   * nothing changes.
   */
  lemma SweepSettlesInTwoPasses(t: Tournament, now: int)
    ensures DetermineStatus(Swept(Swept(Swept(t, now), now), now), now) == None
    ensures Swept(Swept(Swept(t, now), now), now) == Swept(Swept(t, now), now)
    ensures DetermineStatus(Swept(t, now), now).Some? ==>
              Swept(t, now).status == InProgress && now >= t.startDate + TwoDays
  {
  }

  /** The live tournaments whose status the sweep changes. */
  ghost function Changed(ts: map<TournamentId, Tournament>, now: int): set<TournamentId>
  {
    set id | id in ts && Live(ts[id]) && DetermineStatus(ts[id], now).Some?
  }

  /**
   * The sweep generates a bracket for t: the rule starts it now, it has no
   * bracket yet, and `players` (its registered players) are at least two.
   */
  predicate StartsWithBracket(t: Tournament, now: int, players: nat)
  {
    DetermineStatus(t, now) == Some(InProgress) && !t.bracketGenerated && players >= 2
  }

  /** The stored tournaments the sweep at `now` generates a bracket for. */
  ghost function Starters(db: Store, now: int): set<TournamentId>
    reads db
  {
    set id | id in db.tournaments && StartsWithBracket(db.tournaments[id], now, |db.RegisteredPlayers(id)|)
  }

  /**
   * The row of one tournament after the sweep: only its status and its
   * bracket flag change, and the flag changes exactly when a bracket is
   * generated at the start of the tournament.
   */
  ghost predicate SweptRow(t: Tournament, u: Tournament, now: int, players: nat)
  {
    && u.(bracketGenerated := t.bracketGenerated) == Swept(t, now)
    && (u.bracketGenerated != t.bracketGenerated <==> StartsWithBracket(t, now, players))
  }

  /** The bracket tables grew: every old bracket, match and match order is still there, unchanged. */
  ghost predicate TablesKept(brackets0: map<BracketId, Bracket>, matches0: map<MatchId, Match>,
                             order0: map<BracketId, seq<MatchId>>, brackets: map<BracketId, Bracket>,
                             matches: map<MatchId, Match>, order: map<BracketId, seq<MatchId>>)
  {
    && (forall b :: b in brackets0 ==> b in brackets && brackets[b] == brackets0[b])
    && (forall id :: id in matches0 ==> id in matches && matches[id] == matches0[id])
    && (forall b :: b in order0 ==> b in order && order[b] == order0[b])
  }

  lemma TablesKeptTransitive(brackets0: map<BracketId, Bracket>, matches0: map<MatchId, Match>,
                              order0: map<BracketId, seq<MatchId>>, brackets1: map<BracketId, Bracket>,
                              matches1: map<MatchId, Match>, order1: map<BracketId, seq<MatchId>>,
                              brackets2: map<BracketId, Bracket>, matches2: map<MatchId, Match>,
                              order2: map<BracketId, seq<MatchId>>)
    requires TablesKept(brackets0, matches0, order0, brackets1, matches1, order1)
    requires TablesKept(brackets1, matches1, order1, brackets2, matches2, order2)
    ensures TablesKept(brackets0, matches0, order0, brackets2, matches2, order2)
  {
  }

  /**
   * One iteration of the sweep on the stored tournament `id`: applies the
   * status the rule asks for and, when the tournament starts without a
   * bracket, generates one; a generation failure (too few players) is
   * swallowed. `bracket` is the bracket generated, if any, and `seeded`
   * the seeding order it used.
   */
  method SweepOne(db: Store, id: TournamentId, now: int) returns (changed: bool, ghost bracket: Option<BracketId>,
                                                                   ghost seeded: seq<UserId>)
    requires db.Valid() && id in db.tournaments && Live(db.tournaments[id])
    modifies db
    ensures db.Valid()
    ensures changed <==> DetermineStatus(old(db.tournaments[id]), now).Some?
    ensures db.tournaments.Keys == old(db.tournaments).Keys
    ensures forall k :: k in old(db.tournaments) && k != id ==> db.tournaments[k] == old(db.tournaments)[k]
    ensures SweptRow(old(db.tournaments[id]), db.tournaments[id], now, |old(db.RegisteredPlayers(id))|)
    ensures bracket.Some? <==> StartsWithBracket(old(db.tournaments[id]), now, |old(db.RegisteredPlayers(id))|)
    ensures bracket.None? ==>
              && db.brackets == old(db.brackets) && db.matches == old(db.matches)
              && db.matchOrder == old(db.matchOrder) && db.nextId == old(db.nextId)
    ensures bracket.Some? ==>
              && db.Built(old(db.brackets), old(db.matches), old(db.matchOrder), old(db.nextId), id,
                          old(db.RegisteredPlayers(id)), seeded, bracket.value)
              && TablesKept(old(db.brackets), old(db.matches), old(db.matchOrder), db.brackets, db.matches, db.matchOrder)
              && bracket.value !in old(db.brackets) && db.brackets.Keys == old(db.brackets).Keys + {bracket.value}
              && db.brackets[bracket.value].tournamentId == id
    ensures db.participants == old(db.participants) && db.submissions == old(db.submissions)
  {
    bracket, seeded := None, [];
    var t := db.tournaments[id];
    var newStatus := DetermineStatus(t, now);
    changed := newStatus.Some?;
    if newStatus.None? {
      return;
    }
    db.tournaments := db.tournaments[id := t.(status := newStatus.value)];
    if newStatus.value == InProgress && !t.bracketGenerated {
      var generated;
      generated, seeded := db.GenerateBracket(id);
      if generated.Success? {
        bracket := Some(generated.value);
      }
    }
  }

  /**
   * `updateAllTournamentStatuses`: every live tournament is brought to the
   * status the rule gives it at `now`, brackets are generated for the ones
   * that start, and the number of tournaments whose status changed is
   * returned.
   */
  method UpdateAllTournamentStatuses(db: Store, now: int) returns (updated: nat)
    requires db.Valid()
    modifies db
    ensures db.Valid()
    ensures db.tournaments.Keys == old(db.tournaments).Keys
    ensures forall id :: id in old(db.tournaments) ==>
              SweptRow(old(db.tournaments)[id], db.tournaments[id], now, |old(db.RegisteredPlayers(id))|)
    ensures updated == |Changed(old(db.tournaments), now)|
    ensures TablesKept(old(db.brackets), old(db.matches), old(db.matchOrder), db.brackets, db.matches, db.matchOrder)
    ensures forall b :: b in db.brackets && b !in old(db.brackets) ==> db.brackets[b].tournamentId in old(Starters(db, now))
    ensures forall id :: id in old(Starters(db, now)) ==>
              exists b :: b in db.brackets && b !in old(db.brackets) && db.brackets[b].tournamentId == id
    ensures forall b1, b2 ::
              (b1 in db.brackets && b1 !in old(db.brackets) && b2 in db.brackets && b2 !in old(db.brackets)
               && db.brackets[b1].tournamentId == db.brackets[b2].tournamentId) ==> b1 == b2
    ensures old(Starters(db, now)) == {} ==>
              && db.brackets == old(db.brackets) && db.matches == old(db.matches)
              && db.matchOrder == old(db.matchOrder) && db.nextId == old(db.nextId)
    ensures db.participants == old(db.participants) && db.submissions == old(db.submissions)
  {
    var ts0 := db.tournaments;
    ghost var brackets0, matches0, order0, nextId0 := db.brackets, db.matches, db.matchOrder, db.nextId;
    ghost var counts := map id | id in ts0 :: |db.RegisteredPlayers(id)|;
    ghost var starters := Starters(db, now);
    var pending := set id | id in ts0 && Live(ts0[id]);
    ghost var changedIds: set<TournamentId> := {};
    updated := 0;
    SweepLoopStart(db, now, counts, starters, pending);
    while pending != {}
      invariant SweepLoop(db, now, ts0, counts, starters, pending, changedIds, updated,
                          brackets0, matches0, order0, nextId0, old(db.participants), old(db.submissions))
      decreases |pending|
    {
      var id :| id in pending;
      updated, changedIds := SweepNext(db, now, id, updated, ts0, counts, starters, pending, changedIds,
                                       brackets0, matches0, order0, nextId0, old(db.participants), old(db.submissions));
      pending := pending - {id};
    }
    SweepLoopEnd(db, now, ts0, counts, starters, changedIds, updated, brackets0, matches0, order0, nextId0,
                 old(db.participants), old(db.submissions));
    forall id | id in old(db.tournaments)
      ensures counts[id] == |old(db.RegisteredPlayers(id))|
    {
    }
  }

  /** Before the sweep's loop: nothing is processed and the invariant holds trivially. */
  lemma SweepLoopStart(db: Store, now: int, counts: map<TournamentId, nat>, starters: set<TournamentId>,
                       pending: set<TournamentId>)
    requires db.Valid()
    requires counts == map id | id in db.tournaments :: |db.RegisteredPlayers(id)|
    requires starters == Starters(db, now)
    requires pending == set id | id in db.tournaments && Live(db.tournaments[id])
    ensures SweepLoop(db, now, db.tournaments, counts, starters, pending, {}, 0, db.brackets, db.matches,
                      db.matchOrder, db.nextId, db.participants, db.submissions)
  {
    forall k | k in starters ensures k in pending {
    }
  }

  /** After the sweep's loop: every row is swept, every starter has one new bracket, and the count is right. */
  lemma SweepLoopEnd(db: Store, now: int, ts0: map<TournamentId, Tournament>, counts: map<TournamentId, nat>,
                     starters: set<TournamentId>, changedIds: set<TournamentId>, updated: nat,
                     brackets0: map<BracketId, Bracket>, matches0: map<MatchId, Match>,
                     order0: map<BracketId, seq<MatchId>>, nextId0: nat,
                     participants0: map<(TournamentId, UserId), Participant>,
                     submissions0: map<MatchId, seq<Submission>>)
    requires SweepLoop(db, now, ts0, counts, starters, {}, changedIds, updated,
                       brackets0, matches0, order0, nextId0, participants0, submissions0)
    ensures db.Valid() && db.tournaments.Keys == ts0.Keys
    ensures forall id :: id in ts0 ==> SweptRow(ts0[id], db.tournaments[id], now, counts[id])
    ensures updated == |Changed(ts0, now)|
    ensures TablesKept(brackets0, matches0, order0, db.brackets, db.matches, db.matchOrder)
    ensures forall b :: b in db.brackets && b !in brackets0 ==> db.brackets[b].tournamentId in starters
    ensures forall id :: id in starters ==>
              exists b :: b in db.brackets && b !in brackets0 && db.brackets[b].tournamentId == id
    ensures OneNewBracketEach(brackets0, db.brackets)
    ensures starters == {} ==>
              && db.brackets == brackets0 && db.matches == matches0
              && db.matchOrder == order0 && db.nextId == nextId0
    ensures db.participants == participants0 && db.submissions == submissions0
  {
    assert changedIds == Changed(ts0, now);
    assert starters - {} == starters;
    if starters == {} {
      assert starters * {} == starters;
    }
  }

  /** One iteration of the sweep's loop: SweepOne on a pending tournament, keeping the loop's invariants. */
  method SweepNext(db: Store, now: int, id: TournamentId, updated: nat, ghost ts0: map<TournamentId, Tournament>,
                   ghost counts: map<TournamentId, nat>, ghost starters: set<TournamentId>,
                   ghost pending: set<TournamentId>, ghost changedIds: set<TournamentId>,
                   ghost brackets0: map<BracketId, Bracket>, ghost matches0: map<MatchId, Match>,
                   ghost order0: map<BracketId, seq<MatchId>>, ghost nextId0: nat,
                   ghost participants0: map<(TournamentId, UserId), Participant>,
                   ghost submissions0: map<MatchId, seq<Submission>>)
    returns (updated': nat, ghost changedIds': set<TournamentId>)
    requires id in pending
    requires SweepLoop(db, now, ts0, counts, starters, pending, changedIds, updated,
                       brackets0, matches0, order0, nextId0, participants0, submissions0)
    modifies db
    ensures SweepLoop(db, now, ts0, counts, starters, pending - {id}, changedIds', updated',
                      brackets0, matches0, order0, nextId0, participants0, submissions0)
  {
    assert id !in changedIds;
    ghost var bumped := changedIds + {id};
    assert |bumped| == updated + 1;
    ghost var ts1, brackets1, matches1, order1, nextId1 := db.tournaments, db.brackets, db.matches, db.matchOrder, db.nextId;
    var changed;
    ghost var bracket, seeded;
    changed, bracket, seeded := SweepOne(db, id, now);
    SweptStep(ts0, counts, now, pending, changedIds, ts1, db.tournaments, id, changed);
    BracketsStep(starters, pending, brackets0, matches0, order0, nextId0, brackets1, matches1, order1, nextId1,
                 db.brackets, db.matches, db.matchOrder, db.nextId, id, bracket);
    updated', changedIds' := updated, changedIds;
    if changed {
      updated', changedIds' := updated + 1, bumped;
    }
  }

  /**
   * The invariant of the sweep's loop: the store stays valid, the rows and
   * the bracket tables are as SweptSoFar and BracketsSoFar describe,
   * `updated` counts the changed rows, and the participants and
   * submissions are untouched.
   */
  ghost predicate SweepLoop(db: Store, now: int, ts0: map<TournamentId, Tournament>, counts: map<TournamentId, nat>,
                            starters: set<TournamentId>, pending: set<TournamentId>, changedIds: set<TournamentId>,
                            updated: nat, brackets0: map<BracketId, Bracket>, matches0: map<MatchId, Match>,
                            order0: map<BracketId, seq<MatchId>>, nextId0: nat,
                            participants0: map<(TournamentId, UserId), Participant>,
                            submissions0: map<MatchId, seq<Submission>>)
    reads db
  {
    && db.Valid()
    && SweptSoFar(ts0, counts, now, pending, changedIds, db.tournaments)
    && BracketsSoFar(starters, pending, brackets0, matches0, order0, nextId0,
                     db.brackets, db.matches, db.matchOrder, db.nextId)
    && updated == |changedIds|
    && db.participants == participants0 && db.submissions == submissions0
    && (forall k :: k in ts0 ==> counts[k] == |db.RegisteredPlayers(k)|)
    && (forall k :: k in starters <==> k in ts0 && StartsWithBracket(ts0[k], now, counts[k]))
  }

  /**
   * The sweep's progress once every tournament outside `pending` is
   * processed: those rows are swept, the pending ones untouched, and
   * `changedIds` lists the processed tournaments whose status changed.
   */
  ghost predicate SweptSoFar(ts0: map<TournamentId, Tournament>, counts: map<TournamentId, nat>, now: int,
                             pending: set<TournamentId>, changedIds: set<TournamentId>, ts: map<TournamentId, Tournament>)
  {
    && ts.Keys == ts0.Keys && pending <= ts0.Keys && counts.Keys == ts0.Keys
    && (forall id :: id in pending ==> Live(ts0[id]) && ts[id] == ts0[id])
    && (forall id :: id in ts0 && id !in pending ==> SweptRow(ts0[id], ts[id], now, counts[id]))
    && (forall id :: id in changedIds <==> id in ts0 && id !in pending && id in Changed(ts0, now))
  }

  /** Sweeping one more pending tournament keeps SweptSoFar. */
  lemma SweptStep(ts0: map<TournamentId, Tournament>, counts: map<TournamentId, nat>, now: int,
                  pending: set<TournamentId>, changedIds: set<TournamentId>,
                  ts1: map<TournamentId, Tournament>, ts2: map<TournamentId, Tournament>, id: TournamentId, changed: bool)
    requires SweptSoFar(ts0, counts, now, pending, changedIds, ts1) && id in pending
    requires changed <==> DetermineStatus(ts1[id], now).Some?
    requires ts2.Keys == ts1.Keys && (forall k :: k in ts1 && k != id ==> ts2[k] == ts1[k])
    requires SweptRow(ts1[id], ts2[id], now, counts[id])
    ensures SweptSoFar(ts0, counts, now, pending - {id}, if changed then changedIds + {id} else changedIds, ts2)
    ensures changed ==> id !in changedIds
  {
  }

  /** No two brackets added since `brackets0` belong to the same tournament. */
  predicate OneNewBracketEach(brackets0: map<BracketId, Bracket>, brackets: map<BracketId, Bracket>)
  {
    forall b1, b2 ::
      (b1 in brackets && b1 !in brackets0 && b2 in brackets && b2 !in brackets0
       && brackets[b1].tournamentId == brackets[b2].tournamentId) ==> b1 == b2
  }

  /**
   * The bracket tables once every tournament outside `pending` is
   * processed: they only grew, every new bracket belongs to a processed
   * starter, every processed starter has exactly one new bracket, and
   * nothing changed while no starter was processed.
   */
  ghost predicate BracketsSoFar(starters: set<TournamentId>, pending: set<TournamentId>,
                                brackets0: map<BracketId, Bracket>, matches0: map<MatchId, Match>,
                                order0: map<BracketId, seq<MatchId>>, nextId0: nat,
                                brackets: map<BracketId, Bracket>, matches: map<MatchId, Match>,
                                order: map<BracketId, seq<MatchId>>, nextId: nat)
  {
    && TablesKept(brackets0, matches0, order0, brackets, matches, order)
    && (forall b :: b in brackets && b !in brackets0 ==> brackets[b].tournamentId in starters - pending)
    && (forall id :: id in starters - pending ==>
          exists b :: b in brackets && b !in brackets0 && brackets[b].tournamentId == id)
    && OneNewBracketEach(brackets0, brackets)
    && (starters * pending == starters ==>
          brackets == brackets0 && matches == matches0 && order == order0 && nextId == nextId0)
  }

  /** Sweeping one more pending tournament keeps BracketsSoFar. */
  lemma BracketsStep(starters: set<TournamentId>, pending: set<TournamentId>,
                     brackets0: map<BracketId, Bracket>, matches0: map<MatchId, Match>,
                     order0: map<BracketId, seq<MatchId>>, nextId0: nat,
                     brackets1: map<BracketId, Bracket>, matches1: map<MatchId, Match>,
                     order1: map<BracketId, seq<MatchId>>, nextId1: nat,
                     brackets2: map<BracketId, Bracket>, matches2: map<MatchId, Match>,
                     order2: map<BracketId, seq<MatchId>>, nextId2: nat, id: TournamentId, bracket: Option<BracketId>)
    requires BracketsSoFar(starters, pending, brackets0, matches0, order0, nextId0, brackets1, matches1, order1, nextId1)
    requires id in pending && (bracket.Some? <==> id in starters)
    requires bracket.None? ==> brackets2 == brackets1 && matches2 == matches1 && order2 == order1 && nextId2 == nextId1
    requires bracket.Some? ==>
               && TablesKept(brackets1, matches1, order1, brackets2, matches2, order2)
               && bracket.value !in brackets1 && brackets2.Keys == brackets1.Keys + {bracket.value}
               && brackets2[bracket.value].tournamentId == id
    ensures BracketsSoFar(starters, pending - {id}, brackets0, matches0, order0, nextId0,
                          brackets2, matches2, order2, nextId2)
  {
    var rest := pending - {id};
    if bracket.Some? {
      TablesKeptTransitive(brackets0, matches0, order0, brackets1, matches1, order1, brackets2, matches2, order2);
      forall k | k in starters - rest
        ensures exists b :: b in brackets2 && b !in brackets0 && brackets2[b].tournamentId == k
      {
        if k == id {
          assert bracket.value in brackets2 && bracket.value !in brackets0;
        } else {
          assert k in starters - pending;
          var b :| b in brackets1 && b !in brackets0 && brackets1[b].tournamentId == k;
          assert b in brackets2 && brackets2[b] == brackets1[b];
        }
      }
      forall b1, b2 | && b1 in brackets2 && b1 !in brackets0 && b2 in brackets2 && b2 !in brackets0
                      && brackets2[b1].tournamentId == brackets2[b2].tournamentId
        ensures b1 == b2
      {
        if b1 != bracket.value {
          assert brackets2[b1] == brackets1[b1];
        }
        if b2 != bracket.value {
          assert brackets2[b2] == brackets1[b2];
        }
      }
      assert id !in starters * rest;
    } else {
      assert starters - rest == starters - pending;
      assert starters * rest == starters <==> starters * pending == starters;
    }
  }

  /**
   * `manualStatusUpdate`: a missing tournament is an error; otherwise the
   * status is overwritten with any status at all, bypassing the rule.
   */
  method ManualStatusUpdate(db: Store, id: TournamentId, status: TournamentStatus) returns (r: Result<(), Error>)
    requires db.Valid()
    modifies db
    ensures db.Valid()
    ensures r.Failure? <==> id !in old(db.tournaments)
    ensures r.Failure? ==> r.error == TournamentNotFound && db.tournaments == old(db.tournaments)
    ensures r.Success? ==> db.tournaments == old(db.tournaments)[id := old(db.tournaments)[id].(status := status)]
    ensures db.participants == old(db.participants) && db.brackets == old(db.brackets)
    ensures db.matches == old(db.matches) && db.matchOrder == old(db.matchOrder)
    ensures db.submissions == old(db.submissions) && db.nextId == old(db.nextId)
  {
    if id !in db.tournaments {
      return Failure(TournamentNotFound);
    }
    db.tournaments := db.tournaments[id := db.tournaments[id].(status := status)];
    r := Success(());
  }
}
