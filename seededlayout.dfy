
/**
 * Round one after seeding, and the bye advancements it triggers into round
 * two, described position by position.
 */
module SeededLayout {
  import opened Wrappers
  import opened Entities
  import opened BracketMath
  import opened Seeding
  import opened Layout

  /** `assignPlayersToMatch` / `assignPlayerVsBye`: the round-one row for the players the two seeds resolve to. */
  function AssignRoundOne(row: Match, p1: Option<UserId>, p2: Option<UserId>): (r: Match)
    ensures r.bracketId == row.bracketId && r.roundNumber == row.roundNumber && r.matchNumber == row.matchNumber
    ensures r.winnerId == row.winnerId && r.nextMatchId == row.nextMatchId
    ensures p1.Some? && p2.Some? ==> r.player1 == p1 && r.player2 == p2 && r.status == Pending
    ensures p1.Some? != p2.Some? ==> r.player1 == (if p1.Some? then p1 else p2) && r.player2 == None && r.status == Bye
    ensures p1.None? && p2.None? ==> r == row
  {
    if p1.Some? && p2.Some? then row.(player1 := p1, player2 := p2, status := Pending)
    else if p1.Some? then row.(player1 := p1, player2 := None, status := Bye)
    else if p2.Some? then row.(player1 := p2, player2 := None, status := Bye)
    else row
  }

  /** The player who gets a bye in a matchup: the one present when exactly one of the two seeds resolves. */
  function ByePlayer(p1: Option<UserId>, p2: Option<UserId>): (r: Option<UserId>)
    ensures r.Some? <==> p1.Some? != p2.Some?
    ensures r.Some? ==> r == p1 || r == p2
  {
    if p1.Some? && p2.Some? then None else if p1.Some? then p1 else p2
  }

  /**
   * `advanceByePlayerToNextRound`'s write to the successor: the bye player
   * takes player1 if it is empty and player2 otherwise (overwriting it if
   * set), and the status is PENDING exactly when both slots are filled
   * after the write.
   */
  function ByeAdvance(next: Match, player: UserId): (r: Match)
    ensures r.bracketId == next.bracketId && r.roundNumber == next.roundNumber && r.matchNumber == next.matchNumber
    ensures r.winnerId == next.winnerId && r.nextMatchId == next.nextMatchId
    ensures next.player1.None? ==> r.player1 == Some(player) && r.player2 == next.player2
    ensures next.player1.Some? ==> r.player1 == next.player1 && r.player2 == Some(player)
    ensures r.status == Pending <==> r.player1.Some? && r.player2.Some?
    ensures r.status == Pending || r.status == WaitingForPlayers
  {
    var updated := if next.player1.None? then next.(player1 := Some(player)) else next.(player2 := Some(player));
    updated.(status := if updated.player1.Some? && updated.player2.Some? then Pending else WaitingForPlayers)
  }

  /** The players that the seeds of matchup j resolve to. */
  function Seat1(pairs: seq<Matchup>, seeded: seq<UserId>, j: nat): Option<UserId>
    requires j < |pairs|
  {
    PlayerWithSeed(seeded, pairs[j].seed1)
  }

  function Seat2(pairs: seq<Matchup>, seeded: seq<UserId>, j: nat): Option<UserId>
    requires j < |pairs|
  {
    if pairs[j].seed2.Some? then PlayerWithSeed(seeded, pairs[j].seed2.value) else None
  }

  /** The bracket shape that seeding works on: R >= 1 rounds and one matchup per round-one match. */
  predicate SeedingShape(totalRounds: nat, pairs: seq<Matchup>)
  {
    totalRounds >= 1 && |pairs| == Pow2(totalRounds - 1)
  }

  /** The standard seed order of 2^R slots gives one matchup per round-one match. */
  lemma SeedingShapeOf(totalRounds: nat)
    requires totalRounds >= 1
    ensures IsPowerOfTwo(Pow2(totalRounds))
    ensures SeedingShape(totalRounds, Matchups(SeedOrder(Pow2(totalRounds))))
  {
    Pow2IsPowerOfTwo(totalRounds);
    assert Pow2(totalRounds) == 2 * Pow2(totalRounds - 1);
    SeedOrderPairs(Pow2(totalRounds));
  }

  /**
   * The linked bracket as seeding finds it, at ids base .. base + 2^R - 2:
   * the first 2^(R-1) ids are round one, and round-one position j points at
   * round-two position 2^(R-1) + j/2 when there is a round two.
   */
  predicate SeedableTable(linked: map<MatchId, Match>, base: MatchId, totalRounds: nat)
    requires totalRounds >= 1
  {
    && (forall id :: base <= id < base + Pow2(totalRounds) - 1 ==> id in linked)
    && (forall id :: base <= id < base + Pow2(totalRounds - 1) ==>
          id in linked && linked[id].nextMatchId ==
            if totalRounds >= 2 then Some(base + Pow2(totalRounds - 1) + (id - base) / 2) else None)
  }

  /** Round one is the first half of the positions and round two the next quarter. */
  lemma RoundOneAndTwo(totalRounds: nat, k: nat)
    requires totalRounds >= 1 && k < Pow2(totalRounds) - 1
    ensures RoundStart(totalRounds, 2) == Pow2(totalRounds - 1)
    ensures k < Pow2(totalRounds - 1) <==> RoundOf(totalRounds, k) == 1
    ensures totalRounds >= 2 ==> RoundStart(totalRounds, 3) == Pow2(totalRounds - 1) + Pow2(totalRounds - 2)
    ensures totalRounds >= 2 ==>
      (Pow2(totalRounds - 1) <= k < Pow2(totalRounds - 1) + Pow2(totalRounds - 2) <==> RoundOf(totalRounds, k) == 2)
  {
    var r := RoundOf(totalRounds, k);
    assert RoundStart(totalRounds, 2) == Pow2(totalRounds - 1);
    if totalRounds >= 2 {
      assert RoundStart(totalRounds, 3) == Pow2(totalRounds - 1) + Pow2(totalRounds - 2);
    }
    if r > 1 {
      RoundStartMonotone(totalRounds, 2, r);
    }
    if r > 2 {
      RoundStartMonotone(totalRounds, 3, r);
    }
  }

  /** The successor of round-one position j is round-two position 2^(R-1) + j/2, when there is a round two. */
  lemma RoundOneParent(bracketId: BracketId, base: MatchId, totalRounds: nat, j: nat)
    requires totalRounds >= 1 && j < Pow2(totalRounds - 1)
    ensures j < Pow2(totalRounds) - 1
    ensures LinkedRow(bracketId, base, totalRounds, j).nextMatchId ==
              if totalRounds >= 2 then Some(base + Pow2(totalRounds - 1) + j / 2) else None
  {
    assert Pow2(totalRounds) == 2 * Pow2(totalRounds - 1);
    RoundOneAndTwo(totalRounds, j);
  }

  /** A round-one row of the linked table points where SeedableTable says. */
  lemma LinkedRoundOneRow(linked: map<MatchId, Match>, bracketId: BracketId, base: MatchId, totalRounds: nat, id: MatchId)
    requires totalRounds >= 1 && base <= id < base + Pow2(totalRounds - 1) && id - base < Pow2(totalRounds) - 1
    requires id in linked && linked[id] == LinkedRow(bracketId, base, totalRounds, id - base)
    ensures linked[id].nextMatchId ==
              if totalRounds >= 2 then Some(base + Pow2(totalRounds - 1) + (id - base) / 2) else None
  {
    RoundOneParent(bracketId, base, totalRounds, id - base);
  }

  /** A freshly linked bracket is seedable. */
  lemma LinkedIsSeedable(linked: map<MatchId, Match>, bracketId: BracketId, base: MatchId, totalRounds: nat)
    requires totalRounds >= 1
    requires forall id :: base <= id < base + Pow2(totalRounds) - 1 ==> id in linked
    requires forall k :: 0 <= k < Pow2(totalRounds) - 1 ==> linked[base + k] == LinkedRow(bracketId, base, totalRounds, k)
    ensures SeedableTable(linked, base, totalRounds)
  {
    assert Pow2(totalRounds) == 2 * Pow2(totalRounds - 1);
    forall id | base <= id < base + Pow2(totalRounds - 1)
      ensures linked[id].nextMatchId ==
                if totalRounds >= 2 then Some(base + Pow2(totalRounds - 1) + (id - base) / 2) else None
    {
      var j := id - base;
      assert linked[base + j] == LinkedRow(bracketId, base, totalRounds, j);
      LinkedRoundOneRow(linked, bracketId, base, totalRounds, id);
    }
  }

  /** The round-one query on a freshly linked bracket returns the first 2^(R-1) ids, in order. */
  lemma LinkedRoundOne(linked: map<MatchId, Match>, bracketId: BracketId, base: MatchId, totalRounds: nat)
    requires totalRounds >= 1
    requires forall id :: base <= id < base + Pow2(totalRounds) - 1 ==> id in linked
    requires forall k :: 0 <= k < Pow2(totalRounds) - 1 ==> linked[base + k] == LinkedRow(bracketId, base, totalRounds, k)
    ensures FilterRound(Range(base, base + Pow2(totalRounds) - 1), linked, 1) == Range(base, base + Pow2(totalRounds - 1))
  {
    forall id | base <= id < base + Pow2(totalRounds) - 1
      ensures linked[id].roundNumber == RoundOf(totalRounds, id - base)
    {
      var k := id - base;
      assert linked[base + k] == LinkedRow(bracketId, base, totalRounds, k);
      LinkedRowShape(bracketId, base, totalRounds, k);
    }
    RoundBlock(linked, totalRounds, base, 1);
    assert RoundStart(totalRounds, 2) == Pow2(totalRounds - 1);
  }

  // ---------------------------------------------------------------------
  // One seeding iteration on the match table
  // ---------------------------------------------------------------------

  /**
   * Two rows of the same match position: seeding writes only the player
   * slots and the status, never these fields.
   */
  predicate SamePosition(a: Match, b: Match)
  {
    && a.bracketId == b.bracketId && a.roundNumber == b.roundNumber && a.matchNumber == b.matchNumber
    && a.winnerId == b.winnerId && a.nextMatchId == b.nextMatchId
  }

  /** Match id is in the table and so is its successor, if it has one: what a bye advancement from id needs. */
  predicate Seatable(m: map<MatchId, Match>, id: MatchId)
  {
    id in m && (m[id].nextMatchId.Some? ==> m[id].nextMatchId.value in m)
  }

  /**
   * `advanceByePlayerToNextRound(id, player)` on a match table: when match
   * id has a successor, the successor's row becomes ByeAdvance of itself;
   * otherwise nothing is written.
   */
  function AdvanceBye(m: map<MatchId, Match>, id: MatchId, player: UserId): (r: map<MatchId, Match>)
    requires Seatable(m, id)
    ensures forall x :: x in r <==> x in m
  {
    match m[id].nextMatchId
    case None => m
    case Some(n) => m[n := ByeAdvance(m[n], player)]
  }

  /**
   * One iteration of `seedPlayersWithByes`' loop on match id: two players
   * give a PENDING match; one player gives a BYE for that player, advanced
   * at once; no player leaves the table as it was.
   */
  function SeatMatchup(m: map<MatchId, Match>, id: MatchId, p1: Option<UserId>, p2: Option<UserId>): (r: map<MatchId, Match>)
    requires Seatable(m, id)
    ensures forall x :: x in r <==> x in m
  {
    if p1.Some? && p2.Some? then m[id := m[id].(player1 := p1, player2 := p2, status := Pending)]
    else if p1.Some? || p2.Some? then
      var player := if p1.Some? then p1.value else p2.value;
      AdvanceBye(m[id := m[id].(player1 := Some(player), player2 := None, status := Bye)], id, player)
    else m
  }

  /**
   * What one seating iteration writes: match id becomes AssignRoundOne of
   * its row; its successor, when there is one and the matchup is a bye,
   * becomes ByeAdvance of its row for the bye player; nothing else changes,
   * and no match changes its successor.
   */
  lemma SeatMatchupShape(m: map<MatchId, Match>, id: MatchId, p1: Option<UserId>, p2: Option<UserId>, x: MatchId)
    requires Seatable(m, id) && (m[id].nextMatchId.Some? ==> m[id].nextMatchId.value != id)
    requires x in m
    ensures SeatMatchup(m, id, p1, p2)[x] ==
              if x == id then AssignRoundOne(m[id], p1, p2)
              else if m[id].nextMatchId == Some(x) && ByePlayer(p1, p2).Some? then ByeAdvance(m[x], ByePlayer(p1, p2).value)
              else m[x]
    ensures SamePosition(SeatMatchup(m, id, p1, p2)[x], m[x])
  {
  }

  /** The seated match itself, as SeatMatchupShape states it for x == id. */
  lemma SeatMatchupAtMatch(m: map<MatchId, Match>, id: MatchId, p1: Option<UserId>, p2: Option<UserId>)
    requires Seatable(m, id) && (m[id].nextMatchId.Some? ==> m[id].nextMatchId.value != id)
    ensures id in SeatMatchup(m, id, p1, p2) && SeatMatchup(m, id, p1, p2)[id] == AssignRoundOne(m[id], p1, p2)
  {
    SeatMatchupShape(m, id, p1, p2, id);
  }

  /** A match that is neither the seated one nor its successor, as SeatMatchupShape states it. */
  lemma SeatMatchupElsewhere(m: map<MatchId, Match>, id: MatchId, p1: Option<UserId>, p2: Option<UserId>, x: MatchId)
    requires Seatable(m, id) && x in m && x != id && m[id].nextMatchId != Some(x)
    ensures x in SeatMatchup(m, id, p1, p2) && SeatMatchup(m, id, p1, p2)[x] == m[x]
  {
  }

  /**
   * The match table after `seedPlayersWithByes` has seated the first
   * `done` matchups, in order, into the linked table starting at id base.
   * (On a table where a match or its successor is missing a step is
   * skipped; on a seedable table that never happens: see SeededMapReady.)
   */
  function SeededMap(linked: map<MatchId, Match>, base: MatchId, pairs: seq<Matchup>, seeded: seq<UserId>, done: nat)
    : map<MatchId, Match>
    requires done <= |pairs|
    decreases done
  {
    if done == 0 then linked
    else
      var prev := SeededMap(linked, base, pairs, seeded, done - 1);
      var id := base + (done - 1);
      if Seatable(prev, id) then SeatMatchup(prev, id, Seat1(pairs, seeded, done - 1), Seat2(pairs, seeded, done - 1))
      else prev
  }

  /** Seeding keeps the table's ids and every match's successor. */
  lemma {:induction false} SeededMapKeeps(linked: map<MatchId, Match>, base: MatchId, totalRounds: nat, pairs: seq<Matchup>,
                                          seeded: seq<UserId>, done: nat, x: MatchId)
    requires SeedingShape(totalRounds, pairs) && done <= |pairs| && SeedableTable(linked, base, totalRounds)
    ensures x in SeededMap(linked, base, pairs, seeded, done) <==> x in linked
    ensures x in linked ==> SamePosition(SeededMap(linked, base, pairs, seeded, done)[x], linked[x])
    decreases done, 0
  {
    if done > 0 {
      var k := done - 1;
      var prev := SeededMap(linked, base, pairs, seeded, k);
      SeededMapReady(linked, base, totalRounds, pairs, seeded, k);
      SeededMapKeeps(linked, base, totalRounds, pairs, seeded, k, x);
      var s1, s2 := Seat1(pairs, seeded, k), Seat2(pairs, seeded, k);
      assert SeededMap(linked, base, pairs, seeded, done) == SeatMatchup(prev, base + k, s1, s2);
      if x in prev {
        SeatMatchupShape(prev, base + k, s1, s2, x);
      }
    }
  }

  /**
   * Before matchup `done` is seated, its round-one match is in the table,
   * still points where it was linked, and so is its successor.
   */
  lemma SeededMapReady(linked: map<MatchId, Match>, base: MatchId, totalRounds: nat, pairs: seq<Matchup>,
                       seeded: seq<UserId>, done: nat)
    requires SeedingShape(totalRounds, pairs) && done < |pairs| && SeedableTable(linked, base, totalRounds)
    ensures var m := SeededMap(linked, base, pairs, seeded, done);
      && Seatable(m, base + done)
      && m[base + done].nextMatchId == if totalRounds >= 2 then Some(base + Pow2(totalRounds - 1) + done / 2) else None
    decreases done, 1
  {
    assert Pow2(totalRounds) == 2 * Pow2(totalRounds - 1);
    var id := base + done;
    SeededMapKeeps(linked, base, totalRounds, pairs, seeded, done, id);
    if totalRounds >= 2 {
      SeededMapKeeps(linked, base, totalRounds, pairs, seeded, done, base + Pow2(totalRounds - 1) + done / 2);
    }
  }

  /** Seating matchup `done` on the seeded map of `done` matchups gives the seeded map of done + 1. */
  lemma SeededMapNext(m: map<MatchId, Match>, r: map<MatchId, Match>, id: MatchId, p1: Option<UserId>, p2: Option<UserId>,
                      linked: map<MatchId, Match>, base: MatchId, pairs: seq<Matchup>, seeded: seq<UserId>, done: nat)
    requires done < |pairs| && m == SeededMap(linked, base, pairs, seeded, done)
    requires id == base + done && p1 == Seat1(pairs, seeded, done) && p2 == Seat2(pairs, seeded, done)
    requires Seatable(m, id) && r == SeatMatchup(m, id, p1, p2)
    ensures r == SeededMap(linked, base, pairs, seeded, done + 1)
  {
  }

  /** Seating matchup done - 1 leaves every match other than its own and its successor as it was. */
  lemma SeededMapStepElsewhere(linked: map<MatchId, Match>, base: MatchId, totalRounds: nat, pairs: seq<Matchup>,
                               seeded: seq<UserId>, done: nat, x: MatchId)
    requires SeedingShape(totalRounds, pairs) && 0 < done <= |pairs| && SeedableTable(linked, base, totalRounds)
    requires x in linked && x != base + (done - 1)
    requires totalRounds >= 2 ==> x != base + Pow2(totalRounds - 1) + (done - 1) / 2
    ensures x in SeededMap(linked, base, pairs, seeded, done - 1) && x in SeededMap(linked, base, pairs, seeded, done)
    ensures SeededMap(linked, base, pairs, seeded, done)[x] == SeededMap(linked, base, pairs, seeded, done - 1)[x]
  {
    var k := done - 1;
    var prev := SeededMap(linked, base, pairs, seeded, k);
    SeededMapReady(linked, base, totalRounds, pairs, seeded, k);
    SeededMapKeeps(linked, base, totalRounds, pairs, seeded, k, x);
    SeatMatchupElsewhere(prev, base + k, Seat1(pairs, seeded, k), Seat2(pairs, seeded, k), x);
  }

  /** Seeding changes no match outside the bracket's block of ids. */
  lemma {:induction false} SeededMapOutside(linked: map<MatchId, Match>, base: MatchId, totalRounds: nat, pairs: seq<Matchup>,
                                            seeded: seq<UserId>, done: nat, x: MatchId)
    requires SeedingShape(totalRounds, pairs) && done <= |pairs| && SeedableTable(linked, base, totalRounds)
    requires x in linked && !(base <= x < base + Pow2(totalRounds) - 1)
    ensures x in SeededMap(linked, base, pairs, seeded, done)
    ensures SeededMap(linked, base, pairs, seeded, done)[x] == linked[x]
    decreases done
  {
    if done > 0 {
      assert Pow2(totalRounds) == 2 * Pow2(totalRounds - 1);
      if totalRounds >= 2 {
        assert Pow2(totalRounds - 1) == 2 * Pow2(totalRounds - 2);
        assert (done - 1) / 2 < Pow2(totalRounds - 2);
      }
      SeededMapStepElsewhere(linked, base, totalRounds, pairs, seeded, done, x);
      SeededMapOutside(linked, base, totalRounds, pairs, seeded, done - 1, x);
    }
  }

  /** Seeding the first `done` matchups leaves the round-one matches from position `done` on as linked. */
  lemma {:induction false} SeededMapUnseated(linked: map<MatchId, Match>, base: MatchId, totalRounds: nat, pairs: seq<Matchup>,
                                             seeded: seq<UserId>, done: nat, id: MatchId)
    requires SeedingShape(totalRounds, pairs) && done <= |pairs| && SeedableTable(linked, base, totalRounds)
    requires base + done <= id < base + |pairs|
    ensures id in linked && id in SeededMap(linked, base, pairs, seeded, done)
    ensures SeededMap(linked, base, pairs, seeded, done)[id] == linked[id]
    decreases done
  {
    assert Pow2(totalRounds) == 2 * Pow2(totalRounds - 1);
    SeededMapKeeps(linked, base, totalRounds, pairs, seeded, done, id);
    if done > 0 {
      var k := done - 1;
      var prev := SeededMap(linked, base, pairs, seeded, k);
      SeededMapReady(linked, base, totalRounds, pairs, seeded, k);
      SeededMapUnseated(linked, base, totalRounds, pairs, seeded, k, id);
      assert prev[base + k].nextMatchId != Some(id);
      SeatMatchupElsewhere(prev, base + k, Seat1(pairs, seeded, k), Seat2(pairs, seeded, k), id);
    }
  }

  /**
   * Seeding the first `done` matchups assigns round-one match base + j
   * (j < done) the players of matchup j.
   */
  lemma {:induction false} SeededMapSeated(linked: map<MatchId, Match>, base: MatchId, totalRounds: nat, pairs: seq<Matchup>,
                                           seeded: seq<UserId>, done: nat, id: MatchId)
    requires SeedingShape(totalRounds, pairs) && done <= |pairs| && SeedableTable(linked, base, totalRounds)
    requires base <= id < base + done
    ensures id in linked && id in SeededMap(linked, base, pairs, seeded, done)
    ensures SeededMap(linked, base, pairs, seeded, done)[id] ==
              AssignRoundOne(linked[id], Seat1(pairs, seeded, id - base), Seat2(pairs, seeded, id - base))
    decreases done
  {
    assert Pow2(totalRounds) == 2 * Pow2(totalRounds - 1);
    SeededMapKeeps(linked, base, totalRounds, pairs, seeded, done, id);
    var k := done - 1;
    var prev := SeededMap(linked, base, pairs, seeded, k);
    SeededMapReady(linked, base, totalRounds, pairs, seeded, k);
    var s1, s2 := Seat1(pairs, seeded, k), Seat2(pairs, seeded, k);
    if id == base + k {
      SeededMapUnseated(linked, base, totalRounds, pairs, seeded, k, id);
      SeatMatchupAtMatch(prev, id, s1, s2);
      assert s1 == Seat1(pairs, seeded, id - base) && s2 == Seat2(pairs, seeded, id - base);
    } else {
      SeededMapSeated(linked, base, totalRounds, pairs, seeded, k, id);
      assert prev[base + k].nextMatchId != Some(id);
      SeatMatchupElsewhere(prev, base + k, s1, s2, id);
    }
  }

  /** A round-one row as seeding leaves it: PENDING between two of the players, or a BYE for one of them. */
  predicate SeatedRoundOne(row: Match, players: set<UserId>)
  {
    && row.player1.Some? && row.player1.value in players
    && ((row.status == Pending && row.player2.Some? && row.player2.value in players)
        || (row.status == Bye && row.player2.None?))
  }

  /**
   * After the whole loop, round-one match base + j holds the player with
   * the top seed of matchup j as player1. Because every top seed is at most
   * half the slots and more than half the slots hold players, that seed
   * always resolves: the match is PENDING against the partner seed's
   * player, or a BYE with no player2 when the partner seed is beyond the
   * players.
   */
  lemma RoundOneSeated(linked: map<MatchId, Match>, base: MatchId, totalRounds: nat, pairs: seq<Matchup>,
                       seeded: seq<UserId>, players: set<UserId>, id: MatchId)
    requires SeedingShape(totalRounds, pairs) && SeedableTable(linked, base, totalRounds)
    requires forall p :: p in seeded ==> p in players
    requires PairsTopSeedWithPartner(pairs, Pow2(totalRounds))
    requires Pow2(totalRounds) / 2 < |seeded| <= Pow2(totalRounds)
    requires base <= id < base + |pairs|
    ensures id in linked && id in SeededMap(linked, base, pairs, seeded, |pairs|)
    ensures var row := SeededMap(linked, base, pairs, seeded, |pairs|)[id];
      var j := id - base;
      && row.player1 == Some(seeded[pairs[j].seed1 - 1])
      && row.player2 == PlayerWithSeed(seeded, pairs[j].seed2.value)
      && row.status == (if row.player2.Some? then Pending else Bye)
      && SamePosition(row, linked[id])
      && SeatedRoundOne(row, players)
  {
    SeededMapSeated(linked, base, totalRounds, pairs, seeded, |pairs|, id);
    var s1, s2 := pairs[id - base].seed1, pairs[id - base].seed2.value;
    assert seeded[s1 - 1] in seeded;
    if 1 <= s2 <= |seeded| {
      assert seeded[s2 - 1] in seeded;
    }
  }

  /**
   * The whole of `seedPlayersWithByes` on a seedable table with more
   * players than half the slots: the table keeps its ids, every match
   * keeps its position fields, nothing outside the bracket changes, and
   * every round-one match is seated.
   */
  lemma SeededBracket(linked: map<MatchId, Match>, base: MatchId, totalRounds: nat, pairs: seq<Matchup>, seeded: seq<UserId>,
                      players: set<UserId>)
    requires SeedingShape(totalRounds, pairs) && SeedableTable(linked, base, totalRounds)
    requires forall p :: p in seeded ==> p in players
    requires PairsTopSeedWithPartner(pairs, Pow2(totalRounds))
    requires Pow2(totalRounds) / 2 < |seeded| <= Pow2(totalRounds)
    ensures var m := SeededMap(linked, base, pairs, seeded, |pairs|);
      && (forall x :: x in m <==> x in linked)
      && (forall x :: x in linked ==> SamePosition(m[x], linked[x]))
      && (forall x :: x in linked && !(base <= x < base + Pow2(totalRounds) - 1) ==> m[x] == linked[x])
      && (forall id :: base <= id < base + |pairs| ==> id in m && SeatedRoundOne(m[id], players))
  {
    var m := SeededMap(linked, base, pairs, seeded, |pairs|);
    forall x: MatchId
      ensures x in m <==> x in linked
      ensures x in linked ==> SamePosition(m[x], linked[x])
      ensures x in linked && !(base <= x < base + Pow2(totalRounds) - 1) ==> m[x] == linked[x]
    {
      SeededMapKeeps(linked, base, totalRounds, pairs, seeded, |pairs|, x);
      if x in linked && !(base <= x < base + Pow2(totalRounds) - 1) {
        SeededMapOutside(linked, base, totalRounds, pairs, seeded, |pairs|, x);
      }
    }
    forall id | base <= id < base + |pairs|
      ensures id in m && SeatedRoundOne(m[id], players)
    {
      RoundOneSeated(linked, base, totalRounds, pairs, seeded, players, id);
    }
  }

  // ---------------------------------------------------------------------
  // Where each player ends up
  // ---------------------------------------------------------------------

  /** The player in slot 1 (player1) or slot 2 (player2) of a row. */
  function Slot(row: Match, side: nat): Option<UserId>
  {
    if side == 1 then row.player1 else if side == 2 then row.player2 else None
  }

  /** Slot `side` of round-one match j holds the player of that side's seed in matchup j. */
  lemma SlotOfMatchup(linked: map<MatchId, Match>, base: MatchId, totalRounds: nat, pairs: seq<Matchup>,
                      seeded: seq<UserId>, j: nat, side: nat)
    requires SeedingShape(totalRounds, pairs) && SeedableTable(linked, base, totalRounds)
    requires PairsTopSeedWithPartner(pairs, Pow2(totalRounds))
    requires Pow2(totalRounds) / 2 < |seeded| <= Pow2(totalRounds)
    requires j < |pairs| && (side == 1 || side == 2)
    ensures base + j in SeededMap(linked, base, pairs, seeded, |pairs|)
    ensures Slot(SeededMap(linked, base, pairs, seeded, |pairs|)[base + j], side) ==
              PlayerWithSeed(seeded, if side == 1 then pairs[j].seed1 else pairs[j].seed2.value)
  {
    var players := set p | p in seeded;
    RoundOneSeated(linked, base, totalRounds, pairs, seeded, players, base + j);
  }

  /**
   * With the matchups of the standard seed order for 2^R slots, slot `side`
   * of round-one match j holds the player of the seed listed at position
   * 2j + side - 1 of the seed order.
   */
  lemma SlotOfSeedPosition(linked: map<MatchId, Match>, base: MatchId, totalRounds: nat, seeded: seq<UserId>,
                           j: nat, side: nat)
    requires totalRounds >= 1 && SeedableTable(linked, base, totalRounds)
    requires Pow2(totalRounds) / 2 < |seeded| <= Pow2(totalRounds)
    requires j < Pow2(totalRounds - 1) && (side == 1 || side == 2)
    ensures IsPowerOfTwo(Pow2(totalRounds)) && |SeedOrder(Pow2(totalRounds))| == Pow2(totalRounds)
    ensures 2 * j + side - 1 < Pow2(totalRounds)
    ensures var pairs := Matchups(SeedOrder(Pow2(totalRounds)));
      var m := SeededMap(linked, base, pairs, seeded, |pairs|);
      && |pairs| == Pow2(totalRounds - 1) && base + j in m
      && Slot(m[base + j], side) == PlayerWithSeed(seeded, SeedOrder(Pow2(totalRounds))[2 * j + side - 1])
  {
    var n := Pow2(totalRounds);
    assert n == 2 * Pow2(totalRounds - 1);
    Pow2IsPowerOfTwo(totalRounds);
    SeedOrderBounds(n);
    MatchupsOfSeedOrder(n);
    var order := SeedOrder(n);
    var pairs := Matchups(order);
    assert |pairs| == Pow2(totalRounds - 1);
    SlotOfMatchup(linked, base, totalRounds, pairs, seeded, j, side);
    assert pairs[j].seed1 == order[2 * j];
    assert pairs[j].seed2 == Some(order[2 * j + 1]);
  }

  /** Player i sits in slot `side` of round-one match id exactly when the seed order lists seed i + 1 there. */
  lemma SlotHoldsSeed(linked: map<MatchId, Match>, base: MatchId, totalRounds: nat, seeded: seq<UserId>, i: nat,
                      id: MatchId, side: nat)
    requires totalRounds >= 1 && SeedableTable(linked, base, totalRounds)
    requires Pow2(totalRounds) / 2 < |seeded| <= Pow2(totalRounds) && Distinct(seeded) && i < |seeded|
    requires base <= id < base + Pow2(totalRounds - 1) && (side == 1 || side == 2)
    ensures IsPowerOfTwo(Pow2(totalRounds)) && |SeedOrder(Pow2(totalRounds))| == Pow2(totalRounds)
    ensures 2 * (id - base) + side - 1 < Pow2(totalRounds)
    ensures var pairs := Matchups(SeedOrder(Pow2(totalRounds)));
      var m := SeededMap(linked, base, pairs, seeded, |pairs|);
      && id in m
      && (Slot(m[id], side) == Some(seeded[i]) <==> SeedOrder(Pow2(totalRounds))[2 * (id - base) + side - 1] == i + 1)
  {
    SlotOfSeedPosition(linked, base, totalRounds, seeded, id - base, side);
    var seed := SeedOrder(Pow2(totalRounds))[2 * (id - base) + side - 1];
    if 1 <= seed <= |seeded| && seeded[seed - 1] == seeded[i] {
      assert seed - 1 == i;
    }
  }

  /** Two slots of round one that both hold player i are the same slot: the seed order lists seed i + 1 once. */
  lemma SeatUnique(linked: map<MatchId, Match>, base: MatchId, totalRounds: nat, seeded: seq<UserId>, i: nat,
                   id1: MatchId, side1: nat, id2: MatchId, side2: nat)
    requires totalRounds >= 1 && SeedableTable(linked, base, totalRounds)
    requires Pow2(totalRounds) / 2 < |seeded| <= Pow2(totalRounds) && Distinct(seeded) && i < |seeded|
    requires base <= id1 < base + Pow2(totalRounds - 1) && (side1 == 1 || side1 == 2)
    requires base <= id2 < base + Pow2(totalRounds - 1) && (side2 == 1 || side2 == 2)
    requires IsPowerOfTwo(Pow2(totalRounds))
    requires var pairs := Matchups(SeedOrder(Pow2(totalRounds)));
      var m := SeededMap(linked, base, pairs, seeded, |pairs|);
      && id1 in m && id2 in m && Slot(m[id1], side1) == Some(seeded[i]) && Slot(m[id2], side2) == Some(seeded[i])
    ensures id1 == id2 && side1 == side2
  {
    var n := Pow2(totalRounds);
    var order := SeedOrder(n);
    SlotHoldsSeed(linked, base, totalRounds, seeded, i, id1, side1);
    SlotHoldsSeed(linked, base, totalRounds, seeded, i, id2, side2);
    var q1, q2 := 2 * (id1 - base) + side1 - 1, 2 * (id2 - base) + side2 - 1;
    SeedOrderDistinct(n);
    assert q1 == q2 by {
      assert order[q1] == order[q2];
    }
    SlotPositionInjective(id1 - base, side1, id2 - base, side2);
  }

  /** A slot's position 2j + side - 1 in the seed order determines the match j and the side. */
  lemma SlotPositionInjective(j1: int, side1: int, j2: int, side2: int)
    requires (side1 == 1 || side1 == 2) && (side2 == 1 || side2 == 2)
    requires 2 * j1 + side1 == 2 * j2 + side2
    ensures j1 == j2 && side1 == side2
  {
  }

  /**
   * Every seeded player sits in exactly one slot of exactly one round-one
   * match: player i holds seed i + 1, which the seed order lists once.
   */
  lemma SeatedExactlyOnce(linked: map<MatchId, Match>, base: MatchId, totalRounds: nat, seeded: seq<UserId>, i: nat)
    requires totalRounds >= 1 && SeedableTable(linked, base, totalRounds)
    requires Pow2(totalRounds) / 2 < |seeded| <= Pow2(totalRounds) && Distinct(seeded) && i < |seeded|
    ensures IsPowerOfTwo(Pow2(totalRounds))
    ensures var pairs := Matchups(SeedOrder(Pow2(totalRounds)));
      var m := SeededMap(linked, base, pairs, seeded, |pairs|);
      && (exists id, side :: base <= id < base + |pairs| && (side == 1 || side == 2) && id in m
                              && Slot(m[id], side) == Some(seeded[i]))
      && (forall id1, side1, id2, side2 ::
            && base <= id1 < base + |pairs| && (side1 == 1 || side1 == 2) && id1 in m
            && base <= id2 < base + |pairs| && (side2 == 1 || side2 == 2) && id2 in m
            && Slot(m[id1], side1) == Some(seeded[i]) && Slot(m[id2], side2) == Some(seeded[i])
            ==> id1 == id2 && side1 == side2)
  {
    var n := Pow2(totalRounds);
    Pow2IsPowerOfTwo(totalRounds);
    SeedOrderBounds(n);
    assert n == 2 * Pow2(totalRounds - 1);
    var order := SeedOrder(n);
    var pairs := Matchups(order);
    assert |pairs| == Pow2(totalRounds - 1);
    var m := SeededMap(linked, base, pairs, seeded, |pairs|);
    assert i + 1 in order by {
      SeedOrderCovers(n);
    }
    var q :| 0 <= q < |order| && order[q] == i + 1;
    var id, side := base + q / 2, q % 2 + 1;
    SlotHoldsSeed(linked, base, totalRounds, seeded, i, id, side);
    assert 2 * (id - base) + side - 1 == q;
    assert Slot(m[id], side) == Some(seeded[i]);
    forall id1, side1, id2, side2 |
      && base <= id1 < base + |pairs| && (side1 == 1 || side1 == 2) && id1 in m
      && base <= id2 < base + |pairs| && (side2 == 1 || side2 == 2) && id2 in m
      && Slot(m[id1], side1) == Some(seeded[i]) && Slot(m[id2], side2) == Some(seeded[i])
      ensures id1 == id2 && side1 == side2
    {
      SeatUnique(linked, base, totalRounds, seeded, i, id1, side1, id2, side2);
    }
  }

  /** The player of matchup j who gets a bye, if any. */
  function ByeOf(pairs: seq<Matchup>, seeded: seq<UserId>, j: nat): Option<UserId>
  {
    if j < |pairs| then ByePlayer(Seat1(pairs, seeded, j), Seat2(pairs, seeded, j)) else None
  }

  /** A row after the bye advancements of its two feeder matches, the earlier feeder first. */
  function ByesInto(row: Match, first: Option<UserId>, second: Option<UserId>): Match
  {
    var r := if first.Some? then ByeAdvance(row, first.value) else row;
    if second.Some? then ByeAdvance(r, second.value) else r
  }

  /**
   * Round-two match t is written only by the seating of its two feeders,
   * matchups 2t and 2t + 1: after the first `done` matchups it carries the
   * byes of those feeders seated so far.
   */
  lemma {:induction false} SeededMapRoundTwo(linked: map<MatchId, Match>, base: MatchId, totalRounds: nat,
                                             pairs: seq<Matchup>, seeded: seq<UserId>, done: nat, t: nat)
    requires SeedingShape(totalRounds, pairs) && done <= |pairs| && SeedableTable(linked, base, totalRounds)
    requires totalRounds >= 2 && t < Pow2(totalRounds - 2)
    ensures var x := base + Pow2(totalRounds - 1) + t;
      && x in linked && x in SeededMap(linked, base, pairs, seeded, done)
      && SeededMap(linked, base, pairs, seeded, done)[x] ==
           ByesInto(linked[x], if 2 * t < done then ByeOf(pairs, seeded, 2 * t) else None,
                    if 2 * t + 1 < done then ByeOf(pairs, seeded, 2 * t + 1) else None)
    decreases done
  {
    var x := base + Pow2(totalRounds - 1) + t;
    assert Pow2(totalRounds) == 2 * Pow2(totalRounds - 1);
    assert Pow2(totalRounds - 1) == 2 * Pow2(totalRounds - 2);
    assert x in linked;
    SeededMapKeeps(linked, base, totalRounds, pairs, seeded, done, x);
    if done > 0 {
      var k := done - 1;
      var prev := SeededMap(linked, base, pairs, seeded, k);
      SeededMapRoundTwo(linked, base, totalRounds, pairs, seeded, k, t);
      SeededMapReady(linked, base, totalRounds, pairs, seeded, k);
      if k / 2 == t {
        var s1, s2 := Seat1(pairs, seeded, k), Seat2(pairs, seeded, k);
        SeededMapKeeps(linked, base, totalRounds, pairs, seeded, k, x);
        SeatMatchupShape(prev, base + k, s1, s2, x);
        assert SeededMap(linked, base, pairs, seeded, done) == SeatMatchup(prev, base + k, s1, s2);
      } else {
        SeededMapStepElsewhere(linked, base, totalRounds, pairs, seeded, done, x);
      }
    }
  }

  /**
   * The byes of two feeders written into an empty row: the earlier bye
   * takes player1, the later one the next free slot, and the row is
   * PENDING exactly when both feeders were byes.
   */
  lemma ByesIntoEmpty(row: Match, first: Option<UserId>, second: Option<UserId>)
    requires row.player1.None? && row.player2.None? && row.status == WaitingForPlayers
    ensures var r := ByesInto(row, first, second);
      && r.player1 == (if first.Some? then first else second)
      && r.player2 == (if first.Some? then second else None)
      && r.status == (if first.Some? && second.Some? then Pending else WaitingForPlayers)
      && r.bracketId == row.bracketId && r.roundNumber == row.roundNumber && r.matchNumber == row.matchNumber
      && r.winnerId == row.winnerId && r.nextMatchId == row.nextMatchId
  {
  }

  /**
   * Once every matchup is seated, round-two match t of an empty round two
   * holds exactly the byes of matchups 2t and 2t + 1.
   */
  lemma RoundTwoAfterSeeding(linked: map<MatchId, Match>, base: MatchId, totalRounds: nat, pairs: seq<Matchup>,
                             seeded: seq<UserId>, t: nat)
    requires SeedingShape(totalRounds, pairs) && SeedableTable(linked, base, totalRounds)
    requires totalRounds >= 2 && t < Pow2(totalRounds - 2)
    requires var x := base + Pow2(totalRounds - 1) + t;
      x in linked && linked[x].player1.None? && linked[x].player2.None? && linked[x].status == WaitingForPlayers
    ensures var x := base + Pow2(totalRounds - 1) + t;
      var r := SeededMap(linked, base, pairs, seeded, |pairs|);
      var bye0, bye1 := ByeOf(pairs, seeded, 2 * t), ByeOf(pairs, seeded, 2 * t + 1);
      && x in r
      && r[x].player1 == (if bye0.Some? then bye0 else bye1)
      && r[x].player2 == (if bye0.Some? then bye1 else None)
      && r[x].status == (if bye0.Some? && bye1.Some? then Pending else WaitingForPlayers)
      && r[x].bracketId == linked[x].bracketId && r[x].winnerId == linked[x].winnerId
  {
    var x := base + Pow2(totalRounds - 1) + t;
    assert Pow2(totalRounds - 1) == 2 * Pow2(totalRounds - 2);
    SeededMapRoundTwo(linked, base, totalRounds, pairs, seeded, |pairs|, t);
    ByesIntoEmpty(linked[x], ByeOf(pairs, seeded, 2 * t), ByeOf(pairs, seeded, 2 * t + 1));
  }
}
