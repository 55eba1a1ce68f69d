/**
 * The shape of a freshly built bracket: the match rows that
 * `createAllMatches` plans, the successor links that
 * `setupNextMatchRelationships` writes, and the ordered per-round query the
 * store answers.
 */
module Layout {
  import opened Wrappers
  import opened Entities
  import opened BracketMath

  /** A newly created match: no players, no winner, no successor yet. */
  function FreshRow(bracketId: BracketId, round: nat, matchNumber: nat): Match
  {
    Match(bracketId, round, matchNumber, None, None, WaitingForPlayers, None, None)
  }

  /** The row planned at position k (matchNumber k + 1) of an R-round bracket. */
  function PlannedRow(bracketId: BracketId, totalRounds: nat, k: nat): Match
    requires k < Pow2(totalRounds) - 1
  {
    FreshRow(bracketId, RoundOf(totalRounds, k), k + 1)
  }

  /**
   * `createAllMatches`' loop: round by round, 2^(R-r) rows for round r,
   * numbered 1, 2, ... in that order, all WAITING_FOR_PLAYERS.
   */
  method PlanMatches(bracketId: BracketId, totalRounds: nat) returns (rows: seq<Match>)
    ensures |rows| == Pow2(totalRounds) - 1
    ensures forall k :: 0 <= k < |rows| ==> rows[k] == PlannedRow(bracketId, totalRounds, k)
  {
    rows := [];
    var matchNumber := 1;
    var round := 1;
    while round <= totalRounds
      invariant 1 <= round <= totalRounds + 1
      invariant |rows| == RoundStart(totalRounds, round) && matchNumber == |rows| + 1
      invariant forall k :: 0 <= k < |rows| ==> InRound(totalRounds, k, rows[k].roundNumber)
      invariant forall k :: 0 <= k < |rows| ==> rows[k] == FreshRow(bracketId, rows[k].roundNumber, k + 1)
    {
      var matchesInRound := Pow2(totalRounds - round);
      var i := 0;
      while i < matchesInRound
        invariant 0 <= i <= matchesInRound
        invariant |rows| == RoundStart(totalRounds, round) + i && matchNumber == |rows| + 1
        invariant forall k :: 0 <= k < |rows| ==> InRound(totalRounds, k, rows[k].roundNumber)
        invariant forall k :: 0 <= k < |rows| ==> rows[k] == FreshRow(bracketId, rows[k].roundNumber, k + 1)
      {
        rows := rows + [FreshRow(bracketId, round, matchNumber)];
        matchNumber := matchNumber + 1;
        i := i + 1;
      }
      round := round + 1;
    }
    TotalMatches(totalRounds);
    forall k | 0 <= k < |rows| ensures rows[k] == PlannedRow(bracketId, totalRounds, k) {
      InRoundUnique(totalRounds, k, rows[k].roundNumber, RoundOf(totalRounds, k));
    }
  }

  /**
   * The row at position k once the successor links are written: a match
   * of round r < R points at the match its position feeds in round r + 1
   * (positions are offsets from the first match id, base); a final-round
   * match points nowhere.
   */
  function LinkedRow(bracketId: BracketId, base: MatchId, totalRounds: nat, k: nat): Match
    requires k < Pow2(totalRounds) - 1
  {
    var round := RoundOf(totalRounds, k);
    if round < totalRounds then
      PlannedRow(bracketId, totalRounds, k).(nextMatchId := Some(base + ParentPosition(totalRounds, round, k)))
    else
      PlannedRow(bracketId, totalRounds, k)
  }

  /** The linked row of a position is its planned row, pointing at its parent unless its round is the last. */
  lemma LinkedRowOfPlanned(bracketId: BracketId, base: MatchId, totalRounds: nat, k: nat, row: Match)
    requires k < Pow2(totalRounds) - 1 && row == PlannedRow(bracketId, totalRounds, k)
    ensures var round := RoundOf(totalRounds, k);
      LinkedRow(bracketId, base, totalRounds, k) ==
        if round < totalRounds then row.(nextMatchId := Some(base + ParentPosition(totalRounds, round, k))) else row
  {
  }

  /**
   * A linked row is an empty WAITING_FOR_PLAYERS match numbered k + 1 in
   * its position's round; it has a successor exactly when its round is not
   * the last, and the successor lies in the next round, at the position
   * its pair of the current round feeds.
   */
  lemma LinkedRowShape(bracketId: BracketId, base: MatchId, totalRounds: nat, k: nat)
    requires k < Pow2(totalRounds) - 1
    ensures var m := LinkedRow(bracketId, base, totalRounds, k);
      && m.bracketId == bracketId && m.roundNumber == RoundOf(totalRounds, k) && m.matchNumber == k + 1
      && m.player1 == None && m.player2 == None && m.status == WaitingForPlayers && m.winnerId == None
      && (m.nextMatchId.Some? <==> m.roundNumber < totalRounds)
      && (m.nextMatchId.Some? ==>
            m.nextMatchId.value - base == ParentPosition(totalRounds, m.roundNumber, k)
            && InRound(totalRounds, m.nextMatchId.value - base, m.roundNumber + 1))
  {
    var round := RoundOf(totalRounds, k);
    if round < totalRounds {
      ParentInNextRound(totalRounds, round, k);
    }
  }

  /** The ids lo, lo + 1, ..., hi - 1. */
  function Range(lo: nat, hi: nat): (r: seq<nat>)
    ensures |r| == if lo <= hi then hi - lo else 0
    ensures forall i :: 0 <= i < |r| ==> r[i] == lo + i
  {
    if lo >= hi then [] else seq(hi - lo, i => lo + i)
  }

  /** The ids of `ids`, in their order, whose match is in the given round. */
  function FilterRound(ids: seq<MatchId>, m: map<MatchId, Match>, round: nat): seq<MatchId>
    requires forall k :: 0 <= k < |ids| ==> ids[k] in m
  {
    if ids == [] then []
    else if m[ids[0]].roundNumber == round then [ids[0]] + FilterRound(ids[1..], m, round)
    else FilterRound(ids[1..], m, round)
  }

  /**
   * When the matches with ids lo .. hi-1 are laid out by position, the
   * matches of round r among them, in id order, are exactly the contiguous
   * block of that round.
   */
  lemma {:induction false} FilterRoundOfBlock(lo: nat, hi: nat, m: map<MatchId, Match>, round: nat, a: nat, c: nat)
    requires lo <= a <= c <= hi
    requires forall id :: lo <= id < hi ==> id in m
    requires forall id :: lo <= id < hi ==> (m[id].roundNumber == round <==> a <= id < c)
    ensures FilterRound(Range(lo, hi), m, round) == Range(a, c)
    decreases hi - lo
  {
    if lo < hi {
      var ids := Range(lo, hi);
      assert ids == [lo] + Range(lo + 1, hi);
      assert ids[0] == lo && ids[1..] == Range(lo + 1, hi);
      if lo == a && a < c {
        FilterRoundOfBlock(lo + 1, hi, m, round, a + 1, c);
        assert [a] + Range(a + 1, c) == Range(a, c);
      } else if a == c {
        FilterRoundOfBlock(lo + 1, hi, m, round, lo + 1, lo + 1);
      } else {
        FilterRoundOfBlock(lo + 1, hi, m, round, a, c);
      }
    }
  }

  /**
   * While the rows at ids base .. base + 2^R - 2 keep the rounds of their
   * positions, the round-r query over those ids returns round r's block.
   */
  lemma RoundBlock(m: map<MatchId, Match>, totalRounds: nat, base: MatchId, round: nat)
    requires 1 <= round <= totalRounds
    requires forall id :: base <= id < base + Pow2(totalRounds) - 1 ==>
               id in m && m[id].roundNumber == RoundOf(totalRounds, id - base)
    ensures FilterRound(Range(base, base + Pow2(totalRounds) - 1), m, round) ==
              Range(base + RoundStart(totalRounds, round), base + RoundStart(totalRounds, round + 1))
  {
    RoundMembers(m, totalRounds, base, round);
    FilterRoundOfBlock(base, base + Pow2(totalRounds) - 1, m, round,
                       base + RoundStart(totalRounds, round), base + RoundStart(totalRounds, round + 1));
  }

  /** Under the same layout, a row has round r exactly when its id lies in round r's block. */
  lemma RoundMembers(m: map<MatchId, Match>, totalRounds: nat, base: MatchId, round: nat)
    requires 1 <= round <= totalRounds
    requires forall id :: base <= id < base + Pow2(totalRounds) - 1 ==>
               id in m && m[id].roundNumber == RoundOf(totalRounds, id - base)
    ensures base <= base + RoundStart(totalRounds, round) <= base + RoundStart(totalRounds, round + 1)
              <= base + Pow2(totalRounds) - 1
    ensures forall id :: base <= id < base + Pow2(totalRounds) - 1 ==>
              (m[id].roundNumber == round <==>
                 base + RoundStart(totalRounds, round) <= id < base + RoundStart(totalRounds, round + 1))
  {
    var a, c := base + RoundStart(totalRounds, round), base + RoundStart(totalRounds, round + 1);
    TotalMatches(totalRounds);
    RoundStartMonotone(totalRounds, round, round + 1);
    RoundStartMonotone(totalRounds, round + 1, totalRounds + 1);
    forall id | base <= id < base + Pow2(totalRounds) - 1
      ensures m[id].roundNumber == round <==> a <= id < c
    {
      if a <= id < c {
        assert InRound(totalRounds, id - base, round);
        InRoundUnique(totalRounds, id - base, round, RoundOf(totalRounds, id - base));
      }
    }
  }

  /** Every id the round query returns is one of the queried ids. */
  lemma {:induction false} FilterRoundMembers(ids: seq<MatchId>, m: map<MatchId, Match>, round: nat)
    requires forall k :: 0 <= k < |ids| ==> ids[k] in m
    ensures forall k :: 0 <= k < |FilterRound(ids, m, round)| ==> FilterRound(ids, m, round)[k] in ids
  {
    if ids != [] {
      FilterRoundMembers(ids[1..], m, round);
      assert forall x :: x in ids[1..] ==> x in ids;
    }
  }

  /** The rows keyed by consecutive ids from `first`, as a bulk insert numbers them. */
  function Allocate(first: MatchId, rows: seq<Match>): (m: map<MatchId, Match>)
    ensures forall id :: id in m <==> first <= id < first + |rows|
    ensures forall id :: id in m ==> m[id] == rows[id - first]
  {
    if rows == [] then map[]
    else Allocate(first, rows[..|rows| - 1])[first + |rows| - 1 := rows[|rows| - 1]]
  }

  /** `updateMany({ where: { id: { in: ids } }, data: { nextMatchId: next } })` on a match table. */
  function SetNextMany(m: map<MatchId, Match>, ids: seq<MatchId>, next: MatchId): (r: map<MatchId, Match>)
    ensures forall id :: id in r <==> id in m
  {
    map id | id in m :: if id in ids then m[id].(nextMatchId := Some(next)) else m[id]
  }

  function LinkPairs(m: map<MatchId, Match>, current: seq<MatchId>, next: seq<MatchId>, n: nat): (r: map<MatchId, Match>)
    requires 2 * n <= |current| + 1
    ensures forall id :: id in r <==> id in m
  {
    if n == 0 then m
    else
      var prev := LinkPairs(m, current, next, n - 1);
      var pairIndex := n - 1;  // the loop's i is 2 * pairIndex and its nextMatchIndex is pairIndex
      if pairIndex < |next| then SetNextMany(prev, PairIds(current, 2 * pairIndex), next[pairIndex])
      else prev
  }

  /** One more pair linked: the pair at 2n, 2n+1 is pointed at next[n] when the next round has that match. */
  lemma LinkPairsNext(m: map<MatchId, Match>, current: seq<MatchId>, next: seq<MatchId>, n: nat)
    requires 2 * n < |current|
    ensures LinkPairs(m, current, next, n + 1) ==
              if n < |next| then SetNextMany(LinkPairs(m, current, next, n), PairIds(current, 2 * n), next[n])
              else LinkPairs(m, current, next, n)
  {
  }

  /** `[currentRoundMatches[i].id, currentRoundMatches[i + 1]?.id].filter(Boolean)`. */
  function PairIds(current: seq<MatchId>, i: nat): (r: seq<MatchId>)
    requires i < |current|
    ensures i + 1 < |current| ==> r == [current[i], current[i + 1]]
    ensures i + 1 >= |current| ==> r == [current[i]]
  {
    if i + 1 < |current| then [current[i], current[i + 1]] else [current[i]]
  }

  /** The match table after one iteration of the round loop: the round's query, the next round's, and every pair. */
  function LinkRoundOf(m: map<MatchId, Match>, ids: seq<MatchId>, round: nat): (r: map<MatchId, Match>)
    requires forall k :: 0 <= k < |ids| ==> ids[k] in m
    ensures forall id :: id in r <==> id in m
  {
    var current := FilterRound(ids, m, round);
    LinkPairs(m, current, FilterRound(ids, m, round + 1), (|current| + 1) / 2)
  }

  /** A round pass links all pairs of the round's query, (c + 1) / 2 of them for c matches, to the next round's query. */
  lemma LinkRoundOfPairs(m: map<MatchId, Match>, ids: seq<MatchId>, round: nat,
                         current: seq<MatchId>, next: seq<MatchId>, n: nat)
    requires forall k :: 0 <= k < |ids| ==> ids[k] in m
    requires current == FilterRound(ids, m, round) && next == FilterRound(ids, m, round + 1)
    requires |current| <= 2 * n <= |current| + 1
    ensures LinkRoundOf(m, ids, round) == LinkPairs(m, current, next, n)
  {
    assert n == (|current| + 1) / 2;
  }

  /** The match table once rounds 1 .. round - 1 have been linked, querying among the bracket's ids. */
  function LinkRounds(m: map<MatchId, Match>, ids: seq<MatchId>, round: nat): (r: map<MatchId, Match>)
    requires round >= 1
    requires forall k :: 0 <= k < |ids| ==> ids[k] in m
    ensures forall id :: id in r <==> id in m
    decreases round
  {
    if round == 1 then m else LinkRoundOf(LinkRounds(m, ids, round - 1), ids, round - 1)
  }

  /** Round starts around round r < R: consecutive rounds halve, and they all fit in the bracket. */
  lemma AdjacentRoundStarts(totalRounds: nat, round: nat)
    requires 1 <= round < totalRounds
    ensures RoundStart(totalRounds, round) < RoundStart(totalRounds, round + 1) < RoundStart(totalRounds, round + 2)
    ensures RoundStart(totalRounds, round + 2) <= Pow2(totalRounds) - 1
    ensures RoundStart(totalRounds, round + 1) - RoundStart(totalRounds, round) ==
              2 * (RoundStart(totalRounds, round + 2) - RoundStart(totalRounds, round + 1))
  {
    TotalMatches(totalRounds);
    RoundStartMonotone(totalRounds, round + 2, totalRounds + 1);
    assert Pow2(totalRounds - round) == 2 * Pow2(totalRounds - (round + 1));
  }

  /** The round query only looks at round numbers: two tables that agree on them answer alike. */
  lemma {:induction false} FilterRoundSameRounds(ids: seq<MatchId>, m1: map<MatchId, Match>, m2: map<MatchId, Match>, round: nat)
    requires forall k :: 0 <= k < |ids| ==> ids[k] in m1 && ids[k] in m2
    requires forall k :: 0 <= k < |ids| ==> m1[ids[k]].roundNumber == m2[ids[k]].roundNumber
    ensures FilterRound(ids, m1, round) == FilterRound(ids, m2, round)
  {
    if ids != [] {
      FilterRoundSameRounds(ids[1..], m1, m2, round);
    }
  }

  /** Linking keeps every round number. */
  lemma {:induction false} LinkPairsKeepRound(m: map<MatchId, Match>, current: seq<MatchId>, next: seq<MatchId>, n: nat, id: MatchId)
    requires 2 * n <= |current| + 1 && id in m
    ensures LinkPairs(m, current, next, n)[id].roundNumber == m[id].roundNumber
  {
    if n > 0 {
      LinkPairsKeepRound(m, current, next, n - 1, id);
    }
  }

  /** Linking rounds keeps every round number. */
  lemma {:induction false} LinkRoundsKeepRound(m: map<MatchId, Match>, ids: seq<MatchId>, round: nat, id: MatchId)
    requires round >= 1 && id in m
    requires forall k :: 0 <= k < |ids| ==> ids[k] in m
    ensures LinkRounds(m, ids, round)[id].roundNumber == m[id].roundNumber
    decreases round
  {
    if round > 1 {
      var prev := LinkRounds(m, ids, round - 1);
      LinkRoundsKeepRound(m, ids, round - 1, id);
      var current := FilterRound(ids, prev, round - 1);
      var pairs := (|current| + 1) / 2;
      LinkPairsKeepRound(prev, current, FilterRound(ids, prev, round), pairs, id);
    }
  }

  /** Linking rounds keeps every round query's answer, since only successor links change. */
  lemma LinkRoundsKeepQueries(m: map<MatchId, Match>, ids: seq<MatchId>, round: nat, query: nat)
    requires round >= 1
    requires forall k :: 0 <= k < |ids| ==> ids[k] in m
    ensures FilterRound(ids, LinkRounds(m, ids, round), query) == FilterRound(ids, m, query)
  {
    var linked := LinkRounds(m, ids, round);
    forall k | 0 <= k < |ids| ensures linked[ids[k]].roundNumber == m[ids[k]].roundNumber {
      LinkRoundsKeepRound(m, ids, round, ids[k]);
    }
    FilterRoundSameRounds(ids, linked, m, query);
  }

  /**
   * One pass of the round loop when round r's query returns the ids
   * c0 .. c1 - 1 and round r+1's returns n0 .. n1 - 1, half as many: each
   * of the former gains the link to the next-round id its pair feeds.
   */
  lemma LinkRoundOfAt(m: map<MatchId, Match>, ids: seq<MatchId>, round: nat, c0: nat, c1: nat, n0: nat, n1: nat, id: MatchId)
    requires forall k :: 0 <= k < |ids| ==> ids[k] in m
    requires c0 <= c1 && n0 <= n1 && c1 - c0 == 2 * (n1 - n0)
    requires FilterRound(ids, m, round) == Range(c0, c1)
    requires FilterRound(ids, m, round + 1) == Range(n0, n1)
    requires id in m
    ensures LinkRoundOf(m, ids, round)[id] ==
              if c0 <= id < c1 then m[id].(nextMatchId := Some(n0 + (id - c0) / 2)) else m[id]
  {
    var current := FilterRound(ids, m, round);
    var len := n1 - n0;
    assert (|current| + 1) / 2 == len;
    LinkPairsEffect(m, current, FilterRound(ids, m, round + 1), c0, n0, len, len, id);
  }

  /** One step of the pairing loop: pair n (counting from 1) points at the n-th next-round id. */
  lemma LinkPairsStep(m: map<MatchId, Match>, current: seq<MatchId>, next: seq<MatchId>, n: nat, id: MatchId)
    requires 0 < n && 2 * n <= |current| && n <= |next| && id in m
    ensures var prev := LinkPairs(m, current, next, n - 1)[id];
      LinkPairs(m, current, next, n)[id] ==
        if id == current[2 * n - 2] || id == current[2 * n - 1] then prev.(nextMatchId := Some(next[n - 1])) else prev
  {
    var pair := PairIds(current, 2 * (n - 1));
    assert id in pair <==> id == current[2 * n - 2] || id == current[2 * n - 1];
  }

  /**
   * The pairing loop over a round whose ids are c0 .. c0 + 2L - 1, with
   * the next round's ids n0 .. n0 + L - 1: after n pairs, the first 2n ids
   * of the round point at the next-round id their pair feeds, and nothing
   * else has changed.
   */
  lemma {:induction false} LinkPairsEffect(m: map<MatchId, Match>, current: seq<MatchId>, next: seq<MatchId>,
                                           c0: nat, n0: nat, len: nat, n: nat, id: MatchId)
    requires |current| == 2 * len && forall i :: 0 <= i < |current| ==> current[i] == c0 + i
    requires |next| == len && forall i :: 0 <= i < |next| ==> next[i] == n0 + i
    requires n <= len && id in m
    ensures LinkPairs(m, current, next, n)[id] ==
              if c0 <= id < c0 + 2 * n then m[id].(nextMatchId := Some(n0 + (id - c0) / 2)) else m[id]
  {
    if n > 0 {
      LinkPairsEffect(m, current, next, c0, n0, len, n - 1, id);
      LinkPairsStep(m, current, next, n, id);
      assert current[2 * n - 2] == c0 + 2 * n - 2 && current[2 * n - 1] == c0 + 2 * n - 1;
      assert next[n - 1] == n0 + n - 1;
      var prev := LinkPairs(m, current, next, n - 1)[id];
      if c0 + 2 * n - 2 <= id < c0 + 2 * n {
        assert prev == m[id];
        assert (id - c0) / 2 == n - 1;
        assert LinkPairs(m, current, next, n)[id] == m[id].(nextMatchId := Some(n0 + n - 1));
      } else {
        assert LinkPairs(m, current, next, n)[id] == prev;
      }
    }
  }

  /** A freshly planned bracket laid out from `base` answers each round query with that round's block. */
  lemma PlannedQueries(m: map<MatchId, Match>, ids: seq<MatchId>, b: BracketId, base: MatchId, totalRounds: nat, round: nat)
    requires 1 <= round <= totalRounds
    requires ids == Range(base, base + Pow2(totalRounds) - 1)
    requires forall id :: base <= id < base + Pow2(totalRounds) - 1 ==>
               id in m && m[id] == PlannedRow(b, totalRounds, id - base)
    ensures FilterRound(ids, m, round) ==
              Range(base + RoundStart(totalRounds, round), base + RoundStart(totalRounds, round + 1))
  {
    RoundBlock(m, totalRounds, base, round);
  }

  /**
   * The pass of round r over a table linked up to round r whose round-r
   * query returns the ids c0 .. n0 - 1 and round r+1's the ids n0 .. n1 - 1,
   * half as many: round r's block gains its links.
   */
  lemma LinkRoundOfBlocks(m: map<MatchId, Match>, ids: seq<MatchId>, r: nat, c0: nat, n0: nat, n1: nat, id: MatchId)
    requires r >= 1 && forall k :: 0 <= k < |ids| ==> ids[k] in m
    requires c0 <= n0 <= n1 && n0 - c0 == 2 * (n1 - n0)
    requires FilterRound(ids, m, r) == Range(c0, n0) && FilterRound(ids, m, r + 1) == Range(n0, n1)
    requires id in m
    ensures var prev := LinkRounds(m, ids, r);
      LinkRoundOf(prev, ids, r)[id] == if c0 <= id < n0 then prev[id].(nextMatchId := Some(n0 + (id - c0) / 2)) else prev[id]
  {
    var prev := LinkRounds(m, ids, r);
    LinkRoundsKeepQueries(m, ids, r, r);
    LinkRoundsKeepQueries(m, ids, r, r + 1);
    LinkRoundOfAt(prev, ids, r, c0, n0, n0, n1, id);
  }

  /** Three consecutive round starts shifted by base keep their order and their halving. */
  lemma ShiftedStarts(base: nat, a: nat, b: nat, c: nat)
    requires a < b < c && b - a == 2 * (c - b)
    ensures base + a <= base + b <= base + c && (base + b) - (base + a) == 2 * ((base + c) - (base + b))
  {
  }

  /** The pass of round r over a table laid out in round blocks from base. */
  lemma LinkRoundOfLayout(m: map<MatchId, Match>, ids: seq<MatchId>, base: MatchId, totalRounds: nat, r: nat, id: MatchId)
    requires 1 <= r < totalRounds
    requires forall i :: 0 <= i < |ids| ==> ids[i] in m
    requires forall r {:trigger FilterRound(ids, m, r)} :: 1 <= r <= totalRounds ==>
               FilterRound(ids, m, r) == Range(base + RoundStart(totalRounds, r), base + RoundStart(totalRounds, r + 1))
    requires id in m
    ensures var prev := LinkRounds(m, ids, r);
      var c0, n0 := base + RoundStart(totalRounds, r), base + RoundStart(totalRounds, r + 1);
      LinkRoundOf(prev, ids, r)[id] == if c0 <= id < n0 then prev[id].(nextMatchId := Some(n0 + (id - c0) / 2)) else prev[id]
  {
    AdjacentRoundStarts(totalRounds, r);
    ShiftedStarts(base, RoundStart(totalRounds, r), RoundStart(totalRounds, r + 1), RoundStart(totalRounds, r + 2));
    LinkRoundOfBlocks(m, ids, r, base + RoundStart(totalRounds, r), base + RoundStart(totalRounds, r + 1),
                      base + RoundStart(totalRounds, r + 2), id);
  }

  /**
   * Linking rounds 1 .. round-1 of a table whose round-r query returns the
   * block of ids base + RoundStart(R, r) .. base + RoundStart(R, r + 1) - 1:
   * the match at position k of a linked round q < R gains the link to the
   * match its position feeds in round q + 1, and is otherwise untouched.
   */
  lemma {:induction false} LinkRoundsInBlock(m: map<MatchId, Match>, ids: seq<MatchId>, base: MatchId,
                                             totalRounds: nat, round: nat, q: nat, k: nat)
    requires 1 <= round <= totalRounds
    requires forall i :: 0 <= i < |ids| ==> ids[i] in m
    requires forall r {:trigger FilterRound(ids, m, r)} :: 1 <= r <= totalRounds ==>
               FilterRound(ids, m, r) == Range(base + RoundStart(totalRounds, r), base + RoundStart(totalRounds, r + 1))
    requires InRound(totalRounds, k, q) && q < totalRounds && base + k in m
    ensures LinkRounds(m, ids, round)[base + k] ==
              if q < round then m[base + k].(nextMatchId := Some(base + ParentPosition(totalRounds, q, k))) else m[base + k]
    decreases round
  {
    if round > 1 {
      var r := round - 1;
      var id := base + k;
      LinkRoundsInBlock(m, ids, base, totalRounds, r, q, k);
      LinkRoundOfLayout(m, ids, base, totalRounds, r, id);
      var c0, n0 := base + RoundStart(totalRounds, r), base + RoundStart(totalRounds, r + 1);
      if c0 <= id < n0 {
        assert InRound(totalRounds, k, r);
        InRoundUnique(totalRounds, k, r, q);
        ParentOffset(base, totalRounds, r, k);
      } else if q == r {
        assert false;
      }
      PassCombine(m[id], LinkRounds(m, ids, r)[id], LinkRoundOf(LinkRounds(m, ids, r), ids, r)[id], q < r, c0 <= id < n0, q < round,
                  n0 + (id - c0) / 2, base + ParentPosition(totalRounds, q, k));
    }
  }

  /**
   * One pass over a match: it gains link x when the pass covers it, and
   * ends linked to y when it was linked before or is linked now, never both.
   */
  lemma PassCombine(orig: Match, prev: Match, after: Match, linkedBefore: bool, inPass: bool, linkedAfter: bool,
                    x: MatchId, y: MatchId)
    requires prev == if linkedBefore then orig.(nextMatchId := Some(y)) else orig
    requires after == if inPass then prev.(nextMatchId := Some(x)) else prev
    requires linkedAfter <==> linkedBefore || inPass
    requires !(linkedBefore && inPass) && (inPass ==> x == y)
    ensures after == if linkedAfter then orig.(nextMatchId := Some(y)) else orig
  {
  }

  /** The id a pair of round r feeds, counted from the round blocks, is the one of the parent position. */
  lemma ParentOffset(base: MatchId, totalRounds: nat, round: nat, k: nat)
    requires round < totalRounds && InRound(totalRounds, k, round)
    ensures base + RoundStart(totalRounds, round + 1) + (base + k - (base + RoundStart(totalRounds, round))) / 2 ==
            base + ParentPosition(totalRounds, round, k)
  {
    assert base + k - (base + RoundStart(totalRounds, round)) == k - RoundStart(totalRounds, round);
  }

  /** Linking rounds 1 .. round-1 leaves the matches outside those rounds' blocks untouched. */
  lemma {:induction false} LinkRoundsOutside(m: map<MatchId, Match>, ids: seq<MatchId>, base: MatchId,
                                             totalRounds: nat, round: nat, id: MatchId)
    requires 1 <= round <= totalRounds
    requires forall k :: 0 <= k < |ids| ==> ids[k] in m
    requires forall r {:trigger FilterRound(ids, m, r)} :: 1 <= r <= totalRounds ==>
               FilterRound(ids, m, r) == Range(base + RoundStart(totalRounds, r), base + RoundStart(totalRounds, r + 1))
    requires id in m && (id < base || id >= base + RoundStart(totalRounds, totalRounds))
    ensures LinkRounds(m, ids, round)[id] == m[id]
    decreases round
  {
    if round > 1 {
      var r := round - 1;
      LinkRoundsOutside(m, ids, base, totalRounds, r, id);
      LinkRoundOfLayout(m, ids, base, totalRounds, r, id);
      RoundStartMonotone(totalRounds, r + 1, totalRounds);
      assert !(base + RoundStart(totalRounds, r) <= id < base + RoundStart(totalRounds, r + 1));
    }
  }

  /** Every round query of a freshly planned bracket returns that round's block. */
  lemma PlannedBlocks(m: map<MatchId, Match>, ids: seq<MatchId>, b: BracketId, base: MatchId, totalRounds: nat)
    requires ids == Range(base, base + Pow2(totalRounds) - 1)
    requires forall id :: base <= id < base + Pow2(totalRounds) - 1 ==>
               id in m && m[id] == PlannedRow(b, totalRounds, id - base)
    ensures forall k :: 0 <= k < |ids| ==> ids[k] in m
    ensures forall r {:trigger FilterRound(ids, m, r)} :: 1 <= r <= totalRounds ==>
              FilterRound(ids, m, r) == Range(base + RoundStart(totalRounds, r), base + RoundStart(totalRounds, r + 1))
  {
    forall r {:trigger FilterRound(ids, m, r)} | 1 <= r <= totalRounds
      ensures FilterRound(ids, m, r) == Range(base + RoundStart(totalRounds, r), base + RoundStart(totalRounds, r + 1))
    {
      PlannedQueries(m, ids, b, base, totalRounds, r);
    }
  }

  /**
   * Linking rounds 1 .. R-1 of a bracket laid out at ids base .. base + 2^R - 2,
   * whose round queries return the rounds' blocks, gives the planned row at
   * position k its link.
   */
  lemma LinkedBracket(m: map<MatchId, Match>, ids: seq<MatchId>, b: BracketId, base: MatchId, totalRounds: nat, k: nat)
    requires totalRounds >= 1 && k < Pow2(totalRounds) - 1
    requires forall i :: 0 <= i < |ids| ==> ids[i] in m
    requires forall r {:trigger FilterRound(ids, m, r)} :: 1 <= r <= totalRounds ==>
               FilterRound(ids, m, r) == Range(base + RoundStart(totalRounds, r), base + RoundStart(totalRounds, r + 1))
    requires base + k in m && m[base + k] == PlannedRow(b, totalRounds, k)
    ensures LinkRounds(m, ids, totalRounds)[base + k] == LinkedRow(b, base, totalRounds, k)
  {
    var q := RoundOf(totalRounds, k);
    var row := m[base + k];
    LinkedRowOfPlanned(b, base, totalRounds, k, row);
    if q < totalRounds {
      LinkRoundsInBlock(m, ids, base, totalRounds, totalRounds, q, k);
    } else {
      LinkRoundsOutside(m, ids, base, totalRounds, totalRounds, base + k);
    }
  }

  /** Linking rounds 1 .. R-1 of a freshly planned bracket touches no match outside it. */
  lemma LinkedBracketOutside(m: map<MatchId, Match>, ids: seq<MatchId>, b: BracketId, base: MatchId, totalRounds: nat, id: MatchId)
    requires totalRounds >= 1 && id in m && (id < base || id >= base + Pow2(totalRounds) - 1)
    requires ids == Range(base, base + Pow2(totalRounds) - 1)
    requires forall id :: base <= id < base + Pow2(totalRounds) - 1 ==>
               id in m && m[id] == PlannedRow(b, totalRounds, id - base)
    ensures LinkRounds(m, ids, totalRounds)[id] == m[id]
  {
    PlannedBlocks(m, ids, b, base, totalRounds);
    TotalMatches(totalRounds);
    RoundStartMonotone(totalRounds, totalRounds, totalRounds + 1);
    LinkRoundsOutside(m, ids, base, totalRounds, totalRounds, id);
  }

  /**
   * Linking a freshly planned bracket whose rows were stored at ids
   * base .. last - 1: every new position holds its linked row.
   */
  lemma LinkedAfterCreate(created: map<MatchId, Match>, rows: seq<Match>, ids: seq<MatchId>,
                          b: BracketId, base: MatchId, last: MatchId, totalRounds: nat)
    requires totalRounds >= 1 && last == base + |rows| && |rows| == Pow2(totalRounds) - 1
    requires forall k :: 0 <= k < |rows| ==> rows[k] == PlannedRow(b, totalRounds, k)
    requires ids == Range(base, last)
    requires forall id :: base <= id < last ==> id in created && created[id] == rows[id - base]
    ensures forall k :: 0 <= k < Pow2(totalRounds) - 1 ==>
              LinkRounds(created, ids, totalRounds)[base + k] == LinkedRow(b, base, totalRounds, k)
  {
    PlannedBlocks(created, ids, b, base, totalRounds);
    forall k | 0 <= k < Pow2(totalRounds) - 1
      ensures LinkRounds(created, ids, totalRounds)[base + k] == LinkedRow(b, base, totalRounds, k)
    {
      LinkedBracket(created, ids, b, base, totalRounds, k);
    }
  }

  /** Linking a freshly planned bracket stored above the matches of `before` keeps those matches. */
  lemma KeptAfterCreate(before: map<MatchId, Match>, created: map<MatchId, Match>, rows: seq<Match>, ids: seq<MatchId>,
                        b: BracketId, base: MatchId, last: MatchId, totalRounds: nat)
    requires totalRounds >= 1 && last == base + |rows| && |rows| == Pow2(totalRounds) - 1
    requires forall k :: 0 <= k < |rows| ==> rows[k] == PlannedRow(b, totalRounds, k)
    requires ids == Range(base, last)
    requires forall id :: base <= id < last ==> id in created && created[id] == rows[id - base]
    requires forall id :: id in before ==> id < base
    requires forall id :: id in before ==> id in created && created[id] == before[id]
    ensures forall id :: id in before ==> LinkRounds(created, ids, totalRounds)[id] == before[id]
  {
    forall id | id in before ensures LinkRounds(created, ids, totalRounds)[id] == before[id] {
      LinkedBracketOutside(created, ids, b, base, totalRounds, id);
    }
  }
}
