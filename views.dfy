/**
 * The read side of the bracket service: the shape in which a match and a
 * whole bracket are handed to the client (`formatMatchData`,
 * `formatBracketData`) and the display name of a round (`getRoundName`).
 * Player names and avatars come from the profile table, which is not part
 * of this model; a player appears by id only.
 */
module Views {
  import opened Wrappers
  import opened Entities

  /** A match row as the store returns it, with its submissions in the order they were created. */
  datatype MatchRecord = MatchRecord(id: MatchId, row: Match, submissions: seq<Submission>)

  datatype SubmissionView = SubmissionView(score1: int, score2: int, submittedAt: int)

  datatype MatchView = MatchView(
    id: MatchId,
    roundNumber: nat,
    matchNumber: nat,
    player1: Option<UserId>,
    player2: Option<UserId>,
    status: MatchStatus,
    winnerId: Option<UserId>,
    confirmedScore1: Option<int>,
    confirmedScore2: Option<int>,
    player1Submission: Option<SubmissionView>,
    player2Submission: Option<SubmissionView>)

  datatype RoundView = RoundView(roundNumber: nat, roundName: string, matches: seq<MatchView>)

  datatype BracketView = BracketView(
    id: BracketId,
    tournamentId: TournamentId,
    totalRounds: nat,
    totalPlayers: nat,
    rounds: seq<RoundView>)

  // ---------------------------------------------------------------------
  // formatMatchData
  // ---------------------------------------------------------------------

  /**
   * `submissions.find(s => s.submittedBy === player)`: the position of the
   * first submission made by the player in the slot; an empty slot matches
   * no submission.
   */
  function FindSubmission(subs: seq<Submission>, player: Option<UserId>): (r: Option<nat>)
    ensures r.Some? ==> r.value < |subs| && Some(subs[r.value].submittedBy) == player
    ensures r.Some? ==> forall j :: 0 <= j < r.value ==> Some(subs[j].submittedBy) != player
    ensures r.None? ==> forall j :: 0 <= j < |subs| ==> Some(subs[j].submittedBy) != player
  {
    if subs == [] then None
    else if Some(subs[0].submittedBy) == player then Some(0)
    else match FindSubmission(subs[1..], player)
      case None => None
      case Some(k) => Some(k + 1)
  }

  function SubmissionOf(subs: seq<Submission>, player: Option<UserId>): Option<Submission>
  {
    match FindSubmission(subs, player)
    case None => None
    case Some(k) => Some(subs[k])
  }

  function ViewOf(s: Option<Submission>): Option<SubmissionView>
  {
    match s
    case None => None
    case Some(x) => Some(SubmissionView(x.score1, x.score2, x.submittedAt))
  }

  /**
   * `formatMatchData`: the row's identity, slots, status and winner, each
   * player's own submission when that player has submitted, and as the
   * "confirmed" score the score that player 1 reported.
   */
  function FormatMatchData(rec: MatchRecord): (v: MatchView)
    ensures v.id == rec.id && v.roundNumber == rec.row.roundNumber && v.matchNumber == rec.row.matchNumber
    ensures v.player1 == rec.row.player1 && v.player2 == rec.row.player2
    ensures v.status == rec.row.status && v.winnerId == rec.row.winnerId
    ensures v.player1Submission.Some? <==>
              exists j :: 0 <= j < |rec.submissions| && Some(rec.submissions[j].submittedBy) == rec.row.player1
    ensures v.player2Submission.Some? <==>
              exists j :: 0 <= j < |rec.submissions| && Some(rec.submissions[j].submittedBy) == rec.row.player2
    ensures v.confirmedScore1.Some? <==> v.player1Submission.Some?
    ensures v.player1Submission.Some? ==> v.confirmedScore1 == Some(v.player1Submission.value.score1)
                                          && v.confirmedScore2 == Some(v.player1Submission.value.score2)
  {
    var s1 := SubmissionOf(rec.submissions, rec.row.player1);
    var s2 := SubmissionOf(rec.submissions, rec.row.player2);
    MatchView(rec.id, rec.row.roundNumber, rec.row.matchNumber, rec.row.player1, rec.row.player2,
              rec.row.status, rec.row.winnerId,
              if s1.Some? then Some(s1.value.score1) else None,
              if s1.Some? then Some(s1.value.score2) else None,
              ViewOf(s1), ViewOf(s2))
  }

  /**
   * When each player submits at most once, the view shows, for either
   * player, exactly the submission that player made.
   */
  lemma ShownSubmissionIsTheOnlyOne(rec: MatchRecord, j: nat)
    requires j < |rec.submissions|
    requires forall i, k :: 0 <= i < k < |rec.submissions| ==>
               rec.submissions[i].submittedBy != rec.submissions[k].submittedBy
    ensures var shown := Some(SubmissionView(rec.submissions[j].score1, rec.submissions[j].score2,
                                             rec.submissions[j].submittedAt));
      && (Some(rec.submissions[j].submittedBy) == rec.row.player1 ==> FormatMatchData(rec).player1Submission == shown)
      && (Some(rec.submissions[j].submittedBy) == rec.row.player2 ==> FormatMatchData(rec).player2Submission == shown)
  {
    if Some(rec.submissions[j].submittedBy) == rec.row.player1 {
      var k := FindSubmission(rec.submissions, rec.row.player1);
      assert k.Some?;
    }
    if Some(rec.submissions[j].submittedBy) == rec.row.player2 {
      var k := FindSubmission(rec.submissions, rec.row.player2);
      assert k.Some?;
    }
  }

  // ---------------------------------------------------------------------
  // getRoundName
  // ---------------------------------------------------------------------

  /** The names of the last eight rounds, counted from the final. */
  const RoundNames: seq<string> :=
    ["FINAL", "SEMI-FINALS", "QUARTER-FINALS", "1/8-FINALS", "1/16-FINALS", "1/32-FINALS", "1/64-FINALS",
     "1/128-FINALS"]

  /** The decimal digits of n without leading zeros, as a template literal prints an integer. */
  function Decimal(n: nat): (s: string)
    ensures |s| >= 1 && forall i :: 0 <= i < |s| ==> '0' <= s[i] <= '9'
    decreases n
  {
    if n < 10 then [Digit(n)] else Decimal(n / 10) + [Digit(n % 10)]
  }

  function Digit(d: nat): char
    requires d < 10
  {
    ['0', '1', '2', '3', '4', '5', '6', '7', '8', '9'][d]
  }

  function DigitValue(c: char): nat
  {
    if '0' <= c <= '9' then (c as int - '0' as int) as nat else 0
  }

  /** Reads a string of decimal digits back as a number. */
  function ParseDecimal(s: string): nat
    decreases |s|
  {
    if s == [] then 0 else 10 * ParseDecimal(s[..|s| - 1]) + DigitValue(s[|s| - 1])
  }

  /** Printing a number in decimal loses nothing: it reads back as the same number. */
  lemma {:induction false} DecimalRoundTrip(n: nat)
    ensures ParseDecimal(Decimal(n)) == n
    decreases n
  {
    var s := Decimal(n);
    if n < 10 {
      assert DigitValue(Digit(n)) == n;
    } else {
      DecimalRoundTrip(n / 10);
      assert s[..|s| - 1] == Decimal(n / 10);
      assert DigitValue(Digit(n % 10)) == n % 10;
    }
  }

  /**
   * `getRoundName(roundNumber, totalRounds)`: rounds 0 .. 7 from the end
   * take their name from the table; any other round (an earlier round of a
   * very large bracket, or a round number past the last) is "ROUND n".
   */
  function GetRoundName(roundNumber: nat, totalRounds: nat): (name: string)
  {
    var fromEnd := totalRounds - roundNumber;
    if 0 <= fromEnd < |RoundNames| then RoundNames[fromEnd] else "ROUND " + Decimal(roundNumber)
  }

  /**
   * Within one bracket the round names tell the rounds apart: the last
   * round is the FINAL, the one before it the SEMI-FINALS, and two rounds
   * with the same name are the same round.
   */
  lemma RoundNamesDistinct(r1: nat, r2: nat, totalRounds: nat)
    requires GetRoundName(r1, totalRounds) == GetRoundName(r2, totalRounds)
    ensures r1 == r2
  {
    var n1, n2 := GetRoundName(r1, totalRounds), GetRoundName(r2, totalRounds);
    var inTable1 := 0 <= totalRounds - r1 < |RoundNames|;
    var inTable2 := 0 <= totalRounds - r2 < |RoundNames|;
    if inTable1 && inTable2 {
      assert RoundNames[totalRounds - r1] == RoundNames[totalRounds - r2];
    } else if !inTable1 && !inTable2 {
      assert n1[6..] == Decimal(r1) && n2[6..] == Decimal(r2);
      DecimalRoundTrip(r1);
      DecimalRoundTrip(r2);
    } else if inTable1 {
      TableNameNotGenerated(totalRounds - r1, r2);
    } else {
      TableNameNotGenerated(totalRounds - r2, r1);
    }
  }

  /** No name of the table has the shape of a generated "ROUND n" name. */
  lemma TableNameNotGenerated(k: nat, n: nat)
    requires k < |RoundNames|
    ensures RoundNames[k] != "ROUND " + Decimal(n)
  {
    assert ("ROUND " + Decimal(n))[0] == 'R';
  }

  lemma FinalRoundNames(totalRounds: nat)
    requires totalRounds >= 2
    ensures GetRoundName(totalRounds, totalRounds) == "FINAL"
    ensures GetRoundName(totalRounds - 1, totalRounds) == "SEMI-FINALS"
    ensures totalRounds > 8 ==> GetRoundName(1, totalRounds) == "ROUND 1"
  {
  }

  // ---------------------------------------------------------------------
  // formatBracketData
  // ---------------------------------------------------------------------

  /** `bracket.matches.filter(m => m.roundNumber === round)`. */
  function RoundRecords(records: seq<MatchRecord>, round: nat): (r: seq<MatchRecord>)
    ensures |r| <= |records|
    ensures forall x :: x in r <==> x in records && x.row.roundNumber == round
  {
    if records == [] then []
    else if records[0].row.roundNumber == round then [records[0]] + RoundRecords(records[1..], round)
    else RoundRecords(records[1..], round)
  }

  /** The filter keeps every copy of a record of the round and no copy of any other record. */
  lemma {:induction false} RoundRecordsCount(records: seq<MatchRecord>, round: nat, x: MatchRecord)
    ensures multiset(RoundRecords(records, round))[x] ==
              if x.row.roundNumber == round then multiset(records)[x] else 0
    decreases |records|
  {
    if records != [] {
      RoundRecordsCount(records[1..], round, x);
      assert records == [records[0]] + records[1..];
    }
  }

  /** Filtering a concatenation filters each part: the filter works record by record, in order. */
  lemma {:induction false} RoundRecordsConcat(a: seq<MatchRecord>, b: seq<MatchRecord>, round: nat)
    ensures RoundRecords(a + b, round) == RoundRecords(a, round) + RoundRecords(b, round)
    decreases |a|
  {
    if a == [] {
      assert a + b == b;
    } else {
      assert (a + b)[1..] == a[1..] + b;
      RoundRecordsConcat(a[1..], b, round);
    }
  }

  /** Records in ascending matchNumber order. */
  predicate ByMatchNumber(records: seq<MatchRecord>)
  {
    forall i, j :: 0 <= i < j < |records| ==> records[i].row.matchNumber <= records[j].row.matchNumber
  }

  /** `orderBy: [{ roundNumber: 'asc' }, { matchNumber: 'asc' }]`: a comes no later than b. */
  predicate RoundThenNumber(a: MatchRecord, b: MatchRecord)
  {
    a.row.roundNumber < b.row.roundNumber
    || (a.row.roundNumber == b.row.roundNumber && a.row.matchNumber <= b.row.matchNumber)
  }

  /** Records in ascending (roundNumber, matchNumber) order. */
  predicate ByRoundThenNumber(records: seq<MatchRecord>)
  {
    forall i, j :: 0 <= i < j < |records| ==> RoundThenNumber(records[i], records[j])
  }

  /** Inserts x into an ordered list after every record that comes no later than it. */
  function InsertByRound(x: MatchRecord, s: seq<MatchRecord>): (r: seq<MatchRecord>)
    requires ByRoundThenNumber(s)
    ensures ByRoundThenNumber(r)
    ensures multiset(r) == multiset(s) + multiset{x}
    decreases |s|
  {
    if s == [] || !RoundThenNumber(s[0], x) then
      OrderedBefore(x, s);
      [x] + s
    else
      var rest := InsertByRound(x, s[1..]);
      OrderedAfterHead(x, s, rest);
      [s[0]] + rest
  }

  /** A record that comes before the head of an ordered list comes before all of it. */
  lemma OrderedBefore(x: MatchRecord, s: seq<MatchRecord>)
    requires ByRoundThenNumber(s) && (s == [] || !RoundThenNumber(s[0], x))
    ensures ByRoundThenNumber([x] + s)
  {
    var r := [x] + s;
    forall i, j | 0 <= i < j < |r| ensures RoundThenNumber(r[i], r[j]) {
      if i == 0 {
        assert r[j] == s[j - 1];
        if j > 1 {
          assert RoundThenNumber(s[0], s[j - 1]);
        }
      } else {
        assert r[i] == s[i - 1] && r[j] == s[j - 1];
      }
    }
  }

  /** The head of an ordered list, no later than x, stays in front of the tail with x inserted. */
  lemma OrderedAfterHead(x: MatchRecord, s: seq<MatchRecord>, rest: seq<MatchRecord>)
    requires ByRoundThenNumber(s) && s != [] && RoundThenNumber(s[0], x)
    requires ByRoundThenNumber(rest) && multiset(rest) == multiset(s[1..]) + multiset{x}
    ensures ByRoundThenNumber([s[0]] + rest)
    ensures multiset([s[0]] + rest) == multiset(s) + multiset{x}
  {
    var r := [s[0]] + rest;
    forall i, j | 0 <= i < j < |r| ensures RoundThenNumber(r[i], r[j]) {
      if i == 0 {
        var y := r[j];
        assert y == rest[j - 1] && y in multiset(rest);
        if y != x {
          assert y in s[1..];
          var k :| 0 <= k < |s[1..]| && s[1..][k] == y;
          assert s[k + 1] == y;
        }
      } else {
        assert r[i] == rest[i - 1] && r[j] == rest[j - 1];
      }
    }
    assert s == [s[0]] + s[1..];
  }

  /** The matches of a bracket as the ordered query returns them: the same records, sorted. */
  function SortByRoundThenNumber(records: seq<MatchRecord>): (r: seq<MatchRecord>)
    ensures ByRoundThenNumber(r)
    ensures multiset(r) == multiset(records)
    decreases |records|
  {
    if records == [] then []
    else
      assert records == [records[0]] + records[1..];
      InsertByRound(records[0], SortByRoundThenNumber(records[1..]))
  }

  /**
   * The filter keeps the order of its input: the round filter of records in
   * (roundNumber, matchNumber) order lists that round by matchNumber.
   */
  lemma {:induction false} RoundRecordsKeepOrder(records: seq<MatchRecord>, round: nat)
    requires ByRoundThenNumber(records)
    ensures ByRoundThenNumber(RoundRecords(records, round))
    ensures ByMatchNumber(RoundRecords(records, round))
    decreases |records|
  {
    var r := RoundRecords(records, round);
    if records != [] {
      var rest := records[1..];
      assert ByRoundThenNumber(rest) by {
        forall i, j | 0 <= i < j < |rest| ensures RoundThenNumber(rest[i], rest[j]) {
          assert rest[i] == records[i + 1] && rest[j] == records[j + 1];
        }
      }
      RoundRecordsKeepOrder(rest, round);
      if records[0].row.roundNumber == round {
        forall i, j | 0 <= i < j < |r| ensures RoundThenNumber(r[i], r[j]) {
          if i == 0 {
            assert r[j] in rest;
          }
        }
      }
    }
    forall i, j | 0 <= i < j < |r| ensures r[i].row.matchNumber <= r[j].row.matchNumber {
      assert r[i] in r && r[j] in r;
    }
  }

  /** Every round of records in (roundNumber, matchNumber) order is listed by matchNumber. */
  lemma EveryRoundByMatchNumber(records: seq<MatchRecord>)
    requires ByRoundThenNumber(records)
    ensures forall round :: ByMatchNumber(RoundRecords(records, round))
  {
    forall round {
      RoundRecordsKeepOrder(records, round);
    }
  }

  /** `roundMatches.map(formatMatchData)`. */
  function FormatMatches(records: seq<MatchRecord>): (r: seq<MatchView>)
    ensures |r| == |records| && forall i :: 0 <= i < |records| ==> r[i] == FormatMatchData(records[i])
  {
    seq(|records|, i requires 0 <= i < |records| => FormatMatchData(records[i]))
  }

  /** The view of round r of a bracket with totalRounds rounds. */
  function RoundViewOf(records: seq<MatchRecord>, round: nat, totalRounds: nat): RoundView
  {
    RoundView(round, GetRoundName(round, totalRounds), FormatMatches(RoundRecords(records, round)))
  }

  /**
   * `formatBracketData`: one entry per round 1 .. totalRounds, in order,
   * each holding the views of exactly the matches of that round.
   */
  method FormatBracketData(id: BracketId, bracket: Bracket, records: seq<MatchRecord>) returns (v: BracketView)
    ensures v.id == id && v.tournamentId == bracket.tournamentId
    ensures v.totalRounds == bracket.totalRounds && v.totalPlayers == bracket.totalPlayers
    ensures |v.rounds| == bracket.totalRounds
    ensures forall i :: 0 <= i < |v.rounds| ==> v.rounds[i] == RoundViewOf(records, i + 1, bracket.totalRounds)
  {
    var rounds: seq<RoundView> := [];
    var roundNum := 1;
    while roundNum <= bracket.totalRounds
      invariant 1 <= roundNum <= bracket.totalRounds + 1 || (bracket.totalRounds == 0 && roundNum == 1)
      invariant |rounds| == roundNum - 1
      invariant forall i :: 0 <= i < |rounds| ==> rounds[i] == RoundViewOf(records, i + 1, bracket.totalRounds)
    {
      var roundMatches := RoundRecords(records, roundNum);
      rounds := rounds + [RoundView(roundNum, GetRoundName(roundNum, bracket.totalRounds), FormatMatches(roundMatches))];
      roundNum := roundNum + 1;
    }
    v := BracketView(id, bracket.tournamentId, bracket.totalRounds, bracket.totalPlayers, rounds);
  }

  /**
   * Every match of a round 1 .. totalRounds is shown in its own round and
   * in no other; a match with any other round number is not shown.
   */
  lemma EachMatchInItsRound(records: seq<MatchRecord>, totalRounds: nat, x: MatchRecord, i: nat)
    requires x in records && i < totalRounds
    ensures x in RoundRecords(records, i + 1) <==> x.row.roundNumber == i + 1
    ensures x.row.roundNumber == i + 1 ==>
              FormatMatchData(x) in RoundViewOf(records, i + 1, totalRounds).matches
  {
    if x.row.roundNumber == i + 1 {
      var rs := RoundRecords(records, i + 1);
      var k :| 0 <= k < |rs| && rs[k] == x;
      assert FormatMatches(rs)[k] == FormatMatchData(x);
    }
  }
}
