/**
 * Integer replacements for the floating-point shape computations of the
 * bracket builder: `Math.pow(2, Math.ceil(Math.log2(n)))` and `Math.log2`,
 * and the position arithmetic of a bracket whose matches are numbered round
 * by round.
 */
module BracketMath {

  /** 2 to the power k. */
  function Pow2(k: nat): (r: nat)
    ensures r >= 1
  {
    if k == 0 then 1 else 2 * Pow2(k - 1)
  }

  /** n is a power of two (1, 2, 4, ...). */
  predicate IsPowerOfTwo(n: nat)
    decreases n
  {
    n == 1 || (n >= 2 && n % 2 == 0 && IsPowerOfTwo(n / 2))
  }

  lemma {:induction false} Pow2IsPowerOfTwo(k: nat)
    ensures IsPowerOfTwo(Pow2(k))
  {
    if k > 0 {
      Pow2IsPowerOfTwo(k - 1);
      assert Pow2(k) / 2 == Pow2(k - 1);
    }
  }

  lemma {:induction false} Pow2Monotone(j: nat, k: nat)
    requires j <= k
    ensures Pow2(j) <= Pow2(k)
  {
    if j < k {
      Pow2Monotone(j, k - 1);
    }
  }

  lemma {:induction false} Pow2Add(j: nat, k: nat)
    ensures Pow2(j + k) == Pow2(j) * Pow2(k)
  {
    if k > 0 {
      Pow2Add(j, k - 1);
      assert Pow2(j + k) == 2 * Pow2(j + k - 1);
    }
  }

  /** The exponent of a power of two: `Math.log2` restricted to the inputs where it is exact. */
  function Log2(n: nat): (k: nat)
    requires IsPowerOfTwo(n)
    ensures Pow2(k) == n
    decreases n
  {
    if n == 1 then 0 else 1 + Log2(n / 2)
  }

  /** `Math.ceil(Math.log2(n))` for n >= 1: the least k with 2^k >= n. */
  function CeilLog2(n: nat): (k: nat)
    requires n >= 1
    ensures Pow2(k) >= n
    ensures k >= 1 ==> Pow2(k - 1) < n
    decreases n
  {
    if n == 1 then 0 else 1 + CeilLog2((n + 1) / 2)
  }

  /** totalSlots: the smallest power of two that is at least n. */
  function TotalSlots(n: nat): nat
    requires n >= 1
  {
    Pow2(CeilLog2(n))
  }

  /** TotalSlots is a power of two, is at least n, and no smaller power of two is. */
  lemma TotalSlotsIsLeastPowerOfTwo(n: nat, p: nat)
    requires n >= 1
    ensures IsPowerOfTwo(TotalSlots(n)) && TotalSlots(n) >= n
    ensures IsPowerOfTwo(p) && p >= n ==> TotalSlots(n) <= p
  {
    Pow2IsPowerOfTwo(CeilLog2(n));
    if IsPowerOfTwo(p) && p >= n {
      var j := Log2(p);
      var k := CeilLog2(n);
      if j < k {
        Pow2Monotone(j, k - 1);
      }
      Pow2Monotone(k, j);
    }
  }

  /** With at least two players, fewer than half the slots are byes: no match pairs two byes. */
  lemma {:induction false} ByesBelowHalf(n: nat)
    requires n >= 2
    ensures TotalSlots(n) >= 2 && TotalSlots(n) % 2 == 0
    ensures TotalSlots(n) / 2 < n <= TotalSlots(n)
    ensures TotalSlots(n) - n < TotalSlots(n) / 2
  {
    var k := CeilLog2(n);
    assert k >= 1;
    assert Pow2(k) == 2 * Pow2(k - 1);
  }

  /** `calculateRounds(playerCount)`: the number of rounds needed for playerCount players. */
  function CalculateRounds(playerCount: nat): nat
    requires playerCount >= 1
  {
    CeilLog2(playerCount)
  }

  /** The rounds of a bracket of TotalSlots(n) slots are exactly CalculateRounds(n): log2(totalSlots). */
  lemma RoundsMatchSlots(n: nat)
    requires n >= 1
    ensures IsPowerOfTwo(TotalSlots(n)) && Log2(TotalSlots(n)) == CalculateRounds(n)
  {
    Pow2IsPowerOfTwo(CeilLog2(n));
    Pow2Injective(Log2(TotalSlots(n)), CeilLog2(n));
  }

  lemma {:induction false} Pow2Injective(j: nat, k: nat)
    requires Pow2(j) == Pow2(k)
    ensures j == k
  {
    if j < k {
      Pow2Monotone(j + 1, k);
    } else if k < j {
      Pow2Monotone(k + 1, j);
    }
  }

  // ---------------------------------------------------------------------
  // Positions. A bracket with R rounds has 2^(R-r) matches in round r; the
  // matches are numbered 1, 2, ... round by round, so the match with
  // matchNumber k+1 sits at position k. Round r occupies the positions
  // RoundStart(R, r) .. RoundStart(R, r + 1) - 1.
  // ---------------------------------------------------------------------

  /** Number of matches in round r of an R-round bracket (`Math.pow(2, totalRounds - round)`). */
  function MatchesInRound(totalRounds: nat, round: nat): nat
    requires 1 <= round <= totalRounds
  {
    Pow2(totalRounds - round)
  }

  /** Position of the first match of round r (r may be R + 1: the end of the last round). */
  function RoundStart(totalRounds: nat, round: nat): nat
    requires 1 <= round <= totalRounds + 1
    decreases round
  {
    if round == 1 then 0 else RoundStart(totalRounds, round - 1) + Pow2(totalRounds - (round - 1))
  }

  /** Closed form: rounds 1 .. r-1 hold 2^R - 2^(R-r+1) matches, so the whole bracket holds 2^R - 1. */
  lemma {:induction false} RoundStartClosedForm(totalRounds: nat, round: nat)
    requires 1 <= round <= totalRounds + 1
    ensures RoundStart(totalRounds, round) + Pow2(totalRounds - round + 1) == Pow2(totalRounds)
    decreases round
  {
    if round > 1 {
      RoundStartClosedForm(totalRounds, round - 1);
      assert Pow2(totalRounds - (round - 1) + 1) == 2 * Pow2(totalRounds - round + 1);
    }
  }

  lemma TotalMatches(totalRounds: nat)
    ensures RoundStart(totalRounds, totalRounds + 1) == Pow2(totalRounds) - 1
  {
    RoundStartClosedForm(totalRounds, totalRounds + 1);
  }

  lemma {:induction false} RoundStartMonotone(totalRounds: nat, r1: nat, r2: nat)
    requires 1 <= r1 <= r2 <= totalRounds + 1
    ensures RoundStart(totalRounds, r1) <= RoundStart(totalRounds, r2)
    ensures r1 < r2 ==> RoundStart(totalRounds, r1) < RoundStart(totalRounds, r2)
    decreases r2
  {
    if r1 < r2 {
      RoundStartMonotone(totalRounds, r1, r2 - 1);
    }
  }

  /** Position k lies in round r. */
  predicate InRound(totalRounds: nat, k: nat, round: nat)
  {
    1 <= round <= totalRounds && RoundStart(totalRounds, round) <= k < RoundStart(totalRounds, round + 1)
  }

  /** Each position of the bracket lies in exactly one round. */
  lemma InRoundUnique(totalRounds: nat, k: nat, r1: nat, r2: nat)
    requires InRound(totalRounds, k, r1) && InRound(totalRounds, k, r2)
    ensures r1 == r2
  {
    if r1 < r2 {
      RoundStartMonotone(totalRounds, r1 + 1, r2);
    } else if r2 < r1 {
      RoundStartMonotone(totalRounds, r2 + 1, r1);
    }
  }

  /** The round that position k belongs to. */
  function RoundOf(totalRounds: nat, k: nat): (r: nat)
    requires k < Pow2(totalRounds) - 1
    ensures InRound(totalRounds, k, r)
  {
    TotalMatches(totalRounds);
    RoundFrom(totalRounds, k, 1)
  }

  function RoundFrom(totalRounds: nat, k: nat, round: nat): (r: nat)
    requires 1 <= round <= totalRounds
    requires RoundStart(totalRounds, round) <= k < RoundStart(totalRounds, totalRounds + 1)
    ensures round <= r && InRound(totalRounds, k, r)
    decreases totalRounds - round
  {
    if k < RoundStart(totalRounds, round + 1) then round else RoundFrom(totalRounds, k, round + 1)
  }

  /**
   * The position of the next-round match that position k feeds: the
   * i-th match of round r (counting from 0) feeds match i/2 of round r+1.
   */
  function ParentPosition(totalRounds: nat, round: nat, k: nat): nat
    requires round < totalRounds && InRound(totalRounds, k, round)
  {
    RoundStart(totalRounds, round + 1) + (k - RoundStart(totalRounds, round)) / 2
  }

  /** The parent of a round-r position is a round-(r+1) position. */
  lemma ParentInNextRound(totalRounds: nat, round: nat, k: nat)
    requires round < totalRounds && InRound(totalRounds, k, round)
    ensures InRound(totalRounds, ParentPosition(totalRounds, round, k), round + 1)
  {
    assert Pow2(totalRounds - round) == 2 * Pow2(totalRounds - (round + 1));
  }

  /**
   * Every match of round r+1 has exactly two predecessors in round r: the
   * positions 2j and 2j+1 of round r feed the position j of round r+1.
   */
  lemma TwoPredecessors(totalRounds: nat, round: nat, j: nat)
    requires 1 <= round < totalRounds && j < MatchesInRound(totalRounds, round + 1)
    ensures var first := RoundStart(totalRounds, round) + 2 * j;
      && InRound(totalRounds, first, round) && InRound(totalRounds, first + 1, round)
      && (set k | RoundStart(totalRounds, round) <= k < RoundStart(totalRounds, round + 1)
                  && ParentPosition(totalRounds, round, k) == RoundStart(totalRounds, round + 1) + j)
         == {first, first + 1}
  {
    assert Pow2(totalRounds - round) == 2 * Pow2(totalRounds - (round + 1));
    var first := RoundStart(totalRounds, round) + 2 * j;
    var s := set k | RoundStart(totalRounds, round) <= k < RoundStart(totalRounds, round + 1)
                  && ParentPosition(totalRounds, round, k) == RoundStart(totalRounds, round + 1) + j;
    forall k | k in s ensures k == first || k == first + 1 {
      assert (k - RoundStart(totalRounds, round)) / 2 == j;
    }
  }
}
