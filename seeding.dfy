/**
 * Seeding of the bracket builder: the standard seed order, the round-one
 * matchups read off it, the shuffle that assigns seeds, and the lookup of
 * the player holding a seed.
 */
module Seeding {
  import opened Wrappers
  import opened BracketMath

  // ---------------------------------------------------------------------
  // The standard seed order
  // ---------------------------------------------------------------------

  /** One doubling step of `buildSeeds`: each earlier seed s is followed by its partner n + 1 - s. */
  function Interleave(prev: seq<int>, n: nat): (r: seq<int>)
    ensures |r| == 2 * |prev|
  {
    seq(2 * |prev|, j requires 0 <= j < 2 * |prev| => if j % 2 == 0 then prev[j / 2] else n + 1 - prev[j / 2])
  }

  /** The seed order for n slots, n a power of two: [1] for one slot, else the interleaving of the order for n/2. */
  function SeedOrder(n: nat): seq<int>
    requires IsPowerOfTwo(n)
    decreases n
  {
    if n == 1 then [1] else Interleave(SeedOrder(n / 2), n)
  }

  /** s lists each of 1..n exactly once. */
  predicate IsPermutationOfSeeds(s: seq<int>, n: nat)
  {
    && |s| == n
    && (forall i :: 0 <= i < |s| ==> 1 <= s[i] <= n)
    && (forall i, j :: 0 <= i < j < |s| ==> s[i] != s[j])
    && (forall v :: 1 <= v <= n ==> v in s)
  }

  /** The seed order for n slots has n entries, each a seed in 1..n. */
  lemma {:induction false} SeedOrderBounds(n: nat)
    requires IsPowerOfTwo(n)
    ensures |SeedOrder(n)| == n
    ensures forall i :: 0 <= i < n ==> 1 <= SeedOrder(n)[i] <= n
    decreases n
  {
    if n > 1 {
      var h := n / 2;
      SeedOrderBounds(h);
      var prev := SeedOrder(h);
      forall i | 0 <= i < n ensures 1 <= SeedOrder(n)[i] <= n {
        assert 1 <= prev[i / 2] <= h;
      }
    }
  }

  /** No seed occurs twice in the seed order. */
  lemma {:induction false} SeedOrderDistinct(n: nat)
    requires IsPowerOfTwo(n)
    ensures forall i, j :: 0 <= i < j < |SeedOrder(n)| ==> SeedOrder(n)[i] != SeedOrder(n)[j]
    decreases n
  {
    if n > 1 {
      var h := n / 2;
      SeedOrderDistinct(h);
      SeedOrderBounds(h);
      var prev := SeedOrder(h);
      var s := SeedOrder(n);
      forall i, j | 0 <= i < j < |s| ensures s[i] != s[j] {
        assert 1 <= prev[i / 2] <= h && 1 <= prev[j / 2] <= h;
        if i / 2 == j / 2 {
          assert i % 2 == 0 && j % 2 == 1;
        } else {
          assert prev[i / 2] != prev[j / 2];
        }
      }
    }
  }

  /** Every seed in 1..n occurs in the seed order. */
  lemma {:induction false} SeedOrderCovers(n: nat)
    requires IsPowerOfTwo(n)
    ensures forall v :: 1 <= v <= n ==> v in SeedOrder(n)
    decreases n
  {
    if n > 1 {
      var h := n / 2;
      SeedOrderCovers(h);
      var prev := SeedOrder(h);
      var s := SeedOrder(n);
      forall v | 1 <= v <= n ensures v in s {
        if v <= h {
          assert v in prev;
          var k :| 0 <= k < |prev| && prev[k] == v;
          assert s[2 * k] == v;
        } else {
          assert n + 1 - v in prev;
          var k :| 0 <= k < |prev| && prev[k] == n + 1 - v;
          assert s[2 * k + 1] == v;
        }
      }
    }
  }

  /** The seed order for n slots is a permutation of the seeds 1..n. */
  lemma SeedOrderIsPermutation(n: nat)
    requires IsPowerOfTwo(n)
    ensures IsPermutationOfSeeds(SeedOrder(n), n)
  {
    SeedOrderBounds(n);
    SeedOrderDistinct(n);
    SeedOrderCovers(n);
  }

  /**
   * The pairs of the seed order: the seeds at positions 2i and 2i+1 add up
   * to n + 1, and the first of them is a top-half seed (at most n/2).
   */
  lemma SeedOrderPairs(n: nat)
    requires IsPowerOfTwo(n) && n >= 2
    ensures |SeedOrder(n)| == n == 2 * (n / 2)
    ensures forall i :: 0 <= i < n / 2 ==> SeedOrder(n)[2 * i] + SeedOrder(n)[2 * i + 1] == n + 1
    ensures forall i :: 0 <= i < n / 2 ==> 1 <= SeedOrder(n)[2 * i] <= n / 2
  {
    SeedOrderBounds(n);
    SeedOrderBounds(n / 2);
    var prev := SeedOrder(n / 2);
    forall i | 0 <= i < n / 2
      ensures SeedOrder(n)[2 * i] + SeedOrder(n)[2 * i + 1] == n + 1 && 1 <= SeedOrder(n)[2 * i] <= n / 2
    {
      assert (2 * i) / 2 == i && (2 * i + 1) / 2 == i && (2 * i) % 2 == 0 && (2 * i + 1) % 2 == 1;
      assert 1 <= prev[i] <= n / 2;
    }
  }

  /**
   * `buildSeeds(n)`: recursion on n/2, then a loop that pushes each earlier
   * seed and its partner. Only reached with a power of two.
   */
  method BuildSeeds(n: nat) returns (result: seq<int>)
    requires IsPowerOfTwo(n)
    ensures result == SeedOrder(n)
    decreases n
  {
    if n == 1 {
      return [1];
    }
    var prev := BuildSeeds(n / 2);
    result := [];
    var i := 0;
    while i < |prev|
      invariant 0 <= i <= |prev| && |result| == 2 * i
      invariant forall j :: 0 <= j < 2 * i ==> result[j] == Interleave(prev, n)[j]
    {
      result := result + [prev[i], n + 1 - prev[i]];
      i := i + 1;
    }
    assert result == Interleave(prev, n);
  }

  datatype SeedingError = NotPowerOfTwo

  /**
   * `generateSeedOrder(totalSlots)`: rejects any slot count that is not a
   * power of two, otherwise returns the standard seed order, a
   * permutation of 1..totalSlots.
   */
  method GenerateSeedOrder(totalSlots: nat) returns (r: Result<seq<int>, SeedingError>)
    ensures r.Success? <==> IsPowerOfTwo(totalSlots)
    ensures r.Success? ==> r.value == SeedOrder(totalSlots) && IsPermutationOfSeeds(r.value, totalSlots)
  {
    if !IsPowerOfTwo(totalSlots) {
      return Failure(NotPowerOfTwo);
    }
    var order := BuildSeeds(totalSlots);
    SeedOrderIsPermutation(totalSlots);
    return Success(order);
  }

  // ---------------------------------------------------------------------
  // Matchups
  // ---------------------------------------------------------------------

  /** A round-one pairing of two seeds; the second is absent when the order has odd length. */
  datatype Matchup = Matchup(seed1: int, seed2: Option<int>)

  /** The pairs (order[2i], order[2i+1]) of a seed order. */
  function Matchups(order: seq<int>): (r: seq<Matchup>)
    ensures |r| == (|order| + 1) / 2
    ensures forall i :: 0 <= i < |r| ==> r[i].seed1 == order[2 * i]
    ensures forall i :: 0 <= i < |r| ==> r[i].seed2 == if 2 * i + 1 < |order| then Some(order[2 * i + 1]) else None
  {
    seq((|order| + 1) / 2, i requires 0 <= i < (|order| + 1) / 2 =>
      Matchup(order[2 * i], if 2 * i + 1 < |order| then Some(order[2 * i + 1]) else None))
  }

  /**
   * The n/2 matchups of n slots each pair a top-half seed s (1 <= s <= n/2)
   * with its partner n + 1 - s.
   */
  predicate PairsTopSeedWithPartner(matchups: seq<Matchup>, n: nat)
  {
    && |matchups| == n / 2
    && forall i :: 0 <= i < |matchups| ==>
         && matchups[i].seed2.Some?
         && matchups[i].seed1 + matchups[i].seed2.value == n + 1
         && 1 <= matchups[i].seed1 <= n / 2
  }

  lemma MatchupsOfSeedOrder(n: nat)
    requires IsPowerOfTwo(n) && n >= 2
    ensures PairsTopSeedWithPartner(Matchups(SeedOrder(n)), n)
  {
    SeedOrderPairs(n);
    var m := Matchups(SeedOrder(n));
    assert |m| == n / 2;
  }

  /**
   * `generateCorrectBracketMatchups(totalSlots)`: the seed order split into
   * consecutive pairs; fails exactly when the seed order does.
   */
  method GenerateCorrectBracketMatchups(totalSlots: nat) returns (r: Result<seq<Matchup>, SeedingError>)
    ensures r.Success? <==> IsPowerOfTwo(totalSlots)
    ensures r.Success? ==> r.value == Matchups(SeedOrder(totalSlots))
    ensures r.Success? && totalSlots >= 2 ==> PairsTopSeedWithPartner(r.value, totalSlots)
  {
    var orderResult := GenerateSeedOrder(totalSlots);
    if orderResult.Failure? {
      return Failure(orderResult.error);
    }
    var seedOrder := orderResult.value;
    var matchups: seq<Matchup> := [];
    var i := 0;
    while i < |seedOrder|
      invariant i == 2 * |matchups| && i <= |seedOrder| + 1
      invariant forall k :: 0 <= k < |matchups| ==>
                  matchups[k] == Matchup(seedOrder[2 * k], if 2 * k + 1 < |seedOrder| then Some(seedOrder[2 * k + 1]) else None)
      decreases |seedOrder| - i
    {
      var second := if i + 1 < |seedOrder| then Some(seedOrder[i + 1]) else None;
      matchups := matchups + [Matchup(seedOrder[i], second)];
      i := i + 2;
    }
    assert matchups == Matchups(seedOrder);
    r := Success(matchups);
    if totalSlots >= 2 {
      MatchupsOfSeedOrder(totalSlots);
    }
  }

  // ---------------------------------------------------------------------
  // Seeds of players
  // ---------------------------------------------------------------------

  /** `seededPlayers.find(p => p.seed === seed)`, where the player at index i holds seed i + 1. */
  function PlayerWithSeed<T>(seeded: seq<T>, seed: int): (r: Option<T>)
    ensures r.Some? <==> 1 <= seed <= |seeded|
    ensures r.Some? ==> r.value == seeded[seed - 1]
  {
    if 1 <= seed <= |seeded| then Some(seeded[seed - 1]) else None
  }

  /** No element occurs twice. */
  predicate Distinct<T(==)>(s: seq<T>)
  {
    forall i, j :: 0 <= i < j < |s| ==> s[i] != s[j]
  }

  lemma {:induction false} DistinctCountsOnce<T>(s: seq<T>, x: T)
    requires Distinct(s)
    ensures multiset(s)[x] <= 1
  {
    if s != [] {
      assert s == [s[0]] + s[1..];
      assert Distinct(s[1..]) by {
        forall i, j | 0 <= i < j < |s[1..]| ensures s[1..][i] != s[1..][j] {
          assert s[1..][i] == s[i + 1] && s[1..][j] == s[j + 1];
        }
      }
      DistinctCountsOnce(s[1..], x);
      if x == s[0] {
        assert x !in s[1..] by {
          forall i | 0 <= i < |s[1..]| ensures s[1..][i] != x {
            assert s[1..][i] == s[i + 1];
          }
        }
      }
    }
  }

  /** A permutation of a list without repetitions has no repetitions and the same elements. */
  lemma PermutationKeepsDistinct<T>(a: seq<T>, b: seq<T>)
    requires multiset(a) == multiset(b) && Distinct(a)
    ensures Distinct(b)
    ensures forall x :: x in a <==> x in b
  {
    forall x ensures x in a <==> x in b {
      assert x in a <==> x in multiset(a);
      assert x in b <==> x in multiset(b);
    }
    forall i, j | 0 <= i < j < |b| ensures b[i] != b[j] {
      if b[i] == b[j] {
        assert b == b[..j] + b[j..];
        assert b[i] in b[..j] && b[j] in b[j..];
        assert multiset(b)[b[i]] == multiset(b[..j])[b[i]] + multiset(b[j..])[b[i]];
        DistinctCountsOnce(a, b[i]);
        assert false;
      }
    }
  }

  /**
   * `shuffleArray(array)`: copies the input and applies the Fisher-Yates
   * swaps, each j chosen freely in 0..i; the result is a permutation of
   * the input, which itself is left as it was.
   */
  method ShuffleArray<T>(input: seq<T>) returns (shuffled: seq<T>)
    ensures |shuffled| == |input|
    ensures multiset(shuffled) == multiset(input)
  {
    var a := new T[|input|](k requires 0 <= k < |input| => input[k]);
    assert a[..] == input;
    var i := a.Length - 1;
    while i > 0
      invariant -1 <= i < a.Length
      invariant multiset(a[..]) == multiset(input)
      decreases i
    {
      var j :| 0 <= j <= i;
      a[i], a[j] := a[j], a[i];
      i := i - 1;
    }
    shuffled := a[..];
  }
}
