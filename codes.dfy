/**
 * The tournament code generator: random codes over the 36 characters
 * A-Z and 0-9, and the retry loop that looks for a code no tournament
 * has, falling back once to longer codes. `Math.random` is the
 * nondeterministic choice of an index.
 */
module Codes {
  import opened Wrappers
  import opened Entities
  import opened Store
  import Registration

  /** The number of characters in 'ABCDEFGHIJKLMNOPQRSTUVWXYZ0123456789'. */
  const AlphabetSize: nat := 36

  /** `characters.charAt(k)`: the letters A-Z at 0-25, then the digits 0-9. */
  function CharAt(k: nat): (c: char)
    requires k < AlphabetSize
    ensures InAlphabet(c)
  {
    if k < 26 then ('A' as int + k) as char else ('0' as int + (k - 26)) as char
  }

  predicate InAlphabet(c: char)
  {
    'A' <= c <= 'Z' || '0' <= c <= '9'
  }

  /** The 36 positions hold 36 different characters, and together they are the whole alphabet. */
  lemma CharAtIsOneToOne(i: nat, j: nat, c: char)
    requires i < AlphabetSize && j < AlphabetSize
    ensures CharAt(i) == CharAt(j) ==> i == j
    ensures InAlphabet(c) ==> exists k :: 0 <= k < AlphabetSize && CharAt(k) == c
  {
    if InAlphabet(c) {
      var k := if 'A' <= c <= 'Z' then c as int - 'A' as int else c as int - '0' as int + 26;
      assert CharAt(k) == c;
    }
  }

  /**
   * `generateRandomCode(length)`: `length` characters, each drawn from the
   * alphabet.
   */
  method GenerateRandomCode(length: nat) returns (code: string)
    ensures |code| == length
    ensures forall i :: 0 <= i < |code| ==> InAlphabet(code[i])
  {
    code := "";
    var i := 0;
    while i < length
      invariant 0 <= i <= length && |code| == i
      invariant forall j :: 0 <= j < |code| ==> InAlphabet(code[j])
    {
      var k :| 0 <= k < AlphabetSize;
      code := code + [CharAt(k)];
      i := i + 1;
    }
  }

  /** A generated code needs no upper-casing, so the join by code finds it however it is typed. */
  lemma GeneratedCodeIsUpperCase(code: string)
    requires forall i :: 0 <= i < |code| ==> InAlphabet(code[i])
    ensures Registration.UpperAscii(code) == code
  {
    Registration.UpperAsciiFixes(code);
  }

  /** Some tournament already has the code. */
  ghost predicate Taken(db: Store, code: string)
    reads db
  {
    exists id :: id in db.tournaments && db.tournaments[id].code == Some(code)
  }

  /** The most lookups one call may make: its own attempts, and the fallback's five when it has one. */
  function MaxLookups(maxAttempts: int): nat
  {
    (if maxAttempts > 0 then maxAttempts else 0) + (if maxAttempts == 10 then 5 else 0)
  }

  /**
   * `generateUniqueTournamentCode(length, maxAttempts)`: up to
   * `maxAttempts` random codes are looked up and the first free one is
   * returned; when all are taken and `maxAttempts` is 10, the search runs
   * once more with codes one character longer and five attempts; otherwise
   * it fails. `lookups` counts the store lookups.
   */
  method GenerateUniqueTournamentCode(db: Store, length: nat, maxAttempts: int)
    returns (r: Result<string, Error>, ghost lookups: nat)
    ensures r.Success? ==> !Taken(db, r.value) && forall i :: 0 <= i < |r.value| ==> InAlphabet(r.value[i])
    ensures r.Success? ==> |r.value| == length || (maxAttempts == 10 && |r.value| == length + 1)
    ensures r.Failure? ==> r.error == CodeGenerationFailed && lookups == MaxLookups(maxAttempts)
    ensures lookups <= MaxLookups(maxAttempts)
    decreases if maxAttempts == 10 then 1 else 0
  {
    lookups := 0;
    var attempt := 1;
    while attempt <= maxAttempts
      invariant 1 <= attempt <= (if maxAttempts >= 1 then maxAttempts + 1 else 1)
      invariant lookups == attempt - 1
    {
      var code := GenerateRandomCode(length);
      lookups := lookups + 1;
      var existing := exists id :: id in db.tournaments && db.tournaments[id].code == Some(code);
      if !existing {
        return Success(code), lookups;
      }
      attempt := attempt + 1;
    }
    if maxAttempts == 10 {
      ghost var more: nat;
      r, more := GenerateUniqueTournamentCode(db, length + 1, 5);
      lookups := lookups + more;
      return;
    }
    r := Failure(CodeGenerationFailed);
  }

  /** With the default arguments: six characters, or seven after ten collisions, and at most fifteen lookups. */
  method GenerateDefaultCode(db: Store) returns (r: Result<string, Error>, ghost lookups: nat)
    ensures r.Success? ==> !Taken(db, r.value) && (|r.value| == 6 || |r.value| == 7)
    ensures r.Failure? ==> lookups == 15
    ensures lookups <= 15
  {
    r, lookups := GenerateUniqueTournamentCode(db, 6, 10);
  }
}
