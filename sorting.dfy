/**
 * The tournament list sorting of the client: the sort state and its
 * toggle (`updateSort`), the comparator over the five sort keys, and the
 * sort that returns a sorted copy of the list.
 */
module Sorting {
  import opened Wrappers

  datatype SortField = Title | StartDate | MaxPlayers | SpotsLeft | RegistrationDeadline | Unknown
  datatype SortDirection = Asc | Desc
  datatype SortState = SortState(field: SortField, direction: SortDirection)

  /**
   * The fields of a listed tournament the comparator reads; a missing
   * field is None. Dates are milliseconds; `participants` is the length of
   * the participant list.
   */
  datatype Listing = Listing(
    title: Option<string>,
    startDate: Option<int>,
    maxPlayers: Option<int>,
    participants: Option<nat>,
    registrationDeadline: Option<int>)

  /** The initial state of the hook: by start date, ascending. */
  const Initial: SortState := SortState(StartDate, Asc)

  /**
   * `updateSort`: selecting the field already sorted ascending turns the
   * order to descending; anything else sorts ascending by the selected field.
   */
  function UpdateSort(prev: SortState, field: SortField): (next: SortState)
    ensures next.field == field
    ensures next.direction == Desc <==> prev.field == field && prev.direction == Asc
  {
    SortState(field, if prev.field == field && prev.direction == Asc then Desc else Asc)
  }

  /** Selecting the same field repeatedly alternates the direction, starting from ascending on a new field. */
  lemma UpdateSortToggles(s: SortState, field: SortField)
    ensures s.field != field ==> UpdateSort(s, field).direction == Asc
    ensures UpdateSort(UpdateSort(s, field), field).direction != UpdateSort(s, field).direction
    ensures UpdateSort(UpdateSort(UpdateSort(s, field), field), field) == UpdateSort(s, field)
  {
  }

  // ---------------------------------------------------------------------
  // Keys
  // ---------------------------------------------------------------------

  /** `String.prototype.toLowerCase` on ASCII letters; every other character is kept. */
  function LowerAscii(s: string): (l: string)
    ensures |l| == |s|
    ensures forall i :: 0 <= i < |s| ==> l[i] == (if 'A' <= s[i] <= 'Z' then (s[i] as int + 32) as char else s[i])
  {
    if s == [] then []
    else [if 'A' <= s[0] <= 'Z' then (s[0] as int + 32) as char else s[0]] + LowerAscii(s[1..])
  }

  /** A sort key: the lower-cased title, or a number. */
  datatype Key = Text(text: string) | Number(n: int)

  /** `x || 0` on a number that may be missing. */
  function OrZero(x: Option<int>): int
  {
    if x.Some? then x.value else 0
  }

  /** The key of a listing under a field; an unknown field has none. */
  function KeyOf(field: SortField, t: Listing): (k: Option<Key>)
    ensures field == Unknown <==> k.None?
    ensures field == Title ==> k.Some? && k.value.Text?
    ensures field != Title && field != Unknown ==> k.Some? && k.value.Number?
  {
    match field
    case Title => Some(Text(if t.title.Some? then LowerAscii(t.title.value) else ""))
    case StartDate => Some(Number(OrZero(t.startDate)))
    case MaxPlayers => Some(Number(OrZero(t.maxPlayers)))
    case SpotsLeft => Some(Number(OrZero(t.maxPlayers) - (if t.participants.Some? then t.participants.value else 0)))
    case RegistrationDeadline => Some(Number(OrZero(t.registrationDeadline)))
    case Unknown => None
  }

  /**
   * The order `<` of strings, character by character (a character here is a
   * Unicode code point), a proper prefix first.
   */
  predicate TextLess(a: string, b: string)
  {
    if a == [] then b != []
    else if b == [] then false
    else a[0] < b[0] || (a[0] == b[0] && TextLess(a[1..], b[1..]))
  }

  lemma {:induction false} TextLessIrreflexive(a: string)
    ensures !TextLess(a, a)
  {
    if a != [] {
      TextLessIrreflexive(a[1..]);
    }
  }

  lemma {:induction false} TextLessTransitive(a: string, b: string, c: string)
    requires TextLess(a, b) && TextLess(b, c)
    ensures TextLess(a, c)
  {
    if a != [] && b != [] && c != [] && a[0] == b[0] && b[0] == c[0] {
      TextLessTransitive(a[1..], b[1..], c[1..]);
    }
  }

  lemma {:induction false} TextLessTotal(a: string, b: string)
    ensures TextLess(a, b) || a == b || TextLess(b, a)
  {
    if a != [] && b != [] && a[0] == b[0] {
      TextLessTotal(a[1..], b[1..]);
      if a[1..] == b[1..] {
        assert a == [a[0]] + a[1..] && b == [b[0]] + b[1..];
      }
    }
  }

  /** `aValue < bValue` on two keys of the same field. */
  predicate KeyLess(a: Key, b: Key)
  {
    match (a, b)
    case (Text(x), Text(y)) => TextLess(x, y)
    case (Number(x), Number(y)) => x < y
    case _ => false
  }

  /** On the keys of one field, `<` is a strict total order. */
  lemma KeyLessOrder(a: Key, b: Key, c: Key)
    requires a.Text? == b.Text? && b.Text? == c.Text?
    ensures !KeyLess(a, a)
    ensures KeyLess(a, b) && KeyLess(b, c) ==> KeyLess(a, c)
    ensures KeyLess(a, b) || a == b || KeyLess(b, a)
  {
    if a.Text? {
      TextLessIrreflexive(a.text);
      TextLessTotal(a.text, b.text);
      if KeyLess(a, b) && KeyLess(b, c) {
        TextLessTransitive(a.text, b.text, c.text);
      }
    }
  }

  // ---------------------------------------------------------------------
  // The comparator and the sort
  // ---------------------------------------------------------------------

  /** The comparator `sortTournaments` hands to `Array.prototype.sort`. */
  function Compare(s: SortState, a: Listing, b: Listing): (r: int)
    ensures r == -1 || r == 0 || r == 1
    ensures s.field == Unknown ==> r == 0
  {
    var ka := KeyOf(s.field, a);
    var kb := KeyOf(s.field, b);
    if ka.None? || kb.None? then 0
    else if KeyLess(ka.value, kb.value) then (if s.direction == Asc then -1 else 1)
    else if KeyLess(kb.value, ka.value) then (if s.direction == Asc then 1 else -1)
    else 0
  }

  /** The descending comparator is the ascending one negated. */
  lemma DescendingNegatesAscending(field: SortField, a: Listing, b: Listing)
    ensures Compare(SortState(field, Desc), a, b) == -Compare(SortState(field, Asc), a, b)
  {
  }

  /** The comparator is antisymmetric, and ascending it puts the smaller key first. */
  lemma CompareAntisymmetric(s: SortState, a: Listing, b: Listing)
    ensures Compare(s, a, b) == -Compare(s, b, a)
    ensures s.field != Unknown && s.direction == Asc ==>
              (Compare(s, a, b) < 0 <==> KeyLess(KeyOf(s.field, a).value, KeyOf(s.field, b).value))
  {
    if s.field != Unknown {
      var ka, kb := KeyOf(s.field, a).value, KeyOf(s.field, b).value;
      KeyLessOrder(ka, kb, ka);
    }
  }

  /** "Not after" under the comparator is transitive: the comparator is a consistent total preorder. */
  lemma CompareTransitive(s: SortState, a: Listing, b: Listing, c: Listing)
    requires Compare(s, a, b) <= 0 && Compare(s, b, c) <= 0
    ensures Compare(s, a, c) <= 0
  {
    if s.field != Unknown {
      var ka, kb, kc := KeyOf(s.field, a).value, KeyOf(s.field, b).value, KeyOf(s.field, c).value;
      KeyLessOrder(ka, kb, kc);
      KeyLessOrder(kc, kb, ka);
      KeyLessOrder(ka, kc, kb);
      KeyLessOrder(kb, ka, kc);
      KeyLessOrder(kc, ka, kb);
    }
  }

  /** The list is in the comparator's order: no listing compares after a later one. */
  predicate Sorted(s: SortState, ts: seq<Listing>)
  {
    forall i, j :: 0 <= i < j < |ts| ==> Compare(s, ts[i], ts[j]) <= 0
  }

  /** Inserts a listing before the first listing it does not come after. */
  function Insert(s: SortState, x: Listing, ts: seq<Listing>): (r: seq<Listing>)
    ensures multiset(r) == multiset(ts) + multiset{x}
  {
    if ts == [] then [x]
    else if Compare(s, x, ts[0]) <= 0 then [x] + ts
    else
      assert ts == [ts[0]] + ts[1..];
      [ts[0]] + Insert(s, x, ts[1..])
  }

  /** A listing that comes after no element of a sorted list heads a sorted list. */
  lemma SortedCons(s: SortState, h: Listing, ts: seq<Listing>)
    requires Sorted(s, ts)
    requires forall y :: y in ts ==> Compare(s, h, y) <= 0
    ensures Sorted(s, [h] + ts)
  {
    var r := [h] + ts;
    forall i, j | 0 <= i < j < |r| ensures Compare(s, r[i], r[j]) <= 0 {
      assert r[j] == ts[j - 1];
      if i > 0 {
        assert r[i] == ts[i - 1];
      }
    }
  }

  /** Insertion keeps a sorted list sorted. */
  lemma {:induction false} InsertSorted(s: SortState, x: Listing, ts: seq<Listing>)
    requires Sorted(s, ts)
    ensures Sorted(s, Insert(s, x, ts))
  {
    if ts == [] {
    } else if Compare(s, x, ts[0]) <= 0 {
      forall y | y in ts ensures Compare(s, x, y) <= 0 {
        if y != ts[0] {
          CompareTransitive(s, x, ts[0], y);
        }
      }
      SortedCons(s, x, ts);
    } else {
      var tail := ts[1..];
      assert Sorted(s, tail) by {
        forall i, j | 0 <= i < j < |tail| ensures Compare(s, tail[i], tail[j]) <= 0 {
          assert tail[i] == ts[i + 1] && tail[j] == ts[j + 1];
        }
      }
      InsertSorted(s, x, tail);
      var rest := Insert(s, x, tail);
      CompareAntisymmetric(s, x, ts[0]);
      forall y | y in rest ensures Compare(s, ts[0], y) <= 0 {
        assert y in multiset(rest);
        if y != x {
          var k :| 0 <= k < |tail| && tail[k] == y;
          assert ts[k + 1] == y;
        }
      }
      SortedCons(s, ts[0], rest);
    }
  }

  /**
   * `sortTournaments`: a sorted copy of the list. The input is a value and
   * is left as it was; the result holds the same listings, each as often.
   */
  function SortTournaments(s: SortState, ts: seq<Listing>): (r: seq<Listing>)
    ensures multiset(r) == multiset(ts)
    ensures Sorted(s, r)
  {
    if ts == [] then []
    else
      assert ts == [ts[0]] + ts[1..];
      var rest := SortTournaments(s, ts[1..]);
      InsertSorted(s, ts[0], rest);
      Insert(s, ts[0], rest)
  }

  /** Sorting a sorted list in the other direction reverses the comparator's verdict on every pair. */
  lemma SortedBothWaysMeansTies(field: SortField, ts: seq<Listing>)
    requires Sorted(SortState(field, Asc), ts) && Sorted(SortState(field, Desc), ts)
    ensures forall i, j :: 0 <= i < j < |ts| ==> Compare(SortState(field, Asc), ts[i], ts[j]) == 0
  {
    forall i, j | 0 <= i < j < |ts| ensures Compare(SortState(field, Asc), ts[i], ts[j]) == 0 {
      DescendingNegatesAscending(field, ts[i], ts[j]);
    }
  }
}
