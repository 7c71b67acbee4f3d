/** A list of rows read as a book: at most one figure for each key, a key being
    a category and the date of a period. */
module Ledger {
  import opened Wrappers

  type Key = (int, int)

  /** What one row contributes: its key and its figure, or nothing. */
  type Part<!T> = T -> Option<(Key, int)>

  function Book<T>(rows: seq<T>, n: nat, part: Part<T>): map<Key, int>
    requires n <= |rows|
  {
    if n == 0 then map[]
    else
      var before := Book(rows, n - 1, part);
      match part(rows[n - 1])
      case None => before
      case Some((key, figure)) => before[key := figure]
  }

  ghost predicate SameKey<T>(a: T, b: T, part: Part<T>) {
    part(a).Some? && part(b).Some? && part(a).value.0 == part(b).value.0
  }

  /** No two rows speak for the same key. */
  ghost predicate Distinct<T>(rows: seq<T>, part: Part<T>) {
    forall i, j :: 0 <= i < j < |rows| ==> !SameKey(rows[i], rows[j], part)
  }

  lemma {:induction false} BookHas<T>(rows: seq<T>, n: nat, part: Part<T>, key: Key)
    requires n <= |rows|
    ensures key in Book(rows, n, part)
       <==> exists i :: 0 <= i < n && part(rows[i]).Some? && part(rows[i]).value.0 == key
  {
    if n > 0 {
      BookHas(rows, n - 1, part, key);
    }
  }

  lemma {:induction false} BookAt<T>(rows: seq<T>, n: nat, part: Part<T>, i: nat)
    requires Distinct(rows, part) && i < n <= |rows| && part(rows[i]).Some?
    ensures part(rows[i]).value.0 in Book(rows, n, part)
    ensures Book(rows, n, part)[part(rows[i]).value.0] == part(rows[i]).value.1
  {
    if i < n - 1 {
      BookAt(rows, n - 1, part, i);
      assert !SameKey(rows[i], rows[n - 1], part);
    }
  }

  /** Before its own row, a key is not in the book. */
  lemma NotYet<T>(rows: seq<T>, part: Part<T>, i: nat)
    requires Distinct(rows, part) && i < |rows| && part(rows[i]).Some?
    ensures part(rows[i]).value.0 !in Book(rows, i, part)
  {
    BookHas(rows, i, part, part(rows[i]).value.0);
    forall j | 0 <= j < i ensures !SameKey(rows[j], rows[i], part) {
    }
  }

  lemma {:induction false} SamePrefix<T>(one: seq<T>, two: seq<T>, n: nat, part: Part<T>)
    requires n <= |one| && n <= |two| && forall i :: 0 <= i < n ==> one[i] == two[i]
    ensures Book(one, n, part) == Book(two, n, part)
  {
    if n > 0 {
      SamePrefix(one, two, n - 1, part);
    }
  }

  /** Rewriting a row's figure rewrites the book at its key. */
  lemma {:induction false} Refigured<T>(rows: seq<T>, part: Part<T>, i: nat, row: T, n: nat)
    requires Distinct(rows, part) && i < n <= |rows|
    requires part(rows[i]).Some? && part(row).Some? && part(row).value.0 == part(rows[i]).value.0
    ensures Book(rows[i := row], n, part) == Book(rows, n, part)[part(row).value.0 := part(row).value.1]
  {
    if i == n - 1 {
      SamePrefix(rows, rows[i := row], i, part);
    } else {
      Refigured(rows, part, i, row, n - 1);
      assert !SameKey(rows[i], rows[n - 1], part);
    }
  }

  lemma RefiguredDistinct<T>(rows: seq<T>, part: Part<T>, i: nat, row: T)
    requires Distinct(rows, part) && i < |rows|
    requires part(row).Some? ==> part(rows[i]).Some? && part(row).value.0 == part(rows[i]).value.0
    ensures Distinct(rows[i := row], part)
  {
    var after := rows[i := row];
    forall j, k | 0 <= j < k < |after| ensures !SameKey(after[j], after[k], part) {
      assert !SameKey(rows[j], rows[k], part);
    }
  }

  /** A row that stops speaking for its key takes the key out of the book. */
  lemma {:induction false} Silenced<T>(rows: seq<T>, part: Part<T>, i: nat, row: T, n: nat)
    requires Distinct(rows, part) && i < n <= |rows| && part(rows[i]).Some? && part(row).None?
    ensures Book(rows[i := row], n, part) == Book(rows, n, part) - {part(rows[i]).value.0}
  {
    var key := part(rows[i]).value.0;
    if i == n - 1 {
      SamePrefix(rows, rows[i := row], i, part);
      NotYet(rows, part, i);
    } else {
      Silenced(rows, part, i, row, n - 1);
      assert !SameKey(rows[i], rows[n - 1], part);
    }
  }

  function Without<T>(rows: seq<T>, i: nat): seq<T>
    requires i < |rows|
  {
    rows[..i] + rows[i + 1..]
  }

  /** A row taken out of the list takes its key out of the book. */
  lemma {:induction false} Dropped<T>(rows: seq<T>, part: Part<T>, i: nat, n: nat)
    requires Distinct(rows, part) && i < n <= |rows| && part(rows[i]).Some?
    ensures Book(Without(rows, i), n - 1, part) == Book(rows, n, part) - {part(rows[i]).value.0}
  {
    if i == n - 1 {
      SamePrefix(rows, Without(rows, i), i, part);
      NotYet(rows, part, i);
    } else {
      Dropped(rows, part, i, n - 1);
      assert Without(rows, i)[n - 2] == rows[n - 1];
      assert !SameKey(rows[i], rows[n - 1], part);
    }
  }

  lemma DroppedDistinct<T>(rows: seq<T>, part: Part<T>, i: nat)
    requires Distinct(rows, part) && i < |rows|
    ensures Distinct(Without(rows, i), part)
  {
    var after := Without(rows, i);
    forall j, k | 0 <= j < k < |after| ensures !SameKey(after[j], after[k], part) {
      var j', k' := if j < i then j else j + 1, if k < i then k else k + 1;
      assert after[j] == rows[j'] && after[k] == rows[k'];
      assert !SameKey(rows[j'], rows[k'], part);
    }
  }

  lemma Appended<T>(rows: seq<T>, part: Part<T>, row: T)
    requires Distinct(rows, part) && part(row).Some? && part(row).value.0 !in Book(rows, |rows|, part)
    ensures Distinct(rows + [row], part)
    ensures Book(rows + [row], |rows| + 1, part) == Book(rows, |rows|, part)[part(row).value.0 := part(row).value.1]
  {
    var after := rows + [row];
    SamePrefix(rows, after, |rows|, part);
    BookHas(rows, |rows|, part, part(row).value.0);
    forall j, k | 0 <= j < k < |after| ensures !SameKey(after[j], after[k], part) {
      assert k < |rows| ==> !SameKey(rows[j], rows[k], part);
    }
  }

  // ------------------------------------------ distinct, one row at a time

  /** Each of the first n rows speaks for a key not yet in the book. */
  ghost predicate Fresh<T>(rows: seq<T>, n: nat, part: Part<T>)
    requires n <= |rows|
  {
    n == 0 || (Fresh(rows, n - 1, part) && NewHere(rows, n - 1, part))
  }

  ghost predicate NewHere<T>(rows: seq<T>, i: nat, part: Part<T>)
    requires i < |rows|
  {
    part(rows[i]).Some? ==> part(rows[i]).value.0 !in Book(rows, i, part)
  }

  lemma {:induction false} FreshAt<T>(rows: seq<T>, n: nat, part: Part<T>, i: nat)
    requires i < n <= |rows| && Fresh(rows, n, part)
    ensures NewHere(rows, i, part)
  {
    if i < n - 1 {
      FreshAt(rows, n - 1, part, i);
    }
  }

  lemma {:induction false} DistinctIsFreshTo<T>(rows: seq<T>, n: nat, part: Part<T>)
    requires n <= |rows| && Distinct(rows, part)
    ensures Fresh(rows, n, part)
  {
    if n > 0 {
      DistinctIsFreshTo(rows, n - 1, part);
      if part(rows[n - 1]).Some? {
        NotYet(rows, part, n - 1);
      }
    }
  }

  lemma DistinctIsFresh<T>(rows: seq<T>, part: Part<T>)
    ensures Distinct(rows, part) <==> Fresh(rows, |rows|, part)
  {
    if Distinct(rows, part) {
      DistinctIsFreshTo(rows, |rows|, part);
    }
    if Fresh(rows, |rows|, part) {
      forall i, j | 0 <= i < j < |rows| ensures !SameKey(rows[i], rows[j], part) {
        FreshAt(rows, |rows|, part, j);
        if part(rows[j]).Some? {
          BookHas(rows, j, part, part(rows[j]).value.0);
        }
      }
    }
  }

  lemma {:induction false} FreshSame<T>(one: seq<T>, two: seq<T>, n: nat, part: Part<T>)
    requires n <= |one| && n <= |two| && forall i :: 0 <= i < n ==> one[i] == two[i]
    ensures Fresh(one, n, part) <==> Fresh(two, n, part)
  {
    if n > 0 {
      FreshSame(one, two, n - 1, part);
      SamePrefix(one, two, n - 1, part);
    }
  }

  /** The rows of a list that speak for a key. */
  function Speaking<T>(rows: seq<T>, n: nat, part: Part<T>): seq<T>
    requires n <= |rows|
  {
    if n == 0 then [] else Speaking(rows, n - 1, part) + if part(rows[n - 1]).Some? then [rows[n - 1]] else []
  }

  /** They alone make the book, and they alone decide whether keys repeat. */
  lemma {:induction false} SpeakingDecide<T>(rows: seq<T>, n: nat, part: Part<T>)
    requires n <= |rows|
    ensures
      var heard := Speaking(rows, n, part);
      Book(heard, |heard|, part) == Book(rows, n, part) && (Fresh(heard, |heard|, part) <==> Fresh(rows, n, part))
  {
    if n > 0 {
      var before := Speaking(rows, n - 1, part);
      SpeakingDecide(rows, n - 1, part);
      if part(rows[n - 1]).Some? {
        SamePrefix(before, before + [rows[n - 1]], |before|, part);
        FreshSame(before, before + [rows[n - 1]], |before|, part);
      } else {
        assert before + [] == before;
      }
    }
  }

  lemma SameSpeaking<T>(one: seq<T>, two: seq<T>, part: Part<T>)
    requires Speaking(one, |one|, part) == Speaking(two, |two|, part)
    ensures Book(one, |one|, part) == Book(two, |two|, part)
    ensures Distinct(one, part) <==> Distinct(two, part)
  {
    SpeakingDecide(one, |one|, part);
    SpeakingDecide(two, |two|, part);
    DistinctIsFresh(one, part);
    DistinctIsFresh(two, part);
  }

  // --------------------------------------------------------- what is left

  /** The figures above nothing. */
  function Positive(book: map<Key, int>): map<Key, int> {
    map key | key in book && book[key] > 0 :: book[key]
  }

  lemma PositivePut(book: map<Key, int>, key: Key, figure: int)
    ensures Positive(book[key := figure])
         == if figure > 0 then Positive(book)[key := figure] else Positive(book) - {key}
  {
  }

  lemma PositiveDrop(book: map<Key, int>, key: Key)
    ensures Positive(book - {key}) == Positive(book) - {key}
  {
  }
}
