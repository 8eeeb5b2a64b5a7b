/**
 * Generic operations on a table held as a sequence of rows in insertion order,
 * with the primary key read off each row by a key function.
 */
module Rows {
  import opened Wrappers

  /** No two rows share a key: what a primary-key constraint guarantees. */
  predicate UniqueKeys<T>(rows: seq<T>, key: T -> string)
  {
    forall i, j :: 0 <= i < j < |rows| ==> key(rows[i]) != key(rows[j])
  }

  /** Some row has key `k` (the `exists:<table>,id` rule, a foreign key's target). */
  predicate HasKey<T(==,!new)>(rows: seq<T>, key: T -> string, k: string)
  {
    exists x :: x in rows && key(x) == k
  }

  /** Position of the first row with key `k` (`find`, `findOrFail`, `first()`). */
  function IndexOf<T(==,!new)>(rows: seq<T>, key: T -> string, k: string): (r: Option<nat>)
    ensures r.Some? ==> r.value < |rows| && key(rows[r.value]) == k
    ensures r.Some? ==> forall j :: 0 <= j < r.value ==> key(rows[j]) != k
    ensures r.None? <==> !HasKey(rows, key, k)
    decreases |rows|
  {
    if rows == [] then None
    else if key(rows[0]) == k then Some(0)
    else match IndexOf(rows[1..], key, k)
      case None => None
      case Some(i) => Some(i + 1)
  }

  /** `a` is `b` with some rows left out: the rows of `a` occur in `b` in the same order. */
  predicate Subsequence<T(==)>(a: seq<T>, b: seq<T>)
    decreases |b|
  {
    a == [] ||
    (b != [] && ((a[0] == b[0] && Subsequence(a[1..], b[1..])) || Subsequence(a, b[1..])))
  }

  /**
   * The rows that satisfy `keep` (a `DELETE ... WHERE not keep` leaves these): every copy
   * of a kept row stays, every copy of another row goes, and the order is kept.
   */
  function Where<T(==,!new)>(rows: seq<T>, keep: T -> bool): (r: seq<T>)
    ensures |r| <= |rows|
    ensures forall x :: x in r <==> x in rows && keep(x)
    ensures forall x :: multiset(r)[x] == if keep(x) then multiset(rows)[x] else 0
    ensures Subsequence(r, rows)
    decreases |rows|
  {
    if rows == [] then []
    else
      var rest := Where(rows[1..], keep);
      assert multiset(rows) == multiset([rows[0]]) + multiset(rows[1..]) by {
        assert rows == [rows[0]] + rows[1..];
      }
      if keep(rows[0]) then
        assert ([rows[0]] + rest)[1..] == rest;
        [rows[0]] + rest
      else rest
  }

  /** A selection is empty exactly when no row satisfies `keep`. */
  lemma {:induction false} WhereEmpty<T(!new)>(rows: seq<T>, keep: T -> bool)
    ensures Where(rows, keep) == [] <==> forall x :: x in rows ==> !keep(x)
    decreases |rows|
  {
    if rows != [] {
      WhereEmpty(rows[1..], keep);
      assert rows == [rows[0]] + rows[1..];
    }
  }

  /** The rows after the first of a table with unique keys have unique keys, none the first one's. */
  lemma UniqueTail<T>(rows: seq<T>, key: T -> string)
    requires rows != [] && UniqueKeys(rows, key)
    ensures UniqueKeys(rows[1..], key)
    ensures forall y :: y in rows[1..] ==> key(y) != key(rows[0])
  {
    var rest := rows[1..];
    forall i, j | 0 <= i < j < |rest| ensures key(rest[i]) != key(rest[j]) {
      assert rest[i] == rows[i + 1] && rest[j] == rows[j + 1];
    }
    forall y | y in rest ensures key(y) != key(rows[0]) {
      var j :| 0 <= j < |rest| && rest[j] == y;
      assert y == rows[j + 1];
    }
  }

  /** Putting a row in front of rows with unique keys, none its own, keeps keys unique. */
  lemma UniqueCons<T>(x: T, w: seq<T>, key: T -> string)
    requires UniqueKeys(w, key) && forall y :: y in w ==> key(y) != key(x)
    ensures UniqueKeys([x] + w, key)
  {
    var r := [x] + w;
    forall i, j | 0 <= i < j < |r| ensures key(r[i]) != key(r[j]) {
      assert r[j] == w[j - 1] && w[j - 1] in w;
      if i > 0 {
        assert r[i] == w[i - 1];
      }
    }
  }

  /** Deleting rows never breaks key uniqueness. */
  lemma {:induction false} WhereKeepsUnique<T(!new)>(rows: seq<T>, keep: T -> bool, key: T -> string)
    requires UniqueKeys(rows, key)
    ensures UniqueKeys(Where(rows, keep), key)
    decreases |rows|
  {
    if rows != [] {
      UniqueTail(rows, key);
      WhereKeepsUnique(rows[1..], keep, key);
      if keep(rows[0]) {
        UniqueCons(rows[0], Where(rows[1..], keep), key);
      }
    }
  }

  /** Appending a row whose key is new keeps keys unique. */
  lemma AppendKeepsUnique<T(!new)>(rows: seq<T>, x: T, key: T -> string)
    requires UniqueKeys(rows, key) && !HasKey(rows, key, key(x))
    ensures UniqueKeys(rows + [x], key)
  {
    var r := rows + [x];
    forall i, j | 0 <= i < j < |r| ensures key(r[i]) != key(r[j]) {
      if j == |rows| {
        assert r[i] in rows;
      } else {
        assert r[i] == rows[i] && r[j] == rows[j];
      }
    }
  }

  /** Overwriting the row at `i` with one of the same key keeps keys unique and the key set unchanged. */
  lemma ReplaceKeepsKeys<T(!new)>(rows: seq<T>, i: nat, x: T, key: T -> string)
    requires i < |rows| && key(x) == key(rows[i])
    ensures UniqueKeys(rows, key) ==> UniqueKeys(rows[i := x], key)
    ensures forall k :: HasKey(rows[i := x], key, k) <==> HasKey(rows, key, k)
  {
    var r := rows[i := x];
    forall k | HasKey(r, key, k) ensures HasKey(rows, key, k) {
      var y :| y in r && key(y) == k;
      var j :| 0 <= j < |r| && r[j] == y;
      if j == i {
        assert rows[i] in rows;
      } else {
        assert rows[j] in rows;
      }
    }
    forall k | HasKey(rows, key, k) ensures HasKey(r, key, k) {
      var y :| y in rows && key(y) == k;
      var j :| 0 <= j < |rows| && rows[j] == y;
      if j == i {
        assert r[i] in r;
      } else {
        assert r[j] in r;
      }
    }
  }

  /** A key survives a deletion that keeps every row carrying it. */
  lemma HasKeyAfterWhere<T(!new)>(rows: seq<T>, keep: T -> bool, key: T -> string, k: string)
    requires HasKey(rows, key, k)
    requires forall x :: x in rows && key(x) == k ==> keep(x)
    ensures HasKey(Where(rows, keep), key, k)
  {
    var x :| x in rows && key(x) == k;
    assert x in Where(rows, keep);
  }
}
