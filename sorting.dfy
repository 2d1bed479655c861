/** Ordering of query results by an integer column (`ORDER BY id`,
    `ORDER BY created_at ASC`), as an insertion sort over a sequence. */
module Sorting {

  ghost predicate SortedBy<T>(s: seq<T>, key: T -> int)
  {
    forall i, j :: 0 <= i < j < |s| ==> key(s[i]) <= key(s[j])
  }

  ghost predicate StrictlySortedBy<T>(s: seq<T>, key: T -> int)
  {
    forall i, j :: 0 <= i < j < |s| ==> key(s[i]) < key(s[j])
  }

  /** No two entries share a key (a primary-key column). */
  ghost predicate KeysDistinct<T>(s: seq<T>, key: T -> int)
  {
    forall i, j :: 0 <= i < j < |s| ==> key(s[i]) != key(s[j])
  }

  function InsertBy<T(==,!new)>(x: T, s: seq<T>, key: T -> int): (r: seq<T>)
    ensures multiset(r) == multiset(s) + multiset{x}
    ensures |r| == |s| + 1
    ensures forall y :: y in r <==> y == x || y in s
  {
    if s == [] then [x]
    else if key(x) <= key(s[0]) then [x] + s
    else
      assert s == [s[0]] + s[1..];
      [s[0]] + InsertBy(x, s[1..], key)
  }

  lemma PrependSorted<T(!new)>(a: T, s: seq<T>, key: T -> int)
    requires SortedBy(s, key)
    requires forall y :: y in s ==> key(a) <= key(y)
    ensures SortedBy([a] + s, key)
  {
    var r := [a] + s;
    forall i, j | 0 <= i < j < |r| ensures key(r[i]) <= key(r[j]) {
      assert r[j] == s[j - 1];
      if i > 0 {
        assert r[i] == s[i - 1];
      }
    }
  }

  lemma {:induction false} InsertSorted<T(!new)>(x: T, s: seq<T>, key: T -> int)
    requires SortedBy(s, key)
    ensures SortedBy(InsertBy(x, s, key), key)
    decreases |s|
  {
    if s == [] {
    } else if key(x) <= key(s[0]) {
      forall y | y in s ensures key(x) <= key(y) {
        var j :| 0 <= j < |s| && s[j] == y;
        if j > 0 {
          assert key(s[0]) <= key(s[j]);
        }
      }
      PrependSorted(x, s, key);
    } else {
      assert s == [s[0]] + s[1..];
      InsertSorted(x, s[1..], key);
      forall y | y in s[1..] ensures key(s[0]) <= key(y) {
        var j :| 0 <= j < |s[1..]| && s[1..][j] == y;
        assert s[j + 1] == y;
      }
      PrependSorted(s[0], InsertBy(x, s[1..], key), key);
    }
  }

  /** The rows of `s` ordered by `key`. */
  function SortBy<T(==,!new)>(s: seq<T>, key: T -> int): (r: seq<T>)
    ensures SortedBy(r, key)
    ensures multiset(r) == multiset(s)
    ensures |r| == |s|
  {
    if s == [] then []
    else
      assert s == [s[0]] + s[1..];
      InsertSorted(s[0], SortBy(s[1..], key), key);
      InsertBy(s[0], SortBy(s[1..], key), key)
  }

  lemma {:induction false} InsertKeepsKeysDistinct<T(!new)>(x: T, s: seq<T>, key: T -> int)
    requires SortedBy(s, key) && KeysDistinct(s, key)
    requires forall y :: y in s ==> key(y) != key(x)
    ensures KeysDistinct(InsertBy(x, s, key), key)
    decreases |s|
  {
    if s != [] && key(x) > key(s[0]) {
      var rest := InsertBy(x, s[1..], key);
      InsertKeepsKeysDistinct(x, s[1..], key);
      forall y | y in rest ensures key(y) != key(s[0]) {
        assert y in multiset(rest);
        if y != x {
          var j :| 0 <= j < |s[1..]| && s[1..][j] == y;
          assert s[j + 1] == y;
        }
      }
    }
  }

  /** Ordering rows whose keys are distinct orders them strictly. */
  lemma {:induction false} SortStrict<T(!new)>(s: seq<T>, key: T -> int)
    requires KeysDistinct(s, key)
    ensures StrictlySortedBy(SortBy(s, key), key)
    decreases |s|
  {
    if s != [] {
      SortStrict(s[1..], key);
      var r := SortBy(s[1..], key);
      forall y | y in r ensures key(y) != key(s[0]) {
        assert y in multiset(s[1..]);
        var j :| 0 <= j < |s[1..]| && s[1..][j] == y;
        assert s[j + 1] == y;
      }
      InsertKeepsKeysDistinct(s[0], r, key);
    }
  }

  /** Every row of the ordered result is a row of the input, and back. */
  lemma SortSameElements<T(!new)>(s: seq<T>, key: T -> int, y: T)
    ensures y in SortBy(s, key) <==> y in s
  {
    assert y in multiset(SortBy(s, key)) <==> y in multiset(s);
  }

  /** In a strictly ordered sequence, an entry left out of the first
      `limit` entries comes after all of them, and there are `limit` of them. */
  lemma OmittedComesAfter<T(!new)>(s: seq<T>, key: T -> int, limit: nat, o: T)
    requires StrictlySortedBy(s, key) && o in s
    ensures var n := if limit < |s| then limit else |s|;
      o !in s[..n] ==> n == limit && forall p :: p in s[..n] ==> key(p) < key(o)
  {
    var n := if limit < |s| then limit else |s|;
    var k :| 0 <= k < |s| && s[k] == o;
    if o !in s[..n] {
      assert forall j :: 0 <= j < n ==> s[..n][j] == s[j];
      assert k >= n;
      forall p | p in s[..n] ensures key(p) < key(o) {
        var i :| 0 <= i < n && s[..n][i] == p;
        assert s[i] == p;
      }
    }
  }
}
