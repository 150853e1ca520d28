/** The ordering the repository's derived queries apply (`...OrderByRegionIdAsc`,
    `...OrderByCreatedAtDesc`): a stable sort of the matching rows by a key,
    keys compared lexicographically. Rows with equal keys keep their key
    order and nulls get a rank of their own: SQL fixes neither, so both are
    choices of this model. */
module Sorting {

  /** A sort key: a rank (used to place nulls) then a value. */
  type Key = (int, int)

  predicate KeyLe(a: Key, b: Key)
  {
    a.0 < b.0 || (a.0 == b.0 && a.1 <= b.1)
  }

  predicate SortedBy<T>(s: seq<T>, key: T -> Key)
  {
    forall i, j :: 0 <= i < j < |s| ==> KeyLe(key(s[i]), key(s[j]))
  }

  /** Inserts `x` after every element whose key is not above its own. */
  function Insert<T>(x: T, s: seq<T>, key: T -> Key): (r: seq<T>)
    ensures |r| == |s| + 1
    decreases |s|
  {
    if s == [] then [x]
    else if KeyLe(key(x), key(s[0])) && key(x) != key(s[0]) then [x] + s
    else [s[0]] + Insert(x, s[1..], key)
  }

  /** Stable insertion sort: later rows are inserted after earlier rows of equal key. */
  function SortBy<T>(s: seq<T>, key: T -> Key): (r: seq<T>)
    ensures |r| == |s|
    decreases |s|
  {
    if s == [] then [] else Insert(s[|s| - 1], SortBy(s[..|s| - 1], key), key)
  }

  lemma {:induction false} InsertPermutes<T>(x: T, s: seq<T>, key: T -> Key)
    ensures multiset(Insert(x, s, key)) == multiset(s) + multiset{x}
    decreases |s|
  {
    if s == [] {
    } else if KeyLe(key(x), key(s[0])) && key(x) != key(s[0]) {
    } else {
      InsertPermutes(x, s[1..], key);
      assert s == [s[0]] + s[1..];
    }
  }

  lemma {:induction false} InsertSorted<T>(x: T, s: seq<T>, key: T -> Key)
    requires SortedBy(s, key)
    ensures SortedBy(Insert(x, s, key), key)
    decreases |s|
  {
    if s == [] {
    } else if KeyLe(key(x), key(s[0])) && key(x) != key(s[0]) {
      var r := [x] + s;
      forall i, j | 0 <= i < j < |r|
        ensures KeyLe(key(r[i]), key(r[j]))
      {
        if i == 0 && j > 1 {
          assert KeyLe(key(s[0]), key(s[j - 1]));
        }
      }
    } else {
      var tail := Insert(x, s[1..], key);
      InsertSorted(x, s[1..], key);
      InsertPermutes(x, s[1..], key);
      var r := [s[0]] + tail;
      forall i, j | 0 <= i < j < |r|
        ensures KeyLe(key(r[i]), key(r[j]))
      {
        if i == 0 {
          var y := tail[j - 1];
          assert y in multiset(tail);
          assert y == x || y in multiset(s[1..]);
          if y != x {
            var k :| 1 <= k < |s| && s[k] == y;
            assert s[1..][k - 1] == y;
          }
        }
      }
    }
  }

  /** The sorted rows are ordered by the key and are exactly the input rows. */
  lemma {:induction false} SortByCorrect<T>(s: seq<T>, key: T -> Key)
    ensures SortedBy(SortBy(s, key), key)
    ensures multiset(SortBy(s, key)) == multiset(s)
    decreases |s|
  {
    if s != [] {
      SortByCorrect(s[..|s| - 1], key);
      InsertSorted(s[|s| - 1], SortBy(s[..|s| - 1], key), key);
      InsertPermutes(s[|s| - 1], SortBy(s[..|s| - 1], key), key);
      assert s == s[..|s| - 1] + [s[|s| - 1]];
    }
  }

  /** The first row of a sorted sequence has the least key of all its rows. */
  lemma SortedFirstLeast<T>(s: seq<T>, key: T -> Key, x: T)
    requires SortedBy(s, key) && x in s
    ensures KeyLe(key(s[0]), key(x))
  {
    var k :| 0 <= k < |s| && s[k] == x;
    if k > 0 {
      assert KeyLe(key(s[0]), key(s[k]));
    }
  }
}
