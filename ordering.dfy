/** `ORDER BY <timestamp column> DESC`: rows sorted latest first.  SQL leaves
    the order of rows with equal timestamps open; the model keeps them in
    table order. */
module Ordering {
  import opened Tables

  predicate SortedDesc<T>(s: seq<T>, key: T -> Timestamp)
  {
    forall i, j :: 0 <= i < j < |s| ==> AtOrBefore(key(s[j]), key(s[i]))
  }

  /** Puts x in front of the first row that is not later than it. */
  function InsertDesc<T>(x: T, s: seq<T>, key: T -> Timestamp): (r: seq<T>)
    ensures |r| == |s| + 1
    ensures forall i :: 0 <= i < |r| ==> r[i] == x || r[i] in s
  {
    if |s| == 0 then [x]
    else if AtOrBefore(key(s[0]), key(x)) then [x] + s
    else [s[0]] + InsertDesc(x, s[1..], key)
  }

  /** The rows of s, latest first. */
  function SortDesc<T>(s: seq<T>, key: T -> Timestamp): (r: seq<T>)
    ensures |r| == |s|
  {
    if |s| == 0 then [] else InsertDesc(s[0], SortDesc(s[1..], key), key)
  }

  lemma {:induction false} InsertDescSorted<T>(x: T, s: seq<T>, key: T -> Timestamp)
    requires SortedDesc(s, key)
    ensures SortedDesc(InsertDesc(x, s, key), key)
    decreases |s|
  {
    if |s| > 0 && !AtOrBefore(key(s[0]), key(x)) {
      var rest := InsertDesc(x, s[1..], key);
      InsertDescSorted(x, s[1..], key);
      forall i | 0 <= i < |rest|
        ensures AtOrBefore(key(rest[i]), key(s[0]))
      {
        if rest[i] != x {
          var k :| 1 <= k < |s| && s[k] == rest[i];
        }
      }
    }
  }

  lemma {:induction false} InsertDescPermutes<T>(x: T, s: seq<T>, key: T -> Timestamp)
    ensures multiset(InsertDesc(x, s, key)) == multiset(s) + multiset{x}
    decreases |s|
  {
    if |s| > 0 && !AtOrBefore(key(s[0]), key(x)) {
      InsertDescPermutes(x, s[1..], key);
      assert s == [s[0]] + s[1..];
    }
  }

  /** SortDesc returns the same rows, latest first. */
  lemma {:induction false} SortDescSortsAndPermutes<T>(s: seq<T>, key: T -> Timestamp)
    ensures SortedDesc(SortDesc(s, key), key)
    ensures multiset(SortDesc(s, key)) == multiset(s)
    decreases |s|
  {
    if |s| > 0 {
      SortDescSortsAndPermutes(s[1..], key);
      InsertDescSorted(s[0], SortDesc(s[1..], key), key);
      InsertDescPermutes(s[0], SortDesc(s[1..], key), key);
      assert s == [s[0]] + s[1..];
    }
  }
}
