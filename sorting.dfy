/**
 * Orderings the queries use: primary keys in ascending order (`ORDER BY id`),
 * filtering (`WHERE`), a stable sort on an integer key (`ORDER BY column`),
 * and sums over the returned rows that do not depend on their order.
 */
module Sorting {

  predicate StrictlyIncreasing(s: seq<int>)
  {
    forall i, j | 0 <= i < j < |s| :: s[i] < s[j]
  }

  predicate SortedByKey<T>(s: seq<T>, key: T -> int)
  {
    forall i, j | 0 <= i < j < |s| :: key(s[i]) <= key(s[j])
  }

  lemma {:induction false} MinExists(ks: set<int>)
    requires ks != {}
    ensures exists m :: m in ks && forall x | x in ks :: m <= x
    decreases |ks|
  {
    if forall z :: z !in ks {
      assert false;
    }
    var y :| y in ks;
    var rest := ks - {y};
    if rest == {} {
      forall x | x in ks ensures y <= x {
        assert x == y || x in rest;
      }
    } else {
      MinExists(rest);
      var m :| m in rest && forall x | x in rest :: m <= x;
      var least := if y < m then y else m;
      forall x | x in ks ensures least <= x {
        if x != y {
          assert x in rest;
        }
      }
      assert least in ks;
    }
  }

  /** The smallest key of a non-empty table. */
  function Least(ks: set<int>): (m: int)
    requires ks != {}
    ensures m in ks && forall x | x in ks :: m <= x
  {
    MinExists(ks);
    var m :| m in ks && forall x | x in ks :: m <= x;
    m
  }

  /** The keys of a table in ascending order: `ORDER BY id`. */
  function SortedIds(ks: set<int>): (r: seq<int>)
    ensures StrictlyIncreasing(r)
    ensures forall x :: x in r <==> x in ks
    ensures |r| == |ks|
    decreases |ks|
  {
    if ks == {} then []
    else
      var m := Least(ks);
      var rest := SortedIds(ks - {m});
      assert forall x | x in rest :: m < x;
      [m] + rest
  }

  /** Inserts `x` before the first element whose key is not smaller. */
  function InsertByKey<T>(x: T, s: seq<T>, key: T -> int): (r: seq<T>)
    ensures |r| == |s| + 1
    ensures multiset(r) == multiset(s) + multiset{x}
  {
    if s == [] || key(x) <= key(s[0]) then [x] + s
    else
      assert s == [s[0]] + s[1..];
      [s[0]] + InsertByKey(x, s[1..], key)
  }

  /** A stable insertion sort on `key`, ascending: `ORDER BY` up to ties. */
  function SortByKey<T>(s: seq<T>, key: T -> int): (r: seq<T>)
    ensures |r| == |s|
    ensures multiset(r) == multiset(s)
  {
    if s == [] then []
    else
      assert s == [s[0]] + s[1..];
      InsertByKey(s[0], SortByKey(s[1..], key), key)
  }

  /** Inserting an element above a bound into a sequence above it stays above it. */
  lemma {:induction false} InsertAbove<T>(x: T, s: seq<T>, key: T -> int, b: int)
    requires key(x) >= b && forall i | 0 <= i < |s| :: key(s[i]) >= b
    ensures forall i | 0 <= i < |InsertByKey(x, s, key)| :: key(InsertByKey(x, s, key)[i]) >= b
  {
    if s != [] && key(x) > key(s[0]) {
      InsertAbove(x, s[1..], key, b);
      var tail := InsertByKey(x, s[1..], key);
      assert InsertByKey(x, s, key) == [s[0]] + tail;
    }
  }

  /** Insertion into a sorted sequence keeps it sorted. */
  lemma {:induction false} InsertSorted<T>(x: T, s: seq<T>, key: T -> int)
    requires SortedByKey(s, key)
    ensures SortedByKey(InsertByKey(x, s, key), key)
  {
    if s != [] && key(x) > key(s[0]) {
      var tail := InsertByKey(x, s[1..], key);
      InsertSorted(x, s[1..], key);
      InsertAbove(x, s[1..], key, key(s[0]));
      var r := [s[0]] + tail;
      forall i, j | 0 <= i < j < |r| ensures key(r[i]) <= key(r[j]) {
        if i == 0 {
          assert r[j] == tail[j - 1];
        } else {
          assert r[i] == tail[i - 1] && r[j] == tail[j - 1];
        }
      }
    }
  }

  /** The sort's output is ordered on the key. */
  lemma {:induction false} SortIsSorted<T>(s: seq<T>, key: T -> int)
    ensures SortedByKey(SortByKey(s, key), key)
  {
    if s != [] {
      SortIsSorted(s[1..], key);
      InsertSorted(s[0], SortByKey(s[1..], key), key);
    }
  }

  /** `sum(f(x) for x in s)`, added left to right as the source's loops do. */
  function SumBy<T>(s: seq<T>, f: T -> real): real
  {
    if s == [] then 0.0 else SumBy(s[..|s| - 1], f) + f(s[|s| - 1])
  }

  lemma {:induction false} SumByCons<T>(x: T, s: seq<T>, f: T -> real)
    ensures SumBy([x] + s, f) == f(x) + SumBy(s, f)
    decreases |s|
  {
    if s != [] {
      var last := s[|s| - 1];
      assert ([x] + s)[..|s|] == [x] + s[..|s| - 1];
      SumByCons(x, s[..|s| - 1], f);
    }
  }

  lemma {:induction false} SumByInsert<T>(x: T, s: seq<T>, key: T -> int, f: T -> real)
    ensures SumBy(InsertByKey(x, s, key), f) == f(x) + SumBy(s, f)
  {
    if s == [] || key(x) <= key(s[0]) {
      SumByCons(x, s, f);
    } else {
      SumByInsert(x, s[1..], key, f);
      SumByCons(s[0], InsertByKey(x, s[1..], key), f);
      SumByCons(s[0], s[1..], f);
      assert [s[0]] + s[1..] == s;
    }
  }

  /** The totals of a report do not depend on the order of its rows. */
  lemma {:induction false} SumBySorted<T>(s: seq<T>, key: T -> int, f: T -> real)
    ensures SumBy(SortByKey(s, key), f) == SumBy(s, f)
  {
    if s != [] {
      var tail := s[1..];
      var sortedTail := SortByKey(tail, key);
      assert s == [s[0]] + tail;
      assert SortByKey(s, key) == InsertByKey(s[0], sortedTail, key);
      SumBySorted(tail, key, f);
      SumByInsert(s[0], sortedTail, key, f);
      SumByCons(s[0], tail, f);
    }
  }
}
