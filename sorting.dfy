/**
 * A descending sort on one key, as the store applies for `{field: -1}`.
 * MongoDB leaves the order of equal keys unspecified, so all that is promised
 * is a permutation of the input in non-increasing key order.
 */
module Sorting {
  import opened Bson

  ghost predicate SortedDesc<T>(s: seq<T>, key: T -> Value)
  {
    forall i, j :: 0 <= i < j < |s| ==> ValueLe(key(s[j]), key(s[i]))
  }

  ghost predicate NoDup<T>(s: seq<T>)
  {
    forall i, j :: 0 <= i < j < |s| ==> s[i] != s[j]
  }

  /** Puts `x` in front of the first element whose key is not above its own. */
  function Insert<T(==)>(x: T, s: seq<T>, key: T -> Value): (r: seq<T>)
    ensures multiset(r) == multiset(s) + multiset{x}
  {
    if s == [] then [x]
    else if ValueLe(key(s[0]), key(x)) then [x] + s
    else
      assert s == [s[0]] + s[1..];
      [s[0]] + Insert(x, s[1..], key)
  }

  function SortDesc<T(==)>(s: seq<T>, key: T -> Value): (r: seq<T>)
    ensures multiset(r) == multiset(s)
  {
    if s == [] then []
    else
      assert s == [s[0]] + s[1..];
      Insert(s[0], SortDesc(s[1..], key), key)
  }

  /** An element no smaller than every element of a sorted sequence may go in front of it. */
  lemma PrependSorted<T>(x: T, s: seq<T>, key: T -> Value)
    requires SortedDesc(s, key)
    requires forall y :: y in s ==> ValueLe(key(y), key(x))
    ensures SortedDesc([x] + s, key)
  {
    var r := [x] + s;
    forall i, j | 0 <= i < j < |r| ensures ValueLe(key(r[j]), key(r[i])) {
      assert r[j] == s[j - 1];
      if i > 0 {
        assert r[i] == s[i - 1];
      } else {
        assert s[j - 1] in s;
      }
    }
  }

  lemma {:induction false} InsertSorted<T>(x: T, s: seq<T>, key: T -> Value)
    requires SortedDesc(s, key)
    ensures SortedDesc(Insert(x, s, key), key)
  {
    if s == [] {
    } else if ValueLe(key(s[0]), key(x)) {
      forall y | y in s ensures ValueLe(key(y), key(x)) {
        var j :| 0 <= j < |s| && s[j] == y;
        if j > 0 {
          ValueLeTrans(key(s[j]), key(s[0]), key(x));
        }
      }
      PrependSorted(x, s, key);
    } else {
      var t := Insert(x, s[1..], key);
      InsertSorted(x, s[1..], key);
      ValueLeTotal(key(s[0]), key(x));
      forall y | y in t ensures ValueLe(key(y), key(s[0])) {
        assert y in multiset(t);
        if y != x {
          assert y in s[1..];
          var j :| 0 <= j < |s[1..]| && s[1..][j] == y;
          assert s[j + 1] == y;
        }
      }
      PrependSorted(s[0], t, key);
    }
  }

  lemma {:induction false} SortDescSorted<T>(s: seq<T>, key: T -> Value)
    ensures SortedDesc(SortDesc(s, key), key)
  {
    if s != [] {
      SortDescSorted(s[1..], key);
      InsertSorted(s[0], SortDesc(s[1..], key), key);
    }
  }

  /** A sequence without repeated elements is one whose multiset counts are at most one. */
  lemma {:induction false} NoDupByCount<T>(s: seq<T>)
    requires forall x :: multiset(s)[x] <= 1
    ensures NoDup(s)
  {
    forall i, j | 0 <= i < j < |s| ensures s[i] != s[j] {
      assert s == s[..j] + [s[j]] + s[j + 1..];
      assert s[i] in multiset(s[..j]);
      assert multiset(s)[s[j]] == multiset(s[..j])[s[j]] + 1 + multiset(s[j + 1..])[s[j]];
    }
  }

  lemma {:induction false} CountOfNoDup<T>(s: seq<T>, x: T)
    requires NoDup(s)
    ensures multiset(s)[x] <= 1
  {
    if s != [] {
      assert s == [s[0]] + s[1..];
      assert NoDup(s[1..]) by {
        forall i, j | 0 <= i < j < |s[1..]| ensures s[1..][i] != s[1..][j] {
          assert s[1..][i] == s[i + 1] && s[1..][j] == s[j + 1];
        }
      }
      CountOfNoDup(s[1..], x);
      if x == s[0] {
        assert x !in s[1..];
      }
    }
  }

  /** Sorting neither duplicates nor drops an element. */
  lemma SortDescNoDup<T>(s: seq<T>, key: T -> Value)
    requires NoDup(s)
    ensures NoDup(SortDesc(s, key))
  {
    var r := SortDesc(s, key);
    forall x ensures multiset(r)[x] <= 1 {
      CountOfNoDup(s, x);
    }
    NoDupByCount(r);
  }
}
