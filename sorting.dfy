/**
 * The model's stand-in for `ORDER BY <text column> ASC`: a stable insertion
 * sort on a string key, in code-point lexicographic order. The database's
 * own collation, which ignores case and accents, is not modelled.
 */
module Sorting {

  /** `a <= b` in code-point lexicographic order. */
  predicate StrLe(a: string, b: string) {
    |a| == 0 || (|b| > 0 && (a[0] < b[0] || (a[0] == b[0] && StrLe(a[1..], b[1..]))))
  }

  lemma {:induction false} StrLeTotal(a: string, b: string)
    ensures StrLe(a, b) || StrLe(b, a)
    decreases |a|
  {
    if |a| > 0 && |b| > 0 && a[0] == b[0] {
      StrLeTotal(a[1..], b[1..]);
    }
  }

  lemma {:induction false} StrLeTrans(a: string, b: string, c: string)
    requires StrLe(a, b) && StrLe(b, c)
    ensures StrLe(a, c)
    decreases |a|
  {
    if |a| > 0 && |b| > 0 && |c| > 0 && a[0] == b[0] && b[0] == c[0] {
      StrLeTrans(a[1..], b[1..], c[1..]);
    }
  }

  predicate SortedBy<T>(s: seq<T>, key: T -> string) {
    forall i, j :: 0 <= i < j < |s| ==> StrLe(key(s[i]), key(s[j]))
  }

  function Insert<T>(x: T, s: seq<T>, key: T -> string): (r: seq<T>)
    ensures multiset(r) == multiset(s) + multiset{x}
    ensures |r| == |s| + 1
  {
    if |s| == 0 || StrLe(key(x), key(s[0])) then [x] + s
    else
      assert s == [s[0]] + s[1..];
      [s[0]] + Insert(x, s[1..], key)
  }

  /** The rows of `s` ordered by `key`; rows with equal keys keep their order. */
  function SortBy<T>(s: seq<T>, key: T -> string): (r: seq<T>)
    ensures multiset(r) == multiset(s)
  {
    if |s| == 0 then []
    else
      assert s == [s[0]] + s[1..];
      Insert(s[0], SortBy(s[1..], key), key)
  }

  lemma {:induction false} InsertSorted<T>(x: T, s: seq<T>, key: T -> string)
    requires SortedBy(s, key)
    ensures SortedBy(Insert(x, s, key), key)
    ensures |s| > 0 ==> Insert(x, s, key)[0] == x || Insert(x, s, key)[0] == s[0]
    decreases |s|
  {
    if |s| > 0 && !StrLe(key(x), key(s[0])) {
      StrLeTotal(key(x), key(s[0]));
      var t := Insert(x, s[1..], key);
      InsertSorted(x, s[1..], key);
      assert SortedBy(s[1..], key);
      var r := [s[0]] + t;
      forall i, j | 0 <= i < j < |r| ensures StrLe(key(r[i]), key(r[j])) {
        if i == 0 {
          assert r[j] in multiset(t);
          assert r[j] in multiset(s[1..]) + multiset{x};
          if r[j] != x {
            assert r[j] in s[1..];
            var m :| 0 <= m < |s[1..]| && s[1..][m] == r[j];
            assert s[m + 1] == r[j];
          }
        }
      }
    } else if |s| > 0 {
      var r := [x] + s;
      forall i, j | 0 <= i < j < |r| ensures StrLe(key(r[i]), key(r[j])) {
        if i == 0 && j > 1 {
          StrLeTrans(key(x), key(s[0]), key(s[j - 1]));
        }
      }
    }
  }

  /** `SortBy` orders the rows by their key. */
  lemma {:induction false} SortBySorted<T>(s: seq<T>, key: T -> string)
    ensures SortedBy(SortBy(s, key), key)
    decreases |s|
  {
    if |s| > 0 {
      SortBySorted(s[1..], key);
      InsertSorted(s[0], SortBy(s[1..], key), key);
    }
  }
}
