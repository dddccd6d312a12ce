/**
 * The Python list operations the flows use: `list.index`, `list.remove`,
 * `del l[i]`, the append-or-remove toggle of a selection, and `list(set(l))`,
 * whose order Python leaves unspecified.
 */
module PyList {
  import opened Wrappers

  predicate NoDup<T(==)>(s: seq<T>) {
    forall i, j :: 0 <= i < j < |s| ==> s[i] != s[j]
  }

  /** `s.index(x)` on a list that holds `x`: a position of `x` (the first, by `IndexOfFirst`). */
  function IndexOf<T(==)>(s: seq<T>, x: T): (i: nat)
    requires x in s
    ensures i < |s| && s[i] == x
  {
    FindSpec(s, x, 0);
    Find(s, x, 0)
  }

  /** The first position of `x` at `j` or after; `|s|` when there is none. */
  function Find<T(==)>(s: seq<T>, x: T, j: nat): nat
    decreases |s| - j
  {
    if j >= |s| then |s| else if s[j] == x then j else Find(s, x, j + 1)
  }

  /** `Find` stops at the first `x` from `j` on, or at the end. */
  lemma {:induction false} FindSpec<T>(s: seq<T>, x: T, j: nat)
    requires j <= |s|
    ensures var i := Find(s, x, j);
      j <= i <= |s| && (i < |s| ==> s[i] == x) && forall k :: j <= k < i ==> s[k] != x
    decreases |s| - j
  {
    if j < |s| && s[j] != x {
      FindSpec(s, x, j + 1);
    }
  }

  /** No `x` comes before `IndexOf(s, x)`. */
  lemma IndexOfFirst<T>(s: seq<T>, x: T)
    requires x in s
    ensures forall k :: 0 <= k < IndexOf(s, x) ==> s[k] != x
  {
    FindSpec(s, x, 0);
  }

  /** `s.index(x)`: `None` where Python raises `ValueError`. */
  function Index<T(==)>(s: seq<T>, x: T): (r: Option<nat>)
    ensures r.None? <==> x !in s
    ensures r.Some? ==> r.value < |s| && s[r.value] == x && forall k :: 0 <= k < r.value ==> s[k] != x
  {
    if x in s then IndexOfFirst(s, x); Some(IndexOf(s, x)) else None
  }

  /** `del s[i]`. */
  function RemoveAt<T>(s: seq<T>, i: nat): (r: seq<T>)
    requires i < |s|
    ensures |r| == |s| - 1
    ensures forall k :: 0 <= k < i ==> r[k] == s[k]
    ensures forall k :: i <= k < |r| ==> r[k] == s[k + 1]
  {
    s[..i] + s[i + 1..]
  }

  /** `del s[i]` takes exactly the element at `i` out of the multiset. */
  lemma RemoveAtMultiset<T>(s: seq<T>, i: nat)
    requires i < |s|
    ensures multiset(RemoveAt(s, i)) == multiset(s) - multiset{s[i]}
  {
    assert s == s[..i] + [s[i]] + s[i + 1..];
  }

  /** `s.remove(x)` where the first `x` sits at `i` is `del s[i]`. */
  lemma RemoveFirstAt<T>(s: seq<T>, i: nat)
    requires i < |s| && s[i] !in s[..i]
    ensures RemoveFirst(s, s[i]) == Some(RemoveAt(s, i))
  {
    IndexOfFirst(s, s[i]);
  }

  /** `s.remove(x)`: the first `x` goes; `None` where Python raises `ValueError`. */
  function RemoveFirst<T(==)>(s: seq<T>, x: T): (r: Option<seq<T>>)
    ensures r.None? <==> x !in s
    ensures r.Some? ==> |r.value| == |s| - 1 && multiset(r.value) == multiset(s) - multiset{x}
  {
    if x in s then
      var i := IndexOf(s, x);
      assert s == s[..i] + [x] + s[i + 1..];
      Some(RemoveAt(s, i))
    else None
  }

  /** The selection toggle of the doctor flows: a chosen title is removed by value, a new one is appended. */
  function Toggle<T(==)>(s: seq<T>, x: T): (r: seq<T>)
    ensures multiset(r) == if x in s then multiset(s) - multiset{x} else multiset(s) + multiset{x}
  {
    if x in s then
      var i := IndexOf(s, x);
      assert s == s[..i] + [x] + s[i + 1..];
      assert multiset(RemoveAt(s, i)) == multiset(s) - multiset{x};
      RemoveAt(s, i)
    else s + [x]
  }

  lemma ToggleKeepsNoDup<T>(s: seq<T>, x: T)
    requires NoDup(s)
    ensures NoDup(Toggle(s, x))
  {
    if x in s {
      var i := IndexOf(s, x);
      var r := RemoveAt(s, i);
      forall a, b | 0 <= a < b < |r| ensures r[a] != r[b] {
        var a' := if a < i then a else a + 1;
        var b' := if b < i then b else b + 1;
        assert r[a] == s[a'] && r[b] == s[b'];
      }
    }
  }

  /** Toggling a title that was not selected and toggling it again restores the list exactly. */
  lemma ToggleTwiceAbsent<T>(s: seq<T>, x: T)
    requires x !in s
    ensures Toggle(Toggle(s, x), x) == s
  {
    var t := s + [x];
    assert x in t;
    var i := IndexOf(t, x);
    IndexOfFirst(t, x);
    assert i == |s|;
    assert t[..i] == s;
  }

  /**
   * Toggling a selected title twice keeps the same titles, with that one moved
   * to the end: on a duplicate-free selection the set of titles is restored.
   */
  lemma ToggleTwicePresent<T>(s: seq<T>, x: T)
    requires NoDup(s) && x in s
    ensures Toggle(Toggle(s, x), x) == RemoveAt(s, IndexOf(s, x)) + [x]
    ensures multiset(Toggle(Toggle(s, x), x)) == multiset(s)
  {
    var i := IndexOf(s, x);
    var t := RemoveAt(s, i);
    forall k | 0 <= k < |t|
      ensures t[k] != x
    {
      if k < i {
        assert t[k] == s[k];
      } else {
        assert t[k] == s[k + 1];
      }
    }
    assert Toggle(s, x) == t;
    assert x !in t;
    assert Toggle(t, x) == t + [x];
  }

  lemma NoDupCount<T>(s: seq<T>, x: T)
    requires NoDup(s) && x in s
    ensures multiset(s)[x] == 1
  {
    var i := IndexOf(s, x);
    assert s == s[..i] + [x] + s[i + 1..];
    assert x !in s[i + 1..];
  }

  /** `r` is a possible value of `list(set(s))`: no repeats, the same elements. */
  predicate IsDedupOf<T(==)>(r: seq<T>, s: seq<T>) {
    && NoDup(r)
    && (forall i :: 0 <= i < |r| ==> r[i] in s)
    && (forall i :: 0 <= i < |s| ==> s[i] in r)
  }

  /** One possible value of `list(set(s))`: first occurrences, in order. */
  function Dedup<T(==)>(s: seq<T>): (r: seq<T>)
    ensures IsDedupOf(r, s)
  {
    if |s| == 0 then []
    else
      var rest := Dedup(s[..|s| - 1]);
      assert s == s[..|s| - 1] + [s[|s| - 1]];
      if s[|s| - 1] in rest then rest else rest + [s[|s| - 1]]
  }

  lemma DedupNonEmpty<T>(r: seq<T>, s: seq<T>)
    requires IsDedupOf(r, s) && s != []
    ensures r != []
  {
    assert s[0] in s;
  }

  /** In a list without repeats `index` finds the position an element was read from. */
  lemma IndexOfNoDup<T>(s: seq<T>, i: nat)
    requires NoDup(s) && i < |s|
    ensures IndexOf(s, s[i]) == i
  {
  }
}
