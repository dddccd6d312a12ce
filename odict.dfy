/**
 * A Python `dict` as the session store hands it back: string keys (the store
 * serialises the scratch data to JSON, which turns integer keys into their
 * decimal text) in insertion order. Python compares dicts without regard to
 * order; `SameDict` is that equality.
 */
module ODict {
  import opened Wrappers
  import opened PyInt
  import opened PyList

  type Dict<V> = seq<(string, V)>

  function Keys<V>(d: Dict<V>): (ks: seq<string>)
    ensures |ks| == |d| && forall i :: 0 <= i < |d| ==> ks[i] == d[i].0
  {
    seq(|d|, i requires 0 <= i < |d| => d[i].0)
  }

  /** `d.values()`. */
  function Values<V>(d: Dict<V>): (vs: seq<V>)
    ensures |vs| == |d| && forall i :: 0 <= i < |d| ==> vs[i] == d[i].1
  {
    seq(|d|, i requires 0 <= i < |d| => d[i].1)
  }

  predicate HasKey<V>(d: Dict<V>, k: string) {
    k in Keys(d)
  }

  predicate UniqueKeys<V>(d: Dict<V>) {
    NoDup(Keys(d))
  }

  /** `d[k]`: `None` where Python raises `KeyError`. */
  function Get<V>(d: Dict<V>, k: string): (r: Option<V>)
    ensures r.Some? <==> HasKey(d, k)
  {
    if |d| == 0 then None
    else if d[0].0 == k then Some(d[0].1)
    else
      assert Keys(d) == [d[0].0] + Keys(d[1..]);
      Get(d[1..], k)
  }

  /** What a key reads is one of the dict's values. */
  lemma {:induction false} GetInValues<V>(d: Dict<V>, k: string)
    requires Get(d, k).Some?
    ensures Get(d, k).value in Values(d)
    decreases |d|
  {
    if d[0].0 != k {
      GetInValues(d[1..], k);
      assert Values(d) == [d[0].1] + Values(d[1..]);
    } else {
      assert Values(d)[0] == d[0].1;
    }
  }

  /** `d[k] = v`: an existing key keeps its place, a new one goes last. */
  function Put<V>(d: Dict<V>, k: string, v: V): Dict<V> {
    if |d| == 0 then [(k, v)]
    else if d[0].0 == k then [(k, v)] + d[1..]
    else [d[0]] + Put(d[1..], k, v)
  }

  /** `del d[k]` (also `d.pop(k)`), without the `KeyError` check. */
  function Remove<V>(d: Dict<V>, k: string): Dict<V> {
    if |d| == 0 then []
    else if d[0].0 == k then Remove(d[1..], k)
    else [d[0]] + Remove(d[1..], k)
  }

  /** After `d[k] = v`, `k` reads `v` and every other key reads as before. */
  lemma {:induction false} GetPut<V>(d: Dict<V>, k: string, v: V, j: string)
    ensures Get(Put(d, k, v), j) == if j == k then Some(v) else Get(d, j)
    decreases |d|
  {
    if |d| > 0 && d[0].0 != k {
      GetPut(d[1..], k, v, j);
      assert Put(d, k, v)[1..] == Put(d[1..], k, v);
    }
  }

  /** After `del d[k]`, `k` is absent and every other key reads as before. */
  lemma {:induction false} GetRemove<V>(d: Dict<V>, k: string, j: string)
    ensures Get(Remove(d, k), j) == if j == k then None else Get(d, j)
    decreases |d|
  {
    if |d| > 0 {
      GetRemove(d[1..], k, j);
      if d[0].0 != k {
        assert Remove(d, k)[1..] == Remove(d[1..], k);
      }
    }
  }

  /** `dict(enumerate(s))` after the round trip through the store: keys `'0'`, `'1'`, ... */
  function Enumerate<V>(s: seq<V>): (d: Dict<V>)
    ensures Values(d) == s
  {
    seq(|s|, i requires 0 <= i < |s| => (NatToString(i), s[i]))
  }

  /** Python's `==` on dicts: the same value under every key. */
  ghost predicate SameDict<V>(a: Dict<V>, b: Dict<V>) {
    forall k :: Get(a, k) == Get(b, k)
  }

  lemma {:induction false} PutKeys<V>(d: Dict<V>, k: string, v: V)
    ensures HasKey(d, k) ==> Keys(Put(d, k, v)) == Keys(d)
    ensures !HasKey(d, k) ==> Keys(Put(d, k, v)) == Keys(d) + [k]
    decreases |d|
  {
    if |d| > 0 {
      assert Keys(d) == [d[0].0] + Keys(d[1..]);
      if d[0].0 != k {
        PutKeys(d[1..], k, v);
        assert Keys(Put(d, k, v)) == [d[0].0] + Keys(Put(d[1..], k, v));
      } else {
        assert Keys(Put(d, k, v)) == [k] + Keys(d[1..]);
      }
    }
  }

  lemma PutKeepsUnique<V>(d: Dict<V>, k: string, v: V)
    requires UniqueKeys(d)
    ensures UniqueKeys(Put(d, k, v))
  {
    PutKeys(d, k, v);
  }

  lemma {:induction false} RemoveKeepsUnique<V>(d: Dict<V>, k: string)
    requires UniqueKeys(d)
    ensures UniqueKeys(Remove(d, k))
    ensures forall j :: j in Keys(Remove(d, k)) ==> j in Keys(d)
    decreases |d|
  {
    if |d| > 0 {
      assert Keys(d) == [d[0].0] + Keys(d[1..]);
      RemoveKeepsUnique(d[1..], k);
      if d[0].0 != k {
        var r := Remove(d, k);
        assert Keys(r) == [d[0].0] + Keys(Remove(d[1..], k));
        assert d[0].0 !in Keys(d[1..]);
        assert d[0].0 !in Keys(Remove(d[1..], k));
      }
    }
  }

  /** Removing a key that was just appended gives the original dict back. */
  lemma {:induction false} RemoveAppended<V>(d: Dict<V>, k: string, v: V)
    requires !HasKey(d, k)
    ensures Remove(Put(d, k, v), k) == d
    decreases |d|
  {
    if |d| > 0 {
      assert Keys(d) == [d[0].0] + Keys(d[1..]);
      RemoveAppended(d[1..], k, v);
    }
  }

  /** `d[k] = v` for a key `d` lacks appends the entry. */
  lemma {:induction false} PutFresh<V>(d: Dict<V>, k: string, v: V)
    requires !HasKey(d, k)
    ensures Put(d, k, v) == d + [(k, v)]
    decreases |d|
  {
    if |d| > 0 {
      assert Keys(d) == [d[0].0] + Keys(d[1..]);
      PutFresh(d[1..], k, v);
    }
  }

  /** Filling the dict one index at a time, `d[str(i)] = s[i]`, builds `Enumerate`. */
  lemma EnumerateSnoc<V>(s: seq<V>, v: V)
    ensures Put(Enumerate(s), NatToString(|s|), v) == Enumerate(s + [v])
  {
    EnumerateFresh(s);
    PutFresh(Enumerate(s), NatToString(|s|), v);
    EnumerateAppend(s, v);
  }

  lemma EnumerateFresh<V>(s: seq<V>)
    ensures !HasKey(Enumerate(s), NatToString(|s|))
  {
    var e := Enumerate(s);
    if HasKey(e, NatToString(|s|)) {
      var i :| 0 <= i < |e| && Keys(e)[i] == NatToString(|s|);
      assert e[i].0 == NatToString(i);
      NatToStringInjective(i, |s|);
    }
  }

  lemma EnumerateAppend<V>(s: seq<V>, v: V)
    ensures Enumerate(s + [v]) == Enumerate(s) + [(NatToString(|s|), v)]
  {
    var e1 := Enumerate(s + [v]);
    forall j | 0 <= j < |e1| ensures e1[j] == (Enumerate(s) + [(NatToString(|s|), v)])[j] {
    }
  }

  /** Every key `str(i)` below the length finds the `i`-th element. */
  lemma EnumerateGet<V>(s: seq<V>, i: nat)
    requires i < |s|
    ensures Get(Enumerate(s), NatToString(i)) == Some(s[i])
  {
    EnumerateUnique(s);
    GetUnique(Enumerate(s), i);
  }

  /** With unique keys, the key of entry `i` reads entry `i`. */
  lemma {:induction false} GetUnique<V>(d: Dict<V>, i: nat)
    requires UniqueKeys(d) && i < |d|
    ensures Get(d, d[i].0) == Some(d[i].1)
    decreases |d|
  {
    if i > 0 {
      assert Keys(d)[0] != Keys(d)[i];
      assert Keys(d[1..]) == Keys(d)[1..];
      GetUnique(d[1..], i - 1);
    }
  }

  lemma EnumerateUnique<V>(s: seq<V>)
    ensures UniqueKeys(Enumerate(s))
  {
    forall i, j | 0 <= i < j < |s| ensures NatToString(i) != NatToString(j) {
      if NatToString(i) == NatToString(j) {
        NatToStringInjective(i, j);
      }
    }
  }

  /** `chosen` holds only entries of `source`, with the same values. */
  ghost predicate SubDict<V>(chosen: Dict<V>, source: Dict<V>) {
    forall k :: HasKey(chosen, k) ==> Get(chosen, k) == Get(source, k)
  }

  /**
   * The toggle of the doctor and admin removal flows: a chosen key is removed;
   * otherwise it is added with its value from `source`. `None` is the
   * `KeyError` of a key that `source` lacks.
   */
  function ToggleEntry<V>(chosen: Dict<V>, k: string, source: Dict<V>): (r: Option<Dict<V>>)
    ensures r.None? <==> !HasKey(chosen, k) && !HasKey(source, k)
    ensures r.Some? ==> forall j :: j != k ==> Get(r.value, j) == Get(chosen, j)
    ensures r.Some? ==> (HasKey(r.value, k) <==> !HasKey(chosen, k))
    ensures r.Some? && HasKey(r.value, k) ==> Get(r.value, k) == Get(source, k)
  {
    if HasKey(chosen, k) then
      assert forall j :: Get(Remove(chosen, k), j) == if j == k then None else Get(chosen, j) by {
        forall j { GetRemove(chosen, k, j); }
      }
      assert Get(Remove(chosen, k), k).None?;
      Some(Remove(chosen, k))
    else match Get(source, k)
      case None => None
      case Some(v) =>
        assert forall j :: Get(Put(chosen, k, v), j) == if j == k then Some(v) else Get(chosen, j) by {
          forall j { GetPut(chosen, k, v, j); }
        }
        assert Get(Put(chosen, k, v), k).Some?;
        Some(Put(chosen, k, v))
  }

  /** The toggle keeps the chosen entries a duplicate-free part of the source. */
  lemma ToggleEntryInvariant<V>(chosen: Dict<V>, k: string, source: Dict<V>)
    requires UniqueKeys(chosen) && SubDict(chosen, source)
    requires ToggleEntry(chosen, k, source).Some?
    ensures UniqueKeys(ToggleEntry(chosen, k, source).value)
    ensures SubDict(ToggleEntry(chosen, k, source).value, source)
  {
    if HasKey(chosen, k) {
      RemoveKeepsUnique(chosen, k);
    } else {
      PutKeepsUnique(chosen, k, Get(source, k).value);
    }
  }

  /**
   * Toggling one key twice restores the chosen dict: exactly when the key was
   * absent, and as Python's dict equality when it was present (it comes back
   * last).
   */
  lemma ToggleEntryTwice<V>(chosen: Dict<V>, k: string, source: Dict<V>)
    requires UniqueKeys(chosen) && SubDict(chosen, source)
    requires HasKey(chosen, k) || HasKey(source, k)
    ensures ToggleEntry(ToggleEntry(chosen, k, source).value, k, source).Some?
    ensures SameDict(ToggleEntry(ToggleEntry(chosen, k, source).value, k, source).value, chosen)
    ensures !HasKey(chosen, k) ==> ToggleEntry(ToggleEntry(chosen, k, source).value, k, source).value == chosen
  {
    if !HasKey(chosen, k) {
      RemoveAppended(chosen, k, Get(source, k).value);
    }
  }
}
