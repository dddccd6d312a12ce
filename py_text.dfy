/**
 * The Python string primitives the bot relies on, on `seq<char>`: whitespace
 * as `str.isspace()` and the pattern class `\s` define it, `re.sub(r'\s+', ' ', s)`,
 * `str.strip`, `str.split` and `str.join` with a one-character delimiter, and
 * `str.lower`/`str.upper` for the Latin and Cyrillic alphabets.
 */
module PyText {

  /** The characters that `str.isspace()` and `\s` accept. */
  predicate IsSpace(c: char) {
    var n := c as int;
    (9 <= n <= 13) || (28 <= n <= 32) || n == 0x85 || n == 0xA0 || n == 0x1680
    || (0x2000 <= n <= 0x200A) || n == 0x2028 || n == 0x2029 || n == 0x202F
    || n == 0x205F || n == 0x3000
  }

  // ---------------------------------------------------------------- casing

  predicate IsUpperLetter(c: char) {
    ('A' <= c <= 'Z') || (0x400 <= c as int <= 0x42F)
  }

  predicate IsLowerLetter(c: char) {
    ('a' <= c <= 'z') || (0x430 <= c as int <= 0x45F)
  }

  /** `c.lower()` for Latin and Cyrillic letters (including the Ukrainian and Serbian ones); other characters are kept. */
  function LowerChar(c: char): (r: char)
    ensures IsUpperLetter(c) ==> IsLowerLetter(r)
    ensures !IsUpperLetter(c) ==> r == c
  {
    var n := c as int;
    if 'A' <= c <= 'Z' || 0x410 <= n <= 0x42F then (n + 32) as char
    else if 0x400 <= n <= 0x40F then (n + 80) as char
    else c
  }

  /** `c.upper()`, the inverse mapping of `LowerChar`. */
  function UpperChar(c: char): (r: char)
    ensures IsLowerLetter(c) ==> IsUpperLetter(r)
    ensures !IsLowerLetter(c) ==> r == c
  {
    var n := c as int;
    if 'a' <= c <= 'z' || 0x430 <= n <= 0x44F then (n - 32) as char
    else if 0x450 <= n <= 0x45F then (n - 80) as char
    else c
  }

  /** Letters are never whitespace, so casing never creates or removes a space or a delimiter. */
  lemma CasingKeepsNonLetters(c: char)
    ensures IsSpace(LowerChar(c)) <==> IsSpace(c)
    ensures IsSpace(UpperChar(c)) <==> IsSpace(c)
    ensures LowerChar(c) == ',' <==> c == ','
    ensures UpperChar(c) == ',' <==> c == ','
    ensures LowerChar(c) == ' ' <==> c == ' '
    ensures UpperChar(c) == ' ' <==> c == ' '
    ensures LowerChar(c) == ':' <==> c == ':'
  {
  }

  lemma CasingRoundTrip(c: char)
    ensures LowerChar(LowerChar(c)) == LowerChar(c)
    ensures UpperChar(LowerChar(UpperChar(c))) == UpperChar(c)
  {
  }

  /** `s.lower()`. */
  function Lower(s: string): (r: string)
    ensures |r| == |s|
  {
    seq(|s|, i requires 0 <= i < |s| => LowerChar(s[i]))
  }

  predicate IsLowered(s: string) {
    forall k :: 0 <= k < |s| ==> LowerChar(s[k]) == s[k]
  }

  lemma LowerIsLowered(s: string)
    ensures IsLowered(Lower(s))
  {
    forall k | 0 <= k < |s| ensures LowerChar(Lower(s)[k]) == Lower(s)[k] {
      CasingRoundTrip(s[k]);
    }
  }

  lemma LoweredInfix(x: string, i: int, j: int)
    requires IsLowered(x) && 0 <= i <= j <= |x|
    ensures IsLowered(x[i..j])
  {
    assert forall k :: 0 <= k < j - i ==> x[i..j][k] == x[i + k];
  }

  lemma LowerAppend(a: string, b: string)
    ensures Lower(a + b) == Lower(a) + Lower(b)
  {
  }

  lemma LowerOfLowered(s: string)
    requires IsLowered(s)
    ensures Lower(s) == s
  {
  }

  /** `el[0].upper() + el[1:]` on a non-empty string. */
  function Capitalize(el: string): (r: string)
    requires el != ""
    ensures |r| == |el| && r[0] == UpperChar(el[0]) && r[1..] == el[1..]
  {
    [UpperChar(el[0])] + el[1..]
  }

  // ------------------------------------------------------------- trimming

  /** `s` without the leading characters that satisfy `drop`. */
  function TrimLeft(s: string, drop: char -> bool): (r: string)
    ensures |r| <= |s| && r == s[|s| - |r|..]
    ensures r == [] || !drop(r[0])
    ensures forall k :: 0 <= k < |s| - |r| ==> drop(s[k])
  {
    if |s| > 0 && drop(s[0]) then
      var r := TrimLeft(s[1..], drop);
      assert forall k :: 1 <= k < |s| ==> s[k] == s[1..][k - 1];
      r
    else s
  }

  /** `s` without the trailing characters that satisfy `drop`. */
  function TrimRight(s: string, drop: char -> bool): (r: string)
    ensures |r| <= |s| && r == s[..|r|]
    ensures r == [] || !drop(r[|r| - 1])
    ensures forall k :: |r| <= k < |s| ==> drop(s[k])
  {
    if |s| > 0 && drop(s[|s| - 1]) then
      var r := TrimRight(s[..|s| - 1], drop);
      assert forall k :: 0 <= k < |s| - 1 ==> s[k] == s[..|s| - 1][k];
      r
    else s
  }

  function Trim(s: string, drop: char -> bool): string {
    TrimRight(TrimLeft(s, drop), drop)
  }

  lemma TrimUntouched(s: string, drop: char -> bool)
    requires s == [] || (!drop(s[0]) && !drop(s[|s| - 1]))
    ensures Trim(s, drop) == s
  {
  }

  /** `s.strip()`. */
  function Strip(s: string): string {
    Trim(s, IsSpace)
  }

  /** `s.strip(d)` for a one-character argument `d`. */
  function StripChar(s: string, d: char): string {
    Trim(s, IsChar(d))
  }

  function IsChar(d: char): char -> bool {
    c => c == d
  }

  lemma StripCharUntouched(s: string, d: char)
    requires s == [] || (s[0] != d && s[|s| - 1] != d)
    ensures StripChar(s, d) == s
  {
    TrimUntouched(s, IsChar(d));
  }

  /** `Trim(s, drop)` is the part of `s` from offset `i` on. */
  lemma TrimShape(s: string, drop: char -> bool) returns (i: nat)
    ensures i + |Trim(s, drop)| <= |s| && Trim(s, drop) == s[i..i + |Trim(s, drop)|]
  {
    var l := TrimLeft(s, drop);
    var t := TrimRight(l, drop);
    i := |s| - |l|;
    assert l == s[i..];
    assert t == l[..|t|];
    assert l[..|t|] == s[i..i + |t|];
  }

  /** One leading space is stripped off a string that has no space at either end. */
  lemma StripPadded(x: string)
    requires x != [] && !IsSpace(x[0]) && !IsSpace(x[|x| - 1])
    ensures Strip(" " + x) == x
  {
    var l := TrimLeft(" " + x, IsSpace);
    assert l == x;
    TrimUntouched(x, IsSpace);
  }

  /** `Strip(s)` is the part of `s` from offset `i` on, and begins and ends with a non-space. */
  lemma StripShape(s: string) returns (i: nat)
    ensures i + |Strip(s)| <= |s| && Strip(s) == s[i..i + |Strip(s)|]
    ensures Strip(s) == [] || (!IsSpace(Strip(s)[0]) && !IsSpace(Strip(s)[|Strip(s)| - 1]))
  {
    var l := TrimLeft(s, IsSpace);
    i := |s| - |l|;
    assert s[i..] == l;
    assert l[..|Strip(s)|] == s[i..i + |Strip(s)|];
  }

  // ------------------------------------------------------ collapsing spaces

  /** No whitespace character other than `' '`, and never two spaces in a row. */
  predicate IsCollapsed(x: string) {
    && (forall k :: 0 <= k < |x| && IsSpace(x[k]) ==> x[k] == ' ')
    && (forall j, k :: 0 <= j < |x| && 0 <= k < |x| && k == j + 1 ==> !(IsSpace(x[j]) && IsSpace(x[k])))
  }

  /** `re.sub(r'\s+', ' ', s)`: every maximal run of whitespace becomes one space. */
  function Collapse(s: string): (r: string)
    ensures IsCollapsed(r)
    ensures s == [] <==> r == []
    ensures s != [] ==> (IsSpace(r[0]) <==> IsSpace(s[0]))
    decreases |s|
  {
    if |s| == 0 then ""
    else if IsSpace(s[0]) then " " + Collapse(TrimLeft(s[1..], IsSpace))
    else [s[0]] + Collapse(s[1..])
  }

  lemma {:induction false} CollapseOfCollapsed(x: string)
    requires IsCollapsed(x)
    ensures Collapse(x) == x
    decreases |x|
  {
    if |x| > 0 {
      assert IsCollapsed(x[1..]);
      if IsSpace(x[0]) {
        assert |x| == 1 || !IsSpace(x[1]);
        assert TrimLeft(x[1..], IsSpace) == x[1..];
      }
      CollapseOfCollapsed(x[1..]);
    }
  }

  lemma CollapsedInfix(x: string, i: int, j: int)
    requires IsCollapsed(x) && 0 <= i <= j <= |x|
    ensures IsCollapsed(x[i..j])
  {
    var y := x[i..j];
    forall j, k | 0 <= j < |y| && 0 <= k < |y| && k == j + 1 ensures !(IsSpace(y[j]) && IsSpace(y[k])) {
      assert y[j] == x[i + j] && y[k] == x[i + k];
    }
  }

  lemma StripKeepsCollapsed(x: string)
    requires IsCollapsed(x)
    ensures IsCollapsed(Strip(x))
  {
    var a := StripShape(x);
    CollapsedInfix(x, a, a + |Strip(x)|);
  }

  lemma StripCharKeepsCollapsed(x: string, d: char)
    requires IsCollapsed(x)
    ensures IsCollapsed(StripChar(x, d))
  {
    var b := TrimShape(x, IsChar(d));
    CollapsedInfix(x, b, b + |StripChar(x, d)|);
  }

  lemma CollapsedAppend(a: string, b: string)
    requires IsCollapsed(a) && IsCollapsed(b)
    requires a == [] || b == [] || !(IsSpace(a[|a| - 1]) && IsSpace(b[0]))
    ensures IsCollapsed(a + b)
  {
    var x := a + b;
    forall j, k | 0 <= j < |x| && 0 <= k < |x| && k == j + 1 ensures !(IsSpace(x[j]) && IsSpace(x[k])) {
      if k < |a| {
        assert x[j] == a[j] && x[k] == a[k];
      } else if j >= |a| {
        assert x[j] == b[j - |a|] && x[k] == b[k - |a|];
      }
    }
  }

  lemma CollapsedLower(x: string)
    requires IsCollapsed(x)
    ensures IsCollapsed(Lower(x))
  {
    var y := Lower(x);
    forall k | 0 <= k < |y| ensures IsSpace(y[k]) == IsSpace(x[k]) && (IsSpace(y[k]) ==> y[k] == ' ') {
      CasingKeepsNonLetters(x[k]);
    }
  }

  // ------------------------------------------------------ split and join

  /** `s.split(sep)` for a one-character separator. */
  function Split(s: string, sep: char): (r: seq<string>)
    ensures |r| == multiset(s)[sep] + 1
    ensures forall i :: 0 <= i < |r| ==> sep !in r[i]
    decreases |s|
  {
    if |s| == 0 then [""]
    else
      var rest := Split(s[1..], sep);
      assert s == [s[0]] + s[1..];
      if s[0] == sep then [""] + rest else [[s[0]] + rest[0]] + rest[1..]
  }

  /** Every piece of a split is a part of the string: the first one a prefix. */
  lemma {:induction false} SplitInfix(s: string, sep: char, i: nat) returns (a: nat)
    requires i < |Split(s, sep)|
    ensures a + |Split(s, sep)[i]| <= |s| && Split(s, sep)[i] == s[a..a + |Split(s, sep)[i]|]
    ensures i == 0 ==> a == 0
    decreases |s|
  {
    if |s| == 0 {
      a := 0;
    } else {
      var rest := Split(s[1..], sep);
      if s[0] == sep {
        if i == 0 {
          a := 0;
        } else {
          var b := SplitInfix(s[1..], sep, i - 1);
          a := b + 1;
        }
      } else if i == 0 {
        var b := SplitInfix(s[1..], sep, 0);
        a := 0;
        assert s[..1 + |rest[0]|] == [s[0]] + s[1..][..|rest[0]|];
      } else {
        var b := SplitInfix(s[1..], sep, i);
        a := b + 1;
      }
    }
  }

  /** `sep.join(parts)`. */
  function Join(parts: seq<string>, sep: string): string {
    if |parts| == 0 then ""
    else if |parts| == 1 then parts[0]
    else parts[0] + sep + Join(parts[1..], sep)
  }

  lemma {:induction false} SplitWithout(x: string, sep: char)
    requires sep !in x
    ensures Split(x, sep) == [x]
    decreases |x|
  {
    if |x| > 0 {
      SplitWithout(x[1..], sep);
      assert [x[0]] + x[1..] == x;
    }
  }

  lemma {:induction false} SplitAt(x: string, y: string, sep: char)
    requires sep !in x
    ensures Split(x + [sep] + y, sep) == [x] + Split(y, sep)
    decreases |x|
  {
    if |x| == 0 {
      assert x + [sep] + y == [sep] + y;
      assert ([sep] + y)[1..] == y;
    } else {
      var s := x + [sep] + y;
      assert s[0] == x[0];
      assert s[1..] == x[1..] + [sep] + y;
      SplitAt(x[1..], y, sep);
      assert [x[0]] + x[1..] == x;
    }
  }

  /** Splitting a join of delimiter-free parts gives the parts back. */
  lemma {:induction false} SplitJoin(parts: seq<string>, sep: char)
    requires |parts| >= 1
    requires forall i :: 0 <= i < |parts| ==> sep !in parts[i]
    ensures Split(Join(parts, [sep]), sep) == parts
    decreases |parts|
  {
    if |parts| == 1 {
      SplitWithout(parts[0], sep);
    } else {
      SplitJoin(parts[1..], sep);
      SplitAt(parts[0], Join(parts[1..], [sep]), sep);
      assert [parts[0]] + parts[1..] == parts;
    }
  }

  /** The position of the first `c` in `s`. */
  function FirstIndex(s: string, c: char): (i: nat)
    requires c in s
    ensures i < |s| && s[i] == c && c !in s[..i]
  {
    if s[0] == c then 0
    else
      var i := FirstIndex(s[1..], c);
      assert s[..i + 1] == [s[0]] + s[1..][..i];
      i + 1
  }

  /** Joining the pieces of a split with the separator gives the string back. */
  lemma {:induction false} JoinSplit(s: string, sep: char)
    ensures Join(Split(s, sep), [sep]) == s
    decreases |s|
  {
    if sep !in s {
      SplitWithout(s, sep);
    } else {
      var k := FirstIndex(s, sep);
      var x, y := s[..k], s[k + 1..];
      assert s == x + [sep] + y;
      SplitAt(x, y, sep);
      JoinSplit(y, sep);
      JoinCons(x, Split(y, sep), [sep]);
    }
  }

  lemma JoinCons(x: string, rest: seq<string>, sep: string)
    requires |rest| >= 1
    ensures Join([x] + rest, sep) == x + sep + Join(rest, sep)
  {
    assert ([x] + rest)[1..] == rest;
  }

  lemma {:induction false} JoinFirstLast(parts: seq<string>, sep: string)
    requires |parts| >= 1 && forall i :: 0 <= i < |parts| ==> parts[i] != []
    ensures var j := Join(parts, sep);
      j != [] && j[0] == parts[0][0] && j[|j| - 1] == parts[|parts| - 1][|parts[|parts| - 1]| - 1]
    decreases |parts|
  {
    if |parts| > 1 {
      JoinFirstLast(parts[1..], sep);
    }
  }

  lemma {:induction false} LowerJoin(parts: seq<string>, sep: string, lowered: seq<string>)
    requires Lower(sep) == sep
    requires |lowered| == |parts| && forall i :: 0 <= i < |parts| ==> lowered[i] == Lower(parts[i])
    ensures Lower(Join(parts, sep)) == Join(lowered, sep)
    decreases |parts|
  {
    if |parts| > 1 {
      LowerJoin(parts[1..], sep, lowered[1..]);
      LowerAppend(parts[0], sep);
      LowerAppend(parts[0] + sep, Join(parts[1..], sep));
    }
  }

  /** Every element of `rest` with `pre` in front. */
  function Prefixed(rest: seq<string>, pre: string): (r: seq<string>)
    ensures |r| == |rest| && forall i :: 0 <= i < |r| ==> r[i] == pre + rest[i]
  {
    seq(|rest|, i requires 0 <= i < |rest| => pre + rest[i])
  }

  lemma {:induction false} PrefixJoin(rest: seq<string>, c: char, pre: string)
    requires |rest| >= 1
    ensures pre + Join(rest, [c] + pre) == Join(Prefixed(rest, pre), [c])
    decreases |rest|
  {
    if |rest| > 1 {
      PrefixJoin(rest[1..], c, pre);
      assert Prefixed(rest, pre)[1..] == Prefixed(rest[1..], pre);
    }
  }

  /** Joining with `c + pre` is joining with `c` after `pre` in front of every part but the first. */
  lemma JoinShift(l: seq<string>, c: char, pre: string)
    requires |l| >= 1
    ensures Join(l, [c] + pre) == Join([l[0]] + Prefixed(l[1..], pre), [c])
  {
    if |l| > 1 {
      JoinShiftMany(l, c, pre);
    } else {
      JoinShiftOne(l, c, pre);
    }
  }

  lemma JoinShiftMany(l: seq<string>, c: char, pre: string)
    requires |l| > 1
    ensures Join(l, [c] + pre) == Join([l[0]] + Prefixed(l[1..], pre), [c])
  {
    var p := Prefixed(l[1..], pre);
    var j := Join(l[1..], [c] + pre);
    calc {
      Join(l, [c] + pre);
      l[0] + ([c] + pre) + j;
      { assert l[0] + ([c] + pre) + j == l[0] + [c] + (pre + j); }
      l[0] + [c] + (pre + j);
      { PrefixJoin(l[1..], c, pre); }
      l[0] + [c] + Join(p, [c]);
      { JoinCons(l[0], p, [c]); }
      Join([l[0]] + p, [c]);
    }
  }

  lemma JoinShiftOne(l: seq<string>, c: char, pre: string)
    requires |l| == 1
    ensures Join(l, [c] + pre) == Join([l[0]] + Prefixed(l[1..], pre), [c])
  {
    var p := Prefixed(l[1..], pre);
    assert p == [];
    assert [l[0]] + p == l;
  }
}
