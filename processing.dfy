/**
 * Normalisation of typed input: `process_input` turns free text into a list
 * of capitalised fields, `transform_name` abbreviates a full name and
 * `standardize_phone` writes a number in the `7XXXXXXXXXX` form.
 */
module Processing {
  import opened Wrappers
  import opened PyText
  import opened Validation

  /** The two delimiters the bot passes: `' '` for names, `','` for lists. */
  predicate IsDelimiter(d: char) {
    d == ' ' || d == ','
  }

  /** `re.sub(r'\s+', ' ', s).strip().strip(d)`. */
  function Clean(s: string, d: char): string {
    StripChar(Strip(Collapse(s)), d)
  }

  /** `[el.strip() for el in parts]`. */
  function StripAll(parts: seq<string>): (r: seq<string>)
    ensures |r| == |parts| && forall i :: 0 <= i < |r| ==> r[i] == Strip(parts[i])
  {
    seq(|parts|, i requires 0 <= i < |parts| => Strip(parts[i]))
  }

  /** The stripped pieces of the lowered clean text. */
  function Pieces(s: string, d: char): (ps: seq<string>)
    ensures |ps| == |Split(Lower(Clean(s, d)), d)|
  {
    StripAll(Split(Lower(Clean(s, d)), d))
  }

  predicate NoEmpty(ps: seq<string>) {
    forall i :: 0 <= i < |ps| ==> ps[i] != ""
  }

  /** `[el[0].upper() + el[1:] for el in ps]`. */
  function CapitalizeAll(ps: seq<string>): (r: seq<string>)
    requires NoEmpty(ps)
    ensures |r| == |ps|
  {
    seq(|ps|, i requires 0 <= i < |ps| => Capitalize(ps[i]))
  }

  /**
   * `process_input(s, d)`: `None` where the source fails on `el[0]`
   * because a field is empty (blank input, two delimiters in a row).
   */
  function ProcessInput(s: string, d: char): (r: Option<seq<string>>)
    ensures r.None? <==> !NoEmpty(Pieces(s, d))
    ensures r.Some? ==> |r.value| == |Split(Lower(Clean(s, d)), d)|
  {
    var ps := Pieces(s, d);
    if NoEmpty(ps) then Some(CapitalizeAll(ps)) else None
  }

  lemma {:induction false} LowerCount(x: string, d: char)
    requires IsDelimiter(d)
    ensures multiset(Lower(x))[d] == multiset(x)[d]
    decreases |x|
  {
    if |x| > 0 {
      LowerCount(x[1..], d);
      CasingKeepsNonLetters(x[0]);
      assert x == [x[0]] + x[1..];
      assert Lower(x) == [LowerChar(x[0])] + Lower(x[1..]);
    }
  }

  /** One field per delimiter left in the cleaned text, plus one. */
  lemma ProcessInputCount(s: string, d: char)
    requires IsDelimiter(d) && ProcessInput(s, d).Some?
    ensures |ProcessInput(s, d).value| == multiset(Clean(s, d))[d] + 1
  {
    LowerCount(Clean(s, d), d);
  }

  /** Blank input has no first character to capitalise. */
  lemma ProcessInputBlank(s: string, d: char)
    requires forall k :: 0 <= k < |s| ==> IsSpace(s[k])
    ensures ProcessInput(s, d) == None
  {
    var c := Collapse(s);
    if |s| > 0 {
      assert TrimLeft(s[1..], IsSpace) == [];
      assert c == " ";
      assert TrimLeft(c, IsSpace) == [];
    }
    assert Strip(c) == [];
    assert Clean(s, d) == [];
    assert Pieces(s, d)[0] == "";
  }

  /** Two separators in a row leave an empty piece after the first of them. */
  lemma {:induction false} SplitEmptyPiece(s: string, sep: char, k: nat) returns (j: nat)
    requires k + 1 < |s| && s[k] == sep && s[k + 1] == sep
    ensures 1 <= j < |Split(s, sep)| && Split(s, sep)[j] == ""
    decreases k
  {
    var rest := Split(s[1..], sep);
    if k == 0 {
      var rest2 := Split(s[2..], sep);
      assert s[1..][0] == sep && s[1..][1..] == s[2..];
      assert rest == [""] + rest2;
      j := 1;
    } else {
      var i := SplitEmptyPiece(s[1..], sep, k - 1);
      j := if s[0] == sep then i + 1 else i;
    }
  }

  /** Two delimiters in a row in the cleaned text leave an empty field. */
  lemma ProcessInputEmptyField(s: string, d: char, k: nat)
    requires IsDelimiter(d)
    requires k + 1 < |Clean(s, d)| && Clean(s, d)[k] == d && Clean(s, d)[k + 1] == d
    ensures ProcessInput(s, d) == None
  {
    var c := Clean(s, d);
    CasingKeepsNonLetters(c[k]);
    CasingKeepsNonLetters(c[k + 1]);
    var j := SplitEmptyPiece(Lower(c), d, k);
    assert Pieces(s, d)[j] == Strip("");
  }

  /** A field as `process_input` returns it. */
  predicate IsField(x: string, d: char) {
    && x != []
    && d !in x
    && !IsSpace(x[0]) && !IsSpace(x[|x| - 1])
    && IsCollapsed(x)
    && IsLowered(x[1..])
    && UpperChar(LowerChar(x[0])) == x[0]
  }

  predicate IsFieldList(r: seq<string>, d: char) {
    |r| >= 1 && forall i :: 0 <= i < |r| ==> IsField(r[i], d)
  }

  /** The cleaned text has single spaces only. */
  lemma CleanCollapsed(s: string, d: char)
    ensures IsCollapsed(Clean(s, d))
  {
    StripKeepsCollapsed(Collapse(s));
    StripCharKeepsCollapsed(Strip(Collapse(s)), d);
  }

  /** A stripped, lowered, delimiter-free word becomes a field once capitalised. */
  lemma CapitalizedField(e: string, d: char)
    requires IsDelimiter(d) && e != [] && d !in e
    requires IsCollapsed(e) && IsLowered(e) && !IsSpace(e[0]) && !IsSpace(e[|e| - 1])
    ensures IsField(Capitalize(e), d)
  {
    var x := Capitalize(e);
    CasingKeepsNonLetters(e[0]);
    CasingRoundTrip(e[0]);
    assert x == [UpperChar(e[0])] + e[1..];
    CollapsedInfix(e, 1, |e|);
    CollapsedAppend([UpperChar(e[0])], e[1..]);
    assert x[1..] == e[1..];
  }

  /** The `i`-th piece of a split keeps what holds of every part of the text. */
  lemma PieceKeeps(lc: string, d: char, i: nat)
    requires IsCollapsed(lc) && IsLowered(lc) && i < |Split(lc, d)|
    ensures IsCollapsed(Split(lc, d)[i]) && IsLowered(Split(lc, d)[i]) && d !in Split(lc, d)[i]
  {
    var p := Split(lc, d)[i];
    var o := SplitInfix(lc, d, i);
    CollapsedInfix(lc, o, o + |p|);
    LoweredInfix(lc, o, o + |p|);
  }

  /** Stripping a piece keeps it collapsed, lowered and free of the delimiter. */
  lemma StrippedPieceKeeps(p: string, d: char)
    requires IsCollapsed(p) && IsLowered(p) && d !in p
    ensures var e := Strip(p);
      d !in e && IsCollapsed(e) && IsLowered(e)
      && (e == [] || (!IsSpace(e[0]) && !IsSpace(e[|e| - 1])))
  {
    var e := Strip(p);
    StripKeepsCollapsed(p);
    var q := StripShape(p);
    LoweredInfix(p, q, q + |e|);
  }

  /** Every result of `process_input` is a non-empty list of fields. */
  lemma ProcessInputFields(s: string, d: char)
    requires IsDelimiter(d) && ProcessInput(s, d).Some?
    ensures IsFieldList(ProcessInput(s, d).value, d)
  {
    var c := Clean(s, d);
    CleanCollapsed(s, d);
    var lc := Lower(c);
    CollapsedLower(c);
    LowerIsLowered(c);
    var ps := Pieces(s, d);
    var r := ProcessInput(s, d).value;
    assert r == CapitalizeAll(ps);
    forall i | 0 <= i < |r| ensures IsField(r[i], d) {
      PieceKeeps(lc, d, i);
      StrippedPieceKeeps(Split(lc, d)[i], d);
      assert ps[i] == Strip(Split(lc, d)[i]);
      CapitalizedField(ps[i], d);
    }
  }

  lemma CapitalizeLowerField(x: string, d: char)
    requires IsField(x, d)
    ensures Capitalize(Lower(x)) == x
  {
    LowerOfLowered(x[1..]);
    assert Lower(x)[1..] == Lower(x[1..]);
  }

  /** The separator the handlers re-join fields with. */
  predicate IsSeparatorFor(d: char, sep: string) {
    (d == ' ' && sep == " ") || (d == ',' && sep == ", ")
  }

  lemma {:induction false} JoinFieldsCollapsed(r: seq<string>, d: char, sep: string)
    requires IsSeparatorFor(d, sep) && IsFieldList(r, d)
    ensures IsCollapsed(Join(r, sep))
    decreases |r|
  {
    if |r| > 1 {
      JoinFieldsCollapsed(r[1..], d, sep);
      JoinFirstLast(r[1..], sep);
      var j := Join(r[1..], sep);
      CollapsedAppend(r[0], sep);
      CollapsedAppend(r[0] + sep, j);
    }
  }

  /** Joined fields are already clean. */
  lemma CleanOfJoin(r: seq<string>, d: char, sep: string)
    requires IsSeparatorFor(d, sep) && IsFieldList(r, d)
    ensures Clean(Join(r, sep), d) == Join(r, sep)
  {
    var t := Join(r, sep);
    assert forall i :: 0 <= i < |r| ==> r[i] != [];
    JoinFieldsCollapsed(r, d, sep);
    JoinFirstLast(r, sep);
    CollapseOfCollapsed(t);
    TrimUntouched(t, IsSpace);
    StripCharUntouched(t, d);
  }

  /** `[x.lower() for x in r]`. */
  function LowerAll(r: seq<string>): (l: seq<string>)
    ensures |l| == |r| && forall i :: 0 <= i < |r| ==> l[i] == Lower(r[i])
  {
    seq(|r|, i requires 0 <= i < |r| => Lower(r[i]))
  }

  /** A lowered field is still non-empty, delimiter-free and without space at its ends. */
  lemma LoweredField(x: string, d: char)
    requires IsDelimiter(d) && IsField(x, d)
    ensures var l := Lower(x);
      l != [] && d !in l && !IsSpace(l[0]) && !IsSpace(l[|l| - 1])
  {
    forall k | 0 <= k < |x| ensures Lower(x)[k] != d {
      CasingKeepsNonLetters(x[k]);
    }
    CasingKeepsNonLetters(x[0]);
    CasingKeepsNonLetters(x[|x| - 1]);
  }

  predicate IsWord(x: string, d: char) {
    x != [] && d !in x && !IsSpace(x[0]) && !IsSpace(x[|x| - 1])
  }

  lemma SplitStripJoinSpace(l: seq<string>)
    requires |l| >= 1 && forall i :: 0 <= i < |l| ==> IsWord(l[i], ' ')
    ensures |Split(Join(l, " "), ' ')| == |l|
    ensures forall i :: 0 <= i < |l| ==> Strip(Split(Join(l, " "), ' ')[i]) == l[i]
  {
    SplitJoin(l, ' ');
    forall i | 0 <= i < |l| ensures Strip(l[i]) == l[i] {
      TrimUntouched(l[i], IsSpace);
    }
  }

  lemma SplitStripJoinComma(l: seq<string>)
    requires |l| >= 1 && forall i :: 0 <= i < |l| ==> IsWord(l[i], ',')
    ensures |Split(Join(l, ", "), ',')| == |l|
    ensures forall i :: 0 <= i < |l| ==> Strip(Split(Join(l, ", "), ',')[i]) == l[i]
  {
    SplitJoinComma(l);
    var parts := Split(Join(l, ", "), ',');
    forall i | 0 <= i < |l| ensures Strip(parts[i]) == l[i] {
      if i == 0 {
        TrimUntouched(l[0], IsSpace);
      } else {
        assert parts[i] == " " + l[i];
        StripPadded(l[i]);
      }
    }
  }

  /** Cutting `", ".join(l)` at the commas gives the words, each after the first with its space. */
  lemma SplitJoinComma(l: seq<string>)
    requires |l| >= 1 && forall i :: 0 <= i < |l| ==> IsWord(l[i], ',')
    ensures Split(Join(l, ", "), ',') == [l[0]] + Prefixed(l[1..], " ")
  {
    var shifted := [l[0]] + Prefixed(l[1..], " ");
    assert ", " == [','] + " ";
    JoinShift(l, ',', " ");
    forall i | 0 <= i < |shifted| ensures ',' !in shifted[i] {
      if i > 0 {
        assert shifted[i] == " " + l[i];
      }
    }
    SplitJoin(shifted, ',');
  }

  /** Re-joined fields are split back into the same fields. */
  lemma ReprocessFields(r: seq<string>, d: char, sep: string)
    requires IsSeparatorFor(d, sep) && IsFieldList(r, d)
    ensures ProcessInput(Join(r, sep), d) == Some(r)
  {
    var l := LowerAll(r);
    PiecesOfJoin(r, d, sep);
    forall i | 0 <= i < |r| ensures Capitalize(l[i]) == r[i] {
      CapitalizeLowerField(r[i], d);
    }
    assert NoEmpty(l);
    assert CapitalizeAll(l) == r;
  }

  /** The pieces of joined fields are the lowered fields. */
  lemma PiecesOfJoin(r: seq<string>, d: char, sep: string)
    requires IsSeparatorFor(d, sep) && IsFieldList(r, d)
    ensures Pieces(Join(r, sep), d) == LowerAll(r)
  {
    var l := LowerAll(r);
    forall i | 0 <= i < |r| ensures IsWord(l[i], d) {
      LoweredField(r[i], d);
    }
    calc {
      Pieces(Join(r, sep), d);
      { LowerCleanOfJoin(r, d, sep); }
      StripAll(Split(Join(l, sep), d));
      { if d == ' ' { SplitStripJoinSpace(l); } else { SplitStripJoinComma(l); } }
      l;
    }
  }

  lemma LowerCleanOfJoin(r: seq<string>, d: char, sep: string)
    requires IsSeparatorFor(d, sep) && IsFieldList(r, d)
    ensures Lower(Clean(Join(r, sep), d)) == Join(LowerAll(r), sep)
  {
    var t := Join(r, sep);
    calc {
      Lower(Clean(t, d));
      { CleanOfJoin(r, d, sep); }
      Lower(t);
      { LowerSeparator(d, sep); LowerJoin(r, sep, LowerAll(r)); }
      Join(LowerAll(r), sep);
    }
  }

  lemma LowerSeparator(d: char, sep: string)
    requires IsSeparatorFor(d, sep)
    ensures Lower(sep) == sep
  {
    CasingKeepsNonLetters(' ');
    CasingKeepsNonLetters(',');
    assert forall k :: 0 <= k < |sep| ==> LowerChar(sep[k]) == sep[k];
  }

  /**
   * Processing is idempotent: re-processing the fields joined with `' '` (names)
   * or `', '` (lists) gives the same fields.
   */
  lemma ProcessInputIdempotent(s: string, d: char, sep: string)
    requires IsSeparatorFor(d, sep) && ProcessInput(s, d).Some?
    ensures ProcessInput(Join(ProcessInput(s, d).value, sep), d) == ProcessInput(s, d)
  {
    ProcessInputFields(s, d);
    ReprocessFields(ProcessInput(s, d).value, d, sep);
  }

  // ---------------------------------------------------------- transform_name

  /** One initial and a dot per word. */
  function Initials(words: seq<string>): (r: string)
    requires NoEmpty(words)
    ensures |r| == 2 * |words|
  {
    if |words| == 0 then "" else [words[0][0], '.'] + Initials(words[1..])
  }

  lemma {:induction false} InitialsAppend(words: seq<string>, w: string)
    requires NoEmpty(words)
    requires w != ""
    ensures Initials(words + [w]) == Initials(words) + [w[0], '.']
    decreases |words|
  {
    if |words| > 0 {
      assert (words + [w])[1..] == words[1..] + [w];
      InitialsAppend(words[1..], w);
    }
  }

  lemma {:induction false} InitialsAt(words: seq<string>, k: nat)
    requires NoEmpty(words)
    requires k < |words|
    ensures Initials(words)[2 * k] == words[k][0] && Initials(words)[2 * k + 1] == '.'
    decreases k
  {
    if k > 0 {
      InitialsAt(words[1..], k - 1);
    }
  }

  /**
   * `transform_name` as a value: the first word, a space, then an initial
   * and a dot for each further word. `None` where the source fails on
   * `name[0]` because two spaces in a row leave an empty word.
   */
  function ShortName(fullName: string): Option<string> {
    var words := Split(fullName, ' ');
    if NoEmpty(words[1..]) then Some(words[0] + " " + Initials(words[1..])) else None
  }

  /** `transform_name`, with its accumulating loop. */
  method TransformName(fullName: string) returns (r: Option<string>)
    ensures r == ShortName(fullName)
  {
    var names := Split(fullName, ' ');
    var shortForm := names[0] + " ";
    var i := 1;
    while i < |names|
      invariant 1 <= i <= |names|
      invariant forall k :: 1 <= k < i ==> names[k] != ""
      invariant shortForm == names[0] + " " + Initials(names[1..i])
    {
      if names[i] == "" {
        return None;
      }
      assert names[1..i + 1] == names[1..i] + [names[i]];
      InitialsAppend(names[1..i], names[i]);
      shortForm := shortForm + [names[i][0], '.'];
      i := i + 1;
    }
    assert names[1..i] == names[1..];
    return Some(shortForm);
  }

  /**
   * The abbreviation keeps the first word whole and, for word `k` after it,
   * puts that word's first letter and a dot at offset `2k` past the space.
   */
  lemma ShortNameShape(fullName: string, k: nat)
    requires ShortName(fullName).Some?
    requires 1 <= k < |Split(fullName, ' ')|
    ensures var words := Split(fullName, ' ');
      var r := ShortName(fullName).value;
      && |r| == |words[0]| + 1 + 2 * (|words| - 1)
      && r[..|words[0]| + 1] == words[0] + " "
      && r[|words[0]| + 1 + 2 * (k - 1)] == words[k][0]
      && r[|words[0]| + 2 + 2 * (k - 1)] == '.'
  {
    var words := Split(fullName, ' ');
    InitialsAt(words[1..], k - 1);
  }

  /** A name as the handlers store it, the `' '`-join of processed words, always abbreviates. */
  lemma ShortNameOfProcessed(r: seq<string>)
    requires IsFieldList(r, ' ')
    ensures ShortName(Join(r, " ")).Some?
  {
    forall i | 0 <= i < |r| ensures ' ' !in r[i] { }
    SplitJoin(r, ' ');
  }

  lemma ShortNameExample()
    ensures ShortName("A B C") == Some("A B.C.")
  {
    var full := "A B C";
    var words := ["A", "B", "C"];
    calc {
      ShortName(full);
      { SplitExample(); }
      if NoEmpty(words[1..]) then Some(words[0] + " " + Initials(words[1..])) else None;
      { assert words[1..] == ["B", "C"]; InitialsExample(); }
      Some("A" + " " + "B.C.");
      { assert "A" + " " + "B.C." == "A B.C."; }
      Some("A B.C.");
    }
  }

  lemma SplitExample()
    ensures Split("A B C", ' ') == ["A", "B", "C"]
  {
    var words := ["A", "B", "C"];
    assert Join(words, " ") == "A B C";
    SplitJoin(words, ' ');
  }

  lemma InitialsExample()
    ensures Initials(["B", "C"]) == "B.C."
  {
    assert ["B", "C"][1..] == ["C"];
    assert Initials(["C"]) == "C.";
  }

  // ------------------------------------------------------ standardize_phone

  /** `standardize_phone`: a leading `7` in front of the ten-digit form. */
  function StandardizePhone(phone: string): (r: string)
    ensures |r| >= 1 && r[0] == '7'
  {
    if |phone| == 10 then "7" + phone
    else "7" + (if |phone| == 0 then "" else phone[1..])
  }

  /** An accepted number becomes eleven characters: `7` and the last ten of the input. */
  lemma StandardizeChecked(phone: string)
    requires CheckPhone(phone)
    ensures var r := StandardizePhone(phone);
      |r| == 11 && r[0] == '7' && r[1..] == phone[|phone| - 10..]
  {
  }
}
