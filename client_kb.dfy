/**
 * The client keyboards: inline buttons as (label, callback) pairs, the
 * back-to-menu and page buttons, and the paged speciality menu of the online
 * appointment. Rows and row widths are layout only and are flattened away.
 */
module ClientKb {
  import opened Wrappers
  import opened PyText
  import opened PyInt
  import opened ODict
  import opened Callbacks

  /** A button label: text built at run time, or one of the fixed button captions. */
  datatype Label = Text(s: string) | Caption(name: string)

  datatype Button = Button(text: Label, callback: string)

  /** `back_to_menu_btn(section)`. */
  function BackToMenuBtn(section: string): (b: Button)
    ensures StartsWith(b.callback, BackToMenu)
  {
    Button(Caption("back_to_menu"), Build(BackToMenu, section))
  }

  /** The back button names the section it returns to as its second field. */
  lemma BackToMenuSection(section: string)
    requires Sep !in section
    ensures Field(BackToMenuBtn(section).callback, 0) == Some(BackToMenu)
    ensures Field(BackToMenuBtn(section).callback, 1) == Some(section)
  {
    FieldOfBuild(BackToMenu, section);
  }

  function CreateNextButton(page: int): (b: Button)
    ensures StartsWith(b.callback, Next)
  {
    Button(Caption("next"), Build(Next, IntToString(page + 1)))
  }

  function CreatePrevButton(page: int): (b: Button)
    ensures StartsWith(b.callback, Prev)
  {
    Button(Caption("prev"), Build(Prev, IntToString(page - 1)))
  }

  lemma IntTextHasNoSep(n: int)
    ensures Sep !in IntToString(n)
  {
    var s := IntToString(n);
    forall k | 0 <= k < |s| ensures s[k] != Sep {
      assert IsDigit(s[k]) || s[k] == '-';
    }
  }

  /** The page buttons carry the neighbouring page numbers, as `int()` reads them back. */
  lemma PageButtons(page: int)
    ensures Field(CreateNextButton(page).callback, 1).Some?
    ensures ParseInt(Field(CreateNextButton(page).callback, 1).value) == Some(page + 1)
    ensures Field(CreatePrevButton(page).callback, 1).Some?
    ensures ParseInt(Field(CreatePrevButton(page).callback, 1).value) == Some(page - 1)
  {
    IntTextHasNoSep(page + 1);
    IntTextHasNoSep(page - 1);
    FieldOfBuild(Next, IntToString(page + 1));
    FieldOfBuild(Prev, IntToString(page - 1));
    IntRoundTrip(page + 1);
    IntRoundTrip(page - 1);
  }

  /** The button of speciality number `i`, titled from the numbered pool. */
  function SpecialityButton(title: string, i: int): Button {
    Button(Text(title), Build(SpecialityTitle, IntToString(i)))
  }

  /**
   * `generate_speciality_buttons(specialities, index_2, index_1)`: one button
   * per `i` in `range(index_1, index_2)`; `None` is the `KeyError` of a number
   * the pool lacks.
   */
  function GenerateSpecialityButtons(specialities: Dict<string>, index2: int, index1: int): (r: Option<seq<Button>>)
    ensures r.Some? <==> forall i :: index1 <= i < index2 ==> HasKey(specialities, IntToString(i))
    ensures r.Some? ==> |r.value| == if index2 <= index1 then 0 else index2 - index1
    ensures r.Some? ==> forall k :: 0 <= k < |r.value| ==>
      r.value[k] == SpecialityButton(Get(specialities, IntToString(index1 + k)).value, index1 + k)
    decreases index2 - index1
  {
    if index2 <= index1 then Some([])
    else
      var head := Get(specialities, IntToString(index1));
      var tail := GenerateSpecialityButtons(specialities, index2, index1 + 1);
      if head.None? || tail.None? then None
      else
        var r := [SpecialityButton(head.value, index1)] + tail.value;
        assert forall k :: 1 <= k < |r| ==> r[k] == tail.value[k - 1];
        Some(r)
  }

  /** The buttons in the middle of the menu, between the specialities and the back button. */
  function NavButtons(page: int, navType: Option<string>): seq<Button> {
    if navType == Some(Next) then [CreateNextButton(page)]
    else if navType == Some(Prev) then [CreatePrevButton(page)]
    else if navType == Some(PrevNext) then [CreatePrevButton(page), CreateNextButton(page)]
    else []
  }

  /** `generate_speciality_menu(buttons, page, nav_type)`, flattened row by row. */
  function GenerateSpecialityMenu(buttons: seq<Button>, page: int, navType: Option<string>): (r: seq<Button>)
    ensures |r| >= |buttons| + 1 && r[..|buttons|] == buttons
    ensures r[|r| - 1] == BackToMenuBtn(MainMenu)
  {
    buttons + NavButtons(page, navType) + [BackToMenuBtn(MainMenu)]
  }

  lemma DataDiffer(a: string, b: string)
    requires |a| > 0 && |b| > 0 && a[0] != b[0]
    ensures a != b
  {
    assert a[0] != b[0];
  }

  /**
   * The menu offers a next page exactly for `'next'` and `'prev-next'`, a
   * previous page exactly for `'prev'` and `'prev-next'`, and no other button
   * than these between the specialities and the back button.
   */
  lemma SpecialityMenuNavigation(buttons: seq<Button>, page: int, navType: Option<string>)
    ensures var r := GenerateSpecialityMenu(buttons, page, navType);
      var nav := r[|buttons|..|r| - 1];
      && (CreateNextButton(page) in nav <==> navType == Some(Next) || navType == Some(PrevNext))
      && (CreatePrevButton(page) in nav <==> navType == Some(Prev) || navType == Some(PrevNext))
      && forall b :: b in nav ==> b == CreateNextButton(page) || b == CreatePrevButton(page)
  {
    var r := GenerateSpecialityMenu(buttons, page, navType);
    assert r[|buttons|..|r| - 1] == NavButtons(page, navType);
    DataDiffer(CreateNextButton(page).callback, CreatePrevButton(page).callback);
  }
}
