/**
 * The admin keyboards: speciality pickers with selection markers, the
 * doctor's own speciality list, the person pickers, and the choice buttons
 * whose callbacks carry `prefix + ':' + value`.
 */
module AdminKb {
  import opened Wrappers
  import opened PyText
  import opened PyInt
  import opened ODict
  import opened Callbacks
  import opened ClientKb
  import opened Processing

  const MarkedSign := "■ "
  const UnmarkedSign := "□ "

  /** The marker in front of a selectable entry. */
  function Marker(marked: bool): (m: string)
    ensures |m| == 2 && m[1] == ' '
  {
    if marked then MarkedSign else UnmarkedSign
  }

  /** A label shows whether the entry was selected, and the entry after the marker. */
  lemma MarkerReadable(marked: bool, s: string)
    ensures (Marker(marked) + s)[0] == '■' <==> marked
    ensures (Marker(marked) + s)[2..] == s
  {
  }

  const SelectionCompletedBtn := Button(Caption("selection_completed"), SelectionCompleted)
  const AddNewSpecialitiesBtn := Button(Caption("add_specialities"), NewSpecialities)

  /** `step_back_button(section)`: the callback is the section itself. */
  function StepBackButton(section: string): (b: Button)
    ensures b.callback == section
  {
    Button(Caption("prev"), section)
  }

  function SpecialityPickButtons(specialities: seq<string>, ids: seq<string>, marked: seq<string>): (r: seq<Button>)
    requires |ids| >= |specialities|
    ensures |r| == |specialities|
    ensures forall i :: 0 <= i < |r| ==>
      r[i] == Button(Text(Marker(specialities[i] in marked) + specialities[i]), Build(SpecialityTitle, ids[i]))
  {
    seq(|specialities|, i requires 0 <= i < |specialities| =>
      Button(Text(Marker(specialities[i] in marked) + specialities[i]), Build(SpecialityTitle, ids[i])))
  }

  /**
   * `show_specialities(specialities, ids, marked_specialities, delete)`; `ids`
   * as `str` writes them. `None` is the `IndexError` of an id list shorter
   * than the titles.
   */
  function ShowSpecialities(specialities: seq<string>, ids: seq<string>, marked: seq<string>, delete: bool): (r: Option<seq<Button>>)
    ensures r.Some? <==> |ids| >= |specialities|
    ensures r.Some? ==> |r.value| == |specialities| + (if delete then 2 else 3)
    ensures r.Some? ==> forall i :: 0 <= i < |specialities| ==>
      && r.value[i].text == Text(Marker(specialities[i] in marked) + specialities[i])
      && r.value[i].callback == Build(SpecialityTitle, ids[i])
    ensures r.Some? ==> (AddNewSpecialitiesBtn in r.value[|specialities|..] <==> !delete)
    ensures r.Some? ==> r.value[|r.value| - 2..] == [SelectionCompletedBtn, BackToMenuBtn(DoctorsSettings)]
  {
    if |ids| < |specialities| then None
    else
      var tail := if delete then [SelectionCompletedBtn, BackToMenuBtn(DoctorsSettings)]
        else [AddNewSpecialitiesBtn, SelectionCompletedBtn, BackToMenuBtn(DoctorsSettings)];
      var r := SpecialityPickButtons(specialities, ids, marked) + tail;
      assert r[|specialities|..] == tail;
      DataDiffer(AddNewSpecialitiesBtn.callback, SelectionCompletedBtn.callback);
      DataDiffer(AddNewSpecialitiesBtn.callback, BackToMenuBtn(DoctorsSettings).callback);
      Some(r)
  }

  /** The callback of a speciality button gives back its id when the id has no `':'`. */
  lemma SpecialityPickId(specialities: seq<string>, ids: seq<string>, marked: seq<string>, delete: bool, i: nat)
    requires |ids| >= |specialities| && i < |specialities| && Sep !in ids[i]
    ensures Field(ShowSpecialities(specialities, ids, marked, delete).value[i].callback, 1) == Some(ids[i])
  {
    FieldOfBuild(SpecialityTitle, ids[i]);
  }

  /**
   * `show_doc_specialities(specialities, ids)`: the doctor's titles paired
   * index for index with the ids of the same rows.
   */
  function ShowDocSpecialities(specialities: seq<string>, ids: seq<int>): (r: Option<seq<Button>>)
    ensures r.Some? <==> |ids| >= |specialities|
    ensures r.Some? ==> |r.value| == |specialities| + 2
    ensures r.Some? ==> forall i :: 0 <= i < |specialities| ==>
      && r.value[i].text == Text(specialities[i])
      && Field(r.value[i].callback, 1) == Some(IntToString(ids[i]))
    ensures r.Some? ==> r.value[|r.value| - 2..] == [StepBackButton(ChooseSection), BackToMenuBtn(DoctorsSettings)]
  {
    if |ids| < |specialities| then None
    else
      var buttons := seq(|specialities|, i requires 0 <= i < |specialities| =>
        Button(Text(specialities[i]), Build(SpecialityTitle, IntToString(ids[i]))));
      assert forall i :: 0 <= i < |specialities| ==> Field(buttons[i].callback, 1) == Some(IntToString(ids[i])) by {
        forall i | 0 <= i < |specialities| ensures Field(buttons[i].callback, 1) == Some(IntToString(ids[i])) {
          IntTextHasNoSep(ids[i]);
          FieldOfBuild(SpecialityTitle, IntToString(ids[i]));
        }
      }
      Some(buttons + [StepBackButton(ChooseSection), BackToMenuBtn(DoctorsSettings)])
  }

  /** The label of a person: the short name, with a marker when a selection is shown. */
  function PersonLabel(uid: string, short: string, marked: Option<seq<string>>): string {
    match marked
      case None => short
      case Some(uids) => Marker(uid in uids) + short
  }

  /** One button per `(uid, name)` entry; `None` where `transform_name` raises. */
  function PersonButtons(people: Dict<string>, marked: Option<seq<string>>): (r: Option<seq<Button>>)
    ensures r.Some? <==> forall i :: 0 <= i < |people| ==> ShortName(people[i].1).Some?
    ensures r.Some? ==> |r.value| == |people|
    ensures r.Some? ==> forall i :: 0 <= i < |people| ==>
      r.value[i] == Button(Text(PersonLabel(people[i].0, ShortName(people[i].1).value, marked)), Build(ChoosePerson, people[i].0))
  {
    if |people| == 0 then Some([])
    else
      var head := ShortName(people[0].1);
      var tail := PersonButtons(people[1..], marked);
      if head.None? || tail.None? then None
      else
        var r := [Button(Text(PersonLabel(people[0].0, head.value, marked)), Build(ChoosePerson, people[0].0))] + tail.value;
        assert forall k :: 1 <= k < |r| ==> r[k] == tail.value[k - 1];
        Some(r)
  }

  /**
   * `show_admins(admins, section, marked_uids, accept_btn)`, and through it
   * `show_doctors`: one button per entry, in the dict's order, then the
   * selection-completed button exactly when `accept_btn`, then back.
   */
  function ShowAdmins(admins: Dict<string>, section: string, marked: Option<seq<string>>, acceptBtn: bool): (r: Option<seq<Button>>)
    ensures r.Some? <==> forall i :: 0 <= i < |admins| ==> ShortName(admins[i].1).Some?
    ensures r.Some? ==> |r.value| == |admins| + (if acceptBtn then 2 else 1)
    ensures r.Some? ==> forall i :: 0 <= i < |admins| ==>
      && r.value[i].text == Text(PersonLabel(admins[i].0, ShortName(admins[i].1).value, marked))
      && r.value[i].callback == Build(ChoosePerson, admins[i].0)
    ensures r.Some? ==> (SelectionCompletedBtn in r.value[|admins|..] <==> acceptBtn)
    ensures r.Some? ==> r.value[|r.value| - 1] == BackToMenuBtn(section)
  {
    match PersonButtons(admins, marked)
      case None => None
      case Some(buttons) =>
        var tail := if acceptBtn then [SelectionCompletedBtn, BackToMenuBtn(section)] else [BackToMenuBtn(section)];
        var r := buttons + tail;
        assert r[|admins|..] == tail;
        DataDiffer(SelectionCompletedBtn.callback, BackToMenuBtn(section).callback);
        Some(r)
  }

  /**
   * Without a selection the labels are the bare short names; with one, each
   * label's marker says whether the uid is selected.
   */
  lemma ShowAdminsMarkers(admins: Dict<string>, section: string, marked: Option<seq<string>>, acceptBtn: bool, i: nat)
    requires ShowAdmins(admins, section, marked, acceptBtn).Some? && i < |admins|
    ensures var shown := ShowAdmins(admins, section, marked, acceptBtn).value[i].text.s;
      var short := ShortName(admins[i].1).value;
      && (marked.None? ==> shown == short)
      && (marked.Some? ==> shown[2..] == short && (shown[0] == '■' <==> admins[i].0 in marked.value))
  {
    var short := ShortName(admins[i].1).value;
    if marked.Some? {
      MarkerReadable(admins[i].0 in marked.value, short);
    }
  }

  /** The callback of a person button gives back the uid key. */
  lemma PersonPickUid(admins: Dict<string>, section: string, marked: Option<seq<string>>, acceptBtn: bool, i: nat)
    requires ShowAdmins(admins, section, marked, acceptBtn).Some? && i < |admins| && Sep !in admins[i].0
    ensures Field(ShowAdmins(admins, section, marked, acceptBtn).value[i].callback, 1) == Some(admins[i].0)
  {
    FieldOfBuild(ChoosePerson, admins[i].0);
  }

  // the choice buttons of the admin flows
  const HighPrivilegeBtn := Button(Caption("high_privilege"), Build(Privilege, High))
  const LowPrivilegeBtn := Button(Caption("low_privilege"), Build(Privilege, Low))
  const PhdBtn := Button(Caption("phd"), Build(ChooseScienceDegree, Phd))
  const PrePhdBtn := Button(Caption("pre_phd"), Build(ChooseScienceDegree, PrePhd))
  const NoDegreeBtn := Button(Caption("no_specification"), Build(ChooseScienceDegree, NoSpecification))
  const HighestCategoryBtn := Button(Caption("highest_category"), Build(ChooseQualCategory, Highest))
  const FirstCategoryBtn := Button(Caption("first_category"), Build(ChooseQualCategory, First))
  const SecondCategoryBtn := Button(Caption("second_category"), Build(ChooseQualCategory, Second))
  const NoCategoryBtn := Button(Caption("no_specification"), Build(ChooseQualCategory, NoSpecification))
  const ExperienceYesBtn := Button(Caption("experience_yes"), Build(Experience, Yes))
  const ExperienceNoBtn := Button(Caption("experience_no"), Build(Experience, No))

  /** The section buttons of the update flow: the column names of the doctors table. */
  const Sections: seq<string> := [FullName, Photo, Description, Speciality, Experience, ScienceDegree, QualCategory, Price]

  function SectionButton(section: string): (b: Button)
    ensures StartsWith(b.callback, ChooseSection)
  {
    Button(Caption(section), Build(ChooseSection, section))
  }

  /** The value a choice callback hands to its handler as `split(':')[1]`. */
  function ChoiceValue(b: Button): Option<string> {
    Field(b.callback, 1)
  }

  /** Each choice button of the admin flows with the value its handler expects. */
  const Choices: seq<(Button, string)> := [
    (HighPrivilegeBtn, High), (LowPrivilegeBtn, Low),
    (PhdBtn, Phd), (PrePhdBtn, PrePhd), (NoDegreeBtn, NoSpecification),
    (HighestCategoryBtn, Highest), (FirstCategoryBtn, First), (SecondCategoryBtn, Second),
    (NoCategoryBtn, NoSpecification),
    (ExperienceYesBtn, Yes), (ExperienceNoBtn, No)]

  /** Every choice button hands its own value to the handler. */
  lemma ChoiceCallbacks(i: nat)
    requires i < |Choices|
    ensures ChoiceValue(Choices[i].0) == Some(Choices[i].1)
  {
    var (b, value) := Choices[i];
    var prefix := if i < 2 then Privilege else if i < 5 then ChooseScienceDegree
      else if i < 9 then ChooseQualCategory else Experience;
    assert b == Button(b.text, Build(prefix, value));
    assert Sep !in prefix && Sep !in value;
    FieldOfBuild(prefix, value);
  }

  /** Every section button hands its column name to the handler. */
  lemma SectionCallbacks(i: nat)
    requires i < |Sections|
    ensures ChoiceValue(SectionButton(Sections[i])) == Some(Sections[i])
  {
    assert Sep !in Sections[i];
    FieldOfBuild(ChooseSection, Sections[i]);
  }
}
