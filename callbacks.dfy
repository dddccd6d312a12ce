/**
 * Callback strings of the inline buttons (`CallbackData` in the enums):
 * a choice button carries `prefix + ':' + value`, and the handler reads
 * `value` back as the second `':'`-separated field.
 */
module Callbacks {
  import opened Wrappers
  import opened PyText

  const Sep: char := ':'

  // main menu
  const AppointmentRequest := "appointment request"
  const CallbackRequest := "callback request"
  const LeaveFeedback := "leave feedback"
  const ShowContacts := "show all contacts"
  const SendInstruction := "send user instruction"
  const AdminPanel := "admin panel"
  // admin panel
  const DoctorsSettings := "doctors settings menu"
  const Statistics := "statistics menu"
  const Admins := "admins config menu"
  // doctors settings menu
  const CreateDoctor := "create doctor"
  const UpdateDoctor := "update doctor"
  const DeleteDoctor := "del doctor"
  const ShowDoctor := "show_doctor"
  // admins config menu
  const CreateAdmin := "create admin"
  const DeleteAdmin := "del admin"
  // navigation
  const MainMenu := "main menu"
  const AdminMenuNav := "admin navigation"
  const BackToMenu := "back to menu"
  const Prev := "prev"
  const Next := "next"
  const PrevNext := "prev-next"
  // statistics periods
  const Day := "день"
  const Week := "неделя"
  const Month := "месяц"
  const Quarter := "квартал"
  const Year := "год"
  const CustomStatistics := "custom statistics"
  // appointment
  const ChooseOffline := "choose offline cons"
  const ChooseOnline := "choose online cons"
  const ChooseCall := "choose call"
  const ChooseChat := "choose chat"
  const InitializePayment := "initialize payment"
  // general
  const Confirmation := "confirm the action"
  const ChangeChoice := "change the choice"
  const SelectionCompleted := "selection completed"
  const Yes := "yes"
  const No := "no"
  // doctor creation and update
  const Doctor := "doc"
  const SpecialityTitle := "spec. title"
  const ChooseSection := "choose section"
  const Edit := "edit doc info"
  const ChangeInfo := "change doc info"
  const CurValue := "cur_value"
  const NewSpecialities := "add new specialities"
  const AddSpecialities := "add specialities"
  const DeleteSpecialities := "delete specialities"
  const BackToDoctors := "back to doctors"
  const ChooseScienceDegree := "choose science degree"
  const ChooseQualCategory := "choose qual category"
  const NoSpecification := "no specification"
  // admin creation and deletion
  const Privilege := "privilege"
  const High := "high"
  const Low := "low"
  const ChoosePerson := "choose person"
  // doctor info sections, named as the columns of the doctors table
  const Photo := "photo"
  const FullName := "full_name"
  const Description := "description"
  const SpecialityId := "speciality_id"
  const Speciality := "speciality"
  const Experience := "experience"
  const ScienceDegree := "science_degree"
  const QualCategory := "qual_category"
  const Price := "price"
  // science degrees and qualification categories
  const Phd := "Доктор мед. наук"
  const PrePhd := "Кандидат мед. наук"
  const Highest := "Высшая"
  const First := "Первая"
  const Second := "Вторая"

  /** `prefix + ':' + value`. */
  function Build(prefix: string, value: string): (data: string)
    ensures |data| == |prefix| + 1 + |value|
  {
    prefix + [Sep] + value
  }

  /** `data.split(':')[i]`: `None` where Python raises `IndexError`. */
  function Field(data: string, i: nat): (r: Option<string>)
    ensures r.Some? <==> i <= multiset(data)[Sep]
    ensures r.Some? ==> Sep !in r.value
  {
    var parts := Split(data, Sep);
    if i < |parts| then Some(parts[i]) else None
  }

  /** The handler reads back both halves of a choice button's callback. */
  lemma FieldOfBuild(prefix: string, value: string)
    requires Sep !in prefix && Sep !in value
    ensures Field(Build(prefix, value), 0) == Some(prefix)
    ensures Field(Build(prefix, value), 1) == Some(value)
    ensures Field(Build(prefix, value), 2) == None
  {
    SplitAt(prefix, value, Sep);
    SplitWithout(value, Sep);
  }

  /** A callback string starts with a prefix, as the `startswith` filters test. */
  predicate StartsWith(data: string, prefix: string) {
    |prefix| <= |data| && data[..|prefix|] == prefix
  }

  lemma BuildStartsWith(prefix: string, value: string)
    ensures StartsWith(Build(prefix, value), prefix)
  {
  }
}
