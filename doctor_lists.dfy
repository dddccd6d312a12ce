/**
 * The doctor lists the delete, show and update flows keep in the session:
 * `get_doctors()` numbered by `enumerate`, once as `{'name', 'photo'}`
 * records and once as the names the list keyboard shows. A listed doctor is
 * a (photo, name) pair, so the names, in list order, are `Values(list)`.
 */
module DoctorLists {
  import opened Wrappers
  import opened PyInt
  import opened ODict
  import opened Fsm

  /** The records of the listed doctors, in list order. */
  function Refs(list: seq<(string, string)>): (rs: seq<DoctorRef>)
    ensures |rs| == |list| && forall i :: 0 <= i < |list| ==> rs[i] == DoctorRef(list[i].1, list[i].0)
  {
    seq(|list|, i requires 0 <= i < |list| => DoctorRef(list[i].1, list[i].0))
  }

  /**
   * The loop over `enumerate(doctors)`: entry `str(i)` of both dicts is the
   * `i`-th listed doctor.
   */
  method FillDoctorDicts(list: seq<(string, string)>) returns (doctors: Dict<DoctorRef>, pool: Dict<string>)
    ensures doctors == Enumerate(Refs(list)) && pool == Enumerate(Values(list))
  {
    doctors, pool := [], [];
    var i := 0;
    while i < |list|
      invariant 0 <= i <= |list|
      invariant doctors == Enumerate(Refs(list)[..i]) && pool == Enumerate(Values(list)[..i])
    {
      EnumerateSnoc(Refs(list)[..i], DoctorRef(list[i].1, list[i].0));
      EnumerateSnoc(Values(list)[..i], list[i].1);
      assert Refs(list)[..i + 1] == Refs(list)[..i] + [DoctorRef(list[i].1, list[i].0)];
      assert Values(list)[..i + 1] == Values(list)[..i] + [list[i].1];
      doctors := Put(doctors, NatToString(i), DoctorRef(list[i].1, list[i].0));
      pool := Put(pool, NatToString(i), list[i].1);
      i := i + 1;
    }
    assert Refs(list)[..i] == Refs(list) && Values(list)[..i] == Values(list);
  }

  /**
   * The two dicts have the same keys, `'0'`, `'1'`, ..., and under each key
   * the keyboard's name is the record's name: a button picks the doctor it
   * shows.
   */
  lemma DictsAgree(list: seq<(string, string)>)
    ensures var d := Enumerate(Refs(list)); var p := Enumerate(Values(list));
      && Keys(d) == Keys(p) && UniqueKeys(d)
      && forall i :: 0 <= i < |list| ==>
        Get(d, NatToString(i)) == Some(DoctorRef(list[i].1, list[i].0)) && Get(p, NatToString(i)) == Some(list[i].1)
  {
    EnumerateUnique(Refs(list));
    forall i | 0 <= i < |list|
      ensures Get(Enumerate(Refs(list)), NatToString(i)) == Some(DoctorRef(list[i].1, list[i].0))
      ensures Get(Enumerate(Values(list)), NatToString(i)) == Some(list[i].1)
    {
      EnumerateGet(Refs(list), i);
      EnumerateGet(Values(list), i);
    }
  }
}
