/**
 * `handlers/client/callback.py`: a two-step flow, name then phone, that ends
 * in one callback record. The name and phone steps are shared in spirit with
 * the appointment flow, which uses the same helpers.
 */
module CallbackHandlers {
  import opened Wrappers
  import opened PyText
  import opened PyInt
  import opened Db
  import opened Cache
  import opened Navigation
  import opened Processing
  import opened Validation
  import opened Fsm
  import opened Commands

  // ------------------------------------------------------------ names

  /** `' '.join(process_input(text, ' '))`: `None` where `process_input` raises. */
  function TypedName(text: string): Option<string> {
    match ProcessInput(text, ' ')
    case None => None
    case Some(words) => Some(Join(words, " "))
  }

  /** A stored name is already in normal form: typing it again stores it unchanged. */
  lemma TypedNameIdempotent(text: string)
    requires TypedName(text).Some?
    ensures TypedName(TypedName(text).value) == TypedName(text)
  {
    ProcessInputIdempotent(text, ' ', " ");
  }

  // ------------------------------------------------------------ phones

  /** What the phone step receives: typed text, or a contact shared with the button. */
  datatype PhoneMessage = TypedPhone(text: string) | SharedContact(phone: string)

  /** `re.sub(r'\D', '', text)`: the decimal digits of the text, in order. */
  function DigitsOf(s: string): (r: string)
    ensures |r| <= |s|
    ensures forall k :: 0 <= k < |r| ==> IsDigit(r[k])
  {
    if |s| == 0 then ""
    else (if IsDigit(s[0]) then [s[0]] else "") + DigitsOf(s[1..])
  }

  /** Exactly the digits of the text survive, and nothing else. */
  lemma {:induction false} DigitsOfKeeps(s: string)
    ensures forall c :: c in DigitsOf(s) <==> c in s && IsDigit(c)
  {
    if |s| > 0 {
      assert s == [s[0]] + s[1..];
      DigitsOfKeeps(s[1..]);
    }
  }

  /** Text made of digits only comes out unchanged. */
  lemma {:induction false} DigitsOfDigits(s: string)
    requires forall k :: 0 <= k < |s| ==> IsDigit(s[k])
    ensures DigitsOf(s) == s
  {
    if |s| > 0 {
      assert s == [s[0]] + s[1..];
      DigitsOfDigits(s[1..]);
    }
  }

  /** Digits typed with spaces, brackets or dashes between them come out as the bare digits. */
  lemma DigitsOfAppend(a: string, b: string)
    ensures DigitsOf(a + b) == DigitsOf(a) + DigitsOf(b)
  {
    if |a| > 0 {
      assert (a + b)[1..] == a[1..] + b;
      DigitsOfAppend(a[1..], b);
    } else {
      assert a + b == b;
    }
  }

  /**
   * The phone the step stores: a shared contact as Telegram gives it, typed
   * text only when its digits pass `check_phone`, and then in the standard
   * form — eleven digits, a leading `7`, the last ten digits typed.
   */
  function PhoneOf(m: PhoneMessage): (r: Option<string>)
    ensures m.SharedContact? ==> r == Some(m.phone)
    ensures m.TypedPhone? ==> (r.Some? <==> CheckPhone(DigitsOf(m.text)))
    ensures m.TypedPhone? && r.Some? ==>
      var digits := DigitsOf(m.text);
      && |r.value| == 11 && r.value[0] == '7'
      && (forall k :: 0 <= k < 11 ==> IsDigit(r.value[k]))
      && r.value[1..] == digits[|digits| - 10..]
  {
    match m
    case SharedContact(phone) => Some(phone)
    case TypedPhone(text) =>
      var digits := DigitsOf(text);
      if CheckPhone(digits) then
        StandardizeChecked(digits);
        Some(StandardizePhone(digits))
      else None
  }

  /** The three ways of typing one mobile number — bare, with `8`, with `+7` — store the same phone. */
  lemma PhoneFormsAgree(d: string)
    requires |d| == 10 && d[0] == '9' && forall k :: 0 <= k < 10 ==> IsDigit(d[k])
    ensures PhoneOf(TypedPhone(d)) == Some("7" + d)
    ensures PhoneOf(TypedPhone("8" + d)) == Some("7" + d)
    ensures PhoneOf(TypedPhone("+7" + d)) == Some("7" + d)
  {
    BareForm(d);
    TypedDigits(d, "8");
    TypedPhoneIs("8" + d, "8" + d);
    PlusForm(d);
  }

  /** A bare ten-digit mobile number is stored with a `7` in front. */
  lemma BareForm(d: string)
    requires |d| == 10 && d[0] == '9' && forall k :: 0 <= k < 10 ==> IsDigit(d[k])
    ensures PhoneOf(TypedPhone(d)) == Some("7" + d)
  {
    TypedDigits(d, "");
    assert "" + d == d;
    TypedPhoneIs(d, d);
  }

  /** A number typed with `+7` is stored without the `+`. */
  lemma PlusForm(d: string)
    requires |d| == 10 && d[0] == '9' && forall k :: 0 <= k < 10 ==> IsDigit(d[k])
    ensures PhoneOf(TypedPhone("+7" + d)) == Some("7" + d)
  {
    PlusDigits(d);
    TypedPhoneIs("+7" + d, "7" + d);
  }

  /** The `+` of `+7` is dropped with the other non-digits. */
  lemma PlusDigits(d: string)
    requires |d| == 10 && d[0] == '9' && forall k :: 0 <= k < 10 ==> IsDigit(d[k])
    ensures DigitsOf("+7" + d) == "7" + d && CheckPhone("7" + d) && StandardizePhone("7" + d) == "7" + d
  {
    TypedDigits(d, "7");
    DigitsOfAppend("+", "7" + d);
    assert "+7" + d == "+" + ("7" + d);
    NonDigit('+');
    assert "" + ("7" + d) == "7" + d;
  }

  /** A single non-digit is stripped entirely. */
  lemma NonDigit(c: char)
    requires !IsDigit(c)
    ensures DigitsOf([c]) == ""
  {
    assert [c][1..] == "";
  }

  /** Typed text whose digits pass `check_phone` is stored in the standard form of those digits. */
  lemma TypedPhoneIs(text: string, digits: string)
    requires DigitsOf(text) == digits && CheckPhone(digits)
    ensures PhoneOf(TypedPhone(text)) == Some(StandardizePhone(digits))
  {
  }

  /** A one-digit prefix and ten digits: the digits are the text, and the standard form keeps the ten. */
  lemma TypedDigits(d: string, pre: string)
    requires |d| == 10 && d[0] == '9' && forall k :: 0 <= k < 10 ==> IsDigit(d[k])
    requires pre == "" || pre == "7" || pre == "8"
    ensures DigitsOf(pre + d) == pre + d
    ensures CheckPhone(pre + d)
    ensures StandardizePhone(pre + d) == "7" + d
  {
    var t := pre + d;
    forall k | 0 <= k < |t| ensures IsDigit(t[k]) {
      if k >= |pre| { assert t[k] == d[k - |pre|]; }
    }
    DigitsOfDigits(t);
    if pre != "" {
      assert t[..2] == pre + [d[0]];
      assert t[1..] == d;
    }
  }

  // ------------------------------------------------------------ the flow

  /** In `name` the session knows the user; in `phone` it also holds the name. */
  predicate CbInv(s: Option<St>, d: Scratch) {
    match s
    case Some(CbName) => d.userUid.Some? && d.lastMsgId.Some?
    case Some(CbPhone) => d.userUid.Some? && d.lastMsgId.Some? && d.name.Some?
    case _ => true
  }

  /** `fill_form`: from any state the session restarts in `name`. */
  method FillForm(b: Bot, uid: int, msgId: int)
    modifies b
    ensures b.state == Some(CbName) && b.data == Empty.(lastMsgId := Some(msgId), userUid := Some(uid))
    ensures b.db == old(b.db) && b.deleted == old(b.deleted)
    ensures CbInv(b.state, b.data)
  {
    b.Finish();
    b.state := Some(CbName);
    b.data := b.data.(lastMsgId := Some(msgId), userUid := Some(uid));
  }

  /**
   * `get_name`: the name in normal form and the phone prompt are stored and
   * the state becomes `phone`. Input that `process_input` refuses, or a
   * session without its user, raises inside the proxy: nothing changes.
   */
  method GetName(b: Bot, text: string, sentId: int)
    requires b.state == Some(CbName)
    modifies b
    ensures TypedName(text).None? || old(b.data).userUid.None? ==> b.state == old(b.state) && b.data == old(b.data)
    ensures TypedName(text).Some? && old(b.data).userUid.Some? ==>
      b.state == Some(CbPhone) && b.data == old(b.data).(name := TypedName(text), lastMsgId := Some(sentId))
    ensures b.db == old(b.db) && b.deleted == old(b.deleted)
    ensures CbInv(old(b.state), old(b.data)) ==> CbInv(b.state, b.data)
  {
    var n := TypedName(text);
    if n.None? || b.data.userUid.None? {
      return;
    }
    StoreName(b, n.value, sentId);
  }

  /** Keeps the name and the phone prompt, and opens the phone question. */
  method StoreName(b: Bot, name: string, sentId: int)
    requires b.state == Some(CbName)
    modifies b
    ensures b.state == Some(CbPhone) && b.data == old(b.data).(name := Some(name), lastMsgId := Some(sentId))
    ensures b.db == old(b.db) && b.deleted == old(b.deleted)
  {
    b.data := b.data.(name := Some(name), lastMsgId := Some(sentId));
    b.state := Some(CbPhone);
  }

  /**
   * `get_phone`: typed digits that fail `check_phone` only replace the
   * prompt; an accepted phone makes exactly one callback record for the
   * session's user, finishes the session and shows that user's main menu.
   */
  method GetPhone(b: Bot, m: PhoneMessage, sentId: int, now: int) returns (menu: Option<Menu>)
    requires b.state == Some(CbPhone)
    modifies b, b.cache
    ensures var d := old(b.data);
      if d.userUid.None? then
        menu.None? && b.state == old(b.state) && b.data == d && b.db == old(b.db)
        && b.cache.entries == old(b.cache.entries)
      else if PhoneOf(m).None? then
        menu.None? && b.state == old(b.state) && b.data == d.(lastMsgId := Some(sentId)) && b.db == old(b.db)
        && b.cache.entries == old(b.cache.entries)
      else if d.name.None? then
        menu.None? && b.state == old(b.state) && b.data == d && b.db == old(b.db)
        && b.cache.entries == old(b.cache.entries)
      else
        && b.db == CreateCallback(old(b.db), d.userUid.value, now)
        && b.state.None? && b.data == Empty
        && menu == Some(MainMenuFor(d.userUid.value, b.master, Read(old(b.cache.entries), b.cache.up, b.db, AdminsKey)))
        && b.cache.entries == Filled(old(b.cache.entries), b.cache.up, b.db, AdminsKey)
    ensures b.deleted == old(b.deleted) && b.cache.up == old(b.cache.up)
    ensures old(CacheInv(b)) ==> CacheInv(b)
    ensures CbInv(old(b.state), old(b.data)) ==> CbInv(b.state, b.data)
  {
    ghost var e0 := b.cache.entries;
    ghost var db0 := b.db;
    if b.data.userUid.None? {
      return None;
    }
    var u := b.data.userUid.value;
    var phone := PhoneOf(m);
    if phone.None? {
      b.data := b.data.(lastMsgId := Some(sentId));
      return None;
    }
    if b.data.name.None? {
      return None;
    }
    b.db := CreateCallback(b.db, u, now);
    if b.cache.up && CoherentWith(e0, db0) {
      CoherentAfterOtherWrite(e0, db0, b.db);
      ReadCoherent(e0, b.cache.up, b.db, AdminsKey);
    }
    var admin := AdminCheck(b, u);
    menu := Some(if admin then MainMenuAdmin else MainMenuClient);
    b.Finish();
  }
}
