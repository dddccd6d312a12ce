/**
 * `handlers/commands.py`: the `/start` command and its text triggers. From
 * any state it clears the leftover messages of an unfinished flow, finishes
 * the session and shows the main menu the user is entitled to.
 */
module Commands {
  import opened Wrappers
  import opened PyText
  import opened Cache
  import opened Navigation
  import opened Fsm

  /** `ButtonText.start`. */
  const StartButton := "ГЛАВНОЕ МЕНЮ"

  /** The words the text filter accepts, in lower case. */
  const TriggerWords: seq<string> := ["старт", "start", "меню", "menu", Lower(StartButton)]

  /** `msg.text.lower() in [...]`. */
  predicate IsTrigger(text: string) {
    Lower(text) in TriggerWords
  }

  /** The filter ignores case, and accepts the start button's own text. */
  lemma TriggerIgnoresCase(text: string)
    ensures IsTrigger(text) <==> IsTrigger(Lower(text))
    ensures IsTrigger("Start") && IsTrigger("МЕНЮ") && IsTrigger(StartButton)
    ensures !IsTrigger("start now")
  {
    LowerIsLowered(text);
    LowerOfLowered(Lower(text));
    assert Lower("Start") == "start";
    assert Lower("МЕНЮ") == "меню";
    assert |Lower("start now")| == 9 && |Lower(StartButton)| == 12;
  }

  /** The messages `del_messages` deletes: `last_msg_id` if Telegram accepts it, then `messages_to_del` up to the first refusal. */
  function CleanupDeletes(d: Scratch, refused: set<int>): (r: seq<int>)
    ensures d.lastMsgId.None? && d.messagesToDel.None? ==> r == []
    ensures forall k :: 0 <= k < |r| ==> r[k] !in refused
  {
    var first := if d.lastMsgId.Some? && d.lastMsgId.value !in refused then [d.lastMsgId.value] else [];
    var rest := if d.messagesToDel.Some? then DeletedUntilFailure(d.messagesToDel.value, refused) else [];
    assert forall k :: |first| <= k < |first + rest| ==> (first + rest)[k] == rest[k - |first|];
    first + rest
  }

  /**
   * `del_messages`: a missing key or a refused deletion is swallowed; only
   * the deletions that succeed are made, and nothing else changes.
   */
  method DelMessages(b: Bot)
    modifies b
    ensures b.deleted == old(b.deleted) + CleanupDeletes(old(b.data), b.refused)
    ensures b.state == old(b.state) && b.data == old(b.data) && b.db == old(b.db)
  {
    var d := b.data;
    if d.lastMsgId.Some? && d.lastMsgId.value !in b.refused {
      b.deleted := b.deleted + [d.lastMsgId.value];
    }
    if d.messagesToDel.Some? {
      b.DeleteUntilFailure(d.messagesToDel.value);
    }
  }

  /** The main menu `start` sends: the admin one for the master admin and the cached admins. */
  function MainMenuFor(uid: int, master: int, admins: Returned): (m: Menu)
    ensures m == MainMenuAdmin <==> IsAdmin(uid, master, admins)
    ensures m == MainMenuAdmin || m == MainMenuClient
  {
    if uid == master || Holds(admins, uid) then MainMenuAdmin else MainMenuClient
  }

  /**
   * `start`: from any state, the session is finished; leftover messages are
   * deleted only when a state was set. The `/start` message is then deleted:
   * a refusal raises before the admin list is read and no menu is sent.
   * Otherwise the menu depends on the admin list read through the cache.
   */
  method Start(b: Bot, uid: int, msgId: int) returns (menu: Option<Menu>)
    modifies b, b.cache
    ensures b.state.None? && b.data == Empty && b.db == old(b.db)
    ensures b.deleted == old(b.deleted) + (if old(b.state).Some? then CleanupDeletes(old(b.data), b.refused) else [])
      + (if msgId in b.refused then [] else [msgId])
    ensures menu.None? <==> msgId in b.refused
    ensures menu.Some? ==> menu.value == MainMenuFor(uid, b.master, Read(old(b.cache.entries), b.cache.up, b.db, AdminsKey))
    ensures b.cache.entries == (if msgId in b.refused then old(b.cache.entries)
      else Filled(old(b.cache.entries), b.cache.up, b.db, AdminsKey))
    ensures b.cache.up == old(b.cache.up)
  {
    if b.state.Some? {
      DelMessages(b);
    }
    b.Finish();
    if msgId in b.refused {
      return None;
    }
    b.deleted := b.deleted + [msgId];
    var admin := AdminCheck(b, uid);
    menu := Some(if admin then MainMenuAdmin else MainMenuClient);
  }

  /** With a coherent cache whose server answers, the admin menu goes exactly to the master and the listed admins. */
  lemma StartMenuMeaning(entries: map<Key, Entry>, up: bool, db: Db.Db, master: int, uid: int)
    requires up && CoherentWith(entries, db)
    ensures MainMenuFor(uid, master, Read(entries, up, db, AdminsKey)) == MainMenuAdmin <==>
      uid == master || exists x :: x in db.admins && x.uid == uid
  {
    AdminMeaning(entries, up, db, master, uid);
  }
}
