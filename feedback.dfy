/**
 * `handlers/client/feedback.py`: a one-step flow. The user is asked for a
 * message; the message is stored as one feedback record and the session
 * ends with the main menu the user is entitled to.
 */
module FeedbackHandlers {
  import opened Wrappers
  import opened Db
  import opened Cache
  import opened Navigation
  import opened Fsm
  import opened Commands

  /** In `feedback` the session knows the user and the prompt to clear. */
  predicate FbInv(s: Option<St>, d: Scratch) {
    s == Some(FbFeedback) ==> d.userUid.Some? && d.lastMsgId.Some?
  }

  /** `leave_feedback`: from any state the session restarts in `feedback`. */
  method LeaveFeedback(b: Bot, uid: int, msgId: int)
    modifies b
    ensures b.state == Some(FbFeedback) && b.data == Empty.(lastMsgId := Some(msgId), userUid := Some(uid))
    ensures b.db == old(b.db) && b.deleted == old(b.deleted)
    ensures FbInv(b.state, b.data)
  {
    b.Finish();
    b.state := Some(FbFeedback);
    b.data := b.data.(lastMsgId := Some(msgId), userUid := Some(uid));
  }

  /**
   * `get_message`: one feedback record in the name of the session's user,
   * then the end of the session and the main menu for that user. Without a
   * user in the session the handler raises before any write.
   */
  method GetMessage(b: Bot, text: string, now: int) returns (menu: Option<Menu>)
    requires b.state == Some(FbFeedback)
    modifies b, b.cache
    ensures old(b.data).userUid.None? ==>
      && menu.None? && b.state == old(b.state) && b.data == old(b.data) && b.db == old(b.db)
      && b.cache.entries == old(b.cache.entries)
    ensures old(b.data).userUid.Some? ==>
      var u := old(b.data).userUid.value;
      && b.db == CreateFeedback(old(b.db), u, text, now)
      && b.state.None? && b.data == Empty
      && menu == Some(MainMenuFor(u, b.master, Read(old(b.cache.entries), b.cache.up, b.db, AdminsKey)))
      && b.cache.entries == Filled(old(b.cache.entries), b.cache.up, b.db, AdminsKey)
    ensures b.deleted == old(b.deleted) && b.cache.up == old(b.cache.up)
    ensures old(CacheInv(b)) ==> CacheInv(b)
  {
    ghost var e0 := b.cache.entries;
    ghost var db0 := b.db;
    if b.data.userUid.None? {
      return None;
    }
    var u := b.data.userUid.value;
    b.db := CreateFeedback(b.db, u, text, now);
    if b.cache.up && CoherentWith(e0, db0) {
      CoherentAfterOtherWrite(e0, db0, b.db);
      ReadCoherent(e0, b.cache.up, b.db, AdminsKey);
    }
    var admin := AdminCheck(b, u);
    menu := Some(if admin then MainMenuAdmin else MainMenuClient);
    b.Finish();
  }
}
