/**
 * `handlers/admin/admin_panel_nav.py`: moving between the admin menus, and
 * the "back to menu" button, which leaves any flow from any state.
 */
module AdminPanelNav {
  import opened Wrappers
  import opened Cache
  import opened Callbacks
  import opened Navigation
  import opened Fsm
  import opened ClientKb

  /** What a navigation step shows. */
  datatype Shown = Page(menu: Menu) | LackOfPrivileges | ClientMenu

  /** The page a privileged page needs, and the one every admin may open. */
  predicate Granted(page: string, uid: int, master: int, admins: Returned, privAdmins: Returned) {
    || (page in PrivilegePages && Access(uid, master, privAdmins))
    || ((page in AdminPages || page == MainMenu) && IsAdmin(uid, master, admins))
  }

  /** The decision of `admin_menu_navigation` for a requested page. */
  function NavDecision(page: string, uid: int, master: int, admins: Returned, privAdmins: Returned): (r: Shown)
    ensures r.Page? <==> Granted(page, uid, master, admins, privAdmins)
    ensures r.Page? ==> page in AdminNav && r.menu == AdminNav[page]
    ensures r == LackOfPrivileges <==> !Granted(page, uid, master, admins, privAdmins) && Holds(admins, uid)
    ensures r == ClientMenu <==> !Granted(page, uid, master, admins, privAdmins) && !Holds(admins, uid)
  {
    PageTables();
    if Granted(page, uid, master, admins, privAdmins) then Page(AdminNav[page])
    else if Holds(admins, uid) then LackOfPrivileges
    else ClientMenu
  }

  /**
   * The master admin opens every page of the admin menus; a listed admin
   * without `'high'` privilege opens the admin pages and the main menu, and
   * is warned on the privileged ones.
   */
  lemma NavByRole(page: string, uid: int, master: int, admins: Returned, privAdmins: Returned)
    ensures uid == master && page in AdminNav ==> NavDecision(page, uid, master, admins, privAdmins) == Page(AdminNav[page])
    ensures uid != master && Holds(admins, uid) && !Holds(privAdmins, uid) ==>
      (NavDecision(page, uid, master, admins, privAdmins).Page? <==> page in AdminPages || page == MainMenu)
    ensures uid != master && Holds(admins, uid) && !Holds(privAdmins, uid) && page in PrivilegePages ==>
      NavDecision(page, uid, master, admins, privAdmins) == LackOfPrivileges
    ensures uid != master && !Holds(admins, uid) && !Holds(privAdmins, uid) ==>
      NavDecision(page, uid, master, admins, privAdmins) == ClientMenu
  {
    PageTables();
  }

  /**
   * `admin_menu_navigation`: reads the admin list, takes the page from the
   * callback (`None` where `split(':')[1]` raises), and reads the privileged
   * list only for a privileged page, as the `and` short-circuits.
   */
  method AdminMenuNavigation(b: Bot, uid: int, callbackData: string) returns (r: Option<Shown>)
    modifies b.cache
    ensures var admins := Read(old(b.cache.entries), b.cache.up, b.db, AdminsKey);
      var e1 := Filled(old(b.cache.entries), b.cache.up, b.db, AdminsKey);
      match Field(callbackData, 1)
      case None => r.None? && b.cache.entries == e1
      case Some(page) =>
        if page in PrivilegePages then
          && r == Some(NavDecision(page, uid, b.master, admins, Read(e1, b.cache.up, b.db, PrivAdminsKey)))
          && b.cache.entries == Filled(e1, b.cache.up, b.db, PrivAdminsKey)
        else
          && r == Some(NavDecision(page, uid, b.master, admins, admins))
          && b.cache.entries == e1
    ensures b.cache.up == old(b.cache.up)
  {
    var admins := b.cache.Get(b.db, AdminsKey);
    var page := Field(callbackData, 1);
    if page.None? {
      return None;
    }
    var privAdmins := admins;
    if page.value in PrivilegePages {
      privAdmins := b.cache.Get(b.db, PrivAdminsKey);
    }
    r := Some(NavDecision(page.value, uid, b.master, admins, privAdmins));
  }

  /** The pages a privilege check does not concern ignore the privileged list. */
  lemma NavIgnoresPrivilegedList(page: string, uid: int, master: int, admins: Returned, p1: Returned, p2: Returned)
    requires page !in PrivilegePages
    ensures NavDecision(page, uid, master, admins, p1) == NavDecision(page, uid, master, admins, p2)
  {
  }

  /**
   * `moving_back_to_menu`: deletes the flow's extra messages up to the first
   * refusal (a missing list deletes nothing), finishes the session, and then
   * navigates to the section the button names. Under a photo the card
   * message `msgId` is deleted instead and the doctors-settings menu sent; a
   * refused deletion raises and no menu is sent.
   */
  method MovingBackToMenu(b: Bot, uid: int, callbackData: string, isPhoto: bool, msgId: int) returns (r: Option<Shown>)
    modifies b, b.cache
    ensures b.state.None? && b.data == Empty && b.db == old(b.db)
    ensures b.deleted == old(b.deleted) +
      (if old(b.data).messagesToDel.Some? then DeletedUntilFailure(old(b.data).messagesToDel.value, b.refused) else [])
      + (if isPhoto && msgId !in b.refused then [msgId] else [])
    ensures isPhoto ==>
      r == (if msgId in b.refused then None else Some(Page(DoctorsSettingsMenu))) && b.cache.entries == old(b.cache.entries)
    ensures !isPhoto && Field(callbackData, 1).Some? && Field(callbackData, 1).value !in PrivilegePages ==>
      var admins := Read(old(b.cache.entries), b.cache.up, b.db, AdminsKey);
      r == Some(NavDecision(Field(callbackData, 1).value, uid, b.master, admins, admins))
    ensures !isPhoto && Field(callbackData, 1).Some? && Field(callbackData, 1).value in PrivilegePages ==>
      var admins := Read(old(b.cache.entries), b.cache.up, b.db, AdminsKey);
      var e1 := Filled(old(b.cache.entries), b.cache.up, b.db, AdminsKey);
      r == Some(NavDecision(Field(callbackData, 1).value, uid, b.master, admins, Read(e1, b.cache.up, b.db, PrivAdminsKey)))
    ensures !isPhoto && Field(callbackData, 1).None? ==> r.None?
    ensures b.cache.up == old(b.cache.up)
  {
    if b.data.messagesToDel.Some? {
      b.DeleteUntilFailure(b.data.messagesToDel.value);
    }
    b.Finish();
    if isPhoto {
      if msgId in b.refused {
        return None;
      }
      b.deleted := b.deleted + [msgId];
      r := Some(Page(DoctorsSettingsMenu));
    } else {
      r := AdminMenuNavigation(b, uid, callbackData);
    }
  }

  /** The back button of a flow (`back_to_menu(section)`) leads to the section it names. */
  lemma BackButtonPage(section: string, uid: int, master: int, admins: Returned)
    requires Sep !in section && section !in PrivilegePages
    ensures Field(BackToMenuBtn(section).callback, 1) == Some(section)
    ensures NavDecision(section, uid, master, admins, admins).Page? <==>
      (section in AdminPages || section == MainMenu) && IsAdmin(uid, master, admins)
  {
    BackToMenuSection(section);
  }
}
