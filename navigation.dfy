/**
 * Menu navigation and access control (`keyboards/navigation.py`): the page
 * tables, the two page classes, and the admin and access checks, which read
 * the admin lists from the cache.
 */
module Navigation {
  import opened Wrappers
  import opened Db
  import opened Cache
  import opened Callbacks

  /** The menu keyboards a navigation step can show. */
  datatype Menu = MainMenuAdmin | AdminPanelMenu | StatisticsMenu | DoctorsSettingsMenu | AdminsConfigMenu | MainMenuClient

  /** `admin_nav`. */
  const AdminNav: map<string, Menu> := map[
    MainMenu := MainMenuAdmin,
    AdminPanel := AdminPanelMenu,
    Statistics := StatisticsMenu,
    DoctorsSettings := DoctorsSettingsMenu,
    Admins := AdminsConfigMenu]

  /** `client_nav`. */
  const ClientNav: map<string, Menu> := map[MainMenu := MainMenuClient]

  /** `admin_pages`: pages for every admin. */
  const AdminPages: set<string> := {AdminPanel, DoctorsSettings}

  /** `privilege_pages`: pages for the master admin and the `'high'` admins. */
  const PrivilegePages: set<string> := {Statistics, Admins}

  /** The two page classes are disjoint and, with the main menu, are exactly the pages `admin_nav` knows. */
  lemma PageTables()
    ensures AdminPages !! PrivilegePages
    ensures AdminNav.Keys == AdminPages + PrivilegePages + {MainMenu}
    ensures MainMenu !in AdminPages + PrivilegePages
    ensures ClientNav.Keys == {MainMenu} && ClientNav[MainMenu] == MainMenuClient
  {
    assert AdminPanel[0] == 'a' && DoctorsSettings[0] == 'd' && Statistics[0] == 's' && Admins[0] == 'a' && MainMenu[0] == 'm';
    assert AdminPanel[1] == 'd' && Admins[1] == 'd' && AdminPanel[2] == 'm' && Admins[2] == 'm' && AdminPanel[3] == 'i' && Admins[3] == 'i';
    assert AdminPanel[4] == 'n' && Admins[4] == 'n' && AdminPanel[5] == ' ' && Admins[5] == 's';
  }

  /** `user_uid == MASTER_ADMIN or user_uid in admins`, on the value read from the cache. */
  predicate IsAdmin(uid: int, master: int, admins: Returned) {
    uid == master || Holds(admins, uid)
  }

  /** `check_access(user_uid)`, on the value read from the cache. */
  predicate Access(uid: int, master: int, privAdmins: Returned) {
    uid == master || Holds(privAdmins, uid)
  }

  /** `check_access(user_uid)`: reads `priv_admins` through the cache. */
  method CheckAccess(cache: CacheStore, db: Db, master: int, uid: int) returns (ok: bool)
    modifies cache
    ensures ok == Access(uid, master, Read(old(cache.entries), cache.up, db, PrivAdminsKey))
    ensures cache.entries == Filled(old(cache.entries), cache.up, db, PrivAdminsKey) && cache.up == old(cache.up)
  {
    var privAdmins := cache.Get(db, PrivAdminsKey);
    ok := uid == master || Holds(privAdmins, uid);
  }

  /** With a coherent cache whose server answers, the access check admits the master and the `'high'` admins, and no one else. */
  lemma AccessMeaning(entries: map<Key, Entry>, up: bool, db: Db, master: int, uid: int)
    requires up && CoherentWith(entries, db)
    ensures Access(uid, master, Read(entries, up, db, PrivAdminsKey)) <==>
      uid == master || exists x :: x in db.admins && x.uid == uid && x.privilege == HighPrivilege
  {
    ReadCoherent(entries, up, db, PrivAdminsKey);
    AdminIdsListed(db, Some(HighPrivilege), uid);
  }

  /** With a coherent cache whose server answers, the admin check admits the master and every listed admin, and no one else. */
  lemma AdminMeaning(entries: map<Key, Entry>, up: bool, db: Db, master: int, uid: int)
    requires up && CoherentWith(entries, db)
    ensures IsAdmin(uid, master, Read(entries, up, db, AdminsKey)) <==>
      uid == master || exists x :: x in db.admins && x.uid == uid
  {
    ReadCoherent(entries, up, db, AdminsKey);
    AdminIdsListed(db, None, uid);
  }

  /**
   * With the cache server down, `get_cache` as written hands back a
   * one-tuple: both checks then admit the master admin and no one else,
   * whatever the database lists.
   */
  lemma DownAsWritten(db: Db, master: int, uid: int)
    ensures IsAdmin(uid, master, FallbackAsWritten(db, AdminsKey)) <==> uid == master
    ensures Access(uid, master, FallbackAsWritten(db, PrivAdminsKey)) <==> uid == master
  {
  }

  /**
   * With the cache server down, the model reads the corrected fallback:
   * both checks then answer from the database, as with a coherent cache.
   */
  lemma DownCorrected(entries: map<Key, Entry>, db: Db, master: int, uid: int)
    ensures IsAdmin(uid, master, Read(entries, false, db, AdminsKey)) <==>
      uid == master || exists x :: x in db.admins && x.uid == uid
    ensures Access(uid, master, Read(entries, false, db, PrivAdminsKey)) <==>
      uid == master || exists x :: x in db.admins && x.uid == uid && x.privilege == HighPrivilege
  {
    ReadDown(entries, db, AdminsKey);
    ReadDown(entries, db, PrivAdminsKey);
    AdminIdsListed(db, None, uid);
    AdminIdsListed(db, Some(HighPrivilege), uid);
  }

  /** Whoever passes the access check passes the admin check. */
  lemma AccessImpliesAdmin(entries: map<Key, Entry>, up: bool, db: Db, master: int, uid: int)
    requires !up || CoherentWith(entries, db)
    requires Access(uid, master, Read(entries, up, db, PrivAdminsKey))
    ensures IsAdmin(uid, master, Read(entries, up, db, AdminsKey))
  {
    if up {
      AccessMeaning(entries, up, db, master, uid);
      AdminMeaning(entries, up, db, master, uid);
    } else {
      DownCorrected(entries, db, master, uid);
    }
  }
}
