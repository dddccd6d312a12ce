# A verified model of a clinic's Telegram bot

The bot (built on aiogram 2) serves two audiences. Clients browse the
clinic's specialities and doctors, book a paid online appointment, ask for a
call back, and leave feedback. Admins add, edit, show and delete doctors,
add and remove other admins, and read visit statistics. Every conversation
is a finite-state machine: aiogram keeps a state and a scratch dictionary
per chat. Handlers are picked by the first registered route whose filters
accept the update. Lists that change rarely (admins, privileged admins, the
speciality catalogue) are read through a cache with a database fallback.

This project models that core in Dafny:

- **Helpers.** `PyText`, `PyInt` and `PyList` model the Python string,
  integer and list primitives the source relies on: `split`, `strip`,
  `lower`, `re.sub`, `int()`, `str()`, `index`, `remove`. `ODict` models the
  session's string-keyed dictionaries. `Processing` and `Validation` model
  `src/core`.
- **Keyboards and data.** `Callbacks`, `Navigation`, `ClientKb` and
  `AdminKb` build the keyboards and callback strings. Each is proved to be
  read back correctly by the handler that parses it.
- **Database and cache.** `Db` models the tables and queries. `Cache` models
  the read-through cache as a map plus a "server up" flag.
- **Sessions.** `Fsm` holds the session state, the scratch data and the
  `Bot` class. Its fields are the chat's state and data, the database, the
  deleted messages and the cache. It also holds the master admin's uid
  (`MASTER_ADMIN`) and `refused`, the messages Telegram will not delete.
- **Handlers.** One module per handler file. Each handler is a method on a
  `Bot`, proved against specification functions of the old state. Lemmas
  beside those functions state what the source promises: access checks,
  round trips, invariants the flows keep, and what changes in the database.
- **Dispatch.** `Dispatcher` models first-match dispatch. `Routing` models
  the fourteen `register_handlers` tables in their registration order and
  proves where concrete updates go.

Telegram and the outside world become parameters of the handlers:

- the ids of sent messages (`sentId`);
- the messages that cannot be deleted;
- the current time;
- whether a video-conference link could be made (`linkOk`).

## Model

| member | source | states |
|---|---|---|
| Validation.CheckPhone | src/core/validation.py:1-10 | accepted exactly when ten characters starting with `9`, or eleven starting with `79` or `89` |
| Validation.CheckPhoneLength | src/core/validation.py:4 | an accepted number has ten or eleven characters |
| Validation.CheckPhoneIgnoresTail | src/core/validation.py:2-10 | only length and prefix are looked at: `9---------` and `79abcdefghi` pass |
| Validation.CheckInteger | src/core/validation.py:13-18 | true exactly when the stripped text is an integer literal `int()` accepts (sign, digits, single underscores) |
| Validation.CheckIntegerAcceptsSign | src/core/validation.py:13-18 | `"-5"` is accepted |
| Validation.CheckIntegerAcceptsSpace | src/core/validation.py:13-18 | `" 7 "` is accepted |
| Validation.CheckIntegerNeedsADigit | src/core/validation.py:14-18 | a text without a decimal digit gives false rather than an error |
| Validation.CheckIntegerOfInt | src/core/validation.py:13-18 | whatever `str` writes for an integer is accepted |
| PyInt.IntRoundTrip | src/core/validation.py:15 | `int(str(n)) == n` for every integer |
| PyInt.ParseIntNeedsADigit | src/core/validation.py:15 | `int()` rejects a text with no decimal digit |
| Processing.ProcessInput | src/core/processing.py:5-14 | fails exactly when some stripped piece of the cleaned, lowered text is empty; otherwise one field per piece |
| Processing.ProcessInputCount | src/core/processing.py:9-10 | the number of fields is the number of delimiters in the cleaned text plus one |
| Processing.ProcessInputBlank | src/core/processing.py:12 | blank input fails at `el[0]` |
| Processing.ProcessInputEmptyField | src/core/processing.py:12 | two delimiters in a row in the cleaned text make the call fail |
| Processing.CleanCollapsed | src/core/processing.py:9 | the cleaned text has single spaces only |
| Processing.ProcessInputFields | src/core/processing.py:10-12 | every field is non-empty, collapsed, free of the delimiter, capitalised, with no space at its ends |
| Processing.ReprocessFields | src/core/processing.py:9-12 | processing the fields joined with `' '` (names) or `', '` (lists) gives the same fields back |
| Processing.ProcessInputIdempotent | src/core/processing.py:9-12 | processing is idempotent through that re-join |
| Processing.CleanOfJoin | src/core/processing.py:9 | joined fields are already clean |
| Processing.PiecesOfJoin | src/core/processing.py:10-11 | the pieces of joined fields are the lowered fields |
| Processing.CapitalizeLowerField | src/core/processing.py:12 | capitalising a lowered field gives the field back |
| Processing.SplitJoinComma | src/core/processing.py:10 | cutting a `', '`-join at the commas gives the words, each after the first with its leading space |
| Processing.TransformName | src/core/processing.py:17-26 | the accumulating loop computes `ShortName`, failing where the source fails on an empty word |
| Processing.ShortNameShape | src/core/processing.py:21-24 | the first word is kept whole and followed by a space; word `k` after it contributes its initial and a dot at offset `2k` |
| Processing.ShortNameOfProcessed | src/core/processing.py:17-26 | a name stored as processed words always abbreviates |
| Processing.ShortNameExample | src/core/processing.py:17-26 | `"A B C"` becomes `"A B.C."` |
| Processing.InitialsAt | src/core/processing.py:23-24 | each further word gives its first character then `'.'` |
| Processing.StandardizePhone | src/core/processing.py:29-33 | the result starts with `7` |
| Processing.StandardizeChecked | src/core/processing.py:29-33 | an accepted number becomes eleven characters: `7` followed by its last ten |
| PyList.Index | src/handlers/admin/update_doctor.py:216 | `index` finds the first position of the element, or fails exactly when it is absent |
| PyList.IndexOfFirst | src/handlers/admin/create_doctor.py:485 | no occurrence comes before the position `index` returns |
| PyList.IndexOfNoDup | src/handlers/admin/update_doctor.py:762 | in a list without repeats `index` returns the position the element was read from |
| PyList.RemoveFirst | src/handlers/admin/update_doctor.py:763-764 | `remove` takes exactly one copy of the element out, or fails exactly when it is absent |
| PyList.RemoveAtMultiset | src/handlers/admin/update_doctor.py:763-764 | deleting position `i` removes exactly that element from the multiset |
| PyList.Toggle | src/handlers/admin/create_doctor.py:93-97 | a selected title is removed, an unselected one added: the multiset changes by exactly that title |
| PyList.ToggleKeepsNoDup | src/handlers/admin/create_doctor.py:93-97 | the selection stays free of repeats |
| PyList.ToggleTwiceAbsent | src/handlers/admin/create_doctor.py:93-97 | selecting then deselecting a title restores the list exactly |
| PyList.ToggleTwicePresent | src/handlers/admin/create_doctor.py:93-97 | deselecting then reselecting keeps the same titles, that one moved to the end |
| PyList.Dedup | src/handlers/admin/create_doctor.py:151 | one possible value of `list(set(...))`: no repeats and the same elements |
| PyList.DedupNonEmpty | src/handlers/admin/create_doctor.py:151 | deduplicating a non-empty selection leaves it non-empty |
| ODict.Get | src/handlers/admin/delete_doctor.py:85-90 | a key reads a value exactly when it is present |
| ODict.GetPut | src/handlers/admin/delete_doctor.py:88-90 | after `d[k] = v`, `k` reads `v` and every other key reads as before |
| ODict.GetRemove | src/handlers/admin/delete_doctor.py:86 | after `del d[k]`, `k` is absent and every other key reads as before |
| ODict.PutKeys | src/handlers/admin/delete_doctor.py:88 | an existing key keeps its place, a new key goes last |
| ODict.RemoveAppended | src/handlers/admin/delete_doctor.py:86-90 | removing a key that was just appended gives the dict back |
| ODict.Enumerate | src/handlers/client/appointment.py:92 | `dict(enumerate(s))` holds the values of `s` in order |
| ODict.EnumerateGet | src/handlers/client/appointment.py:92 | key `str(i)` reads the `i`-th element |
| ODict.EnumerateUnique | src/handlers/client/appointment.py:92 | the enumerated dict has no repeated key |
| ODict.EnumerateSnoc | src/handlers/client/appointment.py:92 | filling the dict one index at a time builds the same dict |
| ODict.ToggleEntry | src/handlers/admin/delete_doctor.py:85-90 | a chosen key is removed, otherwise it is added with its value from the pool; other keys untouched; a key in neither is a `KeyError` |
| ODict.ToggleEntryInvariant | src/handlers/admin/delete_doctor.py:85-90 | the chosen entries stay a duplicate-free part of the pool |
| ODict.ToggleEntryTwice | src/handlers/admin/delete_doctor.py:85-90 | toggling one key twice restores the chosen dict (as Python's dict equality) |
| Sorting.SortBy | src/db/query.py:125-132 | ordering the rows keeps the same rows |
| Sorting.SortBySorted | src/db/query.py:125-132 | the result is in ascending code-point order of its key |
| Sorting.StrLeTotal | src/db/query.py:128 | any two titles are comparable |
| Sorting.StrLeTrans | src/db/query.py:128 | the title order is transitive |
| Callbacks.Build | src/keyboards/admin_kb.py:132-139 | a choice callback is the prefix, the separator, then the value |
| Callbacks.Field | src/handlers/admin/create_admin.py:177 | `split(':')[i]` exists exactly when the text has at least `i` separators, and holds no separator |
| Callbacks.FieldOfBuild | src/handlers/admin/create_admin.py:177 | on separator-free parts, field 0 is the prefix, field 1 the value, and there is no field 2 |
| Callbacks.BuildStartsWith | src/handlers/client/appointment.py:784-787 | a built callback passes the `startswith(prefix)` filter of its handler |
| ClientKb.BackToMenuBtn | src/keyboards/client_kb.py:74-78 | the back button's callback starts with the back-to-menu prefix |
| ClientKb.BackToMenuSection | src/keyboards/client_kb.py:74-78 | `split(':')[1]` of the back button recovers the section |
| ClientKb.PageButtons | src/keyboards/client_kb.py:81-89 | the next button carries `page + 1`, the prev button `page - 1`, read back with `int(split(':')[1])` |
| ClientKb.GenerateSpecialityButtons | src/keyboards/client_kb.py:130-135 | exactly `i2 - i1` buttons, button `k` showing `s[str(i1 + k)]` with callback `spec. title:str(i1 + k)`; a missing key is a `KeyError` |
| ClientKb.GenerateSpecialityMenu | src/keyboards/client_kb.py:138-159 | the speciality buttons come first and every variant ends with back-to-main-menu |
| ClientKb.SpecialityMenuNavigation | src/keyboards/client_kb.py:138-159 | a next button exactly for `next` and `prev-next`, a prev button exactly for `prev` and `prev-next`, nothing else between |
| AdminKb.Marker | src/keyboards/admin_kb.py:290 | a two-character marker ending in a space |
| AdminKb.MarkerReadable | src/keyboards/admin_kb.py:290 | the label starts with `■` exactly when marked, and the name follows the marker |
| AdminKb.StepBackButton | src/keyboards/admin_kb.py:190-194 | the step-back button's callback is the section itself |
| AdminKb.SpecialityPickButtons | src/keyboards/admin_kb.py:286-292 | one button per speciality, in order, marked iff selected, with callback `spec. title:ids[i]` |
| AdminKb.ShowSpecialities | src/keyboards/admin_kb.py:286-306 | those buttons, then the add-new button unless deleting, then selection-completed and back |
| AdminKb.SpecialityPickId | src/keyboards/admin_kb.py:291 | `split(':')[1]` of button `i` recovers `ids[i]` |
| AdminKb.ShowDocSpecialities | src/keyboards/admin_kb.py:309-318 | `specialities[i]` is paired with `ids[i]` index for index, then the closing buttons |
| AdminKb.PersonButtons | src/keyboards/admin_kb.py:323-327 | one button per person in dict order, labelled with the abbreviated name and the marker, callback carrying the uid |
| AdminKb.ShowAdmins | src/keyboards/admin_kb.py:321-337 | the person buttons, then selection-completed exactly when `accept_btn`, then back |
| AdminKb.ShowAdminsMarkers | src/keyboards/admin_kb.py:324-325 | no marker when `marked_uids` is `None`; otherwise the marker tells whether the uid is marked |
| AdminKb.PersonPickUid | src/keyboards/admin_kb.py:326 | `split(':')[1]` of button `i` recovers the uid |
| AdminKb.SectionButton | src/keyboards/admin_kb.py:140-171 | a section button's callback starts with the choose-section prefix |
| AdminKb.ChoiceCallbacks | src/keyboards/admin_kb.py:84-139 | every privilege, degree, category and experience button hands its own value to the handler |
| AdminKb.SectionCallbacks | src/keyboards/admin_kb.py:140-171 | every section button hands its column name to the handler |
| Navigation.PageTables | src/keyboards/navigation.py:14-37 | admin and privilege pages are disjoint, every one of them and the main menu is a key of `admin_nav`, and `client_nav` holds only the main menu |
| Navigation.CheckAccess | src/keyboards/navigation.py:41-46 | access is granted exactly to the master admin or a cached privileged admin; the cache is filled on a miss |
| Navigation.AccessMeaning | src/keyboards/navigation.py:41-46 | with a coherent cache whose server answers, access means master or an admin row with high privilege |
| Navigation.AdminMeaning | src/handlers/commands.py:41-43 | with a coherent cache whose server answers, being an admin means master or an admin row |
| Navigation.DownAsWritten | src/utils/cache/functions.py:37-39 | with the cache server down, the one-tuple `get_cache` returns as written admits the master admin to both checks and no one else |
| Navigation.DownCorrected | src/utils/cache/functions.py:37-39 | with the cache server down, the corrected fallback the model reads answers both checks from the database |
| Navigation.AccessImpliesAdmin | src/keyboards/navigation.py:41-46 | whoever has access is an admin |
| Cache.CacheStore.constructor | src/utils/cache/db_cache.py:24-33 | the store starts empty with the backend answering |
| Cache.CacheStore.Get | src/utils/cache/functions.py:27-39 | returns the stored value on a hit and the source value on a miss, storing it; with the backend down, the corrected fallback (the query result itself) and nothing stored |
| Cache.CacheStore.Update | src/utils/cache/functions.py:42-50 | each listed key gets a fresh source value, every other key is untouched; a backend failure propagates and changes nothing |
| Cache.CacheStore.Expire | src/utils/cache/functions.py:31-35 | an entry whose time is up is gone and nothing else changes |
| Cache.CacheStore.SetBackend | src/utils/cache/db_cache.py:24-33 | the backend goes up or down, entries unchanged |
| Cache.SourceMeaning | src/utils/cache/functions.py:9-24 | admins are all admin ids, privileged admins the high-privilege ones (a subset), specialities the titles in ascending code-point order |
| Cache.Fallback | src/utils/cache/functions.py:39 | the intended fallback: the source value itself, holding exactly the source ids |
| Cache.FallbackLocksOut | src/utils/cache/functions.py:39 | the one-tuple the code returns holds no uid at all and has length one |
| Cache.ReadCoherent | src/utils/cache/functions.py:27-36 | with a coherent cache whose server answers, every read returns the source value, keeps the cache coherent, and a repeated read returns the same |
| Cache.ReadDown | src/utils/cache/functions.py:37-39 | with the server down the model reads the corrected fallback, not the as-written one-tuple, and stores nothing |
| Cache.HitIgnoresDatabase | src/utils/cache/functions.py:30-36 | on a hit the value read does not depend on the database |
| Cache.SourceFrame | src/utils/cache/functions.py:9-24 | each key's source depends only on its own table |
| Cache.CoherentAfterRefresh | src/utils/cache/functions.py:42-48 | refreshing the keys whose source changed restores coherence |
| Cache.CoherentAfterOtherWrite | src/utils/cache/functions.py:42-48 | a write to other tables keeps the cache coherent without a refresh |
| Db.Where | src/db/query.py:174-182 | a filter keeps exactly the rows that satisfy the condition |
| Db.WithUser | src/db/query.py:14-64 | the user is registered once: a new uid appends one row, a known one changes nothing |
| Db.CreateAppointment | src/db/query.py:67-89 | one appointment row is appended for the user, nothing else but the user table changes |
| Db.CreateCallback | src/db/query.py:92-105 | one callback row is appended for the user, nothing else but the user table changes |
| Db.CreateFeedback | src/db/query.py:108-122 | one feedback row with the message is appended, nothing else but the user table changes |
| Db.SpecialityTitlesSorted | src/db/query.py:125-132 | the titles query returns every title once per row, in ascending code-point order |
| Db.SpecialityByTitle | src/db/query.py:135-142 | a row with that title when one exists, and none otherwise |
| Db.TitleOf | src/db/models.py:83-97 | the title of the speciality a doctor row points at, if the row exists |
| Db.CreateSpeciality | src/db/query.py:145-151 | appends a row with the next id and the title |
| Db.CreatedSpecialityFound | src/db/query.py:135-151 | a newly created title is then found with the new id and listed |
| Db.DeleteSpeciality | src/db/query.py:154-161 | removes exactly the rows with that id |
| Db.DoctorList | src/db/query.py:164-171 | the distinct (photo, name) pairs of the doctor rows, ordered by name in code-point order |
| Db.DoctorsWithTitle | src/db/query.py:174-182 | exactly the doctor rows whose speciality has that title |
| Db.DoctorsWithSpeciality | src/db/query.py:174-182 | exactly the doctor rows with that existing speciality id |
| Db.OfPhoto | src/db/query.py:185-193 | exactly the doctor rows with that photo |
| Db.Joined | src/db/query.py:187-188 | the inner join of doctor rows with the speciality catalogue |
| Db.DoctorSpecialities | src/db/query.py:185-193 | every (id, title) pair of the doctor's joined rows, all from the catalogue |
| Db.DoctorByPhoto | src/db/query.py:196-212 | no doctor exactly when the join is empty; otherwise aligned speciality, id and price lists from the catalogue |
| Db.CreateDoctor | src/db/query.py:215-232 | appends one doctor row pointing at the speciality with that title, or at none when the title is unknown |
| Db.UpdateDoctor | src/db/query.py:235-249 | sets the column on every row of the photo (and speciality when given) and on no other row |
| Db.DeleteDoctor | src/db/query.py:252-264 | removes exactly the rows of the photo (and speciality when given) |
| Db.DeletedDoctorGone | src/db/query.py:252-264 | after deleting a photo, no row, card or speciality of it remains |
| Db.CountIn | src/db/query.py:278-295 | the count of timestamps in `[start, end)` is at most the number of rows |
| Db.CountSplit | src/db/query.py:278-295 | counts over adjacent windows add up |
| Db.CountAppend | src/db/query.py:278-295 | a new row counts exactly when its time is in the window |
| Db.AdminRows | src/db/query.py:311-321 | exactly the admins with the privilege, or all when none is asked |
| Db.AdminIds | src/db/query.py:298-308 | the uids of those admins, in row order |
| Db.AdminIdsListed | src/db/query.py:298-308 | a uid is listed exactly when some admin row with it passes the privilege filter |
| Db.AdminList | src/db/query.py:311-321 | (uid, name) of those admins, in row order |
| Db.CreateAdmin | src/db/query.py:324-334 | appends one admin row, nothing else changes |
| Db.DeleteAdmin | src/db/query.py:337-344 | removes exactly the rows with that uid |
| Db.PrivilegedAreAdmins | src/db/query.py:298-308 | a privileged uid is also in the unfiltered list |
| Db.AdminCreateDelete | src/db/query.py:324-344 | a created admin is listed, with its privilege; a deleted one is listed under no filter |
| Statistics.TimeDelta | src/handlers/admin/statistic.py:22-28 | a delta exists exactly for the five period names, and each is positive |
| Statistics.TimeDeltaTable | src/handlers/admin/statistic.py:22-28 | a quarter is three months and a day is 24 hours |
| Statistics.WindowsAdjacent | src/handlers/admin/statistic.py:50-55 | the previous and current windows are adjacent, ordered, and their counts add up to the count over both |
| Statistics.Trunc | src/handlers/admin/statistic.py:219 | `int()` truncates toward zero |
| Statistics.PercentFacts | src/handlers/admin/statistic.py:209-214 | the change is at least -100, exactly -100 for no events, zero exactly when equal, positive exactly when grown, at least 100 exactly when doubled |
| Statistics.ChangeOf | src/handlers/admin/statistic.py:209-219 | no previous events gives 0 or 100; otherwise within one of the exact percentage |
| Statistics.ChangeAtLeastMinusHundred | src/handlers/admin/statistic.py:209-219 | the shown change is never below -100 |
| Statistics.ChangeShape | src/handlers/admin/statistic.py:219 | the value is truncated exactly when no events or at least doubled, and keeps the sign of the change |
| Statistics.ChangeEdges | src/handlers/admin/statistic.py:209-219 | equal counts show a rounded 0, no current events a truncated -100 |
| Statistics.ParseAll | src/handlers/admin/statistic.py:132 | every token parses, or the whole input is refused |
| Statistics.GetPeriod | src/handlers/admin/statistic.py:129-137 | accepted exactly with two or more tokens that all parse; the earlier of the first two dates first |
| Statistics.GetPeriodUsesFirstTwo | src/handlers/admin/statistic.py:134-135 | only the first two dates decide the period |
| Statistics.SlotStatChange | src/handlers/admin/statistic.py:195-230 | each slot counts its window; a change exists exactly when asked and never for feedback |
| Statistics.GetStatistic | src/handlers/admin/statistic.py:181-230 | one entry per slot (online, offline, callbacks, feedback, users), each the slot's statistic |
| Fsm.PosAt | src/handlers/admin/create_doctor.py:26-36 | every state has a position in its own group's declared order |
| Fsm.StatesNoDup | src/handlers/client/appointment.py:35-44 | no group declares a state twice |
| Fsm.PosIsIndex | src/handlers/admin/update_doctor.py:48-56 | a state's position is what `states_names.index` finds for it |
| Fsm.OnlyInOwnGroup | src/handlers/admin/delete_doctor.py:21-23 | a state belongs to exactly one group |
| Fsm.GroupMembers | src/handlers/admin/create_admin.py:27-31 | every declared state of a group belongs to that group |
| Fsm.Next | src/handlers/admin/create_doctor.py:26-36 | `next()` from outside the group enters its first state, from a state steps to the following one, and from the last leaves the flow |
| Fsm.NextIsIndexRule | src/handlers/admin/create_doctor.py:26-36 | `next()` is the index-plus-one rule of aiogram's `StatesGroup`, with a missing state counting as index -1 |
| Fsm.DeletedUntilFailure | src/handlers/admin/admin_panel_nav.py:66-74 | one `try` around the loop: a prefix of the ids is deleted, up to the first refused one |
| Fsm.DeletedSkipping | src/handlers/client/appointment.py:201-208 | a `try` per id: exactly the ids Telegram does not refuse are deleted |
| Fsm.DeletionLoops | src/handlers/client/appointment.py:201-208 | with no refusal both loops delete everything; a refused first id stops the guarded loop at once; the guarded loop never deletes more |
| Fsm.UntilFailureIsPrefix | src/handlers/admin/admin_panel_nav.py:66-74 | the guarded loop stops exactly at the first refused id |
| Fsm.SkippingAppend | src/handlers/client/appointment.py:201-208 | the per-id loop handles each id on its own |
| Fsm.Bot.constructor | src/handlers/commands.py:13-31 | a user starts with no state, empty data and nothing deleted |
| Fsm.Bot.Finish | src/handlers/commands.py:31 | `state.finish()` clears the state and the data and touches nothing else |
| Fsm.Bot.DeleteUntilFailure | src/handlers/admin/admin_panel_nav.py:66-74 | the guarded loop deletes `DeletedUntilFailure` of the ids and nothing else changes |
| Fsm.Bot.DeleteSkipping | src/handlers/client/appointment.py:201-208 | the per-id loop deletes `DeletedSkipping` of the ids and nothing else changes |
| Fsm.AdminCheck | src/handlers/commands.py:35-43 | a user is an admin exactly when master or in the cached admin list; the cache is filled on a miss |
| Commands.TriggerIgnoresCase | src/handlers/commands.py:88 | the trigger words match in any case, and only the whole text |
| Commands.CleanupDeletes | src/handlers/commands.py:49-77 | nothing is deleted without a last message or a list, and never a refused id |
| Commands.DelMessages | src/handlers/commands.py:49-77 | `del_messages` deletes `CleanupDeletes` of the data and changes nothing else |
| Commands.MainMenuFor | src/handlers/commands.py:41-43 | the admin menu exactly for master or cached admins, the client menu otherwise |
| Commands.Start | src/handlers/commands.py:13-46 | from any state the session is finished, cleanup runs only when a state was active, then the `/start` message is deleted; a refused deletion sends no menu, otherwise the menu follows the cached admin list |
| Commands.StartMenuMeaning | src/handlers/commands.py:41-43 | with a coherent cache whose server answers, the admin menu goes exactly to master and admin rows |
| AdminPanelNav.NavDecision | src/handlers/admin/admin_panel_nav.py:33-59 | the page exactly when granted; otherwise lack of privileges exactly for cached admins and the client menu for everyone else |
| AdminPanelNav.NavByRole | src/handlers/admin/admin_panel_nav.py:33-59 | master sees every page; an unprivileged admin sees exactly the admin pages and the main menu; a client never sees a page |
| AdminPanelNav.NavIgnoresPrivilegedList | src/handlers/admin/admin_panel_nav.py:33-38 | for pages outside `privilege_pages` the privileged list plays no part |
| AdminPanelNav.AdminMenuNavigation | src/handlers/admin/admin_panel_nav.py:20-61 | the page is field 1 of the callback; the decision reads the admin list and, only for privileged pages, the privileged list |
| AdminPanelNav.MovingBackToMenu | src/handlers/admin/admin_panel_nav.py:64-91 | finishes the session from any state after the guarded deletion; a photo message is deleted and gets the doctors-settings menu (no menu when the deletion is refused), otherwise the navigation decision runs |
| AdminPanelNav.BackButtonPage | src/handlers/admin/admin_panel_nav.py:64-91 | the back button of a section leads to that section's page, shown exactly to admins when the page is an admin page or the main menu |
| CreateDoctorHandlers.Steps | src/handlers/admin/create_doctor.py:26-36 | `next()` walks the ten declared states in order, from `speciality` to `confirmation` |
| CreateDoctorHandlers.Start | src/handlers/admin/create_doctor.py:39-82 | from any state the session is finished; an admin gets the catalogue titles as the pool keyed `'0'`, `'1'`, ..., an empty selection and the first state; anyone else stays outside every flow |
| CreateDoctorHandlers.PoolTitle | src/handlers/admin/create_doctor.py:90-93 | the title a button names is the pool's value under field 1 of the callback |
| CreateDoctorHandlers.ChooseSpeciality | src/handlers/admin/create_doctor.py:85-107 | the named title is toggled in the selection, which stays free of repeats; nothing else changes |
| CreateDoctorHandlers.CreateNewSpecialities | src/handlers/admin/create_doctor.py:110-124 | the prompt's id is queued for deletion and nothing else changes |
| CreateDoctorHandlers.UnlistedMembers | src/handlers/admin/create_doctor.py:135-137 | exactly the typed titles missing from the pool are kept |
| CreateDoctorHandlers.GetNewSpecialities | src/handlers/admin/create_doctor.py:127-141 | the processed titles absent from the pool are appended to the selection and the message queued for deletion; input that fails processing changes nothing |
| CreateDoctorHandlers.AddTitles | src/handlers/admin/create_doctor.py:135-139 | the append loop over the typed titles and the queued message id |
| CreateDoctorHandlers.AppendUnlisted | src/handlers/admin/create_doctor.py:135-137 | the loop appends exactly the typed titles missing from the pool, in order |
| CreateDoctorHandlers.GetSpecialities | src/handlers/admin/create_doctor.py:144-168 | an empty selection keeps the user choosing; otherwise the selection becomes a repeat-free version of itself, the queued messages are deleted (a refusal ends the handler unsaved) and the flow moves to the name |
| CreateDoctorHandlers.GetName | src/handlers/admin/create_doctor.py:171-193 | the processed words joined by one space become the name, the answer is deleted and the flow moves to the photo; input that fails processing, or an answer Telegram refuses to delete, changes nothing |
| CreateDoctorHandlers.StoreText | src/handlers/admin/create_doctor.py:177-191 | the answer is deleted, and the name or the description is stored and the flow steps on; a refused deletion discards the answer |
| CreateDoctorHandlers.GetPhoto | src/handlers/admin/create_doctor.py:196-238 | the answer is deleted either way; only a document advances, storing its fresh file name and moving to the description; a refused deletion changes nothing |
| CreateDoctorHandlers.GetDescription | src/handlers/admin/create_doctor.py:241-263 | the processed sentences joined by `', '` become the description and the answer is deleted; failing input or a refused deletion changes nothing |
| CreateDoctorHandlers.GetExperienceChoice | src/handlers/admin/create_doctor.py:266-295 | "yes" asks for the years; "no" stores no experience and skips to the degree |
| CreateDoctorHandlers.GetExperience | src/handlers/admin/create_doctor.py:298-329 | the answer is deleted; text that `int()` accepts is stored as the experience before the deletion, and the flow moves on only when the deletion succeeds; other text changes only the deletions |
| CreateDoctorHandlers.Specified | src/handlers/admin/create_doctor.py:337-339 | the "no specification" choice is stored as no value, any other as itself |
| CreateDoctorHandlers.GetScienceDegree | src/handlers/admin/create_doctor.py:332-352 | the chosen degree is stored and the flow moves to the category |
| CreateDoctorHandlers.GetQualCategory | src/handlers/admin/create_doctor.py:355-379 | the chosen category is stored, every chosen speciality is queued for a price, and the flow moves to the price |
| CreateDoctorHandlers.RecordPrice | src/handlers/admin/create_doctor.py:401-404 | a price can be recorded exactly while specialities await one |
| CreateDoctorHandlers.RecordPriceStep | src/handlers/admin/create_doctor.py:401-404 | recording appends the price, takes the first waiting speciality off the queue, and keeps prices aligned with the specialities before the queue |
| CreateDoctorHandlers.PriceLoopDone | src/handlers/admin/create_doctor.py:407-446 | once the queue is empty there is one price per chosen speciality |
| CreateDoctorHandlers.PriceKeepsInv | src/handlers/admin/create_doctor.py:382-448 | a recorded price keeps the flow's invariant, in `price` while specialities wait and in `confirmation` after the last |
| CreateDoctorHandlers.GetPrice | src/handlers/admin/create_doctor.py:382-448 | the answer is deleted; an integer price is recorded, the flow stays at the price while specialities wait, and after the last the prompt is deleted and the flow moves to the confirmation; a refused deletion or a photo that does not open leaves data and state as they were |
| CreateDoctorHandlers.StorePrice | src/handlers/admin/create_doctor.py:400-446 | the recorded data, the deletions (answer, then prompt) and the next state of `get_price`, with each raise discarding the proxy's changes |
| CreateDoctorHandlers.FieldsOf | src/handlers/admin/create_doctor.py:477-486 | the doctor's columns exist exactly when every answer is in the data, which the flow guarantees by the confirmation |
| CreateDoctorHandlers.ConfirmFrame | src/handlers/admin/create_doctor.py:466-486 | the loop only appends doctor rows and speciality rows; other tables are untouched |
| CreateDoctorHandlers.ConfirmDone | src/handlers/admin/create_doctor.py:466-486 | the loop finishes exactly when every remaining speciality has a price |
| CreateDoctorHandlers.ConfirmShape | src/handlers/admin/create_doctor.py:466-486 | one row per remaining speciality, and a catalogue row is created exactly when one is missing from the pool |
| CreateDoctorHandlers.ConfirmRowAt | src/handlers/admin/create_doctor.py:477-486 | row `n` carries the answers and the price of its speciality and points at a catalogue row with its title |
| CreateDoctorHandlers.ConfirmationCreatesDoctor | src/handlers/admin/create_doctor.py:463-507 | confirming adds exactly one row per chosen speciality after the old rows, creates a catalogue entry exactly when the pool lacked a title, and leaves admins alone |
| CreateDoctorHandlers.ConfirmationRows | src/handlers/admin/create_doctor.py:466-486 | each new row carries the answers and its own price, is linked to its title, and always when the title was new |
| CreateDoctorHandlers.WriteRows | src/handlers/admin/create_doctor.py:466-486 | the loop's writes are exactly `ConfirmFrom` of the old database |
| CreateDoctorHandlers.GetConfirmation | src/handlers/admin/create_doctor.py:451-530 | an admin's confirmation writes the rows, deletes the summary card, refreshes only the catalogue key when a title was created, and finishes; a non-admin only finishes; the cache stays coherent |
| CreateDoctorHandlers.ConfirmAsAdmin | src/handlers/admin/create_doctor.py:463-515 | the admin branch: rows written, summary card deleted, catalogue refreshed when needed; a stopped loop, a refused deletion or a failed refresh ends it before `finish()`, with the rows kept |
| UpdateDoctorHandlers.Store | src/handlers/admin/update_doctor.py:509 | writing a name, description, experience, degree or category onto the card keeps its speciality ids, titles and prices, and keeps the card aligned (one title and one price per id) exactly when it was |
| UpdateDoctorHandlers.StoreMirrorsAssign | src/handlers/admin/update_doctor.py:369-381 | the card keeps mirroring a database row after the same column is written to both; the row's price and speciality id are untouched |
| UpdateDoctorHandlers.Steps | src/handlers/admin/update_doctor.py:48-56 | `next()` in the update group goes speciality → cur_value → new_value and action → specialities_editing → price, by position in the group |
| UpdateDoctorHandlers.ButtonNames | src/handlers/admin/update_doctor.py:88 | the short button names, when every name can be shortened, are one per doctor |
| UpdateDoctorHandlers.ButtonNamesShown | src/handlers/admin/update_doctor.py:88 | the short names exist exactly when the doctors keyboard can be built, and the i-th button shows the i-th short name |
| UpdateDoctorHandlers.Start | src/handlers/admin/update_doctor.py:59-106 | the session is finished; a non-admin stays idle; an admin enters `doctor` with the numbered photo and name dictionaries, the user, the message and the short names, or with empty data when a name cannot be shortened; the admin list is read through the cache |
| UpdateDoctorHandlers.Loaded | src/handlers/admin/update_doctor.py:109-161 | the card already in the session is kept; otherwise it is the database card of the photo that the button's number names in the session's dictionary |
| UpdateDoctorHandlers.GetDoctor | src/handlers/admin/update_doctor.py:109-161 | with a card, the flow moves to `section` holding it; coming from the show flow, the card's message is deleted and the menu's new id recorded; a missing card, user or message, or a refused deletion changes nothing; the flow invariant is kept |
| UpdateDoctorHandlers.GetSection | src/handlers/admin/update_doctor.py:164-204 | the chosen section is stored; "price" moves to `speciality` when the doctor's speciality lists can be shown (else nothing moves); any other column of the card moves to `cur_value` exactly when its current value can be shown, so `speciality_id` on a card with specialities stays put |
| UpdateDoctorHandlers.MenuSectionsShown | src/keyboards/admin_kb.py:140-171 | every section the section menu offers is a column of the card whose current value can be shown |
| UpdateDoctorHandlers.SpecialityIdSectionRaises | src/core/enums.py:646-653 | the current value of `speciality_id` cannot be shown on a card with specialities: the integer ids cannot be joined as text |
| UpdateDoctorHandlers.PickedSpeciality | src/handlers/admin/update_doctor.py:207-236 | a picked speciality stores the button's id and its position in the card, whose id at that position is the picked one, with the title and price at the same position |
| UpdateDoctorHandlers.GetSpeciality | src/handlers/admin/update_doctor.py:207-236 | a speciality that can be picked moves the flow to `cur_value` with the pick stored; anything else changes nothing |
| UpdateDoctorHandlers.SpecialityPicked | src/handlers/admin/update_doctor.py:216 | on a card whose ids are not repeated, `list.index` of the k-th id is k, and the title and price lists reach k |
| UpdateDoctorHandlers.ChangeTarget | src/handlers/admin/update_doctor.py:239-260 | "change" leads to `action` exactly for the speciality section, to `new_value` exactly for an editable section (price only once a speciality is picked), and nowhere otherwise |
| UpdateDoctorHandlers.ChangeValue | src/handlers/admin/update_doctor.py:239-260 | the state becomes the change target when there is one and stays otherwise; data, database and messages are unchanged |
| UpdateDoctorHandlers.MenuSectionsLead | src/handlers/admin/update_doctor.py:239-260 | every section the section menu offers leads somewhere once a speciality is picked |
| UpdateDoctorHandlers.BackToCurValue | src/handlers/admin/update_doctor.py:558-573 | "back" from the action menu returns to `cur_value` with nothing else changed |
| UpdateDoctorHandlers.GetNewValuePhoto | src/handlers/admin/update_doctor.py:271-347 | the user's message is deleted unless refused; an admin's document while the photo is edited returns to `section`; anything else keeps the state; a non-admin is sent to the main menu |
| UpdateDoctorHandlers.ButtonValue | src/handlers/admin/update_doctor.py:362-369 | a button value is `NULL` exactly for "no specification" and is the button's text otherwise, never a number |
| UpdateDoctorHandlers.GetNewValueCb | src/handlers/admin/update_doctor.py:350-416 | an admin's degree or category is written to every row of the doctor and to the card, and the flow returns to `section`; a refused value changes nothing; a session without the message keeps the write but not the card; a non-admin is sent to the main menu |
| UpdateDoctorHandlers.TypedValue | src/handlers/admin/update_doctor.py:437-470 | a typed name is stored in normal form (unreadable when `process_input` raises); experience and price are read exactly when the text is an integer, and then as that integer; whatever is read fits the column |
| UpdateDoctorHandlers.TypedNameStable | src/handlers/admin/update_doctor.py:440-441 | typing back the stored name stores the same name: the normal form is a fixed point |
| UpdateDoctorHandlers.GetNewValueMsg | src/handlers/admin/update_doctor.py:419-555 | a non-admin's message is deleted and the session finished; an admin's edit is `Edited`: an unreadable value changes nothing; a rejected one is only deleted; a price goes to the picked speciality, any other value to every row of the doctor |
| UpdateDoctorHandlers.EditTyped | src/handlers/admin/update_doctor.py:437-531 | the admin's side of the handler reaches exactly the state, data, database and deletions `Edited` describes |
| UpdateDoctorHandlers.EditText | src/handlers/admin/update_doctor.py:495-511 | a typed name, description or experience is written to every row of the doctor and to the card, and the flow returns to `section` |
| UpdateDoctorHandlers.EditPrice | src/handlers/admin/update_doctor.py:484-515 | a typed price is written to the row of the picked speciality and to the card entry at its position, and the flow returns to `speciality` |
| UpdateDoctorHandlers.PriceEditScope | src/handlers/admin/update_doctor.py:484-513 | a price edit changes, in the database, exactly the doctor's rows with the picked id, which get the new price; on the card it changes exactly the entry at the picked position, whose id is the picked one |
| UpdateDoctorSpecialities.RemoveEach | src/handlers/admin/update_doctor.py:585-586 | removing each of the doctor's titles from the catalogue's succeeds exactly when the catalogue holds them all (with multiplicity), and leaves the catalogue's titles less the doctor's |
| UpdateDoctorSpecialities.AddPoolContents | src/handlers/admin/update_doctor.py:582-589 | adding can start exactly when the catalogue has every title of the doctor, and its buttons are then the catalogue's titles the doctor lacks |
| UpdateDoctorSpecialities.DeletePoolListed | src/handlers/admin/update_doctor.py:603-606 | each button of the delete branch is a catalogue speciality under its own id |
| UpdateDoctorSpecialities.EditingStarts | src/handlers/admin/update_doctor.py:589-622 | the selection starts empty, so the editing invariant holds as the flow enters `specialities_editing` |
| UpdateDoctorSpecialities.GetAction | src/handlers/admin/update_doctor.py:576-624 | adding starts from the catalogue titles the doctor lacks, with an empty selection and no messages; deleting starts from the doctor's specialities by id; either moves to `specialities_editing`; a lookup that raises changes nothing |
| UpdateDoctorSpecialities.ChooseSpecialities | src/handlers/admin/update_doctor.py:627-650 | the button's title leaves the selection when chosen and joins it otherwise; a key outside the pool changes nothing |
| UpdateDoctorSpecialities.CreateNewSpecialities | src/handlers/admin/update_doctor.py:653-667 | the prompt's id joins the messages to clean up; nothing else changes |
| UpdateDoctorSpecialities.TypedTitlesMembers | src/handlers/admin/update_doctor.py:677-682 | a title joins the selection exactly when it was typed and is neither in the pool nor among the doctor's own |
| UpdateDoctorSpecialities.KeptInv | src/handlers/admin/update_doctor.py:679-684 | while adding, the editing invariant survives a typed text, and the selection becomes the old one followed by the typed titles |
| UpdateDoctorSpecialities.KeepTyped | src/handlers/admin/update_doctor.py:674-684 | the typed titles and the message id are kept in the session; nothing else changes |
| UpdateDoctorSpecialities.GetNewSpecialities | src/handlers/admin/update_doctor.py:670-689 | while adding, the typed titles that are new are kept and the message is saved for cleanup; while deleting, the message is deleted; the state never changes |
| UpdateDoctorSpecialities.PoolId | src/handlers/admin/update_doctor.py:754-755 | the id found for a title is that of a button showing the title |
| UpdateDoctorSpecialities.DropEntryShape | src/handlers/admin/update_doctor.py:762-765 | dropping from the card succeeds exactly when it has the title, the id and a price at the title's place; one of each then goes and every other column stays |
| UpdateDoctorSpecialities.Entries | src/handlers/admin/update_doctor.py:762-765 | the card's table of id, title and price has one line per title |
| UpdateDoctorSpecialities.DropEntryAt | src/handlers/admin/update_doctor.py:762-765 | when the id is the one beside the title and ids do not repeat, the drop takes exactly that line out of the table |
| UpdateDoctorSpecialities.DropTitle | src/handlers/admin/update_doctor.py:752-775 | a title that stops the loop leaves the card as it was and prunes nothing |
| UpdateDoctorSpecialities.DropTitleShape | src/handlers/admin/update_doctor.py:752-775 | one title only takes rows out, of the doctor and of the catalogue; the catalogue changes only when a title went; the card keeps its photo and other columns |
| UpdateDoctorSpecialities.DropFrame | src/handlers/admin/update_doctor.py:752-775 | the whole loop only takes rows out, and touches the catalogue only when it pruned a title |
| UpdateDoctorSpecialities.DropShape | src/handlers/admin/update_doctor.py:752-765 | run to the end, the loop leaves the card aligned, one entry shorter per title, with exactly the chosen titles taken out |
| UpdateDoctorSpecialities.DropRemovesRows | src/handlers/admin/update_doctor.py:757-760 | run to the end, the loop leaves no row of the doctor under the id of any chosen title |
| UpdateDoctorSpecialities.DropLoopStep | src/handlers/admin/update_doctor.py:752-775 | one turn of the deletion loop keeps its invariant or ends with the loop's outcome |
| UpdateDoctorSpecialities.DropLoop | src/handlers/admin/update_doctor.py:752-775 | the imperative deletion loop returns exactly the outcome `DropFrom` defines |
| UpdateDoctorSpecialities.DropDelivers | src/handlers/admin/update_doctor.py:749-780 | from the flow invariant, a completed deletion leaves the card aligned, with the doctor's photo, one title shorter per chosen title, minus exactly those titles, and no row of the doctor under any chosen id |
| UpdateDoctorSpecialities.SyncCatalogue | src/handlers/admin/update_doctor.py:786-788 | the catalogue is refreshed in the cache only when it changed and the cache server answers; a cache coherent with the database before the writes is coherent after |
| UpdateDoctorSpecialities.DropAsAdmin | src/handlers/admin/update_doctor.py:749-801 | the admin's deletion reaches exactly `DropDone`; cache coherence is kept unless the loop stopped after pruning; the flow invariant is kept |
| UpdateDoctorSpecialities.AddChosen | src/handlers/admin/update_doctor.py:701-728 | an empty selection changes nothing; otherwise the saved messages are deleted until one is refused, and when all went the selection loses its repeats (a permutation of the distinct titles), the prices start empty, every title waits for its price, and the flow moves to `price` |
| UpdateDoctorSpecialities.UpdateSpecialities | src/handlers/admin/update_doctor.py:692-816 | adding goes on to the prices and writes nothing; deleting every title of the doctor is refused with nothing changed; otherwise the admins entry is read through the cache first, then a session without the user raises with only that entry filled, a non-admin's session is finished and an admin's deletion is `DropDone`; the flow invariant and cache coherence are kept |
| UpdateDoctorSpecialities.FieldsOfCard | src/handlers/admin/update_doctor.py:891-900 | the new rows copy the card's name and photo, and exist exactly when the card does |
| UpdateDoctorSpecialities.AddStep | src/handlers/admin/update_doctor.py:875-889 | a title's catalogue step fails exactly when the title is in the pool but not in the catalogue; it otherwise yields the catalogue with the title and the id of a row with that title |
| UpdateDoctorSpecialities.AddTitleShape | src/handlers/admin/update_doctor.py:874-900 | one title only appends, to the doctors and the catalogue, and touches nothing else but the id counter |
| UpdateDoctorSpecialities.AddFromStep | src/handlers/admin/update_doctor.py:874-900 | the adding loop is its first title followed by the loop from the next title |
| UpdateDoctorSpecialities.AddOthers | src/handlers/admin/update_doctor.py:874-900 | the loop touches nothing but the doctors, the catalogue and the id counter |
| UpdateDoctorSpecialities.AddCatalogue | src/handlers/admin/update_doctor.py:876-884 | a loop that created no title leaves the catalogue as it was |
| UpdateDoctorSpecialities.AddAppends | src/handlers/admin/update_doctor.py:874-900 | the loop only appends, to the doctors and to the catalogue |
| UpdateDoctorSpecialities.AddFrame | src/handlers/admin/update_doctor.py:874-900 | the loop only appends and touches nothing else but the id counter; the catalogue changes only when a title was created |
| UpdateDoctorSpecialities.AddCounts | src/handlers/admin/update_doctor.py:874-900 | run to the end, the loop records one id per title and writes one doctor row per title |
| UpdateDoctorSpecialities.AddKeeps | src/handlers/admin/update_doctor.py:874-900 | the loop keeps every catalogue row |
| UpdateDoctorSpecialities.AddIdAt | src/handlers/admin/update_doctor.py:876-889 | run to the end, the id recorded for each title is that of a catalogue row with that title |
| UpdateDoctorSpecialities.AddCompletes | src/handlers/admin/update_doctor.py:874-900 | on a selection without repeats, with one price per title, a card, and a catalogue that has every pool title, the loop runs to the end |
| UpdateDoctorSpecialities.AddLoopStep | src/handlers/admin/update_doctor.py:874-900 | one turn of the adding loop keeps its invariant or ends with the loop's outcome |
| UpdateDoctorSpecialities.AddLoop | src/handlers/admin/update_doctor.py:874-900 | the imperative adding loop returns exactly the outcome `AddFrom` defines |
| UpdateDoctorSpecialities.Appended | src/handlers/admin/update_doctor.py:906-908 | the card's three lists are extended by the titles, prices and ids, with the old entries first; an aligned card stays aligned |
| UpdateDoctorSpecialities.AddAsAdmin | src/handlers/admin/update_doctor.py:867-935 | the admin's adding reaches exactly `AddDone`; cache coherence is kept when no title was created or the loop ran to the end; the flow invariant is kept |
| UpdateDoctorSpecialities.Recorded | src/handlers/admin/update_doctor.py:844-848 | a price is recorded only from a text that is an integer |
| UpdateDoctorSpecialities.PricesDone | src/handlers/admin/update_doctor.py:864-954 | after the last price the admins entry is read through the cache; a session without the user then raises with only that entry filled, an admin's adding is run and a non-admin's session finished (`PricesEnd`); coherence and the flow invariant are kept |
| UpdateDoctorSpecialities.TakePrice | src/handlers/admin/update_doctor.py:844-862 | a recorded price is kept while titles remain; after the last one the adding ends as `PricesEnd` says |
| UpdateDoctorSpecialities.GetPrice | src/handlers/admin/update_doctor.py:819-956 | a text that is not a number is deleted and asked for again with nothing else changed; a number is recorded for the next title and the message deleted; after the last title the adding runs (`PricesEnd`); coherence and the flow invariant are kept |
| UpdateDoctorSpecialities.AddDelivers | src/handlers/admin/update_doctor.py:864-908 | from the last price, when the catalogue still has the pool's titles, the loop runs to the end, writes one row per title, records for each title the id of a catalogue row with that title, and the extended card is aligned |
| ShowDoctorHandlers.Start | src/handlers/admin/show_doctor.py:21-67 | the session is finished; a non-admin stays idle; an admin enters `doctor` with the numbered photo and name dictionaries, the user and the message, or with empty data when the list cannot be drawn; the admin list is read through the cache |
| ShowDoctorHandlers.GetDoctor | src/handlers/admin/show_doctor.py:70-117 | the card loaded is the one whose photo the button's record names; the list message is deleted and the card's message recorded; a missing record, doctor, user or message, or a refused deletion changes nothing; a missing photo file keeps the deletion but not the card |
| ShowDoctorHandlers.MoveBackToDoctors | src/handlers/admin/show_doctor.py:120-143 | the card message is deleted and the list's new message recorded; a missing user or message, or a refused deletion changes nothing; a list that cannot be drawn keeps the deletion only |
| DeleteDoctorHandlers.Prune | src/handlers/admin/delete_doctor.py:148-155 | pruning only deletes catalogue rows and touches nothing else; without a deletion the flag is down and the database is unchanged |
| DeleteDoctorHandlers.RemoveDoctors | src/handlers/admin/delete_doctor.py:135-155 | the loop only deletes rows, of doctors and of the catalogue, and the catalogue changes only when a speciality went |
| DeleteDoctorHandlers.Photos | src/handlers/admin/delete_doctor.py:135-139 | the photos are the chosen doctors', in order |
| DeleteDoctorHandlers.RemovedExactly | src/handlers/admin/delete_doctor.py:135-147 | a loop that ran to the end leaves exactly the doctor rows whose photo was not chosen |
| DeleteDoctorHandlers.PruneSound | src/handlers/admin/delete_doctor.py:148-155 | a catalogue row is deleted only when no doctor row points to it |
| DeleteDoctorHandlers.RemovedSpecialitiesUnused | src/handlers/admin/delete_doctor.py:135-155 | no doctor row left points to a speciality the loop deleted |
| DeleteDoctorHandlers.PruneLoop | src/handlers/admin/delete_doctor.py:148-155 | the imperative inner loop leaves the database and flag `Prune` defines, and nothing else changes |
| DeleteDoctorHandlers.RemoveLoop | src/handlers/admin/delete_doctor.py:135-155 | the imperative outer loop leaves exactly the outcome `RemoveDoctors` defines |
| DeleteDoctorHandlers.Start | src/handlers/admin/delete_doctor.py:26-73 | the session is finished; a non-admin stays idle; an admin enters `doctors` with both numbered lists and an empty choice, or with empty data when the list cannot be drawn; the flow invariant holds |
| DeleteDoctorHandlers.ChooseDoctors | src/handlers/admin/delete_doctor.py:76-100 | the button's doctor leaves the choice when there and joins it otherwise, and the list is redrawn with the choice marked; a missing key, choice or list changes nothing; the choice stays free of repeats and within the list |
| DeleteDoctorHandlers.ChosenNames | src/handlers/admin/delete_doctor.py:107 | the names listed are the chosen doctors', in order |
| DeleteDoctorHandlers.Steps | src/handlers/admin/delete_doctor.py:112 | `next()` from `doctors` goes to `confirmation` |
| DeleteDoctorHandlers.GetDoctors | src/handlers/admin/delete_doctor.py:103-114 | the chosen names are shown and the state becomes `confirmation`; without a choice nothing changes |
| DeleteDoctorHandlers.GetConfirmation | src/handlers/admin/delete_doctor.py:117-187 | a non-admin gets the main menu and nothing is deleted; an admin's confirmation runs the deletion loop, refreshes the catalogue in the cache when a speciality went and the server answers, and finishes the session unless a photo file or the refresh failed; cache coherence is kept when the loop completes |
| DeleteDoctorHandlers.ConfirmAsAdmin | src/handlers/admin/delete_doctor.py:133-185 | the admin's side: the database becomes the loop's outcome, the catalogue entry is refreshed exactly when a speciality went and the server answers, and the session ends exactly when the loop and the refresh completed |
| DeleteDoctorHandlers.RefreshCatalogue | src/handlers/admin/delete_doctor.py:166 | the refresh succeeds exactly when the cache server answers, and then the catalogue entry matches the database |
| CreateAdminHandlers.Steps | src/handlers/admin/create_admin.py:27-31 | `next()` in the admin-creation group goes uid → name → privilege_type → confirmation, by position in the group |
| CreateAdminHandlers.Start | src/handlers/admin/create_admin.py:34-59 | the session is finished; with access (the master or a `'high'` admin, read through the cache) it restarts in `uid` holding the user and the message; without access it stays idle |
| CreateAdminHandlers.GetUid | src/handlers/admin/create_admin.py:62-123 | the answer is deleted unless refused; text that is not an integer re-prompts in `uid`; a uid already an admin ends the session with nothing written; any other uid is kept and the state becomes `name` |
| CreateAdminHandlers.GetName | src/handlers/admin/create_admin.py:126-169 | the name is kept in normal form, then the answer is deleted; the master is asked for the privilege; anyone else creates a `'low'` admin and goes to `confirmation`; input `process_input` refuses changes nothing |
| CreateAdminHandlers.KeepName | src/handlers/admin/create_admin.py:138-169 | with the name known: it is kept whatever follows; a refused deletion stops there; the master moves to `privilege_type`; anyone else moves to `confirmation` with `'low'` privilege |
| CreateAdminHandlers.GetPrivType | src/handlers/admin/create_admin.py:172-196 | the privilege the button names is kept and the state becomes `confirmation`; a button without a value, or a session without uid or name, changes nothing |
| CreateAdminHandlers.GetConfirmation | src/handlers/admin/create_admin.py:199-248 | with access the admin row is written and both admin entries of the cache refreshed before the admins menu is shown and the session finished (a dead cache server stops before the finish); without access nothing is written and the menu follows the admin list; cache coherence is kept |
| CreateAdminHandlers.Deny | src/handlers/admin/create_admin.py:232-246 | without access: nothing is written, the session finishes, and the menu is the admin panel exactly for a listed admin |
| CreateAdminHandlers.ConfirmWithAccess | src/handlers/admin/create_admin.py:206-231 | with access: the row is written, and when the cache server answers both admin entries match the database, the menu is shown and the session finishes |
| CreateAdminHandlers.RefreshAdmins | src/handlers/admin/create_admin.py:225 | the refresh succeeds exactly when the cache server answers, and then both admin entries match the database and the catalogue entry is untouched |
| CreateAdminHandlers.RefreshedCoherent | src/handlers/admin/create_admin.py:210-225 | refreshing both admin entries after a write that leaves the catalogue alone keeps a coherent cache coherent |
| CreateAdminHandlers.NewAdminAdmitted | src/handlers/admin/create_admin.py:210-225 | once the cache holds the lists read after the write, the new admin passes the admin check, and passes the access check when created with `'high'` privilege |
| DeleteAdminHandlers.UidTexts | src/handlers/admin/delete_admin.py:51 | the keys are the listed uids as decimal text, in order |
| DeleteAdminHandlers.AdminsDict | src/handlers/admin/delete_admin.py:51 | the dict comprehension yields a dict without repeated keys |
| DeleteAdminHandlers.AdminsDictKeys | src/handlers/admin/delete_admin.py:51 | the dict has a key for each listed uid and no other |
| DeleteAdminHandlers.AdminsDictName | src/handlers/admin/delete_admin.py:51 | each uid reads the name of its last row, as later keys of the comprehension overwrite earlier ones |
| DeleteAdminHandlers.ChosenKeysParse | src/handlers/admin/delete_admin.py:124 | every key of a choice taken from the dict reads back as an integer, so `int(uid)` never raises on it |
| DeleteAdminHandlers.ParsedIsText | src/handlers/admin/delete_admin.py:124 | a chosen key is the decimal text of the uid `int()` reads from it |
| DeleteAdminHandlers.Purge | src/handlers/admin/delete_admin.py:122-126 | the loop only deletes admin rows and touches nothing else |
| DeleteAdminHandlers.KeyUids | src/handlers/admin/delete_admin.py:124 | the uids are `int()` of the keys, one per key, in order |
| DeleteAdminHandlers.PurgeExact | src/handlers/admin/delete_admin.py:122-126 | when every key is a number the loop runs to the end, and the admins left are exactly those whose uid no key names |
| DeleteAdminHandlers.KeyUidsCons | src/handlers/admin/delete_admin.py:122-124 | the keys' uids are the first key's uid followed by the uids of the rest |
| DeleteAdminHandlers.PurgedNotListed | src/handlers/admin/delete_admin.py:122-132 | a deleted admin is in no admin list the cache is refreshed from, filtered by privilege or not |
| DeleteAdminHandlers.PurgeLoop | src/handlers/admin/delete_admin.py:122-126 | the imperative loop leaves the database and completion flag `Purge` defines, and nothing else changes |
| DeleteAdminHandlers.Start | src/handlers/admin/delete_admin.py:29-70 | the session is finished; with access it restarts in `admins` with every admin offered to the master and only `'low'` ones to anyone else, and an empty choice; without access it stays idle |
| DeleteAdminHandlers.ChooseAdmins | src/handlers/admin/delete_admin.py:73-95 | the button's uid leaves the choice when there and joins it with its name otherwise, and the list is redrawn with the choice marked; a missing uid, dict or offer changes nothing; the choice stays free of repeats and within the offer |
| DeleteAdminHandlers.Steps | src/handlers/admin/delete_admin.py:107 | `next()` from `admins` goes to `confirmation` |
| DeleteAdminHandlers.GetAdmins | src/handlers/admin/delete_admin.py:98-109 | the chosen names are shown and the state becomes `confirmation`; without a choice nothing changes |
| DeleteAdminHandlers.GetConfirmation | src/handlers/admin/delete_admin.py:112-155 | with access the chosen admins are deleted and, when the loop completes and the cache server answers, both admin entries are refreshed, the admins menu shown and the session finished; without access nothing is deleted and the menu follows the admin list; coherence is kept |
| DeleteAdminHandlers.ConfirmWithAccess | src/handlers/admin/delete_admin.py:119-137 | with access: the database becomes the loop's outcome; the entries are refreshed and the session ends exactly when the loop completed and the server answered |
| DeleteAdminHandlers.ConfirmedDeletion | src/handlers/admin/delete_admin.py:112-132 | on a choice taken from the offer the loop runs to the end; no chosen admin is listed any more, and every other admin row is still there |
| StatisticHandlers.StandardWindowsAdjacent | src/handlers/admin/statistic.py:46-61 | for each period of the table the previous and current windows are adjacent and ordered below now, so their counts add up to the count over both |
| StatisticHandlers.ShowStandardStatistics | src/handlers/admin/statistic.py:36-90 | without access a warning; with access a report over the current window with changes against the previous one, one entry per slot; a missing or unknown period shows nothing; the session is untouched |
| StatisticHandlers.ShowCustomStatistics | src/handlers/admin/statistic.py:93-118 | the session is finished; with access it restarts in `period` holding the user and the prompt; without access it stays idle |
| StatisticHandlers.GetPeriodAnswer | src/handlers/admin/statistic.py:121-178 | the answer is deleted unless refused; text that is not two dates re-prompts in `period`; a period gives a report over `[start, end)` without changes, one entry per slot, and finishes the session |
| CallbackHandlers.TypedNameIdempotent | src/handlers/client/callback.py:53 | a stored name is in normal form: typing it again stores it unchanged |
| CallbackHandlers.DigitsOf | src/handlers/client/callback.py:85 | `re.sub(r'\D', '', text)` keeps only decimal digits and never lengthens the text |
| CallbackHandlers.DigitsOfKeeps | src/handlers/client/callback.py:85 | a character survives exactly when it is in the text and is a digit |
| CallbackHandlers.DigitsOfDigits | src/handlers/client/callback.py:85 | text made of digits only comes out unchanged |
| CallbackHandlers.DigitsOfAppend | src/handlers/client/callback.py:85 | stripping distributes over concatenation |
| CallbackHandlers.PhoneOf | src/handlers/client/callback.py:83-113 | a shared contact is stored as given; typed text is accepted exactly when its digits pass `check_phone`, and is then stored as eleven digits, a leading `7` and the last ten digits typed |
| CallbackHandlers.PhoneFormsAgree | src/handlers/client/callback.py:85-113 | a mobile number typed bare, with `8` or with `+7` is stored as the same phone |
| CallbackHandlers.TypedPhoneIs | src/handlers/client/callback.py:85-113 | typed text whose digits pass `check_phone` is stored in the standard form of those digits |
| CallbackHandlers.TypedDigits | src/core/processing.py:29-33 | a ten-digit mobile number with no prefix, a `7` or an `8` passes `check_phone`, and its standard form is `7` followed by the ten digits |
| CallbackHandlers.FillForm | src/handlers/client/callback.py:28-47 | from any state the session restarts in `name` holding the user and the prompt |
| CallbackHandlers.GetName | src/handlers/client/callback.py:50-75 | the name in normal form and the phone prompt are stored and the state becomes `phone`; refused input, or a session without its user, changes nothing |
| CallbackHandlers.GetPhone | src/handlers/client/callback.py:78-152 | a rejected phone only replaces the prompt; an accepted one writes exactly one callback record for the session's user, finishes the session and shows that user's main menu; coherence and the flow invariant are kept |
| FeedbackHandlers.LeaveFeedback | src/handlers/client/feedback.py:21-37 | from any state the session restarts in `feedback` holding the user and the prompt |
| FeedbackHandlers.GetMessage | src/handlers/client/feedback.py:40-91 | one feedback record with the text in the session user's name, then the session ends with that user's main menu; without a user nothing is written |
| DoctorLists.Refs | src/handlers/admin/show_doctor.py:42-46 | one record per listed doctor, in list order, with its name and photo |
| DoctorLists.FillDoctorDicts | src/handlers/admin/show_doctor.py:40-46 | the loop fills entry `str(i)` of both dicts with the `i`-th listed doctor |
| DoctorLists.DictsAgree | src/handlers/admin/show_doctor.py:40-46 | both dicts have the keys `'0'`, `'1'`, …, without repeats, and under each key the button's name is the record's name |
| AppointmentHandlers.StartIsFirstPage | src/handlers/client/appointment.py:92-110 | the first page `get_cons_type` draws is page 0 of the paging reference: at most ten titles from 0, a way forward exactly when more follow |
| AppointmentHandlers.NextIsPage | src/handlers/client/appointment.py:156-187 | for every page after the first that exists, `show_next` draws the reference's page |
| AppointmentHandlers.PrevIsPage | src/handlers/client/appointment.py:127-153 | `show_prev` draws the reference's page whenever another page follows it |
| AppointmentHandlers.PoolButtons | src/handlers/client/appointment.py:92 | the numbered titles give, for every number below their length, that title's button |
| AppointmentHandlers.PoolKey | src/handlers/client/appointment.py:92 | number `i`, written by `str`, finds title `i` |
| AppointmentHandlers.FirstMenuIsPage | src/handlers/client/appointment.py:90-110 | the menu `get_cons_type` shows is the reference's page 0 |
| AppointmentHandlers.PageNavigation | src/handlers/client/appointment.py:95-110 | a page offers "next" exactly when titles follow it and "previous" exactly after the first page |
| AppointmentHandlers.DrawPoolPage | src/handlers/client/appointment.py:140-180 | the stored numbered titles draw the reference's page |
| AppointmentHandlers.NextButtonDraws | src/handlers/client/appointment.py:156-187 | the "next" button of page `p` asks `show_next` for page `p + 1` |
| AppointmentHandlers.PrevButtonDraws | src/handlers/client/appointment.py:127-153 | the "previous" button of page `p` asks `show_prev` for page `p - 1` |
| AppointmentHandlers.NextButtonTurnsPage | src/handlers/client/appointment.py:156-187 | pressing "next" on page `p` draws exactly the reference's page `p + 1` |
| AppointmentHandlers.PrevButtonTurnsPage | src/handlers/client/appointment.py:127-153 | pressing "previous" on page `p` draws exactly the reference's page `p - 1` |
| AppointmentHandlers.DocDictFinds | src/handlers/client/appointment.py:223-228 | with distinct ids, a doctor's `str(id)` finds that doctor's name and photo in the card dictionary |
| AppointmentHandlers.DocDictMisses | src/handlers/client/appointment.py:223-228 | a key that is no listed doctor's `str(id)` finds nothing |
| AppointmentHandlers.SendCards | src/handlers/client/appointment.py:223-246 | the card loop sends every card exactly when every photo file opens; otherwise it stops at the first missing photo, with the earlier photos present; a full run leaves the dictionary of all the doctors |
| AppointmentHandlers.DocDictSnoc | src/handlers/client/appointment.py:225-228 | one more card adds exactly that doctor's entry to the dictionary |
| AppointmentHandlers.Ids | src/handlers/client/appointment.py:230-246 | the ids of `n` messages sent in a row are consecutive from the first |
| AppointmentHandlers.CardButtonChoosesDoctor | src/handlers/client/appointment.py:270-278 | with distinct ids, the button under a doctor's card chooses exactly that doctor's id and record |
| AppointmentHandlers.Booked | src/db/query.py:67-89 | the appointment written holds the session's client, types, request, doctor and time with the current time, appended last; the other tables are unchanged |
| AppointmentHandlers.ReadyAtName | src/handlers/client/appointment.py:547-581 | at the name step every key the appointment needs is in a session that followed the form, and the request text can be built exactly when a phone or a username is there |
| AppointmentHandlers.PriceOfMeaning | src/db/query.py:267-275 | a price is found exactly when a row of that doctor (by photo) and speciality (by title) exists, and it is that row's price |
| AppointmentHandlers.InvoicePriceMeaning | src/handlers/client/appointment.py:652-658 | the price the invoice charges is the price on a row of the chosen doctor for the chosen speciality |
| AppointmentHandlers.FillForm | src/handlers/client/appointment.py:47-64 | from any state the session restarts at `consultation_type` with the client, the form message and no cards |
| AppointmentHandlers.GetConsType | src/handlers/client/appointment.py:67-124 | offline stores the type and a four-step count; anything else stores online, a five-step count and the numbered cached titles and shows their first page; the titles are the database's when the cache is coherent; the state becomes `user_request` |
| AppointmentHandlers.TakeType | src/handlers/client/appointment.py:78-122 | the type and step count are stored, with the numbered titles online, and the state becomes `user_request` |
| AppointmentHandlers.GetSpeciality | src/handlers/client/appointment.py:190-248 | the old cards are deleted, skipping those Telegram refuses; when every photo opens, the title, the card dictionary and the new cards' ids are kept; otherwise the data is unchanged |
| AppointmentHandlers.GetRequestText | src/handlers/client/appointment.py:251-326 | online, the typed message is deleted and nothing else changes; offline, the text is the request, no doctor or speciality is named and the state becomes `datetime_choice` |
| AppointmentHandlers.GetRequestDoctor | src/handlers/client/appointment.py:251-326 | a card button makes the chosen doctor's name the request and keeps the doctor's id; the cards are deleted up to the first Telegram refuses; the state becomes `datetime_choice` |
| AppointmentHandlers.TakeDoctor | src/handlers/client/appointment.py:276-324 | the chosen doctor's id and name are stored, the cards forgotten, and the state becomes `datetime_choice` |
| AppointmentHandlers.GetDatetimeChoice | src/handlers/client/appointment.py:329-368 | "yes" moves to `datetime` with nothing stored; any other answer records no preference and moves to `communication_type` |
| AppointmentHandlers.GetDatetime | src/handlers/client/appointment.py:371-396 | the typed text is the preferred time and the state becomes `communication_type` |
| AppointmentHandlers.GetComType | src/handlers/client/appointment.py:399-489 | a call moves to `phone`; a chat without a username moves to `phone` with that noted; a chat with one stores it, no phone, and moves to `name` |
| AppointmentHandlers.GetPhone | src/handlers/client/appointment.py:492-544 | a rejected phone only renews the prompt; a shared contact or an accepted number is stored with the username and the state becomes `name` |
| AppointmentHandlers.GetName | src/handlers/client/appointment.py:547-643 | offline, the appointment is booked with the session's answers, the session finishes and the client's main menu is shown; online, the posted request is remembered and the state becomes `payment`; input that cannot be read, or a request text that cannot be built, changes nothing |
| AppointmentHandlers.ToPayment | src/handlers/client/appointment.py:620-628 | the name and the posted request are remembered and the state becomes `payment` |
| AppointmentHandlers.BookOffline | src/handlers/client/appointment.py:570-641 | the appointment is booked with the session's answers, then the session finishes and the client's main menu is shown; a chat without the username flag raises after the write |
| AppointmentHandlers.OfflineNameBooks | src/handlers/client/appointment.py:547-641 | in a session that followed the form, an offline name step with a phone or a username always books and finishes |
| AppointmentHandlers.StartPayment | src/handlers/client/appointment.py:646-676 | the invoice charges the chosen doctor's price for the chosen speciality in kopecks, the price is kept and the invoice saved for deletion; a missing price changes nothing |
| AppointmentHandlers.InvoiceAfterForm | src/handlers/client/appointment.py:646-676 | in a session that followed the form, the only thing that stops the invoice is a price the database lacks |
| AppointmentHandlers.ProcessPayment | src/handlers/client/appointment.py:696-766 | a payment with another payload is ignored; the appointment's payment books the session's answers, then the session finishes, or waits in `link` when no conference link could be made |
| AppointmentHandlers.PaymentBooks | src/handlers/client/appointment.py:696-742 | a paid online consultation in a session that followed the form has every appointment key and names a doctor |
| Dispatcher.WordEnd | src/handlers/commands.py:80-86 | the end of the word starting at `i` lies between `i` and the end of the text |
| Dispatcher.FirstMatch | src/handlers/registration.py:14-35 | the route found lies at or after the starting place and within the table |
| Dispatcher.FirstMatchSpec | src/handlers/registration.py:14-35 | the route found takes the update and no route before it does; nothing is found exactly when no route from the start takes it |
| Dispatcher.DispatchPicks | src/handlers/registration.py:14-35 | the dispatcher calls the handler of the first registered route that takes the update |
| Dispatcher.DispatchDrops | src/handlers/registration.py:14-35 | an update is dropped exactly when no route takes it |
| Dispatcher.DispatchSkips | src/handlers/registration.py:14-35 | routes registered earlier that ignore the update do not change where it goes |
| Dispatcher.PastIgnored | src/handlers/registration.py:14-35 | the search passes over a table of ignoring routes |
| Dispatcher.FirstMatchShift | src/handlers/registration.py:14-35 | searching the later table inside the whole finds the same route, moved by the earlier table's length |
| Dispatcher.IgnoresBoth | src/handlers/registration.py:14-35 | two tables that ignore an update ignore it one after the other |
| Routing.SkipBlocks | src/handlers/registration.py:14-35 | modules registered before module `i` that ignore the update leave it to module `i` and those after |
| Routing.PickInBlock | src/handlers/registration.py:14-35 | within a module, the first of its routes that takes the update wins, whatever is registered after |
| Routing.BlocksAre | src/handlers/registration.py:16-33 | the fourteen modules are registered in the order commands, admin panel, create, update, delete and show doctor, statistics, create and delete admin, callback, appointment, feedback, contacts, instruction |
| Routing.RoutedByBlock | src/handlers/registration.py:14-35 | module `i` decides when the modules before it ignore the update |
| Routing.CommandsIgnore | src/handlers/commands.py:80-92 | text that is no `/start` command and no trigger word, and any button, passes the commands module |
| Routing.AdminPanelIgnores | src/handlers/admin/admin_panel_nav.py:94-106 | a button outside the two navigation prefixes passes the admin panel module |
| Routing.CreateDoctorIgnores | src/handlers/admin/create_doctor.py:533-605 | outside its flow, the create-doctor module hears only its entry button |
| Routing.UpdateDoctorIgnores | src/handlers/admin/update_doctor.py:959-1042 | outside its flow and the show-doctor card, the update-doctor module hears only its entry button |
| Routing.DeleteDoctorIgnores | src/handlers/admin/delete_doctor.py:190-217 | outside its flow, the delete-doctor module hears only its entry button |
| Routing.ShowDoctorIgnores | src/handlers/admin/show_doctor.py:146-163 | outside its flow, the show-doctor module hears only its entry button |
| Routing.StatisticIgnores | src/handlers/admin/statistic.py:233-249 | outside its flow, the statistics module hears only its period buttons and its custom-period entry |
| Routing.CreateAdminIgnores | src/handlers/admin/create_admin.py:251-281 | outside its flow, the create-admin module hears only its entry button |
| Routing.DeleteAdminIgnores | src/handlers/admin/delete_admin.py:158-185 | outside its flow, the delete-admin module hears only its entry button |
| Routing.CallbackIgnores | src/handlers/client/callback.py:155-171 | outside its flow, the callback module hears only its entry button |
| Routing.AppointmentIgnores | src/handlers/client/appointment.py:769-842 | outside its flow, the appointment module hears only its entry button |
| Routing.FeedbackIgnores | src/handlers/client/feedback.py:94-105 | outside its flow, the feedback module hears only its entry button |
| Routing.BeforeUpdateDoctor | src/handlers/registration.py:16-21 | the commands, panel and create-doctor modules ignore a button other than their entries, outside the create-doctor flow |
| Routing.ChooseSectionOpensDoctor | src/handlers/admin/update_doctor.py:970-979 | in `cur_value` the bare "choose section" button goes to `get_doctor`, registered before `get_section`, whose prefix filter would also take it |
| Routing.SectionButtonChoosesSection | src/handlers/admin/update_doctor.py:970-979 | in `cur_value` a "choose section:<column>" button goes to `get_section` |
| Routing.EarlierEntryHeads | src/handlers/registration.py:16-29 | the entry buttons registered before the appointment module are told apart from other buttons by their first two letters |
| Routing.PrefixHead | src/handlers/registration.py:16-29 | a button that starts with a prefix of two letters or more shares its first two letters |
| Routing.BeforeAppointment | src/handlers/registration.py:16-29 | while the client picks a speciality, the ten modules before the appointment one ignore everything but their entries and the commands |
| Routing.DoctorModulesIgnore | src/handlers/registration.py:16-23 | while the client picks a speciality, the commands, panel and doctor modules stay silent |
| Routing.OtherModulesIgnore | src/handlers/registration.py:24-29 | while the client picks a speciality, the statistics, admin and callback modules stay silent |
| Routing.AppointmentStep | src/handlers/client/appointment.py:769-842 | with the earlier modules silent, the first appointment route that takes the update decides |
| Routing.PrevButtonRoutes | src/handlers/client/appointment.py:780-784 | while the client picks a speciality, the "prev" button goes to `show_prev` |
| Routing.NextButtonRoutes | src/handlers/client/appointment.py:785-789 | the "next" button goes to `show_next` |
| Routing.SpecialityButtonRoutes | src/handlers/client/appointment.py:790-794 | a speciality button goes to `get_speciality` |
| Routing.CardButtonRoutes | src/handlers/client/appointment.py:799-803 | the button under a doctor's card goes to `get_request` |
| Routing.CommandsReset | src/handlers/commands.py:80-92 | in every state, `/start` and the trigger words go to `start`, registered first |
| Routing.RequestTextRoutes | src/handlers/client/appointment.py:795-798 | any other text typed while the client picks a speciality goes to `get_request` |
| Routing.FillFormFromIdle | src/handlers/client/appointment.py:770-774 | out of every flow, the "appointment request" button opens the form at `fill_form` |
| Routing.IdleDoctorModulesIgnore | src/handlers/registration.py:16-23 | out of every flow, the commands, panel and doctor modules stay silent on other buttons and text |
| Routing.IdleOtherModulesIgnore | src/handlers/registration.py:24-29 | out of every flow, the statistics, admin and callback modules stay silent on other buttons |
| Routing.RequestPhotoDropped | src/handlers/client/appointment.py:795-798 | a photo sent while the client picks a speciality matches no route and is dropped |
| PyText.Split | src/core/processing.py:10 | `str.split` yields one more piece than there are separators, none of them holding the separator |
| PyText.SplitJoin | src/core/processing.py:10 | splitting a join of separator-free pieces gives the pieces back |
| PyText.JoinSplit | src/core/processing.py:10 | joining the pieces of a split with the separator gives the text back |
| PyText.Collapse | src/core/processing.py:9 | `re.sub(r'\s+', ' ', ...)` leaves no two spaces in a row, is empty only for empty text and keeps whether the text starts with white space |
| PyText.CollapseOfCollapsed | src/core/processing.py:9 | text with no run of white space is left unchanged |
| PyText.StripShape | src/core/processing.py:9 | `strip()` returns a slice of its text that neither starts nor ends with white space |
| PyText.TrimLeft | src/core/processing.py:9 | the left trim drops exactly the leading characters that are to be dropped |
| PyText.TrimRight | src/core/processing.py:9 | the right trim drops exactly the trailing characters that are to be dropped |
| PyText.Lower | src/core/processing.py:10 | `lower()` keeps the length |
| PyText.LowerOfLowered | src/core/processing.py:10 | lowering lowered text changes nothing |
| PyText.LowerAppend | src/core/processing.py:10 | lowering distributes over concatenation |
| PyText.Capitalize | src/core/processing.py:12 | `el[0].upper() + el[1:]` keeps the length and the tail and upper-cases the first character |
| PyText.CasingRoundTrip | src/core/processing.py:10-12 | lowering is idempotent, and upper-casing a lowered upper-case letter gives it back |
| PyInt.ParseInt | src/core/validation.py:13-18 | `int()` succeeds exactly on an optional sign and digit groups, with white space around |
| PyInt.IntToString | src/core/validation.py:13-18 | `str(n)` is digits, led by `-` exactly for a negative number |
| PyInt.NatToStringValue | src/core/validation.py:13-18 | the digits written for a number read back as that number |
| PyInt.NatToStringInjective | src/core/validation.py:13-18 | two numbers written alike are equal |
| CallbackHandlers.BareForm | src/handlers/client/callback.py:85-113 | a bare ten-digit mobile number is stored with a `7` in front |
| CallbackHandlers.PlusForm | src/handlers/client/callback.py:85-113 | a number typed with `+7` is stored without the `+` |
| CallbackHandlers.NonDigit | src/handlers/client/callback.py:85 | a single non-digit is stripped entirely |

## Left out

- Telegram I/O: sending, editing and answering messages, logging and `asyncio.sleep` are not modelled. Only what a handler stores (message ids, state, scratch data, database rows) and which messages it deletes are kept.
- Message ids Telegram assigns are a parameter (`sentId`); the k-th message a handler sends is taken to get `sentId + k`.
- Photo files: saving, opening and downloading a doctor's photo are not modelled. Showing and deleting a doctor, and the summary card at the end of `get_price`, take the set of photos whose file does not open as a parameter (`noFile`).
- `generate_link` (src/parsers/video_conference.py) is not part of this model: whether a link could be made is the `linkOk` parameter.
- The invoice is reduced to the amount it charges. The pre-checkout query is routed, but its answer to Telegram is not modelled.
- Time is an abstract ordered integer. Subtracting a `relativedelta` and parsing a typed date are parameters of the statistics flow.
- `list(set(...))` has an order Python does not fix: `PyList.Dedup` returns some duplicate-free permutation, and nothing relies on the order.
- Db.DoctorsWithTitle: `get_doctors_by_speciality` orders by `order_by(Doctor.price.desc())` (`src/db/query.py:178`); the model keeps table order, so the order of the doctors' cards on the client's list is not modelled.
- Db.DoctorsWithSpeciality: likewise keeps table order instead of the descending price order of `src/db/query.py:178`.
- Sorting.SortBySorted: sorted in code-point order. `ORDER BY ... ASC` on MySQL sorts by the column's collation, which by default ignores case and accents, so mixed-case or `ё` titles and names come out in another order than the model's.
- Db.SpecialityTitlesSorted: the catalogue order is code-point order, not the MySQL collation order of `order_by(Speciality.title.asc())` (`src/db/query.py:128`).
- Db.DoctorList: names are ordered by code point, not by the collation of `order_by(Doctor.full_name.asc())` (`src/db/query.py:167`). The `DISTINCT` of `src/db/query.py:166` also merges names that the collation treats as equal (case variants), which the model keeps apart.
- Cache.SourceMeaning: "titles in ascending order" is code-point order. The catalogue the client pages through is therefore not promised in the order the program shows it.
- Redis stores the scratch data as JSON, which turns integer dict keys into strings. `ODict` has string keys throughout, so the int keys of `doc_dict` and `doctors` are modelled already converted.
- `AppointmentHandlers.CachedTitles` returns `[]` for a cached value that is not a title list. `get_cache` never stores one for the catalogue key.
- A `/start@botname` command mention is not modelled; commands are the bare `/start` and `/старт`.
- Routing: the per-module "ignores" lemmas are stated for the states the routing lemmas use, not for every state.
- `contacts.py` and `instruction.py` are only routed: they send fixed text and change nothing.
- `show_doctors` and `show_admins` in `admin_kb.py` build the same keyboard. One function models both.
- `UpdateDoctorHandlers.GetNewValueCb`: a degree or category button pressed for a column that cannot hold text (a stale button) is treated as raising before any write. What SQLAlchemy would do with such a value is not modelled.
- Statistics.Change: the percentage is an exact rational, and `round(x, 1)` keeps the exact value, so float rounding is not modelled. The choice between rounding and `int()` follows the code: a change of `-99` (5 visits against 500) is rounded because its magnitude is under 100.
- Cache.CacheStore.Get: with the cache server down, the model returns the corrected fallback (`Cache.Fallback`, the query result itself), not the one-tuple `src/utils/cache/functions.py:39` returns (see Findings). So the model does not capture what the program does while the cache server (memcached) is down: every admin except `MASTER_ADMIN` is locked out of the admin and access checks, and the client catalogue has a single entry. `Navigation.DownAsWritten` states the lock-out as written; every member below reads through `Get` and inherits the corrected behaviour.
- Cache.ReadCoherent: promises the source value only with the server up; the server-down read is `Cache.ReadDown`, the corrected fallback.
- Navigation.CheckAccess: with the server down, listed `'high'` admins pass, as with the corrected fallback; as written only the master passes.
- Navigation.AccessMeaning: stated only for a live, coherent cache; with the server down the model follows `Navigation.DownCorrected`, the program `Navigation.DownAsWritten`.
- Navigation.AdminMeaning: stated only for a live, coherent cache; with the server down the model follows `Navigation.DownCorrected`, the program `Navigation.DownAsWritten`.
- Fsm.AdminCheck: with the server down, listed admins pass, as with the corrected fallback; as written only the master passes.
- Commands.Start: the menu choice reads the admin list through the corrected server-down fallback.
- Commands.StartMenuMeaning: stated only for a live, coherent cache; the server-down menu choice is not promised.
- AdminPanelNav.AdminMenuNavigation: both admin lists are read through the corrected server-down fallback.
- AdminPanelNav.MovingBackToMenu: the navigation decision reads through the corrected server-down fallback.
- CreateDoctorHandlers.Start: the admin gate reads through the corrected server-down fallback.
- CreateDoctorHandlers.GetConfirmation: the admin gate reads through the corrected server-down fallback.
- UpdateDoctorHandlers.Start: the admin gate reads through the corrected server-down fallback.
- UpdateDoctorHandlers.GetNewValuePhoto: the admin gate reads through the corrected server-down fallback.
- UpdateDoctorHandlers.GetNewValueCb: the admin gate reads through the corrected server-down fallback.
- UpdateDoctorHandlers.GetNewValueMsg: the admin gate reads through the corrected server-down fallback.
- UpdateDoctorSpecialities.UpdateSpecialities: the admin gate reads through the corrected server-down fallback.
- UpdateDoctorSpecialities.PricesDone: the admin gate of the last step reads through the corrected server-down fallback.
- UpdateDoctorSpecialities.TakePrice: ends in the admin gate of the last step, read through the corrected server-down fallback.
- UpdateDoctorSpecialities.GetPrice: after the last price the admin gate reads through the corrected server-down fallback.
- ShowDoctorHandlers.Start: the admin gate reads through the corrected server-down fallback.
- DeleteDoctorHandlers.Start: the admin gate reads through the corrected server-down fallback.
- DeleteDoctorHandlers.GetConfirmation: the admin gate reads through the corrected server-down fallback.
- CreateAdminHandlers.Start: the access check reads through the corrected server-down fallback.
- CreateAdminHandlers.GetConfirmation: the access check reads through the corrected server-down fallback.
- CreateAdminHandlers.Deny: the menu choice reads the admin list through the corrected server-down fallback.
- DeleteAdminHandlers.Start: the access check reads through the corrected server-down fallback.
- DeleteAdminHandlers.GetConfirmation: the access check reads through the corrected server-down fallback.
- StatisticHandlers.ShowStandardStatistics: the access check reads through the corrected server-down fallback.
- StatisticHandlers.ShowCustomStatistics: the access check reads through the corrected server-down fallback.
- CallbackHandlers.GetPhone: the closing main menu reads the admin list through the corrected server-down fallback.
- FeedbackHandlers.GetMessage: the closing main menu reads the admin list through the corrected server-down fallback.
- AppointmentHandlers.GetConsType: the titles are read through the corrected server-down fallback; as written, the one-tuple makes the catalogue a single entry holding the whole list, which the model does not follow.
- AppointmentHandlers.GetName: the offline main menu reads the admin list through the corrected server-down fallback.
- AppointmentHandlers.BookOffline: the closing main menu reads the admin list through the corrected server-down fallback.
- PyInt.ParseInt: digits are ASCII `0`-`9` only; Python's `int()` also accepts every other Unicode decimal digit (Arabic-Indic, fullwidth, ...), which the model rejects.
- PyInt.ParseIntNeedsADigit: "digit" means an ASCII digit, so text made only of other Unicode decimal digits is rejected here and accepted by `int()`.
- Validation.CheckInteger: inherits the ASCII-only digits of `PyInt.ParseInt`.
- Validation.CheckIntegerNeedsADigit: "digit" means an ASCII digit, as in `PyInt.ParseIntNeedsADigit`.
- CallbackHandlers.DigitsOf: keeps ASCII digits only; `re.sub(r'\D', '', text)` on a `str` also keeps every other Unicode decimal digit.
- CallbackHandlers.DigitsOfKeeps: "is a digit" means an ASCII digit, as in `CallbackHandlers.DigitsOf`.
- PyText.Lower: casing is modelled for ASCII letters and Cyrillic (U+0400 to U+045F) only, one character to one, and every other character is kept; Python's full Unicode `lower()` can change the length (`'İ'`), so "keeps the length" holds only for those alphabets.
- PyText.LowerAppend: holds for the modelled casing; Python lowers a final sigma by context, so its `lower()` does not distribute over concatenation.
- PyText.Capitalize: casing as in `PyText.Lower`; Python's `'ß'.upper()` is `'SS'`, so "keeps the length" holds only for the modelled alphabets.
- PyText.CasingRoundTrip: holds for the modelled alphabets, not for all of Python's Unicode casing.
- A missing `user_uid` or `last_msg_id` in the scratch data, read only to edit a prompt, is not modelled as a raise; where a message id is deleted or stored the missing key is modelled.

## Findings

| source | as written | input that shows it | evidently intended | confidence | as-written member | corrected member |
|---|---|---|---|---|---|---|
| src/utils/cache/functions.py:39 | the `except` branch returns the query result followed by a trailing comma, so a one-element tuple | any key while the cache server is down: `uid in value` is false for every admin, and `len(value)` of the catalogue is 1 | return the query result itself | not executed | Cache.FallbackLocksOut | Cache.Fallback |
