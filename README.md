# A verified model of a terminal time tracker

The program is a terminal time tracker. Each session has a description, a tag,
a start time and an end time. The end time is absent while the session runs.
Finished sessions live in `database/sessions.txt`, one line per session in the
form `date;description;tag;start;end;`. Tags live in `database/tags.txt`, one per
line. A single `AppManager` owns everything. The main loop reads one key and
calls `update`. `update` inspects a nested command state (`Idle`, `New(..)`,
`Modify(Edit|Continue|Delete ..)`, `End`, `Quitting`) and then runs manager
methods that change the in-memory lists and write through the `DatabaseHandler`.

The model has these layers:

- `Results`: `Option`, `Result` and `Outcome`. A panic (`expect`, `unwrap`,
  an index out of range, `usize` underflow) is an explicit `Panicked(message)`
  outcome. It carries the state as it was at the point of the panic.
- `Text`, `Time`: `str::trim`, `split(char)` and joining. Timestamps are whole
  seconds since the epoch. Also covered are `%H:%M:%S`, an abstract `%d-%m-%Y`
  (the day number) and the duration format.
- `AppState`, `ControlKeys`: the command-state enums with their titles, and
  the key table with the control panel.
- `Sessions`: the `Session` value with `eq`, `clone`, `set_field`, the end and
  duration strings and `construct_db_string`.
- `Database`: the file contents as sequences of lines. The module has the
  compaction, append, rewrite, delete and parse functions and their
  round-trip lemmas. `DatabaseHandler` is a class that holds both files and
  updates them in place.
- `AppModel`: the manager's state as a value (`AppView`, which also holds both
  files). Each manager operation is a function on it.
- `Manager.AppManager`: the manager as a class. Each method updates the fields
  in place and is proved to have the effect of the matching `AppModel`
  function on `Snapshot()`.
- `Transitions`: `update` as a pure function `Step(view, key, now)`.
- `MainLoop`: `update` as methods on an `AppManager`. `MainLoop.Update` is
  proved equal to `Step`, so everything proved about `Step` holds for it.
- `Invariants`, `Properties`: the invariant and the lemmas about `Step`.

The central invariant (`Invariants.Inv`) has these parts:

- at most one session runs, and it is the newest;
- the sessions file holds exactly the lines of the finished sessions, in order;
- the tags in memory are distinct;
- the tag cursors point at tags;
- the edit buffer keeps the start and end of the session under edit.

Every completed key event preserves it, with one exception: YES on
"continue" while the newest session still runs. In that case the program
starts a second running session (`Properties.ContinueStartsSecondRunningSession`).

The properties also pin down three panics:

- e, c or d on an empty list, when `usize` arithmetic is overflow-checked
  (`Properties.EmptyListPanics`);
- confirming an edit while a session runs. This rewrites the whole file, and
  the rewrite meets the running session (`Properties.EditWhileRunningPanics`);
- a session that crosses midnight. It is stored with one date, so it is read
  back with its end on the start's day (`Database.MidnightSessionNotRestored`).

A saved session that starts and ends on the same day reads back unchanged
(`Database.ParseDbLineSameDay`, `Database.ParseDbLines`). This needs the
separator to be absent from its description and tag.

`update` (src/main.rs:343-800) calls the manager's continue operation
`continue_selected_session`. Version 0.4.6 of the manager
(src/app_manager.rs) names it `start_new_session_based_on_selected`, and the
model uses the 0.4.6 manager throughout. The older `AppManager` in
src/main.rs:22-314 differs in two ways:

- its `apply_changes_to_session` rewrites the sessions file unconditionally
  (src/main.rs:288-290). Version 0.4.6 rewrites it only when the edited
  session is finished (src/app_manager.rs:269-274);
- its `copy_selected_session_to_buffer` does not set `temp_tag_index`
  (src/app_manager.rs:293 does).

`KEY_CONTINUE` appears in `update` but is not in the key table. The model
takes it to be the copy key `c` (`ControlKeys.KeyContinue`), the key the
control panel offers for copying a session. This is a modelling decision:
the reading of that match arm as the source stands is listed under
"## Left out".

Some of what the code does is easy to miss, and the model follows the code:

- Starting a session from "continue" does not check for a running session.
- Editing the date, start or end field ignores every key. Only the
  description and the tag can be typed into.
- Confirming an edit of a running session does not rewrite the file.
- Corrupt lines and unknown tags panic.
- The round trip holds only for sessions that start and end on the same day.

## Model

| member | source | states |
|---|---|---|
| Text.Trim | src/app_manager.rs:120 | `trim` gives the empty string exactly when the input is all whitespace, and otherwise starts and ends with a non-whitespace character |
| Text.TrimIsMiddle | src/session.rs:134 | the trimmed string is the contiguous middle of the input, after the leading whitespace |
| Text.TrimDropsWhitespace | src/session.rs:134 | what `trim` drops before and after the kept middle is all whitespace |
| Text.TrimIdempotent | src/app_manager.rs:154 | trimming an already trimmed buffer changes nothing |
| Text.Split | src/database_handler.rs:133 | `split(sep)` yields at least one piece and no piece contains the separator |
| Text.SplitAfterPiece | src/database_handler.rs:133 | splitting `a + sep + b` gives `a` followed by the pieces of `b` when `a` has no separator |
| Text.SplitJoin | src/database_handler.rs:133 | splitting the join of separator-free pieces gives back exactly those pieces |
| Text.JoinSplit | src/session.rs:115 | joining the pieces of a split gives back the original string |
| Text.ParseDecimal | src/database_handler.rs:144 | a decimal number reads successfully exactly when the text is a non-empty run of digits |
| Text.ParseDecimalRoundTrip | src/database_handler.rs:144 | a number written in decimal reads back as itself |
| Time.SecondOfDay | src/session.rs:69 | the time of day is below one day and together with the day number recomposes the timestamp |
| Time.ParseTwoDigitsRoundTrip | src/session.rs:69 | a two-digit field `%H`, `%M` or `%S` reads back as the number written |
| Time.FormatTime | src/session.rs:67-70 | `%H:%M:%S` is eight characters, digits with colons at positions 2 and 5 |
| Time.ParseTime | src/database_handler.rs:144-145 | a time that parses is a time of day, below 86400 seconds |
| Time.FormatDate | src/session.rs:107 | the date field is non-empty and uses only digits and `-`, so it never holds the separator |
| Time.ParseDateTimeParts | src/database_handler.rs:141-145 | a parsed `date time` pair lands on the parsed day at the parsed time of day |
| Time.ParseFormatDate | src/database_handler.rs:144 | a written date reads back as the day it names |
| Time.ParseFormatTime | src/database_handler.rs:144 | a written time of day reads back as the same seconds since midnight |
| Time.ParseFormatDateTime | src/database_handler.rs:141-145 | a date written from one instant and a time written from another read back as that day at that time |
| Time.ParseFormatInstant | src/database_handler.rs:141-145 | date and time written from the same instant read back as that instant |
| Time.DurationParts | src/session.rs:86-93 | hours, minutes and seconds, taken with truncating division, recompose the duration; each part is in range and has the duration's sign |
| Time.Pad2 | src/session.rs:95 | `{:02}` of a number below 100 is its two-digit form |
| Time.FormatDurationParses | src/session.rs:95 | a duration under a day is written like a time of day and reads back as the same seconds |
| AppState.TitleIdentifiesMode | src/app_state.rs:70-136 | two command states get the same title exactly when they agree on the mode shown (every `Modify` state is titled "Delete"); the `New` title embeds the input title |
| ControlKeys.KeyToChar | src/control_keys.rs:22-38 | a character key is labelled by its character, and the space key is labelled `SPACE` |
| ControlKeys.KeyLabelsDistinct | src/control_keys.rs:22-38 | different character keys get different labels |
| ControlKeys.GetControls | src/control_keys.rs:39-67 | the panel lists the six controls "new", "edit", "delete", "copy", "end" and "quit", in that order and each on its own key; all are character keys with distinct labels |
| ControlKeys.NewKeyIsNoKey | src/control_keys.rs:3-12 | the "new" key is also the "no" key, and the continue key is taken to be the copy key |
| Sessions.SessionEq | src/session.rs:21-27 | field-wise equality is value equality |
| Sessions.Clone | src/session.rs:13-19 | a clone is equal to the original |
| Sessions.SetField | src/session.rs:118-161 | setting the date moves start and end by the same delta and keeps the duration; a blank description or tag is ignored and a non-blank one is stored trimmed; start and end are replaced outright; nothing else changes |
| Sessions.SetFieldTextIdempotent | src/session.rs:132-149 | storing the same description or tag twice is the same as storing it once |
| Sessions.SetFieldOwnValues | src/session.rs:122-157 | storing a session's own date, start or end changes nothing |
| Sessions.GetEndTimeString | src/session.rs:72-80 | the end string is absent exactly for a running session, and otherwise reads back as the end's time of day |
| Sessions.GetDurationString | src/session.rs:82-99 | the duration string is absent exactly for a running session, and for a duration under a day it reads back as that duration |
| Sessions.ValueSeparatorIsSafe | src/app_manager.rs:37 | the separator `;` cannot occur in a written date or time |
| Sessions.DbLineLayout | src/session.rs:101-116 | a session line is date, description, tag, start and end, each followed by the separator |
| Sessions.ConstructDbString | src/session.rs:101-116 | building the line of a running session panics with "Cannot export ongoing session."; a finished session gives its line, which splits back into its fields when description and tag have no separator |
| Sessions.DbLineSplits | src/session.rs:115 | a session line splits into the session's six fields, the last one empty |
| Database.NonEmptyLines | src/database_handler.rs:183 | filtering keeps exactly the non-empty lines, all of which are from the input |
| Database.NonEmptyLinesAppend | src/database_handler.rs:183 | filtering a concatenation filters each part |
| Database.NonEmptyLinesOfClean | src/database_handler.rs:183 | a file with no blank lines is unchanged by filtering |
| Database.NonEmptyLinesIdempotent | src/database_handler.rs:183 | filtering twice equals filtering once |
| Database.Compacted | src/database_handler.rs:175-196 | `remove_empty_lines` leaves a file without non-empty lines as it was, and otherwise keeps exactly its non-empty lines |
| Database.CompactedIdempotent | src/database_handler.rs:175-196 | compacting a compacted file changes nothing |
| Database.AppendedLine | src/database_handler.rs:59-72 | appending a non-empty line and compacting gives the old non-empty lines followed by that line |
| Database.RemovedAt | src/database_handler.rs:209 | `Vec::remove` shifts every later element down by one and keeps the earlier ones |
| Database.DbLines | src/database_handler.rs:86-90 | the lines written for finished sessions are their session lines, in order and non-empty |
| Database.DbLinesSnoc | src/database_handler.rs:86-90 | writing one more finished session adds its line at the end |
| Database.FirstRunning | src/database_handler.rs:86-90 | the rewrite loop stops at the first running session: all sessions before it are finished |
| Database.ExportAll | src/database_handler.rs:74-96 | a rewrite succeeds exactly when every session is finished and then leaves exactly their lines; otherwise it panics and leaves the truncated file holding a blank first line and the lines of the finished sessions before the first running one, uncompacted |
| Database.FirstRunningAt | src/database_handler.rs:86-90 | the first running session is found at the index where it sits |
| Database.ParseFields | src/database_handler.rs:133-147 | fewer than five fields panic on the index; a parsed session is finished, carries fields 1 and 2 as description and tag, and ends on the day it starts |
| Database.ParseAll | src/database_handler.rs:128-150 | parsing all lines succeeds exactly when every line parses, and then gives each line's session in order |
| Database.ParseAllAbortIsLine | src/database_handler.rs:131-145 | a failed load fails with the panic of some line |
| Database.ParseAllAbortAtLast | src/database_handler.rs:131-145 | when all lines but the last parse, a failed load fails with the last line's panic |
| Database.ParseAllAbortsOnPrefix | src/database_handler.rs:131-145 | once a prefix of the file fails, the whole load fails with the same panic |
| Database.ParseAllAbortExtends | src/database_handler.rs:131-145 | adding a line after a failing prefix keeps the failure |
| Database.ParseSessionsOf | src/database_handler.rs:128-158 | an empty file gives no sessions; otherwise a file whose every line parses gives one session per line, in order, and a bad line aborts with its panic |
| Database.ParseDbLine | src/database_handler.rs:133-147 | a written session line reads back with the same description, tag and start, and with the end's time placed on the start's day |
| Database.ParseDbFields | src/database_handler.rs:133-147 | the written fields of a session read back the same way, field by field |
| Database.ParseDbLineSameDay | src/database_handler.rs:133-147 | a session that starts and ends on the same day reads back unchanged |
| Database.MidnightSessionNotRestored | src/database_handler.rs:141-145 | a session that ends on a later day reads back with its end moved back by whole days, so it is not the session that was saved |
| Database.ParseDbLines | src/database_handler.rs:128-158 | the file written for restorable sessions loads back as those sessions |
| Database.DatabaseHandler.RemoveEmptyLines | src/database_handler.rs:175-196 | the named file is compacted and the other is untouched |
| Database.DatabaseHandler.ExportSession | src/database_handler.rs:59-72 | the session line is appended and the sessions file compacted; the tags file is untouched |
| Database.DatabaseHandler.ExportTag | src/database_handler.rs:98-111 | the tag is appended and the tags file compacted; the sessions file is untouched |
| Database.DatabaseHandler.ExportAllSessions | src/database_handler.rs:74-96 | the loop leaves the outcome and file that `ExportAll` describes |
| Database.DatabaseHandler.DeleteSession | src/database_handler.rs:198-222 | the raw line at the index is removed; an index past the end panics and leaves the file as it was |
| Database.DatabaseHandler.ParseSessions | src/database_handler.rs:128-158 | the loop returns what `ParseSessionsOf` describes: nothing for no lines, one session per line, or the first bad line's panic |
| Database.DatabaseHandler.ImportSessions | src/database_handler.rs:113-126 | loading drops the blank lines of the sessions file and parses the rest as `ParseSessionsOf` describes |
| Database.DatabaseHandler.ImportTags | src/database_handler.rs:160-173 | loading gives the non-empty lines of the tags file |
| AppModel.Fresh | src/app_manager.rs:33-51 | a new manager runs, is idle, has no sessions, no tags and no edit buffer |
| AppModel.Initial | src/app_manager.rs:31-69 | start-up succeeds exactly when every stored line parses and, if there are sessions, the newest session's tag is a stored tag; then the sessions are the parsed lines and the selected tag is that tag |
| AppModel.FieldIndex | src/app_manager.rs:101-111 | the column index is at most 4, and 0 exactly for the date or no field |
| AppModel.IncrementField | src/app_manager.rs:71-84 | with a buffer, the cursor moves one column right (stopping at the end), carries the buffer's value of the new field, and stays off exactly when it was off; without a buffer nothing moves |
| AppModel.DecrementField | src/app_manager.rs:86-99 | the same one column to the left, stopping at the date |
| AppModel.FieldCycleInverse | src/app_manager.rs:71-99 | right then left, or left then right, returns to the same column away from the ends |
| AppModel.IndexOfTag | src/app_manager.rs:113-116 | the index is the first position of the tag; a missing tag panics with "Failed to retrieve tag index." |
| AppModel.TryStartNewSession | src/app_manager.rs:118-131 | the description is trimmed; with a valid tag index and a non-blank description a running session is appended with that tag and `now` as start, and the buffer is cleared |
| AppModel.TryStoreTag | src/app_manager.rs:152-165 | a blank or known tag only trims the buffer; a new one is appended to the tags and the file, becomes the selected tag, and the buffer is cleared; tags stay distinct |
| AppModel.TryStoreTagStored | src/app_manager.rs:152-165 | storing a new tag is the compacted append to the tags file plus the in-memory append |
| AppModel.EndRunningSession | src/app_manager.rs:187-201 | a running newest session gets `now` as its end and its line appended to the file; otherwise nothing changes; afterwards the newest session is not running |
| AppModel.DeleteSelectedSession | src/app_manager.rs:203-219 | an empty list is a no-op; otherwise the deletion succeeds exactly when the selection is in the list and is either running or has a line at its index in the file; then the selected session is removed, and its file line too when it was finished; a panic leaves the file as it was |
| AppModel.StartNewSessionBasedOnSelected | src/app_manager.rs:221-238 | a running or missing selection is a no-op; for a finished selection it panics exactly when its tag is unknown, changing nothing; with a known tag a running copy with the trimmed description and the same tag is appended exactly when the description is not blank, and otherwise the sessions stay as they were; only the sessions, description buffer and selected tag change |
| AppModel.SessionBufferHasPendingChanges | src/app_manager.rs:240-257 | pending changes exist exactly when the buffer is present and differs from the selected session |
| AppModel.ApplyChangesToSession | src/app_manager.rs:259-276 | the buffer replaces the selected session; a running result leaves the file alone, and a finished result rewrites it, which succeeds exactly when no session runs and otherwise leaves the partial file of `ExportAll`; only the sessions and the sessions file change |
| AppModel.StoreModifiedField | src/app_manager.rs:278-284 | the field under the cursor is set on the buffer; the buffer's own date, start or end changes nothing |
| AppModel.CopySelectedSessionToBuffer | src/app_manager.rs:286-295 | the selected session is copied into the buffer, the cursor goes to its date, and the tag cursor to its tag; it panics exactly when the tag is unknown; only the buffer, the field cursor and the tag cursor change |
| Transitions.SessionUp | src/main.rs:506-512 | UP selects the next newer session and stops at the newest |
| Transitions.SessionDown | src/main.rs:513-519 | DOWN selects the next older session and stops at the oldest |
| Transitions.TagUp | src/main.rs:448-454 | UP moves the tag cursor back and stops at 0 |
| Transitions.TagDown | src/main.rs:455-461 | DOWN moves the tag cursor forward and stops at the last tag |
| Transitions.StepIdle | src/main.rs:349-383 | the list view changes no data, and, with overflow-checked `usize` arithmetic, panics exactly on e, c or d with no sessions |
| Invariants.LoadedFileInv | src/app_manager.rs:31-69 | a manager loaded from a file written for its finished sessions satisfies the invariant |
| Invariants.InitialInv | src/app_manager.rs:31-69 | starting from a file written for restorable sessions loads exactly those sessions and satisfies the invariant |
| Invariants.EndRunningSessionInv | src/app_manager.rs:187-201 | ending the running session keeps the data invariant and leaves every session finished |
| Invariants.EndedKeepsDataInv | src/app_manager.rs:187-201 | replacing the running session by its ended copy and appending its line keeps the data invariant |
| Invariants.TryStartNewSessionInv | src/app_manager.rs:118-131 | starting a session when none runs keeps the data invariant |
| Invariants.TryStoreTagInv | src/app_manager.rs:152-165 | storing a tag keeps the data invariant |
| Invariants.DbLinesRemovedAt | src/database_handler.rs:198-222 | removing a finished session and removing its line keep the file in step with the list |
| Invariants.RemovedAtRunningOnlyLast | src/app_manager.rs:218 | removing any session keeps "only the newest may run" |
| Invariants.DeleteSelectedSessionInv | src/app_manager.rs:203-219 | deleting the selected session keeps the data invariant |
| Invariants.RemovalKeepsDataInv | src/app_manager.rs:210-218 | removing a session, and its line when it was finished, keeps the data invariant |
| Invariants.StartNewSessionBasedOnSelectedInv | src/app_manager.rs:221-238 | continuing a session when none runs keeps the data invariant |
| Invariants.CopySelectedSessionToBufferInv | src/app_manager.rs:286-295 | copying the selection into the buffer keeps the data invariant |
| Invariants.ApplyChangesToSessionInv | src/app_manager.rs:259-276 | applying a buffer that keeps the session's end keeps the data invariant |
| Invariants.StoreModifiedFieldKeepsTimes | src/app_manager.rs:278-284 | storing a field whose date, start or end are the buffer's own keeps the buffer's start and end |
| Properties.StepIdleInv | src/main.rs:349-383 | every completed key in the list view keeps the invariant |
| Properties.ConfirmEndPreviousInv | src/main.rs:388-400 | answering "end the running session first?" keeps the invariant |
| Properties.DescriptionInputInv | src/main.rs:401-434 | every key while typing a description keeps the invariant |
| Properties.TagSelectInv | src/main.rs:438-469 | every key in the tag list keeps the invariant |
| Properties.TagInputInv | src/main.rs:470-491 | every key while typing a new tag keeps the invariant |
| Properties.StepNewInv | src/main.rs:384-495 | every completed key while composing a session keeps the invariant |
| Properties.EditBrowseInv | src/main.rs:500-529 | every completed key while choosing a session to edit keeps the invariant |
| Properties.FieldMoveInv | src/main.rs:547-566 | moving the field cursor to a field that carries the buffer's value keeps the invariant |
| Properties.FieldsBrowseInv | src/main.rs:532-576 | every completed key while moving over the fields keeps the invariant |
| Properties.EditingInv | src/main.rs:577-658 | every completed key while editing a field keeps the invariant |
| Properties.FieldInputInv | src/main.rs:599-657 | typing into the field under the cursor keeps the invariant |
| Properties.EditConfirmInv | src/main.rs:660-683 | every completed answer to "apply the changes?" keeps the invariant |
| Properties.StepEditInv | src/main.rs:498-684 | every completed key while editing keeps the invariant |
| Properties.ConfirmedInv | src/main.rs:770-781 | a YES/NO prompt keeps the invariant when the confirmed action does |
| Properties.ContinueConfirmInv | src/main.rs:687-698 | answering "continue?" keeps the invariant unless YES is given while a session runs |
| Properties.DeleteConfirmInv | src/main.rs:729-740 | every completed answer to "delete?" keeps the invariant |
| Properties.StepModifyInv | src/main.rs:496-769 | every completed key in the edit, continue and delete flows keeps the invariant, except YES to continue while a session runs |
| Properties.StepQuittingInv | src/main.rs:782-797 | every answer to "quit?" keeps the invariant |
| Properties.StepEndInv | src/main.rs:770-781 | every answer to "end the session?" keeps the invariant |
| Properties.EndedInv | src/main.rs:774-775 | ending the running session and returning to the list keeps the invariant |
| Properties.StepInv | src/main.rs:343-800 | every completed key event keeps the invariant, except YES to continue while a session runs |
| Properties.ContinueStartsSecondRunningSession | src/main.rs:687-693 | YES to continue an older finished session while the newest runs leaves two running sessions, breaking "only the newest may run" |
| Properties.InitialWithoutSessions | src/app_manager.rs:53-66 | a start on a sessions file with no sessions succeeds without reading the tags file: no tag is in memory while the file keeps its lines |
| Properties.StoredTagDuplicatedInFile | src/app_manager.rs:152-165 | with no tags in memory, ENTER on a tag the tags file already holds appends it to the file again, so the file holds it twice |
| Properties.DuplicateTagsReloaded | src/app_manager.rs:53-66 | a tags file holding a tag twice is loaded as it is once a session exists, and the invariant fails from the start |
| Properties.ContinueAppendsSession | src/app_manager.rs:221-238 | continuing a finished session with a known tag and a non-blank description appends a running copy |
| Properties.EditWhileRunningPanics | src/main.rs:662-668 | applying an edit to an older session while the newest runs panics with "Cannot export ongoing session." |
| Properties.EmptyListPanics | src/main.rs:355-369 | with overflow-checked `usize` arithmetic, e, c or d on an empty list panics on the `len() - 1` underflow and changes nothing |
| Properties.IdleKeys | src/main.rs:349-383 | in the list view n, q and SPACE switch mode as bound; e, c and d select the newest session and open their flow; any other key does nothing |
| Properties.BrowseStaysInList | src/main.rs:506-519 | UP and DOWN in a session list move the selection by one within the list and change nothing else |
| Properties.DescriptionEnter | src/main.rs:411-422 | ENTER asks for confirmation when a session runs, and otherwise starts the session and returns to the list |
| Properties.ConfirmEndPrevious | src/main.rs:388-395 | YES ends the running session at `now`, then may start the new one as the only running session, and keeps the invariant |
| Properties.EndThenStart | src/main.rs:392-393 | ending then starting keeps the older sessions and the ended one, and any new session is the only running one |
| Properties.ConfirmEndPreviousCancel | src/main.rs:396-399 | NO or ESC at that prompt returns to the description input and changes nothing else |
| Properties.TagSelection | src/main.rs:448-466 | the tag cursor stays on a tag, and ENTER makes it the selected tag |
| Properties.NewTagEnter | src/main.rs:480-484 | ENTER on a new tag tries to store it and returns to the description input |
| Properties.FieldsEscape | src/main.rs:534-546 | ESC over the fields asks for confirmation exactly when there are pending changes, and otherwise drops the buffer and cursor |
| Properties.FieldsMove | src/main.rs:547-566 | LEFT and RIGHT move the field cursor by one column and point the tag cursor at the buffer's tag on the tag column; an unknown tag panics there |
| Properties.EditingKeys | src/main.rs:581-613 | ENTER stores the field and ESC leaves it; on the date, start and end fields every other key does nothing |
| Properties.EditingInput | src/main.rs:614-650 | characters extend the description field; UP and DOWN on the tag field put the tag under the moved cursor in the field |
| Properties.CancelChangesNothing | src/main.rs:660-797 | NO or ESC at any confirmation changes no data and goes back to the list, or from "apply changes?" on ESC to the fields |
| Properties.EndYes | src/main.rs:770-776 | YES at "end?" gives the running session `now` as its end and changes no other session |
| Properties.QuitYes | src/main.rs:782-792 | YES at "quit?" stops the loop with no session left running; under the invariant the file then holds every session |
| Properties.StepNewKeepsTags | src/main.rs:384-495 | composing a session changes neither the tags nor the tags file, except by ENTER on a new tag |
| Properties.ConfirmedKeepsTags | src/main.rs:685-781 | a YES/NO prompt keeps the tags when the confirmed action does |
| Properties.StepEditKeepsTags | src/main.rs:498-684 | editing a session never changes the tags or the tags file |
| Properties.EditBrowseKeepsTags | src/main.rs:500-529 | choosing a session to edit keeps the tags |
| Properties.FieldsBrowseKeepsTags | src/main.rs:532-576 | moving over the fields keeps the tags |
| Properties.EditingKeepsTags | src/main.rs:577-658 | editing a field keeps the tags |
| Properties.EditConfirmKeepsTags | src/main.rs:660-683 | answering "apply the changes?" keeps the tags |
| Properties.StepModifyKeepsTags | src/main.rs:496-769 | the edit, continue and delete flows keep the tags |
| Properties.TagsOnlyGrow | src/main.rs:343-800 | a key event either keeps the tags and the tags file, or appends to both one non-blank tag that is not among the tags in memory; the tags in memory stay distinct within one run. The tags file is not consulted, so it can gain a duplicate (`Properties.StoredTagDuplicatedInFile`) |
| Properties.StepKeepsTags | src/main.rs:343-800 | every key event other than ENTER on a new tag keeps the tags and the tags file |
| Manager.AppManager.Blank | src/app_manager.rs:33-51 | the fresh manager built before loading |
| Manager.AppManager.New | src/app_manager.rs:31-69 | construction loads the files into the fields with the outcome `AppModel.Initial` describes |
| Manager.AppManager.IncrementSelectedSessionField | src/app_manager.rs:71-84 | only the field cursor changes, as `IncrementField` describes |
| Manager.AppManager.DecrementSelectedSessionField | src/app_manager.rs:86-99 | only the field cursor changes, as `DecrementField` describes |
| Manager.AppManager.GetSelectedSessionFieldIndex | src/app_manager.rs:101-111 | returns the column index of the cursor |
| Manager.AppManager.GetIndexOfTag | src/app_manager.rs:113-116 | the search loop returns what `IndexOfTag` describes |
| Manager.AppManager.TryStartNewSession | src/app_manager.rs:118-131 | the fields change as `TryStartNewSession` describes |
| Manager.AppManager.HasTag | src/app_manager.rs:156 | the scan answers whether the tag is among the tags |
| Manager.AppManager.TryStoreTag | src/app_manager.rs:152-165 | fields and tags file change as `TryStoreTag` describes |
| Manager.AppManager.SetSelectedTagIndex | src/app_manager.rs:167-170 | only the selected tag index changes |
| Manager.AppManager.GetSelectedTagIndex | src/app_manager.rs:172-175 | returns the selected tag index |
| Manager.AppManager.IsLastSessionStillRunning | src/app_manager.rs:177-185 | answers whether the newest session runs; false for no sessions |
| Manager.AppManager.EndRunningSession | src/app_manager.rs:187-201 | fields and sessions file change as `EndRunningSession` describes |
| Manager.AppManager.DeleteSelectedSession | src/app_manager.rs:203-219 | outcome, fields and sessions file as `DeleteSelectedSession` describes |
| Manager.AppManager.StartNewSessionBasedOnSelected | src/app_manager.rs:221-238 | outcome and fields as `StartNewSessionBasedOnSelected` describes |
| Manager.AppManager.SessionBufferHasPendingChanges | src/app_manager.rs:240-257 | answers whether the buffer differs from the selected session |
| Manager.AppManager.ApplyChangesToSession | src/app_manager.rs:259-276 | outcome, fields and sessions file as `ApplyChangesToSession` describes |
| Manager.AppManager.StoreModifiedFieldToSessionBuffer | src/app_manager.rs:278-284 | the buffer changes as `StoreModifiedField` describes |
| Manager.AppManager.CopySelectedSessionToBuffer | src/app_manager.rs:286-295 | outcome and fields as `CopySelectedSessionToBuffer` describes |
| Manager.AppManager.ClearSessionEditBuffer | src/app_manager.rs:297-300 | only the edit buffer is cleared |
| MainLoop.UpdateIdle | src/main.rs:349-383 | the list view acts on the manager as `StepIdle` |
| MainLoop.UpdateDescription | src/main.rs:386-435 | description input and its confirmation act as `StepNew` |
| MainLoop.UpdateTag | src/main.rs:436-494 | the tag sub-states act as `StepNew` |
| MainLoop.UpdateTagSelect | src/main.rs:438-469 | the tag list acts as `StepNew` |
| MainLoop.UpdateTagInput | src/main.rs:470-491 | new-tag input acts as `StepNew` |
| MainLoop.PointTagCursorAtBuffer | src/main.rs:551-555 | pointing the tag cursor at the buffer's tag acts as `SyncTagCursor`, panicking like `unwrap` and `expect` |
| MainLoop.TypeIntoField | src/main.rs:599-657 | typing into the field under the cursor acts as `EditFieldInput`, with the index panic on an empty tag list |
| MainLoop.UpdateEditBrowse | src/main.rs:500-529 | choosing a session to edit acts as `StepSessionsBrowse` |
| MainLoop.UpdateFieldsBrowse | src/main.rs:532-576 | moving over the fields acts as `StepFieldsBrowse` |
| MainLoop.UpdateEditing | src/main.rs:577-658 | editing a field acts as `StepEditing` |
| MainLoop.UpdateEditConfirm | src/main.rs:660-683 | "apply the changes?" acts as `StepEditConfirm` |
| MainLoop.UpdateChoose | src/main.rs:699-725 | choosing a session to continue or delete acts as `StepChoose` |
| MainLoop.UpdateContinueConfirm | src/main.rs:687-698 | "continue?" acts as `StepModify` |
| MainLoop.UpdateDeleteConfirm | src/main.rs:729-740 | "delete?" acts as `StepModify` |
| MainLoop.UpdateEnd | src/main.rs:770-781 | "end the session?" acts as the confirmed end in `Step` |
| MainLoop.UpdateQuitting | src/main.rs:782-797 | "quit?" acts as `StepQuitting` |
| MainLoop.Update | src/main.rs:343-800 | one key event, or none, changes the manager and both files exactly as `Step` does, so `Properties.StepInv`, `Properties.TagsOnlyGrow` and the other lemmas about `Step` hold of it |

## Left out

- Rendering, the terminal, colours and sprites (`render`, `debug_draw`, src/io.rs) are not modelled. They change no state of the manager, but `render` can panic: see the next lines.
- Reading a key (`get_user_key`) and the `while running` loop in `main` are left out. `Update` takes the key, or its absence, as a parameter.
- `get_current_time` reads the clock. It becomes the `now` parameter of the operations that start or end a session.
- One `now` stands for both clock reads when YES ends the running session and starts the new one (src/main.rs:392-393, read at src/app_manager.rs:189 and 126). In the program the new start can be later than the old end. The model sets them equal.
- chrono's calendar is not modelled. `%d-%m-%Y` is replaced by the decimal day number, which names the same day and likewise holds no separator. `%d %b %y` (`get_date_string`) is display only.
- `get_start_time_string` is display only. Its format is `Time.FormatTime`.
- `DatabaseHandler::new` and `try_create_data_path_and_files` are not modelled. The files are assumed to exist, so `import_sessions` and `import_tags` always open them.
- The file system is not modelled. Failing `open`, write errors, the `.temp` file and `rename` are absent, and each file is its sequence of lines.
- The `?` and `expect` on export results are never reached, because writes cannot fail in the model.
- `version`, `renderer` and `date_format` are constant fields that only rendering reads. `value_separator` is the constant `Sessions.ValueSeparator`.
- `usize` overflow on `+ 1` is not modelled. Indices stay far below the limit.
- The `len() - 1` underflow on an empty list is modelled as a panic, as in a build with overflow checks. A release build wraps `selected_session_index` to `usize::MAX` at src/main.rs:357, 362 and 367 instead, and the model does not cover that build.
- With overflow checks, `render` already panics whenever the session list is empty. It computes `sessions.len() - 1` on every frame (src/main.rs:1110) and runs before `update` (src/main.rs:334-338). So the program stops on the first frame of an empty database and on the frame after the last session is deleted, and `update` never sees e, c or d on an empty list. The model, which has no `render`, does not capture this earlier panic.
- ControlKeys.KeyContinue: no `KEY_CONTINUE` constant is defined in src/control_keys.rs. Read as written, the arm at src/main.rs:360 would be a binding that matches every key other than n and e, so that d, SPACE, q and all other keys would open "continue" and the arms after it would be unreachable. The model binds continue to `c` instead, and does not model that catch-all reading.
- Line breaks inside a description or tag are not modelled. The model treats them as ordinary characters, whereas the program's file would break the line.
- `BufRead::lines` also strips a trailing carriage return from each line. The model keeps it, so a file with CRLF line endings reads differently.
- chrono also accepts a single digit in a numeric field, so a hand-edited time such as `9:05:00` loads in the program. `Time.ParseTime` accepts only the two-digit form the program writes, so such a line aborts the load in the model.
- Panic messages from the standard library carry only the text the model needs. `Vec::remove` and out-of-range indexing use `Database.RemovalPanic` and `Text.IndexPanic`. `Option::unwrap` uses `Transitions.UnwrapNone`.
- The older `AppManager` in src/main.rs:22-314 is not modelled separately. Its differences are listed above.
- Invariants.InitialInv: the invariant is shown only for a sessions file left by runs that did not panic. `import_sessions` drops blank lines (src/database_handler.rs:120), but `delete_session` removes by raw line index (src/database_handler.rs:207-209), so any blank line before a session breaks the link between list positions and line positions. A hand-edited file can have one. The program leaves one too: a rewrite that panics on a running session (`Properties.EditWhileRunningPanics`, `Database.ExportAll`) leaves a file with a blank first line that is never compacted. After a restart, deleting session i then removes the line of session i-1, or the blank line. The model reproduces this through `Database.RemovedAt` on the raw lines, but `Inv` does not hold for such a file. The tags file can also break the invariant. `new` reads it only when the sessions file yields a session (src/app_manager.rs:53-66), and `try_store_tag` compares a new tag only with the tags in memory (src/app_manager.rs:156). So after a start with no sessions, storing a tag the file already holds writes it twice (`Properties.StoredTagDuplicatedInFile`). The next start with a session loads the duplicate, and `Inv` fails from the start (`Properties.DuplicateTagsReloaded`). `InitialInv` therefore requires a tags file with distinct tags, which the program does not guarantee.
- Properties.StepInv: the invariant is not claimed for YES to continue while a session runs, because the program breaks it there (see `Properties.ContinueStartsSecondRunningSession`).
- Sessions.GetDurationString: the read-back is stated only for durations under a day. Longer or negative durations print hours past 23 or a sign, and these are not times of day.
