# Session-state manager of the balance calculator

`app.js` is a single-page balance calculator. Each profile (a named
account) holds a balance, a fee, a pending transaction amount, a log, undo
and redo stacks of display snapshots, and the last top-up amount. The page
keeps one profile "active". Its numbers and log are the working set shown in
the input fields, and they are written back into the profile whenever the
page saves. Everything goes to `localStorage` under the key `r2000Data`.

This project models that session-state manager in Dafny:

- `Numbers`: `formatNumber` and `parseNumber` on integers. The comma
  grouping of `replace(/\B(?=(\d{3})+(?!\d))/g, ',')`, the comma stripping,
  `parseFloat`'s leading-integer reading and the `x ? formatNumber(x) : ''`
  display rule are all written out.
- `Text`: JavaScript's `\s` class, `trim`, and `split(c)[0]`.
- `Segments`: the auto-copy rule of `extractAndCopySegment`.
- `ProfileOrder`: `splice`, and the move and index renumbering of the `drop`
  handler.
- `SessionState`: the page state as one `Session` value. Every handler is a
  function from the session before to the session after, and a second
  function gives what the handler writes to the clipboard. These functions
  are the specification.
- `SessionLaws`, `TransactionLaws`, `UndoLaws`, `ProfileLaws`,
  `PersistenceLaws`: what
  the handlers promise, proved over those functions. This covers the
  save/load and format/parse round trips, undo/redo inverses,
  clear/restore, what debits and top-ups change, how switch, create,
  delete and reorder treat the working set, and one invariant that every
  handler keeps (the active profile and the store agree with the working
  set, and the index names a profile or is unset). At start-up the index
  is valid unless the stored record's index names no profile. Reloading
  over a record that the page saved from a session with a valid index
  gives the whole invariant. The store holds no record until the first
  save. Every handler that changes the session ends with a save; the
  others leave it untouched. Those are a switch to the empty selector
  value, undo or redo on an empty stack, a delete with no active profile
  or without confirmation, a debit whose clipboard read or write fails, a
  failed top-up read, a create with a blank name, and a drop onto the
  place it came from.
- `App`: the controller as a class. It has the fields of the global `state`
  object, the values of the page's input fields and the store. Each handler
  updates those fields step by step, in the source's order. Each is proved
  to take `Model()` to what the matching `SessionState` function gives.

The source behaves in a few surprising ways, and the model keeps each of
them:

- `createProfile` sets the new index before `switchProfile` saves. So the
  new profile starts with the working set of the profile that was active,
  not with zeros.
- `deleteProfile` sets the index to 0 before `switchProfile` saves. So
  profile 0 keeps its name but receives the deleted profile's working set.
- `loadAllData` keeps a stored index even when it names no profile.
  Deleting with such an index removes no profile (`splice` past the end
  does nothing). Index 0 then becomes active, and profile 0 receives the
  empty working set.
- `loadAllData` shows a zero balance as `0`, where `switchProfile` shows an
  empty field.
- A drop with no active profile compares `null` as 0. A later profile
  dropped at the top therefore makes index 1 active.
- Undo does not restore the last top-up amount.
- A working set with no active profile is not saved. A reload therefore
  drops its balance, fee, amount, log and undo and redo stacks, but keeps
  the last top-up, which the record holds on its own.
- A top-up whose clipboard text holds no digit still happens, as a top-up
  of 0. It pushes a snapshot, logs the line and sets the last top-up to 0.
- `handleDone` reads the clipboard, computes the result and writes it to the
  clipboard before changing anything. A failed read or write leaves the
  session untouched.
- The restore half of the toggle keeps `backupData`.

## Model

| member | source | states |
|---|---|---|
| Numbers.Group | app.js:69 | no contract; defines the comma insertion of the regex, specified by GroupChars, GroupShape and StripGroup |
| Numbers.Value | app.js:74 | no contract; the value of a digit run, specified by ValueOfDigits |
| Numbers.LeadingInteger | app.js:74 | no contract; defines `parseFloat`, falling back to 0, on integers, specified by ReadSigned |
| Numbers.ParseNumber | app.js:72-75 | no contract; defines `parseNumber`, specified by ParseFormatRoundTrip, DisplayRoundTrip and UnreadableIsZero |
| Numbers.Digits | app.js:69 | `toString` of a non-negative integer is a non-empty run of digits without a leading zero |
| Numbers.GroupChars | app.js:69 | the comma grouping writes only digits and commas, and begins and ends with a digit |
| Numbers.GroupShape | app.js:69 | the grouping puts a comma exactly every fourth position from the right, and adds `(len - 1) / 3` commas |
| Numbers.FormatNumber | app.js:67-70 | `formatNumber` never returns empty text for a number |
| Numbers.FormatShape | app.js:67-70 | formatted text starts with `-` exactly for a negative number, ends in a digit, and holds only digits, commas and one leading minus |
| Numbers.StripCommas | app.js:74 | stripping leaves no comma |
| Numbers.StripCommasAppend | app.js:74 | comma stripping distributes over concatenation |
| Numbers.StripCommasOfDigits | app.js:74 | stripping a run of digits changes nothing |
| Numbers.DigitPrefix | app.js:74 | what `parseFloat` reads is the longest digit prefix |
| Numbers.DigitPrefixOfDigits | app.js:74 | a run of digits is read whole |
| Numbers.StripCommasKeepsNoDigit | app.js:74 | stripping commas from text without digits leaves text without digits |
| Numbers.UnreadableIsZero | app.js:72-75 | text without a digit, the empty text included, reads as 0 |
| Numbers.ValueOfDigits | app.js:69-74 | reading the digits of `n` gives `n` |
| Numbers.StripGroup | app.js:69-74 | stripping the commas that grouping inserted gives the digits back |
| Numbers.StripFormat | app.js:67-74 | formatted text without its commas is the sign followed by the digits |
| Numbers.ReadSigned | app.js:74 | `parseFloat` reads an optionally negated digit run exactly |
| Numbers.ReadDigits | app.js:69-74 | the digits of `m` survive grouping and stripping and read back as `m` |
| Numbers.ParseFormatRoundTrip | app.js:67-75 | `parseNumber(formatNumber(n)) == n` for every integer |
| Numbers.ParseOfFormat | app.js:67-75 | the round trip, for text known to be formatted |
| Numbers.Display | app.js:188-190 | the display rule gives empty text exactly for 0, and otherwise the formatted number |
| Numbers.DisplayRoundTrip | app.js:188-190 | parsing the displayed text gives the number back, zero included |
| Text.IsSpace | app.js:321 | no contract; defines the white space that `trim` drops |
| Text.TrimStart | app.js:321 | no contract; defines the leading half of `trim`, specified by TrimStartShape |
| Text.TrimEnd | app.js:321 | no contract; defines the trailing half of `trim`, specified by TrimEndShape |
| Text.Trim | app.js:321 | no contract; defines `trim`, specified by TrimStartShape, TrimEndShape and TrimOneTrailingBlank |
| Text.BeforeFirst | app.js:321 | no contract; defines `split(c)[0]`, specified by BeforeFirstShape and BeforeFirstAppend |
| Text.TrimStartShape | app.js:321 | `trimStart` keeps a suffix, drops only white space and leaves none in front |
| Text.TrimEndShape | app.js:321 | `trimEnd` keeps a prefix, drops only white space and leaves none at the end |
| Text.BeforeFirstShape | app.js:321 | `split(c)[0]` is the prefix before the first `c`, and contains no `c` |
| Text.BeforeFirstAppend | app.js:321 | when `a` has no `c`, the text before the first `c` in `a + b` is `a` followed by that of `b` |
| Text.TrimOneTrailingBlank | app.js:321 | trimming text that has no white space at either end, plus one trailing blank, gives the text back |
| Segments.SegmentToCopy | app.js:206-209 | no contract; defines what auto-copy writes, specified by SegmentToCopyIsFirstLongSegment |
| Segments.SeparatorIndex | app.js:207 | the first separator of `[\s\-_]`, with no separator before it |
| Segments.Split | app.js:207 | `split` always yields at least one piece |
| Segments.FirstLong | app.js:207 | the filter's first survivor has at least 15 characters |
| Segments.SegmentToCopyIsFirstLongSegment | app.js:206-209 | auto-copy writes exactly the 15 characters that start the leftmost segment of at least 15 characters, and writes nothing when there is no such segment (both directions) |
| Segments.LongFirstPiece | app.js:207-209 | a first piece of 15 characters or more is the one copied |
| Segments.ShortUnseparated | app.js:207-208 | a short name without separators copies nothing |
| Segments.ShortFirstPieceSkipped | app.js:207 | a short first piece is filtered out and the copy comes from the rest |
| Segments.NoLongSegmentInFirstPiece | app.js:207 | no long segment starts at or before an early first separator |
| Segments.LongSegmentPastSeparator | app.js:207 | after a separator, the long segments are those of the rest |
| Segments.FirstLongSegmentPastSeparator | app.js:207 | the first long segment of the rest is the first long segment of the name |
| Segments.NoLongSegmentPastSeparator | app.js:207 | with no long segment before the separator or in the rest, the name has none |
| ProfileOrder.Move | app.js:705-706 | no contract; defines the two splices of the drop, specified by MovePermutes, MoveToSamePlace and MoveTracksActive |
| ProfileOrder.Renumber | app.js:708-714 | no contract; defines the renumbering of the current index, `null` included, specified by MoveTracksActive and RenumberIsInjective |
| ProfileOrder.RemoveAt | app.js:519 | `splice(i, 1)` removes exactly the element at `i`, shifting the later ones down; past the end it changes nothing |
| ProfileOrder.MovePermutes | app.js:705-706 | the two splices keep the length and the multiset of profiles, and put the dragged profile at the target |
| ProfileOrder.MoveToSamePlace | app.js:704-706 | a move onto the same index changes nothing |
| ProfileOrder.MoveTracksActive | app.js:705-714 | the renumbered index names the same profile after the move |
| ProfileOrder.RenumberIsInjective | app.js:708-714 | renumbering sends different indexes to different indexes |
| SessionState.Initial | app.js:46-63 | no contract; the state literal the page starts with, specified by InitialIndexValid and LoadWithoutRecord |
| SessionState.Capture | app.js:97-105 | no contract; defines `saveCurrentState`, used by every snapshot law |
| SessionState.HasActive | app.js:108 | no contract; defines the guard of `saveProfileState` |
| SessionState.Flush | app.js:107-118 | no contract; defines `saveProfileState`, specified by FlushIdempotent, FlushChangesOnlyActive and FlushOverwritesActive |
| SessionState.Flushed | app.js:110-116 | no contract; defines the fields `saveProfileState` writes, specified by Committed |
| SessionState.SaveAll | app.js:620-630 | no contract; defines `saveAllData`, specified by SaveAllWritesRecord, SaveAllSyncs and SaveOfSynced |
| SessionState.LoadAll | app.js:632-659 | no contract; defines `loadAllData`, specified by SaveLoadRoundTrip, LoadWithoutRecord and LoadKeepsStaleIndex |
| SessionState.Applied | app.js:635-646 | no contract; defines the record fields `loadAllData` takes over, specified by SaveLoadRoundTrip |
| SessionState.Resumed | app.js:648-656 | no contract; defines the working set `loadAllData` shows, specified by SaveLoadRoundTrip |
| SessionState.Load | app.js:632-659 | no contract; defines page start-up, specified by LoadIndexValid and LoadOfSavedKeepsInvariant |
| SessionState.Switch | app.js:182-204 | no contract; defines `switchProfile`, specified by SwitchLoadsProfile, SwitchAwayAndBack and SwitchToNothing |
| SessionState.Shown | app.js:185-196 | no contract; defines the profile load of `switchProfile`, specified by SwitchLoadsProfile |
| SessionState.SwitchCopy | app.js:198-200 | no contract; defines what `switchProfile` copies, specified by SwitchToNothing and SegmentToCopyIsFirstLongSegment |
| SessionState.DebitTerms | app.js:311-313 | no contract; defines the terms of the debit line, specified by DebitTermsShape |
| SessionState.DebitLine | app.js:311-313 | no contract; defines the debit log message, specified by DebitLineOmitsFeeIffZero and DebitResultIsLine |
| SessionState.DebitEntry | app.js:318 | no contract; defines the debit log entry, specified by DebitShowsLine |
| SessionState.Debit | app.js:298-330 | no contract; defines `handleDone`, specified by DebitBalance, DebitShowsLine, DebitStacks and DebitFailureChangesNothing |
| SessionState.Debited | app.js:300-321 | no contract; defines the session before the saves of `handleDone`, specified by DebitedBalance |
| SessionState.DebitedBy | app.js:315-321 | no contract; defines the debit fields from the three numbers read, specified by DebitBalance, DebitedBalance, DebitShowsLine and DebitStacks |
| SessionState.DebitCopy | app.js:300-307 | no contract; defines what `handleDone` copies, specified by DebitBalance and DebitFailureChangesNothing |
| SessionState.TopUpLine | app.js:349 | no contract; defines the top-up result text, specified by TopUpApplies |
| SessionState.TopUpEntry | app.js:345-347 | no contract; defines the top-up log entry, specified by TopUpApplies |
| SessionState.TopUp | app.js:332-358 | no contract; defines `handleTopUp`, specified by TopUpApplies |
| SessionState.ToppedUp | app.js:334-349 | no contract; defines the session before the saves of `handleTopUp`, specified by TopUpApplies |
| SessionState.ToppedUpBy | app.js:339-349 | no contract; defines the top-up fields from the two numbers read, specified by TopUpApplies |
| SessionState.Restore | app.js:415-419 | no contract; defines a snapshot put back into the fields, specified by UndoMovesOneSnapshot |
| SessionState.Undo | app.js:411-424 | no contract; defines `handleUndo`, specified by UndoMovesOneSnapshot and UndoThenRedo |
| SessionState.Undone | app.js:413-419 | no contract; defines the stack step of `handleUndo`, specified by UndoMovesOneSnapshot |
| SessionState.Redo | app.js:426-439 | no contract; defines `handleRedo`, specified by RedoMovesOneSnapshot and RedoThenUndo |
| SessionState.Redone | app.js:428-434 | no contract; defines the stack step of `handleRedo`, specified by RedoMovesOneSnapshot |
| SessionState.CaptureBackup | app.js:362-373 | no contract; defines `backupData`, specified by ClearEmpties and ClearThenRestore |
| SessionState.ClearRestore | app.js:360-409 | no contract; defines `handleClearRestore`, specified by ClearEmpties, ClearThenRestore and RestoreWithoutBackup |
| SessionState.Cleared | app.js:361-388 | no contract; defines the clear half of the toggle, specified by ClearEmpties |
| SessionState.Restored | app.js:389-405 | no contract; defines the restore half of the toggle, specified by RestoreAfterClear and RestoreWithoutBackup |
| SessionState.NewProfile | app.js:499-508 | no contract; defines a fresh profile, specified by CreateInheritsOutgoingState |
| SessionState.Create | app.js:496-514 | no contract; defines `createProfile`, specified by CreateInheritsOutgoingState and CreateIgnoresBlankName |
| SessionState.Appended | app.js:509-510 | no contract; defines the push and index step of `createProfile`, specified by CreateInheritsOutgoingState |
| SessionState.CreateCopy | app.js:512 | no contract; defines what `createProfile` copies, specified by CreateIgnoresBlankName |
| SessionState.Delete | app.js:516-536 | no contract; defines `deleteProfile`, specified by DeleteOverwritesFirst, DeleteLastEmpties and DeleteIgnored |
| SessionState.Removed | app.js:519-520 | no contract; defines the splice and index step of `deleteProfile`, specified by DeleteOverwritesFirst |
| SessionState.Emptied | app.js:524-531 | no contract; defines the emptied working set, specified by DeleteLastEmpties |
| SessionState.DeleteCopy | app.js:521-522 | no contract; defines what `deleteProfile` copies, specified by DeleteIgnored |
| SessionState.Reorder | app.js:700-718 | no contract; defines the `drop` handler, specified by ReorderKeepsActiveProfile, ReorderWithoutActive and ReorderSamePlace |
| SessionState.Moved | app.js:705-714 | no contract; defines the move and renumbering step of the drop, specified by ReorderKeepsActiveProfile |
| SessionLaws.FlushIdempotent | app.js:107-118 | saving the profile state twice is saving it once |
| SessionLaws.FlushOverwritesActive | app.js:107-118 | what the active profile held before a save does not matter, apart from its name |
| SessionLaws.FlushChangesOnlyActive | app.js:107-118 | saving the profile state changes only the active profile's fields |
| SessionLaws.FlushAbsorbsStaleProfile | app.js:107-118 | a stale active profile is overwritten by the save |
| SessionLaws.SaveAllWritesRecord | app.js:620-630 | `saveAllData` writes the flushed profiles, the index, the settings and the last top-up under its key, and leaves the other keys alone |
| SessionLaws.Committed | app.js:620-630 | save-then-store changes only the profile list and the store, and in the list only the active profile |
| SessionLaws.SaveAbsorbsStaleState | app.js:620-630 | a session that differs only in stale active-profile fields and the stored record saves to the same session |
| SessionLaws.UndoMovesOneSnapshot | app.js:411-424 | undo on an empty history changes nothing; otherwise the history shrinks by one, the display fields go onto redo, and the popped snapshot becomes the display fields |
| SessionLaws.RedoMovesOneSnapshot | app.js:426-439 | the mirror image of undo |
| SessionLaws.UndoThenRedo | app.js:411-439 | redo right after undo gives back the session as it was, saved |
| SessionLaws.RedoThenUndo | app.js:411-439 | undo right after redo gives back the session as it was, saved |
| TransactionLaws.FormatHasNoSpaceOrEquals | app.js:67-70 | formatted numbers contain no white space and no `=` |
| TransactionLaws.DebitTermsShape | app.js:311-313 | the terms of the debit line neither start nor end with white space and contain no `=` |
| TransactionLaws.DebitResultIsLine | app.js:311-321 | the result field (the log line cut at `=`, trimmed, plus ` = ` and the result) is the log line itself |
| TransactionLaws.DebitLineOmitsFeeIffZero | app.js:311-313 | the log line leaves out the fee term if and only if the fee is 0 |
| TransactionLaws.DebitFailureChangesNothing | app.js:298-307 | a failed clipboard read or write leaves the whole session untouched and copies nothing |
| TransactionLaws.DebitBalance | app.js:300-319 | the new balance is balance - fee - amount, in the field, in the active profile and in the clipboard text |
| TransactionLaws.DebitedBalance | app.js:302-319 | the balance field reads back as balance - fee - amount |
| TransactionLaws.DebitShowsLine | app.js:311-321 | the result is the log line, which is also prepended to the log of the session and of the active profile |
| TransactionLaws.DebitStacks | app.js:315-320 | one snapshot of the session before the debit is pushed, redo is emptied, the amount is cleared, and fee, last top-up, index and profile count are kept |
| TransactionLaws.TopUpApplies | app.js:332-358 | the balance grows by the amount, which becomes the last top-up; it is logged, one snapshot is pushed, redo is emptied, fee and amount are kept; a failed read changes nothing |
| TransactionLaws.UndoRevertsDebit | app.js:411-424 | undo right after a debit brings back the display fields and history from before it |
| TransactionLaws.UndoKeepsLastTopUp | app.js:411-424 | undo after a top-up does not bring back the previous last top-up |
| TransactionLaws.UnreadableTopUpAddsNothing | app.js:332-358 | a top-up from text without a digit keeps the balance's value, sets the last top-up to 0 and still pushes one snapshot |
| UndoLaws.Perform | app.js:298-358 | no contract; defines one completed debit or top-up, specified by PerformPushes |
| UndoLaws.PerformAll | app.js:298-358 | no contract; defines transactions performed in order, specified by UndoTimesRevertsTransactions |
| UndoLaws.UndoTimes | app.js:411-424 | no contract; defines repeated presses of undo, specified by UndoTimesRevertsTransactions |
| UndoLaws.PerformPushes | app.js:298-358 | each debit or top-up pushes one snapshot of the session before it |
| UndoLaws.UndoTimesDependsOnHistory | app.js:411-424 | what repeated undo shows and leaves as history depends only on the display fields and history it starts from |
| UndoLaws.UndoTimesRevertsTransactions | app.js:298-424 | k transactions followed by k undos bring back the balance, fee, amount, result, log and history from before them |
| ProfileLaws.FlushOfLoaded | app.js:107-118 | saving a working set just loaded from the active profile writes that profile back unchanged |
| ProfileLaws.SwitchToNothing | app.js:183 | the selector's empty value changes nothing and copies nothing |
| ProfileLaws.SwitchLoadsProfile | app.js:182-204 | a switch saves the outgoing profile, then loads the incoming one's numbers, log, stacks and last top-up with an empty result, and touches no setting |
| ProfileLaws.SwitchAwayAndBack | app.js:182-204 | switching A→B→A gives back A's numbers, log, stacks and last top-up |
| ProfileLaws.CreateIgnoresBlankName | app.js:497-498 | a cancelled or blank name does nothing |
| ProfileLaws.CreateInheritsOutgoingState | app.js:496-514 | the trimmed name is appended and made active, and the new profile receives the outgoing working set |
| ProfileLaws.DeleteIgnored | app.js:517-518 | delete with no active index or without confirmation does nothing |
| ProfileLaws.DeleteOverwritesFirst | app.js:518-522 | deleting splices out the profile at the index (none when a stale index names no profile), index 0 becomes active, and profile 0 receives the working set that was on screen |
| ProfileLaws.DeleteLastEmpties | app.js:518-534 | deleting the last profile leaves no profile, no index and an empty working set, and saves that |
| ProfileLaws.ReorderSamePlace | app.js:704 | a drop on the dragged profile's own position does nothing |
| ProfileLaws.ReorderKeepsActiveProfile | app.js:700-718 | a drop moves the profile and the active index follows the active profile |
| ProfileLaws.ReorderWithoutActive | app.js:708-714 | with no active profile, a later profile dropped at the top makes index 1 active; any other drop keeps the index unset |
| PersistenceLaws.ClearEmpties | app.js:361-388 | clear backs everything up, empties profiles, index, stacks, fields and last top-up, and saves the empty state |
| PersistenceLaws.ClearThenRestore | app.js:360-409 | clear followed by restore is a plain save of the session, with the backup kept |
| PersistenceLaws.ClearStore | app.js:360-409 | clear changes only the session key of the store |
| PersistenceLaws.SaveStore | app.js:620-630 | saving changes only the session key of the store |
| PersistenceLaws.RestoreAfterClear | app.js:389-409 | restore after clear saves the captured session |
| PersistenceLaws.SaveIgnoresBackupAndStore | app.js:620-630 | saving does not read the backup and overwrites only its own key |
| PersistenceLaws.RestoreWithoutBackup | app.js:389-409 | restore with no backup only flips the toggle and saves |
| PersistenceLaws.SaveLoadRoundTrip | app.js:620-659 | loading what was saved gives back the profiles, index, last top-up, settings and, for an active profile, its numbers, log and stacks; with no active index the numbers, log and stacks come back empty |
| PersistenceLaws.LoadWithoutRecord | app.js:632-634 | with nothing stored, loading gives the initial session |
| PersistenceLaws.LoadKeepsStaleIndex | app.js:637-656 | a stored index naming no profile is kept, and the working set stays empty |
| PersistenceLaws.InitialIndexValid | app.js:46-63 | the state literal's index is valid: it is unset, and there is no backup |
| PersistenceLaws.LoadIndexValid | app.js:632-659 | the loaded page has a valid index if and only if the stored record, if any, has an unset index or one that names one of its profiles |
| PersistenceLaws.LoadOfSavedKeepsInvariant | app.js:620-659 | reloading over what a session with a valid index saved gives a session that holds the whole invariant |
| PersistenceLaws.SaveAllSyncs | app.js:620-630 | after a save, the active profile and the store agree with the working set |
| PersistenceLaws.SaveAllKeepsIndex | app.js:620-630 | saving keeps a valid index valid, and an invalid one invalid |
| PersistenceLaws.SaveOfSynced | app.js:620-630 | saving a synced session changes nothing |
| PersistenceLaws.TransactionsKeepInvariant | app.js:298-439 | debit, top-up, undo, redo and clear/restore keep the session synced and the index valid |
| PersistenceLaws.UndoRedoKeepInvariant | app.js:411-439 | undo and redo keep the invariant |
| PersistenceLaws.UndoKeepsInvariant | app.js:411-424 | undo keeps the invariant |
| PersistenceLaws.RedoKeepsInvariant | app.js:426-439 | redo keeps the invariant |
| PersistenceLaws.ClearRestoreKeepsInvariant | app.js:360-409 | the clear/restore toggle keeps the index valid and leaves the session synced |
| PersistenceLaws.ProfileHandlersKeepInvariant | app.js:182-536 | switch (182-204), create (496-514) and delete (516-536) keep the invariant |
| PersistenceLaws.SwitchKeepsInvariant | app.js:182-204 | a switch to an existing profile leaves the session synced with a valid index |
| PersistenceLaws.CreateKeepsInvariant | app.js:496-514 | create keeps the invariant |
| PersistenceLaws.DeleteKeepsInvariant | app.js:516-536 | delete keeps the invariant |
| PersistenceLaws.ReorderKeepsInvariant | app.js:700-718 | a drop keeps the invariant, including the index made up from `null` |
| App.App.constructor | app.js:46-63 | the state literal followed by `loadAllData` is the loaded session |
| App.App.SaveCurrentState | app.js:97-105 | returns the five display values of the current fields, changing nothing |
| App.App.SaveProfileState | app.js:107-118 | the object becomes the flushed session |
| App.App.SaveAllData | app.js:620-630 | the object becomes the saved session |
| App.App.LoadAllData | app.js:632-659 | the object becomes the loaded session |
| App.App.TakeRecord | app.js:635-646 | the list, index, last top-up and timer text are the stored ones, and dark mode can only be switched on |
| App.App.ShowActive | app.js:648-656 | the fields show the active profile (balance always formatted, fee and amount by the display rule), and the stacks are the profile's |
| App.App.SwitchProfile | app.js:182-204 | the object becomes the switched session, and the copied text is the auto-copy segment |
| App.App.ShowProfile | app.js:185-196 | profile `i` is active and shown, with an empty result, its stacks and its last top-up |
| App.App.HandleDone | app.js:298-330 | the object becomes the debited session, and the copied text is the formatted result |
| App.App.RecordDebit | app.js:315-321 | one snapshot is pushed, redo is emptied, and log, balance, amount and result become those of the debit |
| App.App.HandleTopUp | app.js:332-358 | the object becomes the topped-up session |
| App.App.RecordTopUp | app.js:339-349 | one snapshot is pushed, redo is emptied, the last top-up is set, and log, balance and result become those of the top-up |
| App.App.HandleClearRestore | app.js:360-409 | the object becomes the session after the toggle |
| App.App.ClearAll | app.js:361-388 | the backup captures the session, and everything it captured is emptied |
| App.App.RestoreAll | app.js:389-405 | the backup, if any, is put back, and the toggle flips back |
| App.App.RestoreBackup | app.js:390-402 | every captured field comes back from the backup |
| App.App.HandleUndo | app.js:411-424 | the object becomes the undone session |
| App.App.StepBack | app.js:413-419 | the display fields go onto redo and the last snapshot is popped into them |
| App.App.HandleRedo | app.js:426-439 | the object becomes the redone session |
| App.App.StepForward | app.js:428-434 | the display fields go onto the history and the next snapshot is popped into them |
| App.App.CreateProfile | app.js:496-514 | the object becomes the session after create, and the copied text is the auto-copy segment |
| App.App.AppendProfile | app.js:499-510 | a fresh profile is pushed and its slot made current |
| App.App.DeleteProfile | app.js:516-536 | the object becomes the session after delete |
| App.App.RemoveActive | app.js:519-520 | the active profile is spliced out, and the index becomes 0 or unset |
| App.App.ClearWorkingSet | app.js:524-531 | the fields, both stacks and the last top-up are emptied |
| App.App.MoveProfile | app.js:700-718 | the object becomes the reordered session |
| App.App.MoveEntry | app.js:705-714 | the list is the moved list and the index is renumbered |

## Left out

- Fractions and floating point: balances, fees and amounts are integers. JavaScript numbers are doubles, so `balance - fee - transAmt` and `balance + topUp` lose precision beyond 2^53. There `formatNumber` also switches to exponent notation from 10^21. `Numbers.ParseFormatRoundTrip` is proved for every integer, so it matches the source only for magnitudes up to 2^53. `parseFloat` reads only an optional sign and a run of digits. The comma regex's effect on fractional digits and exponent notation are not modelled.
- `formatNumber(null)`: the source never passes it a missing value on the paths modelled.
- JavaScript strings as UTF-16 code units: the model uses characters.
- DOM rendering and messages are not modelled, because they are presentation only: `updateUI`, `updateProfileSelect`, `updateProfilesList`, `updateLastTopUpDisplay`, `showCopyMessage`, `alert` and the button captions.
- The clipboard, `prompt`, `confirm` and the clock are parameters. A rejected clipboard read is `None`, a failed write is `writeOk == false`, and the time is a string. Clipboard writes are results. The asynchrony of the clipboard calls is not modelled.
- The log is kept as text. The HTML wrapping of log entries is written out, but no HTML is parsed.
- Timer (`updateTimerPreview`, `startTimerAction`, `stopTimerAction`, and the timer-toggle click handler at app.js:247-252): these depend on interval callbacks and display classes. Only the timer input's text is kept, because it is saved. The toggle handler also calls `saveAllData`; that save is `SessionState.SaveAll` and is not modelled as a handler of its own.
- The dark-mode button handler (app.js:291-295) is not modelled. It is the only writer of the saved dark mode: it toggles the body class and then calls `saveAllData`. So no modelled handler changes `darkMode`; loading can only switch it on (`App.App.TakeRecord`).
- Theme and layout toggles (`toggleProfilesVisibility`, `toggleProfilesPosition`, `toggleAutoCopy`, `toggleBalanceType`, `selectAllProfiles`) and their `localStorage` keys: these are display flags. The auto-copy flag is a parameter of loading.
- `updateCheckedProfiles` and `copyProfilesToClipboard` (app.js:569-616): checkbox state and output formatting, not session logic.
- Drag gesture detection (`getDragAfterElement`, `dragstart`, `dragover`): pixel geometry. The drop is modelled from the dragged index and the new index.
- Storage failures: `localStorage.setItem` running out of quota, and
  `JSON.parse` throwing on a corrupted record (app.js:636). The store is a
  map that always accepts a write and always holds well-formed records.
- JSON encoding: the stored record is the record itself. The backup is a value, which the deep copy at app.js:370 makes it. After a restore the source aliases the backup's lists, but nothing reads that alias before the next clear replaces it.
- The `input` handler that reformats the three number fields as they are typed (app.js:229-236) is event wiring around `formatNumber` and `saveAllData`, and is not modelled.
