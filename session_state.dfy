/** The session-state manager of app.js as values: the global `state`
    object and the DOM fields it reads and writes become one `Session`
    value, and every handler becomes a function from the session before to
    the session after. These functions are the specification the methods
    of `App.App` are proved against. */
module SessionState {
  import opened Options
  import opened Text
  import opened Numbers
  import opened Segments
  import opened ProfileOrder

  /** `saveCurrentState()`: the five display fields, as text (app.js:97-105). */
  datatype Snapshot = Snapshot(balance: string, fee: string, amount: string, result: string, log: string)

  /** A profile record as `createProfile` builds it and `saveProfileState`
      fills it (app.js:499-508, app.js:110-116). */
  datatype Profile = Profile(
    name: string,
    balance: int,
    fee: int,
    amount: int,
    history: seq<Snapshot>,
    redo: seq<Snapshot>,
    log: string,
    lastTopUp: int)

  /** The record `saveAllData` writes under one key (app.js:622-628). */
  datatype Record = Record(
    profiles: seq<Profile>,
    activeIndex: Option<nat>,
    darkMode: bool,
    timerInput: string,
    lastTopUp: int)

  /** `backupData`, captured by the clear half of the toggle (app.js:362-373). */
  datatype Backup = Backup(
    balance: string,
    fee: string,
    amount: string,
    result: string,
    log: string,
    history: seq<Snapshot>,
    redo: seq<Snapshot>,
    profiles: seq<Profile>,
    activeIndex: Option<nat>,
    lastTopUp: int)

  /** The whole session: the profile store and active index, the transient
      working set (the five display fields, the undo and redo stacks and the
      last top-up), the clear/restore toggle, the two display settings that
      are persisted, the auto-copy flag, and the durable key-value store. */
  datatype Session = Session(
    profiles: seq<Profile>,
    activeIndex: Option<nat>,
    balance: string,
    fee: string,
    amount: string,
    result: string,
    log: string,
    history: seq<Snapshot>,
    redo: seq<Snapshot>,
    lastTopUp: int,
    isCleared: bool,
    backup: Option<Backup>,
    darkMode: bool,
    timerInput: string,
    autoCopy: bool,
    store: map<string, Record>)

  /** The storage key of the session record. */
  const DataKey := "r2000Data"

  /** The state literal the page starts with (app.js:46-63), over a store. */
  function Initial(store: map<string, Record>): Session {
    Session([], None, "", "", "", "", "", [], [], 0, false, None, false, "", false, store)
  }

  function Capture(s: Session): Snapshot {
    Snapshot(s.balance, s.fee, s.amount, s.result, s.log)
  }

  /** The guard of `saveProfileState`: an index is set and names a profile. */
  predicate HasActive(s: Session) {
    s.activeIndex.Some? && s.activeIndex.value < |s.profiles|
  }

  /** `saveProfileState` (app.js:107-118): write the working set into the
      active profile; the numeric fields are parsed from their text. */
  function Flush(s: Session): Session {
    if HasActive(s) then
      var i := s.activeIndex.value;
      s.(profiles := s.profiles[i := Flushed(s.profiles[i], s)])
    else
      s
  }

  /** Profile `p` with the working set of `s` written into it. */
  function Flushed(p: Profile, s: Session): Profile {
    p.(
      balance := ParseNumber(s.balance),
      fee := ParseNumber(s.fee),
      amount := ParseNumber(s.amount),
      history := s.history,
      redo := s.redo,
      log := s.log,
      lastTopUp := s.lastTopUp)
  }

  /** `saveAllData` (app.js:620-630): flush, then write the record. */
  function SaveAll(s: Session): Session {
    var f := Flush(s);
    f.(store := f.store[DataKey := Record(f.profiles, f.activeIndex, f.darkMode, f.timerInput, f.lastTopUp)])
  }

  /** `loadAllData` (app.js:632-659). The stored index is kept as it is,
      even out of range; the working set is loaded only when it names a
      profile. The auto-copy flag comes from its own key. */
  function LoadAll(s: Session, autoCopyStored: bool): Session {
    var t := if DataKey !in s.store then s
      else
        var u := Applied(s);
        if HasActive(u) then Resumed(u) else u;
    t.(autoCopy := autoCopyStored)
  }

  /** The stored record's list, index, last top-up, dark mode (which it
      can only switch on) and timer text, taken over by `loadAllData`. */
  function Applied(s: Session): Session
    requires DataKey in s.store
  {
    var d := s.store[DataKey];
    s.(
      profiles := d.profiles,
      activeIndex := d.activeIndex,
      lastTopUp := d.lastTopUp,
      darkMode := s.darkMode || d.darkMode,
      timerInput := d.timerInput)
  }

  /** The active profile's numbers, log and stacks shown by `loadAllData`;
      the balance is formatted even when it is 0, the result is left alone. */
  function Resumed(s: Session): Session
    requires HasActive(s)
  {
    var p := s.profiles[s.activeIndex.value];
    s.(
      balance := FormatNumber(p.balance),
      fee := Display(p.fee),
      amount := Display(p.amount),
      log := p.log,
      history := p.history,
      redo := p.redo)
  }

  /** Page start-up: the initial state, then `loadAllData`. */
  function Load(store: map<string, Record>, autoCopyStored: bool): Session {
    LoadAll(Initial(store), autoCopyStored)
  }

  /** `switchProfile(index)` (app.js:182-204); `None` is the selector's
      empty value, which is ignored. */
  function Switch(s: Session, index: Option<nat>): Session
    requires index.Some? ==> index.value < |s.profiles|
  {
    if index.None? then s
    else SaveAll(Shown(Flush(s), index.value))
  }

  /** Profile `i` made active and shown, with an empty result. */
  function Shown(s: Session, i: nat): Session
    requires i < |s.profiles|
  {
    var p := s.profiles[i];
    s.(
      activeIndex := Some(i),
      balance := Display(p.balance),
      fee := Display(p.fee),
      amount := Display(p.amount),
      result := "",
      log := p.log,
      history := p.history,
      redo := p.redo,
      lastTopUp := p.lastTopUp)
  }

  /** What auto-copy writes to the clipboard on a switch to `index`. */
  function SwitchCopy(s: Session, index: Option<nat>): Option<string>
    requires index.Some? ==> index.value < |s.profiles|
  {
    if index.Some? && s.autoCopy then SegmentToCopy(s.profiles[index.value].name) else None
  }

  /** The left-hand side of a debit's log message; the fee term is left
      out when the fee is 0. */
  function DebitTerms(balance: int, fee: int, amount: int): string {
    if fee == 0 then FormatNumber(balance) + " - " + FormatNumber(amount)
    else FormatNumber(balance) + " - " + FormatNumber(fee) + " - " + FormatNumber(amount)
  }

  /** The log message of a debit. */
  function DebitLine(balance: int, fee: int, amount: int): string {
    DebitTerms(balance, fee, amount) + " = " + FormatNumber(balance - fee - amount)
  }

  function DebitEntry(line: string, time: string): string {
    "<div class=\"log-entry\"><span>" + line + " [" + time + "]</span></div>"
  }

  /** `handleDone` (app.js:298-330). `clip` is what the clipboard read
      returned (None: the read was rejected), `writeOk` whether the write of
      the result succeeded, `time` the clock text. Both clipboard calls come
      before the first change, so either failure leaves the session as it was. */
  function Debit(s: Session, clip: Option<string>, writeOk: bool, time: string): Session {
    if clip.None? || !writeOk then s
    else SaveAll(Flush(Debited(s, clip.value, time)))
  }

  /** The session `handleDone` builds, from the clipboard text, before it
      saves: a snapshot pushed, the redo stack emptied, the log line
      prepended, the new balance shown, the amount field cleared, and the
      result cut from the log line at its first `=`. */
  function Debited(s: Session, amountText: string, time: string): Session {
    DebitedBy(s, ParseNumber(s.balance), ParseNumber(s.fee), ParseNumber(amountText), time)
  }

  /** `Debited` over the three numbers read from the page. */
  function DebitedBy(s: Session, balance: int, fee: int, amount: int, time: string): Session {
    var formatted := FormatNumber(balance - fee - amount);
    var line := DebitLine(balance, fee, amount);
    s.(
      history := s.history + [Capture(s)],
      redo := [],
      log := DebitEntry(line, time) + s.log,
      balance := formatted,
      amount := "",
      result := Trim(BeforeFirst(line, '=')) + " = " + formatted)
  }

  /** The text `handleDone` writes to the clipboard, when the write succeeds. */
  function DebitCopy(s: Session, clip: Option<string>, writeOk: bool): Option<string> {
    if clip.None? || !writeOk then None
    else Some(FormatNumber(ParseNumber(s.balance) - ParseNumber(s.fee) - ParseNumber(clip.value)))
  }

  function TopUpLine(balance: int, topUp: int): string {
    FormatNumber(balance) + " + " + FormatNumber(topUp) + " = " + FormatNumber(balance + topUp)
  }

  function TopUpEntry(line: string, time: string): string {
    "<div class=\"log-entry\"><span class=\"green-text\">" + line + " [" + time + "]</span></div>"
  }

  /** `handleTopUp` (app.js:332-358); a rejected clipboard read changes nothing. */
  function TopUp(s: Session, clip: Option<string>, time: string): Session {
    if clip.None? then s
    else SaveAll(Flush(ToppedUp(s, clip.value, time)))
  }

  /** The session `handleTopUp` builds, from the clipboard text, before it saves. */
  function ToppedUp(s: Session, topUpText: string, time: string): Session {
    ToppedUpBy(s, ParseNumber(s.balance), ParseNumber(topUpText), time)
  }

  /** `ToppedUp` over the two numbers read from the page. */
  function ToppedUpBy(s: Session, balance: int, topUp: int, time: string): Session {
    s.(
      history := s.history + [Capture(s)],
      redo := [],
      lastTopUp := topUp,
      log := TopUpEntry(TopUpLine(balance, topUp), time) + s.log,
      balance := FormatNumber(balance + topUp),
      result := TopUpLine(balance, topUp))
  }

  /** The five display fields taken from a snapshot. */
  function Restore(s: Session, snap: Snapshot): Session {
    s.(balance := snap.balance, fee := snap.fee, amount := snap.amount, result := snap.result, log := snap.log)
  }

  /** `handleUndo` (app.js:411-424). */
  function Undo(s: Session): Session {
    if |s.history| == 0 then s else SaveAll(Flush(Undone(s)))
  }

  /** The session `handleUndo` builds before it saves: the display fields
      pushed onto the redo stack, the last snapshot popped and shown. */
  function Undone(s: Session): Session
    requires |s.history| > 0
  {
    var last := s.history[|s.history| - 1];
    Restore(s.(redo := s.redo + [Capture(s)], history := s.history[..|s.history| - 1]), last)
  }

  /** `handleRedo` (app.js:426-439). */
  function Redo(s: Session): Session {
    if |s.redo| == 0 then s else SaveAll(Flush(Redone(s)))
  }

  /** The session `handleRedo` builds before it saves: the mirror image of
      `Undone`. */
  function Redone(s: Session): Session
    requires |s.redo| > 0
  {
    var next := s.redo[|s.redo| - 1];
    Restore(s.(history := s.history + [Capture(s)], redo := s.redo[..|s.redo| - 1]), next)
  }

  /** The backup the clear half of the toggle captures; the profile list is
      a deep copy in the source, a value here. */
  function CaptureBackup(s: Session): Backup {
    Backup(s.balance, s.fee, s.amount, s.result, s.log, s.history, s.redo, s.profiles, s.activeIndex, s.lastTopUp)
  }

  /** `handleClearRestore` (app.js:360-409). The backup is kept after a
      restore, as in the source. */
  function ClearRestore(s: Session): Session {
    if !s.isCleared then SaveAll(Cleared(s)) else SaveAll(Restored(s))
  }

  /** The clear half: everything captured into the backup, then emptied. */
  function Cleared(s: Session): Session {
    s.(
      backup := Some(CaptureBackup(s)),
      balance := "", fee := "", amount := "", result := "", log := "",
      history := [], redo := [], profiles := [], activeIndex := None, lastTopUp := 0,
      isCleared := true)
  }

  /** The restore half: the backup, when there is one, put back. */
  function Restored(s: Session): Session {
    var r := match s.backup
      case Some(b) => s.(
        balance := b.balance, fee := b.fee, amount := b.amount, result := b.result, log := b.log,
        history := b.history, redo := b.redo, profiles := b.profiles,
        activeIndex := b.activeIndex, lastTopUp := b.lastTopUp)
      case None => s;
    r.(isCleared := false)
  }

  /** A fresh, zero-valued profile. */
  function NewProfile(name: string): Profile {
    Profile(name, 0, 0, 0, [], [], "", 0)
  }

  /** `createProfile` (app.js:496-514). `name` is what the prompt returned
      (None: cancelled). The index is set to the new slot before the
      switch, so the switch flushes the working set into the new profile. */
  function Create(s: Session, name: Option<string>): Session {
    if name.None? || Trim(name.value) == "" then s
    else
      Switch(Appended(s, Trim(name.value)), Some(|s.profiles|))
  }

  /** A fresh profile appended and its slot made the active index. */
  function Appended(s: Session, name: string): Session {
    s.(profiles := s.profiles + [NewProfile(name)], activeIndex := Some(|s.profiles|))
  }

  /** What auto-copy writes on the switch into a created profile. */
  function CreateCopy(s: Session, name: Option<string>): Option<string> {
    if name.None? || Trim(name.value) == "" || !s.autoCopy then None
    else SegmentToCopy(Trim(name.value))
  }

  /** `deleteProfile` (app.js:516-536). `confirmed` is the answer to the
      confirmation dialog. The index is set to 0 before the switch, so the
      switch flushes the deleted profile's working set into profile 0. */
  function Delete(s: Session, confirmed: bool): Session {
    if s.activeIndex.None? || !confirmed then s
    else
      var r := Removed(s);
      if |r.profiles| > 0 then SaveAll(Switch(r, Some(0))) else SaveAll(Emptied(r))
  }

  /** The active profile spliced out; the index becomes 0, or unset when
      no profile is left. */
  function Removed(s: Session): Session
    requires s.activeIndex.Some?
  {
    var ps := RemoveAt(s.profiles, s.activeIndex.value);
    s.(profiles := ps, activeIndex := if |ps| > 0 then Some(0) else None)
  }

  /** The working set emptied, as after deleting the last profile. */
  function Emptied(s: Session): Session {
    s.(balance := "", fee := "", amount := "", result := "", log := "",
       history := [], redo := [], lastTopUp := 0)
  }

  /** What auto-copy writes on the switch that follows a deletion. */
  function DeleteCopy(s: Session, confirmed: bool): Option<string> {
    if s.activeIndex.None? || !confirmed then None
    else
      var ps := RemoveAt(s.profiles, s.activeIndex.value);
      if |ps| > 0 && s.autoCopy then SegmentToCopy(ps[0].name) else None
  }

  /** The `drop` handler once the gesture has produced the two indexes
      (app.js:703-718). */
  function Reorder(s: Session, from: nat, to: nat): Session
    requires from < |s.profiles| && to < |s.profiles|
  {
    if to == from then s else SaveAll(Moved(s, from, to))
  }

  /** The dragged profile moved and the active index renumbered. */
  function Moved(s: Session, from: nat, to: nat): Session
    requires from < |s.profiles| && to < |s.profiles|
  {
    s.(profiles := Move(s.profiles, from, to), activeIndex := Renumber(s.activeIndex, from, to))
  }
}
