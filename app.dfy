/** The page controller of app.js as an object: the fields of the global
    `state` object, the values of the page elements it reads and writes,
    and the durable store. Each handler updates the fields step by step as
    the source does, and is proved to move the object from `Model()` to
    the session the matching function of `SessionState` gives. */
module App {
  import opened Options
  import opened Text
  import opened Numbers
  import opened Segments
  import opened ProfileOrder
  import opened SessionState

  class App {
    var profiles: seq<Profile>
    var activeIndex: Option<nat>
    /** The values of the balance, fee and amount inputs, of the result
        field and of the log element: the five values `saveCurrentState`
        reads together. */
    var view: Snapshot
    var history: seq<Snapshot>
    var redo: seq<Snapshot>
    var lastTopUp: int
    var isCleared: bool
    var backup: Option<Backup>
    /** The dark-mode class on the page body and the timer input's value. */
    var darkMode: bool
    var timerInput: string
    var autoCopy: bool
    /** `localStorage`, as far as the session record goes. */
    var store: map<string, Record>

    /** The whole object as a session value. */
    function Model(): Session
      reads this
    {
      Session(profiles, activeIndex, view.balance, view.fee, view.amount, view.result, view.log,
              history, redo, lastTopUp, isCleared, backup, darkMode, timerInput, autoCopy, store)
    }

    /** Page start-up: the state literal (app.js:46-63) over empty page
        elements, then `loadAllData` over the store as the page finds it. */
    constructor (initialStore: map<string, Record>, autoCopyStored: bool)
      ensures Model() == Load(initialStore, autoCopyStored)
    {
      profiles := [];
      activeIndex := None;
      view := Snapshot("", "", "", "", "");
      history := [];
      redo := [];
      lastTopUp := 0;
      isCleared := false;
      backup := None;
      darkMode := false;
      timerInput := "";
      autoCopy := false;
      store := initialStore;
      new;
      LoadAllData(autoCopyStored);
    }

    /** `saveCurrentState` (app.js:97-105): the five display values. */
    method SaveCurrentState() returns (snap: Snapshot)
      ensures snap == Capture(Model())
    {
      snap := view;
    }

    /** `saveProfileState` (app.js:107-118). */
    method SaveProfileState()
      modifies this
      ensures Model() == Flush(old(Model()))
    {
      if activeIndex.Some? && activeIndex.value < |profiles| {
        var i := activeIndex.value;
        var profile := profiles[i];
        profile := profile.(
          balance := ParseNumber(view.balance),
          fee := ParseNumber(view.fee),
          amount := ParseNumber(view.amount),
          history := history,
          redo := redo,
          log := view.log,
          lastTopUp := lastTopUp);
        profiles := profiles[i := profile];
      }
    }

    /** `saveAllData` (app.js:620-630). */
    method SaveAllData()
      modifies this
      ensures Model() == SaveAll(old(Model()))
    {
      SaveProfileState();
      store := store[DataKey := Record(profiles, activeIndex, darkMode, timerInput, lastTopUp)];
    }

    /** `loadAllData` (app.js:632-659); `autoCopyStored` is what the
        `autoCopyEnabled` key holds. */
    method LoadAllData(autoCopyStored: bool)
      modifies this
      ensures Model() == LoadAll(old(Model()), autoCopyStored)
    {
      if DataKey in store {
        TakeRecord();
        if activeIndex.Some? && activeIndex.value < |profiles| {
          ShowActive();
        }
      }
      autoCopy := autoCopyStored;
    }

    /** The stored record taken over by `loadAllData` (app.js:635-646). */
    method TakeRecord()
      requires DataKey in store
      modifies this`profiles, this`activeIndex, this`lastTopUp, this`darkMode, this`timerInput
      ensures profiles == store[DataKey].profiles && activeIndex == store[DataKey].activeIndex
      ensures lastTopUp == store[DataKey].lastTopUp && timerInput == store[DataKey].timerInput
      ensures darkMode == (old(darkMode) || store[DataKey].darkMode)
      ensures Model() == Applied(old(Model()))
    {
      var data := store[DataKey];
      profiles := data.profiles;
      activeIndex := data.activeIndex;
      lastTopUp := data.lastTopUp;
      if data.darkMode {
        darkMode := true;
      }
      timerInput := data.timerInput;
    }

    /** The active profile shown by `loadAllData` (app.js:648-656). */
    method ShowActive()
      requires activeIndex.Some? && activeIndex.value < |profiles|
      modifies this`view, this`history, this`redo
      ensures var p := profiles[activeIndex.value];
        view == old(view).(balance := FormatNumber(p.balance), fee := Display(p.fee),
                           amount := Display(p.amount), log := p.log)
      ensures history == profiles[activeIndex.value].history && redo == profiles[activeIndex.value].redo
    {
      var p := profiles[activeIndex.value];
      view := view.(
        balance := FormatNumber(p.balance),
        fee := Display(p.fee),
        amount := Display(p.amount),
        log := p.log);
      history := p.history;
      redo := p.redo;
    }

    /** `switchProfile` (app.js:182-204); returns what auto-copy writes to
        the clipboard. */
    method SwitchProfile(index: Option<nat>) returns (copied: Option<string>)
      requires index.Some? ==> index.value < |profiles|
      modifies this
      ensures Model() == Switch(old(Model()), index)
      ensures copied == SwitchCopy(old(Model()), index)
    {
      copied := None;
      if index.None? {
        return;
      }
      SaveProfileState();
      ShowProfile(index.value);
      if autoCopy {
        copied := SegmentToCopy(profiles[index.value].name);
      }
      SaveAllData();
    }

    /** Profile `i` made active and shown (app.js:185-196). */
    method ShowProfile(i: nat)
      requires i < |profiles|
      modifies this`activeIndex, this`view, this`history, this`redo, this`lastTopUp
      ensures activeIndex == Some(i)
      ensures var p := profiles[i];
        view == Snapshot(Display(p.balance), Display(p.fee), Display(p.amount), "", p.log)
      ensures history == profiles[i].history && redo == profiles[i].redo
      ensures lastTopUp == profiles[i].lastTopUp
    {
      activeIndex := Some(i);
      var profile := profiles[i];
      view := Snapshot(Display(profile.balance), Display(profile.fee), Display(profile.amount), "", profile.log);
      history, redo, lastTopUp := profile.history, profile.redo, profile.lastTopUp;
    }

    /** `handleDone` (app.js:298-330); returns what is written to the
        clipboard. `clip` is what the clipboard read returned (None: it was
        rejected), `writeOk` whether the write succeeded, `time` the clock. */
    method HandleDone(clip: Option<string>, writeOk: bool, time: string) returns (copied: Option<string>)
      modifies this
      ensures Model() == Debit(old(Model()), clip, writeOk, time)
      ensures copied == DebitCopy(old(Model()), clip, writeOk)
    {
      copied := None;
      if clip.None? {
        return;
      }
      var transAmt := ParseNumber(clip.value);
      var bal := ParseNumber(view.balance);
      var f := ParseNumber(view.fee);
      var formatted := FormatNumber(bal - f - transAmt);
      if !writeOk {
        return;
      }
      DebitCopyWith(Model(), clip.value, bal, f, transAmt);
      copied := Some(formatted);
      RecordDebit(bal, f, transAmt, time);
      SaveProfileState();
      SaveAllData();
    }

    /** The snapshot, the log line and the new field values of a debit
        (app.js:311-321), from the numbers `handleDone` read. */
    method RecordDebit(bal: int, f: int, transAmt: int, time: string)
      modifies this`history, this`redo, this`view
      ensures history == old(history) + [old(view)] && redo == []
      ensures var line := DebitLine(bal, f, transAmt);
        var formatted := FormatNumber(bal - f - transAmt);
        view == old(view).(log := DebitEntry(line, time) + old(view.log), balance := formatted,
                           amount := "", result := Trim(BeforeFirst(line, '=')) + " = " + formatted)
      ensures Model() == DebitedBy(old(Model()), bal, f, transAmt, time)
    {
      var formatted := FormatNumber(bal - f - transAmt);
      var logMsg := DebitLine(bal, f, transAmt);
      var snap := SaveCurrentState();
      history, redo := history + [snap], [];
      view := view.(
        log := DebitEntry(logMsg, time) + view.log,
        balance := formatted,
        amount := "",
        result := Trim(BeforeFirst(logMsg, '=')) + " = " + formatted);
    }

    /** `handleTopUp` (app.js:332-358); `clip` is what the clipboard read
        returned. */
    method HandleTopUp(clip: Option<string>, time: string)
      modifies this
      ensures Model() == TopUp(old(Model()), clip, time)
    {
      if clip.None? {
        return;
      }
      var topUp := ParseNumber(clip.value);
      var bal := ParseNumber(view.balance);
      RecordTopUp(bal, topUp, time);
      SaveProfileState();
      SaveAllData();
    }

    /** The snapshot, the log line and the new field values of a top-up
        (app.js:338-350). */
    method RecordTopUp(bal: int, topUp: int, time: string)
      modifies this`history, this`redo, this`lastTopUp, this`view
      ensures history == old(history) + [old(view)] && redo == [] && lastTopUp == topUp
      ensures view == old(view).(log := TopUpEntry(TopUpLine(bal, topUp), time) + old(view.log),
                                 balance := FormatNumber(bal + topUp), result := TopUpLine(bal, topUp))
      ensures Model() == ToppedUpBy(old(Model()), bal, topUp, time)
    {
      var snap := SaveCurrentState();
      history := history + [snap];
      redo := [];
      lastTopUp := topUp;
      view := view.(
        log := TopUpEntry(TopUpLine(bal, topUp), time) + view.log,
        balance := FormatNumber(bal + topUp),
        result := TopUpLine(bal, topUp));
    }

    /** `handleClearRestore` (app.js:360-409). */
    method HandleClearRestore()
      modifies this
      ensures Model() == ClearRestore(old(Model()))
    {
      if !isCleared {
        ClearAll();
      } else {
        RestoreAll();
      }
      SaveAllData();
    }

    /** The clear half of the toggle (app.js:361-388). */
    method ClearAll()
      modifies this`backup, this`view, this`history, this`redo, this`profiles, this`activeIndex,
        this`lastTopUp, this`isCleared
      ensures backup == Some(CaptureBackup(old(Model())))
      ensures view == Snapshot("", "", "", "", "") && history == [] && redo == []
      ensures profiles == [] && activeIndex == None && lastTopUp == 0 && isCleared
    {
      backup := Some(Backup(view.balance, view.fee, view.amount, view.result, view.log,
                            history, redo, profiles, activeIndex, lastTopUp));
      view := Snapshot("", "", "", "", "");
      history, redo := [], [];
      profiles, activeIndex, lastTopUp := [], None, 0;
      isCleared := true;
    }

    /** The restore half of the toggle (app.js:389-405). */
    method RestoreAll()
      modifies this`view, this`history, this`redo, this`profiles, this`activeIndex, this`lastTopUp,
        this`isCleared
      ensures Model() == Restored(old(Model()))
    {
      if backup.Some? {
        RestoreBackup();
      }
      isCleared := false;
    }

    /** The backup put back by the restore half of the toggle (app.js:390-402). */
    method RestoreBackup()
      requires backup.Some?
      modifies this`view, this`history, this`redo, this`profiles, this`activeIndex, this`lastTopUp
      ensures view == Snapshot(backup.value.balance, backup.value.fee, backup.value.amount,
                               backup.value.result, backup.value.log)
      ensures history == backup.value.history && redo == backup.value.redo
      ensures profiles == backup.value.profiles && activeIndex == backup.value.activeIndex
      ensures lastTopUp == backup.value.lastTopUp
    {
      var b := backup.value;
      view := Snapshot(b.balance, b.fee, b.amount, b.result, b.log);
      history := b.history;
      redo := b.redo;
      profiles := b.profiles;
      activeIndex := b.activeIndex;
      lastTopUp := b.lastTopUp;
    }

    /** `handleUndo` (app.js:411-424). */
    method HandleUndo()
      modifies this
      ensures Model() == Undo(old(Model()))
    {
      if |history| > 0 {
        StepBack();
        SaveProfileState();
        SaveAllData();
      }
    }

    /** The display fields pushed for redo and the last snapshot shown
        (app.js:413-419). */
    method StepBack()
      requires |history| > 0
      modifies this`redo, this`history, this`view
      ensures redo == old(redo) + [old(view)]
      ensures history == old(history[..|history| - 1]) && view == old(history[|history| - 1])
      ensures Model() == Undone(old(Model()))
    {
      var snap := SaveCurrentState();
      redo := redo + [snap];
      var last := history[|history| - 1];
      history := history[..|history| - 1];
      view := last;
    }

    /** `handleRedo` (app.js:426-439). */
    method HandleRedo()
      modifies this
      ensures Model() == Redo(old(Model()))
    {
      if |redo| > 0 {
        StepForward();
        SaveProfileState();
        SaveAllData();
      }
    }

    /** The display fields pushed for undo and the next snapshot shown
        (app.js:428-434). */
    method StepForward()
      requires |redo| > 0
      modifies this`history, this`redo, this`view
      ensures history == old(history) + [old(view)]
      ensures redo == old(redo[..|redo| - 1]) && view == old(redo[|redo| - 1])
      ensures Model() == Redone(old(Model()))
    {
      var snap := SaveCurrentState();
      history := history + [snap];
      var next := redo[|redo| - 1];
      redo := redo[..|redo| - 1];
      view := next;
    }

    /** `createProfile` (app.js:496-514); `name` is what the prompt
        returned (None: cancelled). */
    method CreateProfile(name: Option<string>) returns (copied: Option<string>)
      modifies this
      ensures Model() == Create(old(Model()), name)
      ensures copied == CreateCopy(old(Model()), name)
    {
      copied := None;
      if name.Some? && Trim(name.value) != "" {
        AppendProfile(Trim(name.value));
        copied := SwitchProfile(activeIndex);
      }
    }

    /** A fresh profile pushed and its slot made current (app.js:499-510). */
    method AppendProfile(name: string)
      modifies this`profiles, this`activeIndex
      ensures profiles == old(profiles) + [NewProfile(name)] && activeIndex == Some(|old(profiles)|)
      ensures Model() == Appended(old(Model()), name)
    {
      var profile := NewProfile(name);
      profiles := profiles + [profile];
      activeIndex := Some(|profiles| - 1);
    }

    /** `deleteProfile` (app.js:516-536); `confirmed` is the answer to the
        confirmation dialog. */
    method DeleteProfile(confirmed: bool) returns (copied: Option<string>)
      modifies this
      ensures Model() == Delete(old(Model()), confirmed)
      ensures copied == DeleteCopy(old(Model()), confirmed)
    {
      copied := None;
      if activeIndex.None? {
        return;
      }
      if confirmed {
        RemoveActive();
        if activeIndex.Some? {
          copied := SwitchProfile(Some(0));
        } else {
          ClearWorkingSet();
        }
        SaveAllData();
      }
    }

    /** The active profile spliced out and the index reset (app.js:519-520). */
    method RemoveActive()
      requires activeIndex.Some?
      modifies this`profiles, this`activeIndex
      ensures profiles == RemoveAt(old(profiles), old(activeIndex.value))
      ensures activeIndex == if |profiles| > 0 then Some(0) else None
      ensures Model() == Removed(old(Model()))
    {
      profiles := RemoveAt(profiles, activeIndex.value);
      activeIndex := if |profiles| > 0 then Some(0) else None;
    }

    /** The working set emptied once no profile is left (app.js:524-531). */
    method ClearWorkingSet()
      modifies this`view, this`history, this`redo, this`lastTopUp
      ensures view == Snapshot("", "", "", "", "") && history == [] && redo == [] && lastTopUp == 0
      ensures Model() == Emptied(old(Model()))
    {
      view := Snapshot("", "", "", "", "");
      history := [];
      redo := [];
      lastTopUp := 0;
    }

    /** The `drop` handler (app.js:700-718) once the gesture has produced
        the dragged profile's index and its new index. */
    method MoveProfile(from: nat, to: nat)
      requires from < |profiles| && to < |profiles|
      modifies this
      ensures Model() == Reorder(old(Model()), from, to)
    {
      if to != from {
        MoveEntry(from, to);
        SaveAllData();
      }
    }

    /** The two splices and the renumbering of the current index
        (app.js:705-714). */
    method MoveEntry(from: nat, to: nat)
      requires from < |profiles| && to < |profiles|
      modifies this`profiles, this`activeIndex
      ensures profiles == Move(old(profiles), from, to)
      ensures activeIndex == Renumber(old(activeIndex), from, to)
      ensures Model() == Moved(old(Model()), from, to)
    {
      var moved := profiles[from];
      profiles := RemoveAt(profiles, from);
      profiles := profiles[..to] + [moved] + profiles[to..];
      match activeIndex {
        case Some(a) =>
          if a == from {
            activeIndex := Some(to);
          } else if a > from && a <= to {
            activeIndex := Some(a - 1);
          } else if a < from && a >= to {
            activeIndex := Some(a + 1);
          }
        case None =>
          // `null` compares as 0 and `null++` gives 1.
          if 0 < from && 0 >= to {
            activeIndex := Some(1);
          }
      }
    }
  }

  /** Proof step: `DebitCopy` unfolded over the three numbers `handleDone`
      reads. */
  lemma DebitCopyWith(s: Session, amountText: string, bal: int, f: int, transAmt: int)
    requires bal == ParseNumber(s.balance) && f == ParseNumber(s.fee) && transAmt == ParseNumber(amountText)
    ensures DebitCopy(s, Some(amountText), true) == Some(FormatNumber(bal - f - transAmt))
  {
  }
}
