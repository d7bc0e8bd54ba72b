/** What the clear/restore toggle and the save/load pair promise, and the
    invariant every handler keeps, stated over `SessionState`. */
module PersistenceLaws {
  import opened Options
  import opened Text
  import opened Numbers
  import opened ProfileOrder
  import opened SessionState
  import opened SessionLaws

  // ---------------------------------------------------------------------
  // Clear and restore

  /** The clear half of the toggle backs up the working set, the stacks,
      the profiles, the index and the last top-up, then empties all of them
      and saves the empty state. */
  lemma ClearEmpties(s: Session)
    requires !s.isCleared
    ensures var r := ClearRestore(s);
      && r.isCleared
      && r.backup == Some(CaptureBackup(s))
      && r.profiles == [] && r.activeIndex == None
      && r.balance == "" && r.fee == "" && r.amount == "" && r.result == "" && r.log == ""
      && r.history == [] && r.redo == [] && r.lastTopUp == 0
      && DataKey in r.store && r.store[DataKey] == Record([], None, s.darkMode, s.timerInput, 0)
  {
  }

  /** Clear followed by restore is a plain save of the session, except
      that the backup is kept. */
  lemma ClearThenRestore(s: Session)
    requires !s.isCleared
    ensures ClearRestore(ClearRestore(s)) == SaveAll(s).(backup := Some(CaptureBackup(s)))
  {
    var c := ClearRestore(s);
    var b := Some(CaptureBackup(s));
    var w := SaveAll(s);
    RestoreAfterClear(s);
    SaveIgnoresBackupAndStore(s, b, c.store);
    assert c.store[DataKey := w.store[DataKey]] == w.store by {
      ClearStore(s);
      SaveStore(s);
      Overwrite(s.store, DataKey, c.store[DataKey], w.store[DataKey]);
    }
  }

  lemma ClearStore(s: Session)
    requires !s.isCleared
    ensures ClearRestore(s).store == s.store[DataKey := ClearRestore(s).store[DataKey]]
  {
  }

  lemma SaveStore(s: Session)
    ensures SaveAll(s).store == s.store[DataKey := SaveAll(s).store[DataKey]]
  {
    Committed(s);
  }

  lemma Overwrite<K, V>(m: map<K, V>, k: K, a: V, b: V)
    ensures m[k := a][k := b] == m[k := b]
  {
  }

  lemma RestoreAfterClear(s: Session)
    requires !s.isCleared
    ensures var c := ClearRestore(s);
      ClearRestore(c) == SaveAll(s.(backup := Some(CaptureBackup(s)), store := c.store))
  {
    var c := ClearRestore(s);
    var b := CaptureBackup(s);
    ClearEmpties(s);
    var u := c.(
      balance := b.balance, fee := b.fee, amount := b.amount, result := b.result, log := b.log,
      history := b.history, redo := b.redo, profiles := b.profiles,
      activeIndex := b.activeIndex, lastTopUp := b.lastTopUp, isCleared := false);
    assert ClearRestore(c) == SaveAll(u);
    assert u == s.(backup := Some(b), store := c.store);
  }

  /** Saving does not read the backup, and overwrites only its own key of
      the store. */
  lemma SaveIgnoresBackupAndStore(s: Session, backup: Option<Backup>, store: map<string, Record>)
    ensures var w := SaveAll(s);
      SaveAll(s.(backup := backup, store := store)) == w.(backup := backup, store := store[DataKey := w.store[DataKey]])
  {
    var t := s.(backup := backup, store := store);
    assert Flush(t) == Flush(s).(backup := backup, store := store);
  }

  /** The restore half with no backup only flips the toggle back and saves. */
  lemma RestoreWithoutBackup(s: Session)
    requires s.isCleared && s.backup.None?
    ensures ClearRestore(s) == SaveAll(s.(isCleared := false))
  {
  }

  // ---------------------------------------------------------------------
  // Save and load

  /** Loading what was saved gives back the profiles as saved, the active
      index, the last top-up, the dark mode and timer settings, and, when
      the index names a profile, the log, both stacks and the three numbers
      (read back as numbers). With no index set, the working set is not
      saved and comes back empty. The result field is not saved either and
      comes back empty. */
  lemma SaveLoadRoundTrip(s: Session, autoCopyStored: bool)
    ensures var w := SaveAll(s);
      var l := Load(w.store, autoCopyStored);
      && l.profiles == w.profiles
      && l.activeIndex == s.activeIndex
      && l.lastTopUp == s.lastTopUp
      && l.darkMode == s.darkMode && l.timerInput == s.timerInput && l.autoCopy == autoCopyStored
      && l.result == ""
      && l.store == w.store
      && (HasActive(s) ==>
            && ParseNumber(l.balance) == ParseNumber(s.balance)
            && ParseNumber(l.fee) == ParseNumber(s.fee)
            && ParseNumber(l.amount) == ParseNumber(s.amount)
            && l.log == s.log && l.history == s.history && l.redo == s.redo)
      && (s.activeIndex.None? ==>
            && l.balance == "" && l.fee == "" && l.amount == ""
            && l.log == "" && l.history == [] && l.redo == [])
  {
    var w := SaveAll(s);
    Committed(s);
    FlushIdempotent(s);
    if HasActive(s) {
      var p := w.profiles[s.activeIndex.value];
      assert p == Flushed(s.profiles[s.activeIndex.value], s);
      ParseFormatRoundTrip(p.balance);
      DisplayRoundTrip(p.fee);
      DisplayRoundTrip(p.amount);
    }
  }

  /** With nothing stored, loading gives the initial session. */
  lemma LoadWithoutRecord(store: map<string, Record>, autoCopyStored: bool)
    requires DataKey !in store
    ensures Load(store, autoCopyStored) == Initial(store).(autoCopy := autoCopyStored)
  {
  }

  /** A stored index that names no profile is loaded as it is: the
      session then has an index but no active profile, and its working set
      stays empty. */
  lemma LoadKeepsStaleIndex(store: map<string, Record>, autoCopyStored: bool)
    requires DataKey in store
    requires store[DataKey].activeIndex.Some? && store[DataKey].activeIndex.value >= |store[DataKey].profiles|
    ensures var l := Load(store, autoCopyStored);
      && l.activeIndex == store[DataKey].activeIndex
      && !HasActive(l)
      && l.balance == "" && l.fee == "" && l.amount == "" && l.log == ""
      && l.history == [] && l.redo == []
  {
  }

  // ---------------------------------------------------------------------
  // The invariant every handler keeps

  /** The active index is unset or names a profile, also in the backup. */
  predicate IndexValid(s: Session) {
    && (s.activeIndex.None? || HasActive(s))
    && (s.backup.Some? ==> s.backup.value.activeIndex.None? || s.backup.value.activeIndex.value < |s.backup.value.profiles|)
  }

  /** The active profile holds the working set and the store holds the
      session record, as every handler leaves them by saving last. */
  predicate Synced(s: Session) {
    && Flush(s) == s
    && DataKey in s.store
    && s.store[DataKey] == Record(s.profiles, s.activeIndex, s.darkMode, s.timerInput, s.lastTopUp)
  }

  lemma SaveAllSyncs(s: Session)
    ensures Synced(SaveAll(s))
  {
    Committed(s);
    FlushIdempotent(s);
    assert Flush(SaveAll(s)) == SaveAll(s) by {
      FlushChangesOnlyActive(SaveAll(s));
    }
  }

  lemma SaveAllKeepsIndex(s: Session)
    ensures IndexValid(SaveAll(s)) <==> IndexValid(s)
  {
    Committed(s);
  }

  /** Saving a synced session changes nothing. */
  lemma SaveOfSynced(s: Session)
    requires Synced(s)
    ensures SaveAll(s) == s
  {
    assert s.store[DataKey := s.store[DataKey]] == s.store;
  }

  /** The page starts with no index and no backup, so its index is valid. */
  lemma InitialIndexValid(store: map<string, Record>)
    ensures IndexValid(Initial(store))
  {
  }

  /** The page loaded at start-up has a valid index exactly when the stored
      record, if there is one, has an index that is unset or names one of
      its profiles: a stale stored index is the only way to start with an
      index that names no profile. */
  lemma LoadIndexValid(store: map<string, Record>, autoCopyStored: bool)
    ensures IndexValid(Load(store, autoCopyStored)) <==>
      (DataKey !in store || store[DataKey].activeIndex.None? || store[DataKey].activeIndex.value < |store[DataKey].profiles|)
  {
  }

  /** Reloading the page over what a session with a valid index saved gives
      a session that holds the whole invariant: the loaded working set is
      the active profile's, and the store holds the loaded record. */
  lemma LoadOfSavedKeepsInvariant(s: Session, autoCopyStored: bool)
    requires IndexValid(s)
    ensures Synced(Load(SaveAll(s).store, autoCopyStored))
    ensures IndexValid(Load(SaveAll(s).store, autoCopyStored))
  {
    SaveLoadRoundTrip(s, autoCopyStored);
    SaveAllKeepsIndex(s);
    SaveAllSyncs(s);
  }

  /** Every transaction handler leaves the session synced, and keeps a
      valid index valid. */
  lemma TransactionsKeepInvariant(s: Session, clip: Option<string>, writeOk: bool, time: string)
    requires Synced(s) && IndexValid(s)
    ensures Synced(Debit(s, clip, writeOk, time)) && IndexValid(Debit(s, clip, writeOk, time))
    ensures Synced(TopUp(s, clip, time)) && IndexValid(TopUp(s, clip, time))
    ensures Synced(Undo(s)) && IndexValid(Undo(s))
    ensures Synced(Redo(s)) && IndexValid(Redo(s))
    ensures Synced(ClearRestore(s)) && IndexValid(ClearRestore(s))
  {
    if clip.Some? {
      SaveAllSyncs(Flush(Debited(s, clip.value, time)));
      SaveAllKeepsIndex(Flush(Debited(s, clip.value, time)));
      SaveAllSyncs(Flush(ToppedUp(s, clip.value, time)));
      SaveAllKeepsIndex(Flush(ToppedUp(s, clip.value, time)));
    }
    UndoRedoKeepInvariant(s);
    ClearRestoreKeepsInvariant(s);
  }

  lemma UndoRedoKeepInvariant(s: Session)
    requires Synced(s) && IndexValid(s)
    ensures Synced(Undo(s)) && IndexValid(Undo(s))
    ensures Synced(Redo(s)) && IndexValid(Redo(s))
  {
    UndoKeepsInvariant(s);
    RedoKeepsInvariant(s);
  }

  lemma UndoKeepsInvariant(s: Session)
    requires Synced(s) && IndexValid(s)
    ensures Synced(Undo(s)) && IndexValid(Undo(s))
  {
    if |s.history| > 0 {
      var t := Restore(s.(redo := s.redo + [Capture(s)], history := s.history[..|s.history| - 1]), s.history[|s.history| - 1]);
      SaveAllSyncs(Flush(t));
      SaveAllKeepsIndex(Flush(t));
    }
  }

  lemma RedoKeepsInvariant(s: Session)
    requires Synced(s) && IndexValid(s)
    ensures Synced(Redo(s)) && IndexValid(Redo(s))
  {
    if |s.redo| > 0 {
      var t := Restore(s.(history := s.history + [Capture(s)], redo := s.redo[..|s.redo| - 1]), s.redo[|s.redo| - 1]);
      SaveAllSyncs(Flush(t));
      SaveAllKeepsIndex(Flush(t));
    }
  }

  lemma ClearRestoreKeepsInvariant(s: Session)
    requires IndexValid(s)
    ensures Synced(ClearRestore(s)) && IndexValid(ClearRestore(s))
  {
    if !s.isCleared {
      ClearEmpties(s);
      SaveAllSyncs(s.(
        backup := Some(CaptureBackup(s)),
        balance := "", fee := "", amount := "", result := "", log := "",
        history := [], redo := [], profiles := [], activeIndex := None, lastTopUp := 0,
        isCleared := true));
    } else {
      var r := match s.backup
        case Some(b) => s.(
          balance := b.balance, fee := b.fee, amount := b.amount, result := b.result, log := b.log,
          history := b.history, redo := b.redo, profiles := b.profiles,
          activeIndex := b.activeIndex, lastTopUp := b.lastTopUp)
        case None => s;
      SaveAllSyncs(r.(isCleared := false));
      SaveAllKeepsIndex(r.(isCleared := false));
    }
  }

  /** Every profile handler leaves the session synced, and keeps a valid
      index valid. */
  lemma ProfileHandlersKeepInvariant(s: Session, index: Option<nat>, name: Option<string>, confirmed: bool)
    requires Synced(s) && IndexValid(s)
    requires index.Some? ==> index.value < |s.profiles|
    ensures Synced(Switch(s, index)) && IndexValid(Switch(s, index))
    ensures Synced(Create(s, name)) && IndexValid(Create(s, name))
    ensures Synced(Delete(s, confirmed)) && IndexValid(Delete(s, confirmed))
  {
    SwitchKeepsInvariant(s, index);
    CreateKeepsInvariant(s, name);
    DeleteKeepsInvariant(s, confirmed);
  }

  lemma CreateKeepsInvariant(s: Session, name: Option<string>)
    requires Synced(s) && IndexValid(s)
    ensures Synced(Create(s, name)) && IndexValid(Create(s, name))
  {
    if name.Some? && Trim(name.value) != "" {
      var n := |s.profiles|;
      var t := s.(profiles := s.profiles + [NewProfile(Trim(name.value))], activeIndex := Some(n));
      SwitchKeepsInvariant(t, Some(n));
    }
  }

  lemma DeleteKeepsInvariant(s: Session, confirmed: bool)
    requires Synced(s) && IndexValid(s)
    ensures Synced(Delete(s, confirmed)) && IndexValid(Delete(s, confirmed))
  {
    if s.activeIndex.Some? && confirmed {
      var ps := RemoveAt(s.profiles, s.activeIndex.value);
      if |ps| > 0 {
        var t := s.(profiles := ps, activeIndex := Some(0));
        SwitchKeepsInvariant(t, Some(0));
        SaveOfSynced(Switch(t, Some(0)));
      } else {
        var t := s.(
          profiles := ps, activeIndex := None,
          balance := "", fee := "", amount := "", result := "", log := "",
          history := [], redo := [], lastTopUp := 0);
        SaveAllSyncs(t);
        SaveAllKeepsIndex(t);
      }
    }
  }

  lemma SwitchKeepsInvariant(s: Session, index: Option<nat>)
    requires index.Some? ==> index.value < |s.profiles|
    requires index.None? ==> Synced(s) && IndexValid(s)
    requires s.backup.Some? ==> s.backup.value.activeIndex.None? || s.backup.value.activeIndex.value < |s.backup.value.profiles|
    ensures Synced(Switch(s, index)) && IndexValid(Switch(s, index))
  {
    if index.Some? {
      var f := Flush(s);
      var i := index.value;
      var p := f.profiles[i];
      var t := f.(
        activeIndex := Some(i),
        balance := Display(p.balance),
        fee := Display(p.fee),
        amount := Display(p.amount),
        result := "",
        log := p.log,
        history := p.history,
        redo := p.redo,
        lastTopUp := p.lastTopUp);
      SaveAllSyncs(t);
      SaveAllKeepsIndex(t);
    }
  }

  /** A drop keeps the session synced and the active index valid; with no
      active profile the index it makes up from `null` is in range too. */
  lemma ReorderKeepsInvariant(s: Session, from: nat, to: nat)
    requires from < |s.profiles| && to < |s.profiles|
    requires Synced(s) && IndexValid(s)
    ensures Synced(Reorder(s, from, to)) && IndexValid(Reorder(s, from, to))
  {
    if to != from {
      MovePermutes(s.profiles, from, to);
      if s.activeIndex.Some? {
        MoveTracksActive(s.profiles, from, to, s.activeIndex.value);
      }
      var t := s.(profiles := Move(s.profiles, from, to), activeIndex := Renumber(s.activeIndex, from, to));
      SaveAllSyncs(t);
      SaveAllKeepsIndex(t);
    }
  }
}
