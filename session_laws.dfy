/** What the session-state manager promises, stated over the transition
    functions of `SessionState`. */
module SessionLaws {
  import opened Options
  import opened Text
  import opened Numbers
  import opened ProfileOrder
  import opened SessionState

  // ---------------------------------------------------------------------
  // Flush and save

  /** Flushing twice is flushing once. */
  lemma FlushIdempotent(s: Session)
    ensures Flush(Flush(s)) == Flush(s)
  {
  }

  /** What the active profile held before a flush does not matter, apart
      from its name: the flush overwrites every other field. */
  lemma FlushOverwritesActive(s: Session, t: Session)
    requires HasActive(s) && t.activeIndex == s.activeIndex && |t.profiles| == |s.profiles|
    requires forall k :: 0 <= k < |s.profiles| && k != s.activeIndex.value ==> t.profiles[k] == s.profiles[k]
    requires t.profiles[s.activeIndex.value].name == s.profiles[s.activeIndex.value].name
    requires Capture(t) == Capture(s) && t.history == s.history && t.redo == s.redo && t.lastTopUp == s.lastTopUp
    ensures Flush(t).profiles == Flush(s).profiles
  {
  }

  /** Saving makes the stored record agree with the flushed session. */
  lemma SaveAllWritesRecord(s: Session)
    ensures SaveAll(s).profiles == Flush(s).profiles
    ensures DataKey in SaveAll(s).store
    ensures SaveAll(s).store[DataKey] == Record(Flush(s).profiles, s.activeIndex, s.darkMode, s.timerInput, s.lastTopUp)
    ensures forall key :: key in s.store && key != DataKey ==> key in SaveAll(s).store && SaveAll(s).store[key] == s.store[key]
  {
  }

  /** Committing a session (`saveProfileState` followed by `saveAllData`)
      changes only the profile list and the store, and in the list only the
      active profile, which receives the working set. */
  lemma Committed(t: Session)
    ensures var r := SaveAll(Flush(t));
      && r.(profiles := t.profiles, store := t.store) == t
      && |r.profiles| == |t.profiles|
      && (HasActive(t) ==> r.profiles[t.activeIndex.value] == Flushed(t.profiles[t.activeIndex.value], t))
  {
    if HasActive(t) {
      var i := t.activeIndex.value;
      var f := Flush(t);
      assert f.profiles == t.profiles[i := Flushed(t.profiles[i], t)];
      assert f.(profiles := t.profiles) == t;
      assert Flush(f).profiles == f.profiles[i := Flushed(f.profiles[i], f)];
      assert Flushed(f.profiles[i], f) == Flushed(t.profiles[i], t);
    }
  }

  /** Two profile lists that differ at most in the fields of the profile
      at `active`, which a flush overwrites anyway. */
  predicate SameExceptActive(ps: seq<Profile>, qs: seq<Profile>, active: Option<nat>) {
    && |ps| == |qs|
    && forall k :: 0 <= k < |ps| ==> ps[k] == qs[k] || (active == Some(k) && ps[k].name == qs[k].name)
  }

  lemma FlushChangesOnlyActive(s: Session)
    ensures SameExceptActive(Flush(s).profiles, s.profiles, s.activeIndex)
    ensures Flush(s).(profiles := s.profiles) == s
  {
  }

  /** A session that differs from `s` only in the active profile's stale
      fields and in the stored record saves to the same session as `s`. */
  lemma SaveAbsorbsStaleState(s: Session, t: Session, rec: Record)
    requires t.(profiles := s.profiles, store := s.store) == s
    requires SameExceptActive(t.profiles, s.profiles, s.activeIndex)
    requires t.store == s.store[DataKey := rec]
    ensures SaveAll(Flush(t)) == SaveAll(s)
  {
    var ps := Flush(s).profiles;
    FlushIdempotent(t);
    FlushAbsorbsStaleProfile(s, t);
    FlushChangesOnlyActive(t);
    FlushChangesOnlyActive(s);
    assert Flush(t) == t.(profiles := ps);
    assert Flush(s) == s.(profiles := ps);
    var r := Record(ps, s.activeIndex, s.darkMode, s.timerInput, s.lastTopUp);
    assert SaveAll(Flush(t)) == t.(profiles := ps, store := t.store[DataKey := r]);
    assert SaveAll(s) == s.(profiles := ps, store := s.store[DataKey := r]);
    assert t.store[DataKey := r] == s.store[DataKey := r];
  }

  lemma FlushAbsorbsStaleProfile(s: Session, t: Session)
    requires t.(profiles := s.profiles, store := s.store) == s
    requires SameExceptActive(t.profiles, s.profiles, s.activeIndex)
    ensures Flush(t).profiles == Flush(s).profiles
  {
    if HasActive(s) {
      var i := s.activeIndex.value;
      assert Flush(t).profiles[i] == Flush(s).profiles[i];
      assert forall k :: 0 <= k < |s.profiles| && k != i ==> Flush(t).profiles[k] == t.profiles[k] == s.profiles[k];
    } else {
      assert t.profiles == s.profiles;
    }
  }

  // ---------------------------------------------------------------------
  // Undo and redo

  /** Undo on an empty history changes nothing; otherwise it moves one
      snapshot from the history to the redo stack, the current display
      fields going onto the redo stack and the popped snapshot becoming the
      display fields. */
  lemma UndoMovesOneSnapshot(s: Session)
    ensures |s.history| == 0 ==> Undo(s) == s
    ensures |s.history| > 0 ==>
      && Undo(s).history == s.history[..|s.history| - 1]
      && Undo(s).redo == s.redo + [Capture(s)]
      && Capture(Undo(s)) == s.history[|s.history| - 1]
      && Undo(s).activeIndex == s.activeIndex
      && Undo(s).lastTopUp == s.lastTopUp
  {
  }

  /** Redo is the mirror image of undo. */
  lemma RedoMovesOneSnapshot(s: Session)
    ensures |s.redo| == 0 ==> Redo(s) == s
    ensures |s.redo| > 0 ==>
      && Redo(s).redo == s.redo[..|s.redo| - 1]
      && Redo(s).history == s.history + [Capture(s)]
      && Capture(Redo(s)) == s.redo[|s.redo| - 1]
      && Redo(s).activeIndex == s.activeIndex
      && Redo(s).lastTopUp == s.lastTopUp
  {
  }

  /** Redo right after undo gives back the session as it was, saved. */
  lemma UndoThenRedo(s: Session)
    requires |s.history| > 0
    ensures Redo(Undo(s)) == SaveAll(s)
  {
    var t1 := Restore(s.(redo := s.redo + [Capture(s)], history := s.history[..|s.history| - 1]), s.history[|s.history| - 1]);
    var u := Undo(s);
    assert u == SaveAll(Flush(t1));
    FlushChangesOnlyActive(t1);
    FlushChangesOnlyActive(Flush(t1));
    assert u.redo[..|u.redo| - 1] == s.redo;
    assert u.history + [Capture(u)] == s.history;
    var t2 := Restore(u.(history := u.history + [Capture(u)], redo := u.redo[..|u.redo| - 1]), u.redo[|u.redo| - 1]);
    assert Redo(u) == SaveAll(Flush(t2));
    SaveAbsorbsStaleState(s, t2, u.store[DataKey]);
  }

  /** Undo right after redo gives back the session as it was, saved. */
  lemma RedoThenUndo(s: Session)
    requires |s.redo| > 0
    ensures Undo(Redo(s)) == SaveAll(s)
  {
    var t1 := Restore(s.(history := s.history + [Capture(s)], redo := s.redo[..|s.redo| - 1]), s.redo[|s.redo| - 1]);
    var r := Redo(s);
    assert r == SaveAll(Flush(t1));
    FlushChangesOnlyActive(t1);
    FlushChangesOnlyActive(Flush(t1));
    assert r.history[..|r.history| - 1] == s.history;
    assert r.redo + [Capture(r)] == s.redo;
    var t2 := Restore(r.(redo := r.redo + [Capture(r)], history := r.history[..|r.history| - 1]), r.history[|r.history| - 1]);
    assert Undo(r) == SaveAll(Flush(t2));
    SaveAbsorbsStaleState(s, t2, r.store[DataKey]);
  }
}

module TransactionLaws {
  import opened Options
  import opened Text
  import opened Numbers
  import opened SessionState
  import opened SessionLaws

  /** No character of `formatNumber`'s output is white space or `=`. */
  lemma FormatHasNoSpaceOrEquals(n: int)
    ensures '=' !in FormatNumber(n)
    ensures forall i :: 0 <= i < |FormatNumber(n)| ==> !IsSpace(FormatNumber(n)[i])
  {
    FormatShape(n);
  }

  lemma DebitTermsShape(balance: int, fee: int, amount: int)
    ensures var x := DebitTerms(balance, fee, amount);
      x != [] && !IsSpace(x[0]) && !IsSpace(x[|x| - 1]) && '=' !in x + " "
  {
    var x := DebitTerms(balance, fee, amount);
    FormatHasNoSpaceOrEquals(balance);
    FormatHasNoSpaceOrEquals(fee);
    FormatHasNoSpaceOrEquals(amount);
    assert x[0] == FormatNumber(balance)[0];
    assert x[|x| - 1] == FormatNumber(amount)[|FormatNumber(amount)| - 1];
  }

  /** The result field `handleDone` builds by cutting the log message at its
      first `=` and trimming is the log message itself. */
  lemma DebitResultIsLine(balance: int, fee: int, amount: int)
    ensures var formatted := FormatNumber(balance - fee - amount);
      Trim(BeforeFirst(DebitLine(balance, fee, amount), '=')) + " = " + formatted == DebitLine(balance, fee, amount)
  {
    var formatted := FormatNumber(balance - fee - amount);
    var x := DebitTerms(balance, fee, amount);
    var line := DebitLine(balance, fee, amount);
    assert line == (x + " ") + ("= " + formatted) by {
      assert " = " == " " + "= ";
    }
    DebitTermsShape(balance, fee, amount);
    assert BeforeFirst(line, '=') == x + " " by {
      BeforeFirstAppend(x + " ", "= " + formatted, '=');
      assert BeforeFirst("= " + formatted, '=') == [];
    }
    TrimOneTrailingBlank(x);
  }

  /** The log line leaves out the fee term exactly when the fee is zero. */
  lemma DebitLineOmitsFeeIffZero(balance: int, fee: int, amount: int)
    ensures DebitLine(balance, fee, amount)
      == FormatNumber(balance) + " - " + FormatNumber(amount) + " = " + FormatNumber(balance - fee - amount)
      <==> fee == 0
  {
    var b, f, a := FormatNumber(balance), FormatNumber(fee), FormatNumber(amount);
    var x := FormatNumber(balance - fee - amount);
    if fee != 0 {
      assert |DebitLine(balance, fee, amount)| == |b| + |f| + |a| + |x| + 9;
      assert |b + " - " + a + " = " + x| == |b| + |a| + |x| + 6;
    }
  }

  /** A failed clipboard read or write leaves the whole session untouched. */
  lemma DebitFailureChangesNothing(s: Session, clip: Option<string>, writeOk: bool, time: string)
    requires clip.None? || !writeOk
    ensures Debit(s, clip, writeOk, time) == s
    ensures DebitCopy(s, clip, writeOk) == None
  {
  }

  /** A debit takes fee and amount off the balance, in the balance field,
      in the active profile and in what it writes to the clipboard. */
  lemma DebitBalance(s: Session, clip: Option<string>, time: string)
    requires clip.Some?
    ensures var r := Debit(s, clip, true, time);
      var x := ParseNumber(s.balance) - ParseNumber(s.fee) - ParseNumber(clip.value);
      && ParseNumber(r.balance) == x
      && DebitCopy(s, clip, true) == Some(r.balance)
      && (HasActive(s) ==> r.profiles[s.activeIndex.value].balance == x)
  {
    var t := Debited(s, clip.value, time);
    var x := ParseNumber(s.balance) - ParseNumber(s.fee) - ParseNumber(clip.value);
    var r := Debit(s, clip, true, time);
    assert t.balance == FormatNumber(x) by {
      DebitedBalanceText(s, clip.value, time);
    }
    assert ParseNumber(t.balance) == x by {
      DebitedBalance(s, clip.value, time);
    }
    assert r.balance == t.balance && (HasActive(s) ==> r.profiles[s.activeIndex.value].balance == ParseNumber(t.balance)) by {
      Committed(t);
      assert HasActive(t) == HasActive(s);
    }
  }

  lemma DebitedBalance(s: Session, amountText: string, time: string)
    ensures ParseNumber(Debited(s, amountText, time).balance)
      == ParseNumber(s.balance) - ParseNumber(s.fee) - ParseNumber(amountText)
  {
    DebitedBalanceText(s, amountText, time);
    ParseOfFormat(Debited(s, amountText, time).balance, ParseNumber(s.balance) - ParseNumber(s.fee) - ParseNumber(amountText));
  }

  /** Proof step: the balance text `Debited` writes, unfolded once. */
  lemma DebitedBalanceText(s: Session, amountText: string, time: string)
    ensures Debited(s, amountText, time).balance
      == FormatNumber(ParseNumber(s.balance) - ParseNumber(s.fee) - ParseNumber(amountText))
  {
  }

  /** A debit shows its expression, ending in the new balance, as the
      result and as a new first log line, in the fields and in the active
      profile's log. */
  lemma DebitShowsLine(s: Session, clip: Option<string>, time: string)
    requires clip.Some?
    ensures var r := Debit(s, clip, true, time);
      var line := DebitLine(ParseNumber(s.balance), ParseNumber(s.fee), ParseNumber(clip.value));
      && r.result == line
      && r.log == DebitEntry(line, time) + s.log
      && (HasActive(s) ==> r.profiles[s.activeIndex.value].log == r.log)
  {
    var t := Debited(s, clip.value, time);
    DebitResultIsLine(ParseNumber(s.balance), ParseNumber(s.fee), ParseNumber(clip.value));
    Committed(t);
  }

  /** A debit pushes exactly one snapshot, of the session before it, and
      empties the redo stack, in the session and in the active profile; it
      clears the amount field and keeps the fee, the last top-up, the active
      index and the number of profiles. */
  lemma DebitStacks(s: Session, clip: Option<string>, time: string)
    requires clip.Some?
    ensures var r := Debit(s, clip, true, time);
      && r.history == s.history + [Capture(s)]
      && r.redo == []
      && r.amount == "" && r.fee == s.fee
      && r.lastTopUp == s.lastTopUp && r.activeIndex == s.activeIndex
      && |r.profiles| == |s.profiles|
      && (HasActive(s) ==>
            var p := r.profiles[s.activeIndex.value];
            p.history == r.history && p.redo == [])
  {
    Committed(Debited(s, clip.value, time));
  }

  /** A top-up adds the clipboard amount to the balance, records it as the
      last top-up, logs it, pushes exactly one snapshot, empties the redo
      stack, and leaves the fee and amount fields as they were. */
  lemma TopUpApplies(s: Session, clip: Option<string>, time: string)
    ensures clip.None? ==> TopUp(s, clip, time) == s
    ensures clip.Some? ==>
      var r := TopUp(s, clip, time);
      var balance, topUp := ParseNumber(s.balance), ParseNumber(clip.value);
      && ParseNumber(r.balance) == balance + topUp
      && r.lastTopUp == topUp
      && r.result == TopUpLine(balance, topUp)
      && r.log == TopUpEntry(TopUpLine(balance, topUp), time) + s.log
      && r.history == s.history + [Capture(s)]
      && r.redo == []
      && r.fee == s.fee && r.amount == s.amount
      && r.activeIndex == s.activeIndex
      && |r.profiles| == |s.profiles|
      && (HasActive(s) ==>
            var p := r.profiles[s.activeIndex.value];
            p.balance == balance + topUp && p.lastTopUp == topUp && p.history == r.history && p.redo == [])
  {
    if clip.Some? {
      var t := ToppedUp(s, clip.value, time);
      Committed(t);
      ParseOfFormat(t.balance, ParseNumber(s.balance) + ParseNumber(clip.value));
    }
  }

  /** A top-up from clipboard text in which no digit can be read, the
      empty clipboard included, still records and logs a top-up, of 0: the
      balance keeps its value and the last top-up becomes 0. */
  lemma UnreadableTopUpAddsNothing(s: Session, text: string, time: string)
    requires NoDigit(text)
    ensures var r := TopUp(s, Some(text), time);
      && ParseNumber(r.balance) == ParseNumber(s.balance)
      && r.lastTopUp == 0
      && r.history == s.history + [Capture(s)]
  {
    TopUpApplies(s, Some(text), time);
    UnreadableIsZero(text);
  }

  /** Undo right after a debit brings back the display fields and the
      history from before it; the undone state waits on the redo stack. */
  lemma UndoRevertsDebit(s: Session, clip: Option<string>, time: string)
    requires clip.Some?
    ensures var d := Debit(s, clip, true, time);
      var r := Undo(d);
      Capture(r) == Capture(s) && r.history == s.history && r.redo == [Capture(d)]
  {
    var d := Debit(s, clip, true, time);
    DebitStacks(s, clip, time);
    UndoMovesOneSnapshot(d);
    assert d.history[..|d.history| - 1] == s.history;
  }

  /** Undo does not bring back the last top-up: snapshots hold only the
      five display fields, so the undone top-up amount stays recorded. */
  lemma UndoKeepsLastTopUp(s: Session, clip: Option<string>, time: string)
    requires clip.Some?
    ensures var d := TopUp(s, clip, time);
      var r := Undo(d);
      Capture(r) == Capture(s) && r.history == s.history && r.lastTopUp == ParseNumber(clip.value)
  {
    var d := TopUp(s, clip, time);
    TopUpApplies(s, clip, time);
    UndoMovesOneSnapshot(d);
    assert d.history[..|d.history| - 1] == s.history;
  }
}

/** Several transactions in a row, and as many presses of undo after them. */
module UndoLaws {
  import opened Options
  import opened SessionState
  import opened SessionLaws
  import opened TransactionLaws

  /** A transaction the user completes: a debit whose clipboard read and
      write both succeed, or a top-up whose clipboard read succeeds. */
  datatype Transaction = Paid(amountText: string, time: string) | Credited(topUpText: string, time: string)

  function Perform(s: Session, t: Transaction): Session {
    match t
    case Paid(amountText, time) => Debit(s, Some(amountText), true, time)
    case Credited(topUpText, time) => TopUp(s, Some(topUpText), time)
  }

  /** The transactions performed in order, first to last. */
  function PerformAll(s: Session, ts: seq<Transaction>): Session
    decreases |ts|
  {
    if ts == [] then s else Perform(PerformAll(s, ts[..|ts| - 1]), ts[|ts| - 1])
  }

  /** `k` presses of the undo button. */
  function UndoTimes(s: Session, k: nat): Session
    decreases k
  {
    if k == 0 then s else UndoTimes(Undo(s), k - 1)
  }

  /** Every transaction pushes one snapshot, of the session before it. */
  lemma PerformPushes(s: Session, t: Transaction)
    ensures Perform(s, t).history == s.history + [Capture(s)]
  {
    match t
    case Paid(amountText, time) => DebitStacks(s, Some(amountText), time);
    case Credited(topUpText, time) => TopUpApplies(s, Some(topUpText), time);
  }

  /** What undo shows, and the history it leaves, depend only on the
      display fields and the history it starts from. */
  lemma {:induction false} UndoTimesDependsOnHistory(x: Session, y: Session, k: nat)
    requires Capture(x) == Capture(y) && x.history == y.history
    ensures Capture(UndoTimes(x, k)) == Capture(UndoTimes(y, k))
    ensures UndoTimes(x, k).history == UndoTimes(y, k).history
    decreases k
  {
    if k > 0 {
      var ux, uy := Undo(x), Undo(y);
      assert Capture(ux) == Capture(uy) && ux.history == uy.history by {
        UndoMovesOneSnapshot(x);
        UndoMovesOneSnapshot(y);
      }
      UndoTimesDependsOnHistory(ux, uy, k - 1);
    }
  }

  /** Undoing as many times as transactions were performed brings back the
      balance, fee, amount, result and log from before them, and the
      history as it was. */
  lemma {:induction false} UndoTimesRevertsTransactions(s: Session, ts: seq<Transaction>)
    ensures var r := UndoTimes(PerformAll(s, ts), |ts|);
      Capture(r) == Capture(s) && r.history == s.history
    decreases |ts|
  {
    if ts != [] {
      var init := ts[..|ts| - 1];
      var p := PerformAll(s, init);
      var d := Perform(p, ts[|ts| - 1]);
      assert PerformAll(s, ts) == d;
      PerformPushes(p, ts[|ts| - 1]);
      UndoMovesOneSnapshot(d);
      assert d.history[..|d.history| - 1] == p.history;
      assert UndoTimes(d, |ts|) == UndoTimes(Undo(d), |init|);
      UndoTimesDependsOnHistory(Undo(d), p, |init|);
      UndoTimesRevertsTransactions(s, init);
    }
  }
}
