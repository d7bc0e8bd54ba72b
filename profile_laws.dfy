/** What switching, creating, deleting and reordering profiles do to the
    profile list and to the working set, stated over `SessionState`. */
module ProfileLaws {
  import opened Options
  import opened Text
  import opened Numbers
  import opened ProfileOrder
  import opened SessionState
  import opened SessionLaws

  /** Flushing a session whose working set was just loaded from its active
      profile writes that profile back unchanged. */
  lemma FlushOfLoaded(r: Session)
    requires HasActive(r)
    requires var p := r.profiles[r.activeIndex.value];
      && ParseNumber(r.balance) == p.balance && ParseNumber(r.fee) == p.fee && ParseNumber(r.amount) == p.amount
      && r.history == p.history && r.redo == p.redo && r.log == p.log && r.lastTopUp == p.lastTopUp
    ensures Flush(r) == r
  {
    var i := r.activeIndex.value;
    assert Flushed(r.profiles[i], r) == r.profiles[i];
    assert r.profiles[i := r.profiles[i]] == r.profiles;
  }

  /** `switchProfile` with the selector's empty value does nothing. */
  lemma SwitchToNothing(s: Session)
    ensures Switch(s, None) == s
    ensures SwitchCopy(s, None) == None
  {
  }

  /** Switching to profile `i` first writes the working set into the
      profile that was active, then loads profile `i` as it now stands: the
      numbers (read back as numbers), the log, both stacks and the last
      top-up, with an empty result. The load writes nothing new into
      profile `i`, and the settings are untouched. */
  lemma SwitchLoadsProfile(s: Session, i: nat)
    requires i < |s.profiles|
    ensures var r := Switch(s, Some(i));
      var p := Flush(s).profiles[i];
      && r.profiles == Flush(s).profiles
      && r.activeIndex == Some(i)
      && ParseNumber(r.balance) == p.balance && ParseNumber(r.fee) == p.fee && ParseNumber(r.amount) == p.amount
      && r.result == ""
      && r.log == p.log && r.history == p.history && r.redo == p.redo && r.lastTopUp == p.lastTopUp
      && r.isCleared == s.isCleared && r.backup == s.backup
      && r.darkMode == s.darkMode && r.timerInput == s.timerInput && r.autoCopy == s.autoCopy
  {
    var p := Flush(s).profiles[i];
    var t := Shown(Flush(s), i);
    DisplayRoundTrip(p.balance);
    DisplayRoundTrip(p.fee);
    DisplayRoundTrip(p.amount);
    FlushOfLoaded(t);
  }

  /** Switching away and back brings the working set back, its numbers
      read back as numbers and the result cleared, and leaves every
      profile as one flush of the starting session left it. */
  lemma SwitchAwayAndBack(s: Session, i: nat)
    requires HasActive(s) && i < |s.profiles|
    ensures var a := s.activeIndex.value;
      var u := Switch(Switch(s, Some(i)), Some(a));
      && u.profiles == Flush(s).profiles
      && u.activeIndex == s.activeIndex
      && ParseNumber(u.balance) == ParseNumber(s.balance)
      && ParseNumber(u.fee) == ParseNumber(s.fee)
      && ParseNumber(u.amount) == ParseNumber(s.amount)
      && u.log == s.log && u.history == s.history && u.redo == s.redo && u.lastTopUp == s.lastTopUp
      && u.result == ""
  {
    var a := s.activeIndex.value;
    var r := Switch(s, Some(i));
    SwitchLoadsProfile(s, i);
    FlushOfLoaded(r);
    SwitchLoadsProfile(r, a);
    assert Flush(s).profiles[a] == Flushed(s.profiles[a], s);
  }

  /** `createProfile` with a cancelled prompt or a blank name does nothing. */
  lemma CreateIgnoresBlankName(s: Session, name: Option<string>)
    requires name.None? || Trim(name.value) == ""
    ensures Create(s, name) == s
    ensures CreateCopy(s, name) == None
  {
  }

  /** Creating a profile appends it under its trimmed name and makes it
      active, leaving every earlier profile as it was, the one that was
      active included. Because the index moves to the new slot before the
      switch flushes, the new profile starts with the working set of the
      profile that was active, not with zeros, and that working set stays
      on screen. */
  lemma CreateInheritsOutgoingState(s: Session, name: Option<string>)
    requires name.Some? && Trim(name.value) != ""
    ensures var r := Create(s, name);
      var n := |s.profiles|;
      && |r.profiles| == n + 1
      && r.profiles[..n] == s.profiles
      && r.profiles[n] == Flushed(NewProfile(Trim(name.value)), s)
      && r.activeIndex == Some(n)
      && ParseNumber(r.balance) == ParseNumber(s.balance)
      && ParseNumber(r.fee) == ParseNumber(s.fee)
      && ParseNumber(r.amount) == ParseNumber(s.amount)
      && r.log == s.log && r.history == s.history && r.redo == s.redo && r.lastTopUp == s.lastTopUp
      && r.result == ""
  {
    var n := |s.profiles|;
    var t := s.(profiles := s.profiles + [NewProfile(Trim(name.value))], activeIndex := Some(n));
    assert Create(s, name) == Switch(t, Some(n));
    SwitchLoadsProfile(t, n);
    assert Flush(t).profiles == s.profiles + [Flushed(NewProfile(Trim(name.value)), s)];
  }

  /** `deleteProfile` without an active index, or not confirmed, does nothing. */
  lemma DeleteIgnored(s: Session, confirmed: bool)
    requires s.activeIndex.None? || !confirmed
    ensures Delete(s, confirmed) == s
    ensures DeleteCopy(s, confirmed) == None
  {
  }

  /** Deleting the active profile removes it; when profiles remain, the
      index moves to 0 before the switch flushes, so profile 0 keeps its
      name but receives the deleted profile's working set, which stays on
      screen with the result cleared. */
  lemma DeleteOverwritesFirst(s: Session)
    requires s.activeIndex.Some?
    requires |RemoveAt(s.profiles, s.activeIndex.value)| > 0
    ensures var r := Delete(s, true);
      var ps := RemoveAt(s.profiles, s.activeIndex.value);
      && r.profiles == ps[0 := Flushed(ps[0], s)]
      && r.activeIndex == Some(0)
      && ParseNumber(r.balance) == ParseNumber(s.balance)
      && ParseNumber(r.fee) == ParseNumber(s.fee)
      && ParseNumber(r.amount) == ParseNumber(s.amount)
      && r.log == s.log && r.history == s.history && r.redo == s.redo && r.lastTopUp == s.lastTopUp
      && r.result == ""
  {
    var ps := RemoveAt(s.profiles, s.activeIndex.value);
    var t := s.(profiles := ps, activeIndex := Some(0));
    var r1 := Switch(t, Some(0));
    SwitchLoadsProfile(t, 0);
    assert Flush(t).profiles == ps[0 := Flushed(ps[0], s)];
    FlushOfLoaded(r1);
  }

  /** Deleting the last profile leaves no profile, no active index and an
      empty working set. */
  lemma DeleteLastEmpties(s: Session)
    requires s.activeIndex.Some?
    requires |RemoveAt(s.profiles, s.activeIndex.value)| == 0
    ensures var r := Delete(s, true);
      && r.profiles == [] && r.activeIndex == None
      && r.balance == "" && r.fee == "" && r.amount == "" && r.result == "" && r.log == ""
      && r.history == [] && r.redo == [] && r.lastTopUp == 0
      && DataKey in r.store && r.store[DataKey] == Record([], None, s.darkMode, s.timerInput, 0)
  {
  }

  /** A drop on the dragged profile's own position does nothing. */
  lemma ReorderSamePlace(s: Session, i: nat)
    requires i < |s.profiles|
    ensures Reorder(s, i, i) == s
  {
  }

  /** A drop moves the dragged profile from `from` to `to`; the active
      index follows the profile that was active, and the working set is
      written into that profile at its new position. */
  lemma ReorderKeepsActiveProfile(s: Session, from: nat, to: nat)
    requires from < |s.profiles| && to < |s.profiles| && from != to
    requires HasActive(s)
    ensures var r := Reorder(s, from, to);
      var a := s.activeIndex.value;
      var b := Renumber(s.activeIndex, from, to);
      && b.Some? && b.value < |s.profiles|
      && r.activeIndex == b
      && r.profiles == Move(s.profiles, from, to)[b.value := Flushed(s.profiles[a], s)]
      && Capture(r) == Capture(s) && r.history == s.history && r.redo == s.redo && r.lastTopUp == s.lastTopUp
  {
    var a := s.activeIndex.value;
    MoveTracksActive(s.profiles, from, to, a);
    MovePermutes(s.profiles, from, to);
    var t := s.(profiles := Move(s.profiles, from, to), activeIndex := Renumber(s.activeIndex, from, to));
    Committed(t);
  }

  /** A drop with no active profile: JavaScript compares `null` as 0, so a
      later profile dropped at the top makes index 1 active and the working
      set is written into the profile now at index 1; any other drop keeps
      the index unset and writes no profile. */
  lemma ReorderWithoutActive(s: Session, from: nat, to: nat)
    requires from < |s.profiles| && to < |s.profiles| && from != to
    requires s.activeIndex.None?
    ensures var r := Reorder(s, from, to);
      var ys := Move(s.profiles, from, to);
      && (0 < from && to == 0 ==>
            r.activeIndex == Some(1) && 1 < |ys| && r.profiles == ys[1 := Flushed(ys[1], s)])
      && (!(0 < from && to == 0) ==> r.activeIndex == None && r.profiles == ys)
  {
    MovePermutes(s.profiles, from, to);
    var t := s.(profiles := Move(s.profiles, from, to), activeIndex := Renumber(s.activeIndex, from, to));
    Committed(t);
  }
}
