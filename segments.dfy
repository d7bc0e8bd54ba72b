/** The auto-copy rule of `extractAndCopySegment` (app.js:206-209): split
    the profile name on white space, `-` and `_`, keep the segments of at
    least 15 characters, and copy the first 15 characters of the first one. */
module Segments {
  import opened Options
  import opened Text

  /** How many characters the auto-copy takes, and how long a segment must be. */
  const SegmentLength := 15

  /** The class `[\s\-_]` the name is split on. */
  predicate IsSeparator(c: char) {
    IsSpace(c) || c == '-' || c == '_'
  }

  /** The index of the first separator in `s`, or `|s|` when there is none. */
  function SeparatorIndex(s: string): (k: nat)
    ensures k <= |s|
    ensures k < |s| ==> IsSeparator(s[k])
    ensures forall i :: 0 <= i < k ==> !IsSeparator(s[i])
  {
    if s == [] || IsSeparator(s[0]) then 0 else 1 + SeparatorIndex(s[1..])
  }

  /** `s.split(/[\s\-_]/)`: the pieces between separators, empty ones
      included; the empty string gives one empty piece. */
  function Split(s: string): (r: seq<string>)
    ensures |r| >= 1
    decreases |s|
  {
    var k := SeparatorIndex(s);
    if k == |s| then [s] else [s[..k]] + Split(s[k + 1..])
  }

  /** `segments.filter(s => s.length >= 15)[0]`, if there is one. */
  function FirstLong(segments: seq<string>): (r: Option<string>)
    ensures r.Some? ==> |r.value| >= SegmentLength
  {
    if segments == [] then None
    else if |segments[0]| >= SegmentLength then Some(segments[0])
    else FirstLong(segments[1..])
  }

  /** The text auto-copy writes to the clipboard for profile `name`, or
      None when no segment is long enough (nothing is written then). */
  function SegmentToCopy(name: string): Option<string> {
    match FirstLong(Split(name))
    case None => None
    case Some(segment) => Some(segment[..SegmentLength])
  }

  /** A segment of at least 15 characters starts at `j`: `j` is the start
      of the name or follows a separator, and the 15 characters from `j`
      are all non-separators. */
  predicate LongSegmentAt(s: string, j: nat) {
    && j + SegmentLength <= |s|
    && (j == 0 || IsSeparator(s[j - 1]))
    && NoSeparator(s[j..j + SegmentLength])
  }

  predicate NoSeparator(t: string) {
    forall i :: 0 <= i < |t| ==> !IsSeparator(t[i])
  }

  predicate FirstLongSegmentAt(s: string, j: nat) {
    LongSegmentAt(s, j) && forall i :: 0 <= i < j ==> !LongSegmentAt(s, i)
  }

  /** The split-filter-substring pipeline copies exactly the 15 characters
      that start the leftmost segment of at least 15 characters, and copies
      nothing when the name has no such segment. */
  lemma {:induction false} SegmentToCopyIsFirstLongSegment(s: string)
    ensures SegmentToCopy(s).None? <==> forall j :: 0 <= j <= |s| ==> !LongSegmentAt(s, j)
    ensures SegmentToCopy(s).Some? ==>
      exists j :: 0 <= j <= |s| && FirstLongSegmentAt(s, j) && SegmentToCopy(s).value == s[j..j + SegmentLength]
    decreases |s|
  {
    var k := SeparatorIndex(s);
    if k >= SegmentLength {
      LongFirstPiece(s);
    } else if k == |s| {
      ShortUnseparated(s);
    } else {
      var rest := s[k + 1..];
      NoLongSegmentInFirstPiece(s);
      ShortFirstPieceSkipped(s, k);
      SegmentToCopyIsFirstLongSegment(rest);
      if SegmentToCopy(rest).Some? {
        var j' :| 0 <= j' <= |rest| && FirstLongSegmentAt(rest, j') && SegmentToCopy(rest).value == rest[j'..j' + SegmentLength];
        FirstLongSegmentPastSeparator(s, k, j');
        assert s[j' + k + 1..j' + k + 1 + SegmentLength] == rest[j'..j' + SegmentLength];
      } else {
        NoLongSegmentPastSeparator(s, k, rest);
      }
    }
  }

  /** A first piece of 15 characters or more is the one copied. */
  lemma LongFirstPiece(s: string)
    requires SeparatorIndex(s) >= SegmentLength
    ensures SegmentToCopy(s) == Some(s[..SegmentLength]) && FirstLongSegmentAt(s, 0)
  {
    var k := SeparatorIndex(s);
    var pieces := Split(s);
    assert pieces[0] == s[..k];
    assert FirstLong(pieces) == Some(s[..k]);
    assert s[..k][..SegmentLength] == s[..SegmentLength];
    assert NoSeparator(s[0..SegmentLength]);
  }

  /** A name shorter than 15 characters without separators copies nothing. */
  lemma ShortUnseparated(s: string)
    requires SeparatorIndex(s) == |s| < SegmentLength
    ensures SegmentToCopy(s).None? && forall j :: 0 <= j <= |s| ==> !LongSegmentAt(s, j)
  {
    assert Split(s) == [s] && [s][1..] == [];
    assert FirstLong([s]) == FirstLong([]);
  }

  /** A short first piece is filtered out: the copy comes from the rest. */
  lemma ShortFirstPieceSkipped(s: string, k: nat)
    requires k == SeparatorIndex(s) && k < |s| && k < SegmentLength
    ensures SegmentToCopy(s) == SegmentToCopy(s[k + 1..])
  {
    SplitAtSeparator(s, k);
    FirstLongSkipsShort(s[..k], Split(s[k + 1..]));
  }

  /** Proof step: one unfolding of `Split` at its first separator. */
  lemma SplitAtSeparator(s: string, k: nat)
    requires k == SeparatorIndex(s) && k < |s|
    ensures Split(s) == [s[..k]] + Split(s[k + 1..])
  {
  }

  /** Proof step: one unfolding of `FirstLong` past a short piece. */
  lemma FirstLongSkipsShort(piece: string, later: seq<string>)
    requires |piece| < SegmentLength
    ensures FirstLong([piece] + later) == FirstLong(later)
  {
    assert ([piece] + later)[1..] == later;
  }

  /** When the first separator comes before position 15, no long segment
      starts at or before it. */
  lemma NoLongSegmentInFirstPiece(s: string)
    requires SeparatorIndex(s) < SegmentLength
    ensures forall j :: 0 <= j <= SeparatorIndex(s) ==> !LongSegmentAt(s, j)
  {
    var k := SeparatorIndex(s);
    forall j | 0 <= j <= k
      ensures !LongSegmentAt(s, j)
    {
      if j > 0 {
        assert !IsSeparator(s[j - 1]);
      } else if k < |s| && j + SegmentLength <= |s| {
        assert s[..SegmentLength][k] == s[k];
      }
    }
  }

  lemma FirstLongSegmentPastSeparator(s: string, k: nat, j': nat)
    requires k < |s| && IsSeparator(s[k])
    requires forall j :: 0 <= j <= k ==> !LongSegmentAt(s, j)
    requires j' <= |s| - (k + 1) && FirstLongSegmentAt(s[k + 1..], j')
    ensures FirstLongSegmentAt(s, j' + k + 1)
  {
    LongSegmentPastSeparator(s, k, j' + k + 1);
    forall i | 0 <= i < j' + k + 1
      ensures !LongSegmentAt(s, i)
    {
      if i > k {
        LongSegmentPastSeparator(s, k, i);
      }
    }
  }

  lemma NoLongSegmentPastSeparator(s: string, k: nat, rest: string)
    requires k < |s| && IsSeparator(s[k]) && rest == s[k + 1..]
    requires forall j :: 0 <= j <= k ==> !LongSegmentAt(s, j)
    requires forall j :: 0 <= j <= |rest| ==> !LongSegmentAt(rest, j)
    ensures forall j :: 0 <= j <= |s| ==> !LongSegmentAt(s, j)
  {
    forall j | 0 <= j <= |s|
      ensures !LongSegmentAt(s, j)
    {
      if j > k {
        LongSegmentPastSeparator(s, k, j);
      }
    }
  }

  /** Past a separator at `k`, the long segments of `s` are those of the
      text after it, shifted by `k + 1`. */
  lemma LongSegmentPastSeparator(s: string, k: nat, j: nat)
    requires k < |s| && IsSeparator(s[k]) && k < j <= |s|
    ensures LongSegmentAt(s, j) <==> LongSegmentAt(s[k + 1..], j - (k + 1))
  {
    var rest := s[k + 1..];
    var j' := j - (k + 1);
    if j + SegmentLength <= |s| {
      assert s[j..j + SegmentLength] == rest[j'..j' + SegmentLength];
    }
    if j' > 0 {
      assert s[j - 1] == rest[j' - 1];
    }
  }
}
