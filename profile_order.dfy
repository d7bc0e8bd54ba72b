/** The list operations behind profile deletion and drag-and-drop
    reordering: `splice(i, 1)`, the two splices of the drop handler, and
    the renumbering of the active index that follows them
    (app.js:519, app.js:703-714). */
module ProfileOrder {
  import opened Options

  /** `xs.splice(i, 1)`: removes the element at `i`; an index past the end
      removes nothing. */
  function RemoveAt<T>(xs: seq<T>, i: nat): (r: seq<T>)
    ensures i < |xs| ==> |r| == |xs| - 1 && multiset(r) + multiset{xs[i]} == multiset(xs)
    ensures i < |xs| ==> forall k :: 0 <= k < |r| ==> r[k] == (if k < i then xs[k] else xs[k + 1])
    ensures i >= |xs| ==> r == xs
  {
    if i < |xs| then
      assert xs == xs[..i] + [xs[i]] + xs[i + 1..];
      xs[..i] + xs[i + 1..]
    else
      xs
  }

  /** The drop handler: take the element at `from` out, then insert it so
      that it ends up at index `to`. A move, not a swap. */
  function Move<T>(xs: seq<T>, from: nat, to: nat): seq<T>
    requires from < |xs| && to < |xs|
  {
    var rest := RemoveAt(xs, from);
    rest[..to] + [xs[from]] + rest[to..]
  }

  /** The renumbering of `currentProfileIndex` after a move. With no active
      profile JavaScript compares `null` as 0 and `null++` yields 1, so a
      move of a later profile to the top makes index 1 active. */
  function Renumber(active: Option<nat>, from: nat, to: nat): Option<nat> {
    match active
    case Some(a) =>
      if a == from then Some(to)
      else if a > from && a <= to then Some(a - 1)
      else if a < from && a >= to then Some(a + 1)
      else Some(a)
    case None =>
      if 0 < from && 0 >= to then Some(1) else None
  }

  /** A move keeps the length and the multiset of elements, and puts the
      moved element at `to`. */
  lemma MovePermutes<T>(xs: seq<T>, from: nat, to: nat)
    requires from < |xs| && to < |xs|
    ensures |Move(xs, from, to)| == |xs|
    ensures multiset(Move(xs, from, to)) == multiset(xs)
    ensures Move(xs, from, to)[to] == xs[from]
  {
    var rest := RemoveAt(xs, from);
    assert rest == rest[..to] + rest[to..];
  }

  /** Moving an element onto its own position changes nothing. */
  lemma MoveToSamePlace<T>(xs: seq<T>, i: nat)
    requires i < |xs|
    ensures Move(xs, i, i) == xs
  {
    assert xs == xs[..i] + [xs[i]] + xs[i + 1..];
  }

  /** After the move, the renumbered active index names the same element
      the active index named before: the active profile keeps its identity. */
  lemma MoveTracksActive<T>(xs: seq<T>, from: nat, to: nat, a: nat)
    requires from < |xs| && to < |xs| && a < |xs|
    ensures Renumber(Some(a), from, to).Some?
    ensures Renumber(Some(a), from, to).value < |xs|
    ensures Move(xs, from, to)[Renumber(Some(a), from, to).value] == xs[a]
  {
    var rest := RemoveAt(xs, from);
    var ys := Move(xs, from, to);
    var b := Renumber(Some(a), from, to).value;
    assert |ys| == |xs|;
    if a != from {
      // The element at a sits in rest at a or a - 1, and rest is cut at to.
      var ra := if a < from then a else a - 1;
      assert rest[ra] == xs[a];
      if ra < to {
        assert b == ra;
        assert ys[b] == rest[ra];
      } else {
        assert b == ra + 1;
        assert ys[b] == rest[ra];
      }
    }
  }

  /** Every index follows its element: the renumbering is the position map
      of the move for each index, so the move permutes indexes one-to-one. */
  lemma RenumberIsInjective(n: nat, from: nat, to: nat, a: nat, c: nat)
    requires from < n && to < n && a < n && c < n && a != c
    ensures Renumber(Some(a), from, to) != Renumber(Some(c), from, to)
  {
  }
}
