/** The few JavaScript string operations the session relies on:
    white space as `\s`, `trim` and `parseFloat` understand it, and
    `split(c)[0]`. */
module Text {

  /** White space and line terminators in JavaScript: the class `\s` of a
      regular expression, and what `trim` and `parseFloat` skip. */
  predicate IsSpace(c: char) {
    || c == '\t' || c == '\n' || c == '\U{000B}' || c == '\U{000C}' || c == '\r'
    || c == ' ' || c == '\U{00A0}' || c == '\U{1680}'
    || ('\U{2000}' <= c <= '\U{200A}')
    || c == '\U{2028}' || c == '\U{2029}' || c == '\U{202F}' || c == '\U{205F}'
    || c == '\U{3000}' || c == '\U{FEFF}'
  }

  /** `trimStart`: drops the leading white space and nothing else. */
  function TrimStart(s: string): string {
    if s != [] && IsSpace(s[0]) then TrimStart(s[1..]) else s
  }

  /** `TrimStart` keeps a suffix, drops only white space, and leaves no
      white space in front. */
  lemma {:induction false} TrimStartShape(s: string)
    ensures var r := TrimStart(s);
      && |r| <= |s| && r == s[|s| - |r|..]
      && (forall i :: 0 <= i < |s| - |r| ==> IsSpace(s[i]))
      && (r == [] || !IsSpace(r[0]))
  {
    if s != [] && IsSpace(s[0]) {
      var t := s[1..];
      TrimStartShape(t);
      var r := TrimStart(t);
      assert TrimStart(s) == r;
      assert t[|t| - |r|..] == s[|s| - |r|..];
      forall i | 0 <= i < |s| - |r|
        ensures IsSpace(s[i])
      {
        if i > 0 {
          assert s[i] == t[i - 1];
        }
      }
    }
  }

  /** `trimEnd`: drops the trailing white space and nothing else. */
  function TrimEnd(s: string): string {
    if s != [] && IsSpace(s[|s| - 1]) then TrimEnd(s[..|s| - 1]) else s
  }

  /** `TrimEnd` keeps a prefix, drops only white space, and leaves no
      white space at the end. */
  lemma {:induction false} TrimEndShape(s: string)
    ensures var r := TrimEnd(s);
      && |r| <= |s| && r == s[..|r|]
      && (forall i :: |r| <= i < |s| ==> IsSpace(s[i]))
      && (r == [] || !IsSpace(r[|r| - 1]))
  {
    if s != [] && IsSpace(s[|s| - 1]) {
      var t := s[..|s| - 1];
      TrimEndShape(t);
      var r := TrimEnd(t);
      assert TrimEnd(s) == r;
      assert t[..|r|] == s[..|r|];
      forall i | |r| <= i < |s|
        ensures IsSpace(s[i])
      {
        if i < |s| - 1 {
          assert s[i] == t[i];
        }
      }
    }
  }

  /** `String.prototype.trim`. */
  function Trim(s: string): string {
    TrimEnd(TrimStart(s))
  }

  /** `s.split(c)[0]`: the text before the first `c`, or all of `s`. */
  function BeforeFirst(s: string, c: char): string {
    if s == [] || s[0] == c then [] else [s[0]] + BeforeFirst(s[1..], c)
  }

  /** `BeforeFirst` keeps a prefix without `c`, and stops only at a `c` or
      at the end. */
  lemma {:induction false} BeforeFirstShape(s: string, c: char)
    ensures var r := BeforeFirst(s, c);
      && |r| <= |s| && r == s[..|r|]
      && c !in r
      && (|r| < |s| ==> s[|r|] == c)
  {
    if s != [] && s[0] != c {
      BeforeFirstShape(s[1..], c);
      assert s == [s[0]] + s[1..];
    }
  }

  /** Trimming leaves alone a string that neither starts nor ends with
      white space, once one trailing blank is added. */
  lemma TrimOneTrailingBlank(x: string)
    requires x != [] && !IsSpace(x[0]) && !IsSpace(x[|x| - 1])
    ensures Trim(x + " ") == x
  {
    var y := x + " ";
    assert TrimStart(y) == y;
    assert y[..|y| - 1] == x;
    assert TrimEnd(y) == TrimEnd(x);
  }

  /** The text before the first `c` in `a + b`, when `a` has no `c`. */
  lemma {:induction false} BeforeFirstAppend(a: string, b: string, c: char)
    requires c !in a
    ensures BeforeFirst(a + b, c) == a + BeforeFirst(b, c)
  {
    if a != [] {
      assert a[0] in a;
      assert (a + b)[0] == a[0] && (a + b)[1..] == a[1..] + b;
      BeforeFirstAppend(a[1..], b, c);
      assert BeforeFirst(a + b, c) == [a[0]] + (a[1..] + BeforeFirst(b, c));
      assert a == [a[0]] + a[1..];
    } else {
      assert a + b == b;
    }
  }
}
