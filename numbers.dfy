/** The number text helpers: `formatNumber` writes an integer with a comma
    before every group of three digits counted from the right, and
    `parseNumber` reads such text back leniently, taking 0 for anything it
    cannot read (app.js:67-75). Only integers are modelled. */
module Numbers {
  import opened Text

  predicate IsDigit(c: char) {
    '0' <= c <= '9'
  }

  predicate AllDigits(s: string) {
    forall i :: 0 <= i < |s| ==> IsDigit(s[i])
  }

  function DigitValue(c: char): (d: nat)
    requires IsDigit(c)
    ensures d < 10
  {
    c as int - '0' as int
  }

  function DigitChar(d: nat): (c: char)
    requires d < 10
    ensures IsDigit(c) && DigitValue(c) == d
  {
    (d + '0' as int) as char
  }

  /** `Number.prototype.toString` of a non-negative integer: its decimal
      digits, most significant first, without leading zeros. */
  function Digits(n: nat): (r: string)
    ensures r != [] && AllDigits(r)
    ensures |r| > 1 ==> r[0] != '0'
  {
    if n < 10 then [DigitChar(n)] else Digits(n / 10) + [DigitChar(n % 10)]
  }

  /** The value of a string of decimal digits; the empty string reads as 0. */
  function Value(ds: string): nat
    requires AllDigits(ds)
  {
    if ds == [] then 0 else Value(ds[..|ds| - 1]) * 10 + DigitValue(ds[|ds| - 1])
  }

  /** The comma insertion of `replace(/\B(?=(\d{3})+(?!\d))/g, ',')` on a
      run of digits: the last three digits are a group, and so on leftwards. */
  function Group(ds: string): string
    requires AllDigits(ds)
  {
    if |ds| <= 3 then ds else Group(ds[..|ds| - 3]) + "," + ds[|ds| - 3..]
  }

  /** `Group` writes only digits and commas, and starts and ends with a
      digit. */
  lemma {:induction false} GroupChars(ds: string)
    requires AllDigits(ds)
    ensures var r := Group(ds);
      && (ds != [] ==> r != [] && IsDigit(r[0]) && IsDigit(r[|r| - 1]))
      && (forall i :: 0 <= i < |r| ==> IsDigit(r[i]) || r[i] == ',')
  {
    if |ds| > 3 {
      var hi := ds[..|ds| - 3];
      GroupChars(hi);
      var g := Group(hi);
      var r := Group(ds);
      assert r == g + "," + ds[|ds| - 3..];
      forall i | 0 <= i < |r|
        ensures IsDigit(r[i]) || r[i] == ','
      {
        if i < |g| {
          assert r[i] == g[i];
        } else if i > |g| {
          assert r[i] == ds[|ds| - 3 + (i - |g| - 1)];
        }
      }
    }
  }

  /** `formatNumber` on an integer. A leading minus sign is kept: the
      regular expression's `\B` does not hold between `-` and a digit. */
  function FormatNumber(n: int): (r: string)
    ensures r != []
  {
    if n < 0 then "-" + Group(Digits(-n)) else Group(Digits(n))
  }

  /** The text `formatNumber` writes is a minus sign exactly for a negative
      number, then digits and commas, starting and ending with a digit. */
  lemma FormatShape(n: int)
    ensures var r := FormatNumber(n);
      && r != [] && IsDigit(r[|r| - 1])
      && (r[0] == '-' <==> n < 0)
      && (n < 0 ==> |r| > 1 && IsDigit(r[1]))
      && (n >= 0 ==> IsDigit(r[0]))
      && (forall i :: 0 <= i < |r| ==> IsDigit(r[i]) || r[i] == ',' || r[i] == '-')
  {
    var ds := Digits(if n < 0 then -n else n);
    GroupChars(ds);
    if n < 0 {
      var r := FormatNumber(n);
      var g := Group(ds);
      assert r == "-" + g;
      forall i | 0 <= i < |r|
        ensures IsDigit(r[i]) || r[i] == ',' || r[i] == '-'
      {
        if i > 0 {
          assert r[i] == g[i - 1];
        }
      }
    }
  }

  /** `str.replace(/,/g, '')`. */
  function StripCommas(s: string): (r: string)
    ensures ',' !in r
  {
    if s == [] then [] else (if s[0] == ',' then [] else [s[0]]) + StripCommas(s[1..])
  }

  /** The longest prefix of `s` made of digits. */
  function DigitPrefix(s: string): (r: string)
    ensures AllDigits(r) && |r| <= |s| && r == s[..|r|]
    ensures |r| < |s| ==> !IsDigit(s[|r|])
  {
    if s != [] && IsDigit(s[0]) then [s[0]] + DigitPrefix(s[1..]) else []
  }

  /** `parseFloat(t) || 0`, read as an integer: leading white space is
      skipped, an optional sign is taken, then the run of digits that
      follows; no digits at all (NaN) gives 0. */
  function LeadingInteger(t: string): int {
    var u := TrimStart(t);
    if u != [] && (u[0] == '-' || u[0] == '+') then
      var v: int := Value(DigitPrefix(u[1..]));
      if u[0] == '-' then -v else v
    else
      Value(DigitPrefix(u))
  }

  /** `parseNumber`: empty text is 0, otherwise the commas are dropped and
      the rest is read by `parseFloat`, unreadable text giving 0. */
  function ParseNumber(s: string): int {
    if s == "" then 0 else LeadingInteger(StripCommas(s))
  }

  /** Text in which `parseFloat` finds no digit to read. */
  predicate NoDigit(s: string) {
    forall i :: 0 <= i < |s| ==> !IsDigit(s[i])
  }

  /** Dropping commas keeps a text free of digits. */
  lemma {:induction false} StripCommasKeepsNoDigit(s: string)
    requires NoDigit(s)
    ensures NoDigit(StripCommas(s))
  {
    if s != [] {
      StripCommasKeepsNoDigit(s[1..]);
      var t := StripCommas(s[1..]);
      var r := StripCommas(s);
      var h := if s[0] == ',' then [] else [s[0]];
      assert r == h + t;
      forall i | 0 <= i < |r|
        ensures !IsDigit(r[i])
      {
        if i < |h| {
          assert r[i] == s[0];
        } else {
          assert r[i] == t[i - |h|];
        }
      }
    }
  }

  /** Text with no digit in it, the empty text included, reads as 0: the
      fallback of `parseNumber` for anything `parseFloat` cannot read. */
  lemma UnreadableIsZero(s: string)
    requires NoDigit(s)
    ensures ParseNumber(s) == 0
  {
    if s != "" {
      var t := StripCommas(s);
      StripCommasKeepsNoDigit(s);
      var u := TrimStart(t);
      TrimStartShape(t);
      assert u == [] || !IsDigit(u[0]) by {
        if u != [] {
          assert u[0] == t[|t| - |u|];
        }
      }
      if u != [] && (u[0] == '-' || u[0] == '+') {
        assert DigitPrefix(u[1..]) == [] by {
          if |u| > 1 {
            assert u[1..][0] == u[1] == t[|t| - |u| + 1];
          }
        }
      } else {
        assert DigitPrefix(u) == [];
      }
    }
  }

  /** The display rule `x ? formatNumber(x) : ''` the profile switch uses
      for the three numeric fields: zero shows as an empty field. */
  function Display(n: int): (r: string)
    ensures r == "" <==> n == 0
    ensures r != "" ==> r == FormatNumber(n)
  {
    if n != 0 then FormatNumber(n) else ""
  }

  /** Reading a displayed number back gives the number, zero included. */
  lemma DisplayRoundTrip(n: int)
    ensures ParseNumber(Display(n)) == n
  {
    if n != 0 {
      ParseFormatRoundTrip(n);
    }
  }

  lemma {:induction false} ValueOfDigits(n: nat)
    ensures Value(Digits(n)) == n
  {
    if n >= 10 {
      var d := Digits(n);
      assert d[..|d| - 1] == Digits(n / 10);
      ValueOfDigits(n / 10);
    }
  }

  lemma {:induction false} StripCommasAppend(a: string, b: string)
    ensures StripCommas(a + b) == StripCommas(a) + StripCommas(b)
  {
    if a == [] {
      assert a + b == b;
    } else {
      assert (a + b)[0] == a[0] && (a + b)[1..] == a[1..] + b;
      StripCommasAppend(a[1..], b);
    }
  }

  lemma {:induction false} StripCommasOfDigits(ds: string)
    requires AllDigits(ds)
    ensures StripCommas(ds) == ds
  {
    if ds != [] {
      StripCommasOfDigits(ds[1..]);
      assert ds == [ds[0]] + ds[1..];
    }
  }

  lemma {:induction false} DigitPrefixOfDigits(ds: string)
    requires AllDigits(ds)
    ensures DigitPrefix(ds) == ds
  {
    if ds != [] {
      DigitPrefixOfDigits(ds[1..]);
      assert ds == [ds[0]] + ds[1..];
    }
  }

  /** Dropping the commas that `Group` inserted gives the digits back. */
  lemma {:induction false} StripGroup(ds: string)
    requires AllDigits(ds)
    ensures StripCommas(Group(ds)) == ds
  {
    if |ds| <= 3 {
      StripCommasOfDigits(ds);
    } else {
      var hi, lo := ds[..|ds| - 3], ds[|ds| - 3..];
      var g := Group(hi);
      assert Group(ds) == (g + ",") + lo;
      assert StripCommas((g + ",") + lo) == hi + lo by {
        StripGroup(hi);
        StripCommasAppend(g + ",", lo);
        StripCommasAppend(g, ",");
        StripCommasOfDigits(lo);
        assert StripCommas(",") == [];
      }
      assert hi + lo == ds;
    }
  }

  /** `Group` puts a comma exactly at the positions that are a multiple of
      four characters from the end, that is, in front of every complete
      group of three digits counted from the right except the first. */
  lemma {:induction false} GroupShape(ds: string)
    requires ds != [] && AllDigits(ds)
    ensures |Group(ds)| == |ds| + (|ds| - 1) / 3
    ensures forall i :: 0 <= i < |Group(ds)| ==> (Group(ds)[i] == ',' <==> (|Group(ds)| - i) % 4 == 0)
  {
    var r := Group(ds);
    if |ds| > 3 {
      var hi := ds[..|ds| - 3];
      GroupShape(hi);
      var g := Group(hi);
      assert (|ds| - 1) / 3 == (|hi| - 1) / 3 + 1 by {
        assert |ds| - 1 == (|hi| - 1) + 3;
      }
      assert r == g + "," + ds[|ds| - 3..];
      forall i | 0 <= i < |r|
        ensures r[i] == ',' <==> (|r| - i) % 4 == 0
      {
        if i < |g| {
          assert r[i] == g[i];
          assert |r| - i == (|g| - i) + 4;
          assert (|g| - i + 4) % 4 == (|g| - i) % 4;
        } else if i > |g| {
          assert r[i] == ds[|ds| - 3 + (i - |g| - 1)];
        }
      }
    }
  }


  /** Reading back what `formatNumber` wrote gives the number again. */
  lemma ParseFormatRoundTrip(n: int)
    ensures ParseNumber(FormatNumber(n)) == n
  {
    var m: nat := if n < 0 then -n else n;
    StripFormat(n);
    ReadSigned(m, n < 0);
  }

  /** The same law as `ParseFormatRoundTrip`, stated about a text already
      bound to a formatted number: a form that is cheaper for the solver. Callers whose text is a field of a larger session term use
      this form: it gives `ParseNumber` of that very term, so the solver
      need not rewrite the term into `FormatNumber(n)` under `ParseNumber`. */
  lemma ParseOfFormat(text: string, n: int)
    requires text == FormatNumber(n)
    ensures ParseNumber(text) == n
  {
    ParseFormatRoundTrip(n);
  }

  /** Without its commas, `formatNumber` text is the sign and the digits. */
  lemma StripFormat(n: int)
    ensures StripCommas(FormatNumber(n)) == if n < 0 then "-" + Digits(-n) else Digits(n)
  {
    if n < 0 {
      ReadDigits(-n);
      StripCommasAppend("-", Group(Digits(-n)));
    } else {
      ReadDigits(n);
    }
  }

  /** `parseFloat` reads an optionally negated run of digits exactly. */
  lemma ReadSigned(m: nat, negative: bool)
    ensures LeadingInteger(if negative then "-" + Digits(m) else Digits(m)) == if negative then -(m as int) else m
  {
    var ds := Digits(m);
    assert Value(DigitPrefix(ds)) == m by {
      ReadDigits(m);
    }
    if negative {
      var t := "-" + ds;
      assert TrimStart(t) == t by {
        assert !IsSpace(t[0]);
      }
      assert t[1..] == ds;
    } else {
      assert !IsSpace(ds[0]) && ds[0] != '-' && ds[0] != '+' by {
        assert IsDigit(ds[0]);
      }
      assert TrimStart(ds) == ds;
    }
  }

  /** The digits `Group` receives come back out of the comma-free text. */
  lemma ReadDigits(m: nat)
    ensures StripCommas(Group(Digits(m))) == Digits(m)
    ensures DigitPrefix(Digits(m)) == Digits(m)
    ensures Value(Digits(m)) == m
  {
    StripGroup(Digits(m));
    DigitPrefixOfDigits(Digits(m));
    ValueOfDigits(m);
  }
}
