/** The Python `str` operations the pipeline applies to scraped cell text.
    Case mapping covers ASCII letters only; digits are ASCII digits. */
module Strings {
  import opened Wrappers

  /** `s.split(sep)` for a one-character separator: always at least one
      piece, and no piece holds the separator. */
  function Split(s: string, sep: char): (r: seq<string>)
    ensures |r| >= 1
    ensures forall i :: 0 <= i < |r| ==> sep !in r[i]
  {
    if s == [] then [""]
    else if s[0] == sep then [""] + Split(s[1..], sep)
    else
      var rest := Split(s[1..], sep);
      [[s[0]] + rest[0]] + rest[1..]
  }

  /** `sep.join(pieces)`. */
  function Join(pieces: seq<string>, sep: char): string
    requires |pieces| >= 1
  {
    if |pieces| == 1 then pieces[0] else pieces[0] + [sep] + Join(pieces[1..], sep)
  }

  /** Splitting loses nothing: joining the pieces gives the string back. */
  lemma {:induction false} JoinSplit(s: string, sep: char)
    ensures Join(Split(s, sep), sep) == s
  {
    if s != [] {
      JoinSplit(s[1..], sep);
      var rest := Split(s[1..], sep);
      if s[0] == sep {
        assert Split(s, sep)[1..] == rest;
        assert s == [sep] + s[1..];
      } else {
        var r := Split(s, sep);
        assert r[0] == [s[0]] + rest[0] && r[1..] == rest[1..];
        if |rest| > 1 {
          assert Join(rest, sep) == rest[0] + [sep] + Join(rest[1..], sep);
        }
        assert s == [s[0]] + s[1..];
      }
    }
  }

  /** Pieces free of the separator are exactly what splitting their join
      gives back. */
  lemma {:induction false} SplitJoin(pieces: seq<string>, sep: char)
    requires |pieces| >= 1
    requires forall i :: 0 <= i < |pieces| ==> sep !in pieces[i]
    ensures Split(Join(pieces, sep), sep) == pieces
  {
    if |pieces| == 1 {
      SplitPiece(pieces[0], [], sep);
    } else {
      SplitJoin(pieces[1..], sep);
      SplitPiece(pieces[0], Join(pieces[1..], sep), sep);
      assert pieces == [pieces[0]] + pieces[1..];
    }
  }

  /** A separator-free head becomes the first piece. */
  lemma {:induction false} SplitPiece(p: string, rest: string, sep: char)
    requires sep !in p
    ensures Split(p, sep) == [p]
    ensures Split(p + [sep] + rest, sep) == [p] + Split(rest, sep)
  {
    if p == [] {
      assert p + [sep] + rest == [sep] + rest;
    } else {
      SplitPiece(p[1..], rest, sep);
      assert p == [p[0]] + p[1..];
      assert (p + [sep] + rest)[1..] == p[1..] + [sep] + rest;
    }
  }

  /** Splitting at one occurrence of the separator splits the two sides
      independently. */
  lemma {:induction false} SplitAppend(x: string, y: string, sep: char)
    ensures Split(x + [sep] + y, sep) == Split(x, sep) + Split(y, sep)
  {
    var s := x + [sep] + y;
    if x == [] {
      assert s[1..] == y;
    } else {
      assert s[0] == x[0] && s[1..] == x[1..] + [sep] + y;
      SplitAppend(x[1..], y, sep);
    }
  }

  /** The last piece of `s.split(sep)`: what follows the last separator. */
  function LastPiece(s: string, sep: char): (r: string)
    ensures sep !in r
  {
    var pieces := Split(s, sep);
    pieces[|pieces| - 1]
  }

  /** Whatever precedes the last separator, the last piece is what follows it. */
  lemma LastPieceAfter(x: string, y: string, sep: char)
    requires sep !in y
    ensures LastPiece(x + [sep] + y, sep) == y
  {
    SplitAppend(x, y, sep);
    SplitPiece(y, [], sep);
  }

  /** `s.split(sep)[0]` for a separator of one or more characters: the text
      before the first occurrence of `sep`, or all of `s`. */
  function FirstPiece(s: string, sep: string): (r: string)
    requires sep != []
    ensures r <= s
  {
    if sep <= s then ""
    else if s == [] then []
    else [s[0]] + FirstPiece(s[1..], sep)
  }

  /** The first piece of `a + sep + b` is `a` when `sep` does not start
      anywhere inside `a` (overlapping its own copy included). */
  lemma {:induction false} FirstPieceOfJoin(a: string, sep: string, b: string)
    requires sep != []
    requires forall i :: 0 <= i < |a| ==> !(sep <= (a + sep)[i..])
    ensures FirstPiece(a + sep + b, sep) == a
  {
    var s := a + sep + b;
    if a == [] {
      assert s == sep + b;
    } else {
      assert (a + sep)[0..] == a + sep;
      assert s[..|sep|] == (a + sep)[..|sep|];
      assert !(sep <= s);
      assert s[1..] == a[1..] + sep + b;
      forall i | 0 <= i < |a[1..]|
        ensures !(sep <= (a[1..] + sep)[i..])
      {
        assert (a[1..] + sep)[i..] == (a + sep)[i + 1..];
      }
      FirstPieceOfJoin(a[1..], sep, b);
      assert a == [a[0]] + a[1..];
    }
  }

  /** `s.lstrip(chars)`: drops the longest leading run of characters taken
      from the SET `chars` (not a prefix string). */
  function LStrip(s: string, chars: set<char>): (r: string)
  {
    s[LeadCount(s, chars)..]
  }

  /** The length of the leading run of characters from `chars`. */
  function LeadCount(s: string, chars: set<char>): (k: nat)
    ensures k <= |s|
    ensures forall i :: 0 <= i < k ==> s[i] in chars
    ensures k == |s| || s[k] !in chars
  {
    if s != [] && s[0] in chars then 1 + LeadCount(s[1..], chars) else 0
  }

  /** `lstrip` stops at the first character outside the set. */
  lemma LStripStops(s: string, chars: set<char>, k: nat)
    requires k < |s| && s[k] !in chars
    requires forall i :: 0 <= i < k ==> s[i] in chars
    ensures LStrip(s, chars) == s[k..]
  {
  }

  /** `s.rstrip(chars)`. */
  function RStrip(s: string, chars: set<char>): (r: string)
  {
    s[..|s| - TrailCount(s, chars)]
  }

  /** The length of the trailing run of characters from `chars`. */
  function TrailCount(s: string, chars: set<char>): (k: nat)
    ensures k <= |s|
    ensures forall i :: |s| - k <= i < |s| ==> s[i] in chars
    ensures k == |s| || s[|s| - k - 1] !in chars
  {
    if s != [] && s[|s| - 1] in chars then 1 + TrailCount(s[..|s| - 1], chars) else 0
  }

  /** The characters Python's `str.isspace` accepts. */
  const Whitespace: set<char> :=
    {' ', '\U{0009}', '\U{000A}', '\U{000D}', '\U{000B}', '\U{000C}', '\U{001C}', '\U{001D}',
     '\U{001E}', '\U{001F}', '\U{0085}', '\U{00A0}', '\U{1680}', '\U{2000}', '\U{2001}', '\U{2002}',
     '\U{2003}', '\U{2004}', '\U{2005}', '\U{2006}', '\U{2007}', '\U{2008}', '\U{2009}', '\U{200A}',
     '\U{2028}', '\U{2029}', '\U{202F}', '\U{205F}', '\U{3000}'}

  /** `s.strip()`. */
  function Strip(s: string): (r: string)
  {
    RStrip(LStrip(s, Whitespace), Whitespace)
  }

  /** A string with no whitespace at either end is its own `strip()`. */
  lemma StripClean(s: string)
    requires s == [] || (s[0] !in Whitespace && s[|s| - 1] !in Whitespace)
    ensures Strip(s) == s
  {
  }

  /** `strip()` leaves no whitespace at either end, so a second `strip()`
      changes nothing. */
  lemma StripIdempotent(s: string)
    ensures var r := Strip(s); r == [] || (r[0] !in Whitespace && r[|r| - 1] !in Whitespace)
    ensures Strip(Strip(s)) == Strip(s)
  {
    var l := LStrip(s, Whitespace);
    var r := RStrip(l, Whitespace);
    if r != [] {
      assert r[0] == l[0];
    }
    StripClean(r);
  }

  /** `s.replace(c, "")` for one character. */
  function RemoveChar(s: string, c: char): (r: string)
    ensures c !in r && |r| <= |s|
    ensures forall d :: d != c ==> multiset(r)[d] == multiset(s)[d]
  {
    if s == [] then []
    else
      assert s == [s[0]] + s[1..];
      (if s[0] == c then [] else [s[0]]) + RemoveChar(s[1..], c)
  }

  lemma {:induction false} RemoveCharAppend(a: string, b: string, c: char)
    ensures RemoveChar(a + b, c) == RemoveChar(a, c) + RemoveChar(b, c)
  {
    if a != [] {
      assert (a + b)[1..] == a[1..] + b;
      RemoveCharAppend(a[1..], b, c);
    } else {
      assert a + b == b;
    }
  }

  /** `s[:-2]`: everything but the last two characters; empty when `s` is shorter. */
  function DropLastTwo(s: string): (r: string)
    ensures |s| >= 2 ==> |r| == |s| - 2 && s == r + s[|s| - 2..]
    ensures |s| < 2 ==> r == []
  {
    if |s| >= 2 then s[..|s| - 2] else ""
  }

  function LowerChar(c: char): char
  {
    if 'A' <= c <= 'Z' then (c as int + 32) as char else c
  }

  function UpperChar(c: char): char
  {
    if 'a' <= c <= 'z' then (c as int - 32) as char else c
  }

  /** `s.lower()`. */
  function Lower(s: string): (r: string)
    ensures |r| == |s|
    ensures forall i :: 0 <= i < |s| ==> r[i] == LowerChar(s[i])
  {
    if s == [] then [] else [LowerChar(s[0])] + Lower(s[1..])
  }

  /** `s.capitalize()`: the first character upper case, the rest lower case. */
  function Capitalize(s: string): (r: string)
    ensures |r| == |s|
    ensures s != [] ==> r[0] == UpperChar(s[0]) && r[1..] == Lower(s[1..])
  {
    if s == [] then [] else [UpperChar(s[0])] + Lower(s[1..])
  }

  predicate IsDigit(c: char)
  {
    '0' <= c <= '9'
  }

  function DigitValue(c: char): nat
    requires IsDigit(c)
  {
    c as int - '0' as int
  }

  function DigitChar(d: nat): (c: char)
    requires d < 10
    ensures IsDigit(c) && DigitValue(c) == d
  {
    ('0' as int + d) as char
  }

  /** The value of a run of decimal digits. */
  function DigitsValue(s: string): nat
    requires forall i :: 0 <= i < |s| ==> IsDigit(s[i])
  {
    if s == [] then 0 else DigitsValue(s[..|s| - 1]) * 10 + DigitValue(s[|s| - 1])
  }

  /** `str(n)` for a natural number. */
  function ShowNat(n: nat): (r: string)
    ensures r != [] && forall i :: 0 <= i < |r| ==> IsDigit(r[i])
  {
    if n < 10 then [DigitChar(n)] else ShowNat(n / 10) + [DigitChar(n % 10)]
  }

  /** Reading back a shown number yields the number. */
  lemma {:induction false} DigitsValueShowNat(n: nat)
    ensures DigitsValue(ShowNat(n)) == n
  {
    if n >= 10 {
      DigitsValueShowNat(n / 10);
      var s := ShowNat(n);
      assert s[..|s| - 1] == ShowNat(n / 10);
    }
  }

  predicate AllDigits(s: string)
  {
    s != [] && forall i :: 0 <= i < |s| ==> IsDigit(s[i])
  }

  /** `int(s)`: surrounding whitespace is ignored, then an optional sign
      and at least one digit; anything else raises `ValueError` (`None`). */
  function ParseInt(s: string): (r: Option<int>)
  {
    var t := Strip(s);
    if AllDigits(t) then Some(DigitsValue(t) as int)
    else if t != [] && t[0] == '-' && AllDigits(t[1..]) then Some(-(DigitsValue(t[1..]) as int))
    else if t != [] && t[0] == '+' && AllDigits(t[1..]) then Some(DigitsValue(t[1..]))
    else None
  }

  /** `int(str(n))` is `n` for a natural number ... */
  lemma ParseShowNat(n: nat)
    ensures ParseInt(ShowNat(n)) == Some(n as int)
  {
    var s := ShowNat(n);
    DigitsValueShowNat(n);
    assert AllDigits(s);
    DigitNotWhitespace(s[0]);
    DigitNotWhitespace(s[|s| - 1]);
    StripClean(s);
  }

  lemma DigitNotWhitespace(c: char)
    requires IsDigit(c)
    ensures c !in Whitespace
  {
    assert '0' as int == 48 && '9' as int == 57;
  }

  /** ... and for a negative one. */
  lemma ParseShowNegative(n: nat)
    requires n > 0
    ensures ParseInt("-" + ShowNat(n)) == Some(-(n as int))
  {
    var s := ShowNat(n);
    DigitsValueShowNat(n);
    var t := "-" + s;
    assert t[1..] == s;
    assert t[0] == '-' && !IsDigit(t[0]);
    DigitNotWhitespace(t[|t| - 1]);
    StripClean(t);
    assert !AllDigits(t);
  }
}
