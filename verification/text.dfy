/**
 * The string operations of Python that the scripts use: str() of an int,
 * sep.join, str.split, str.lstrip, str.index and str.replace('\\', '\\\\'),
 * each with the inverse that the generated script or its reader relies on.
 */
module Text {

  predicate IsDigit(c: char) {
    '0' <= c <= '9'
  }

  function DigitValue(c: char): int {
    c as int - '0' as int
  }

  function DigitChar(d: nat): (c: char)
    requires d < 10
    ensures IsDigit(c) && DigitValue(c) == d
  {
    (d + '0' as int) as char
  }

  /** str(n) for n >= 0: decimal digits without leading zeros. */
  function Decimal(n: nat): (s: string)
    ensures 1 <= |s|
    ensures forall i :: 0 <= i < |s| ==> IsDigit(s[i])
  {
    if n < 10 then [DigitChar(n)] else Decimal(n / 10) + [DigitChar(n % 10)]
  }

  /** Python's str() of an int. */
  function Str(i: int): string {
    if i < 0 then "-" + Decimal(-i) else Decimal(i)
  }

  /** Reads decimal digits back (the inverse of Decimal). */
  function ParseDecimal(s: string): int {
    if s == [] then 0 else ParseDecimal(s[..|s| - 1]) * 10 + DigitValue(s[|s| - 1])
  }

  /** Reads an optionally signed decimal back (the inverse of Str). */
  function ParseInt(s: string): int {
    if |s| > 0 && s[0] == '-' then -ParseDecimal(s[1..]) else ParseDecimal(s)
  }

  lemma {:induction false} DecimalRoundTrip(n: nat)
    ensures ParseDecimal(Decimal(n)) == n
  {
    var s := Decimal(n);
    if n >= 10 {
      assert s[..|s| - 1] == Decimal(n / 10);
      DecimalRoundTrip(n / 10);
    } else {
      assert s[..|s| - 1] == [];
    }
  }

  /** int(str(i)) == i: str() loses nothing. */
  lemma StrRoundTrip(i: int)
    ensures ParseInt(Str(i)) == i
  {
    if i < 0 {
      assert Str(i)[1..] == Decimal(-i);
      DecimalRoundTrip(-i);
    } else {
      assert IsDigit(Decimal(i)[0]);
      DecimalRoundTrip(i);
    }
  }

  lemma StrCharacters(i: int)
    ensures forall k :: 0 <= k < |Str(i)| ==> Str(i)[k] == '-' || IsDigit(Str(i)[k])
  {
  }

  /** The part of s after its last sep (all of s when sep does not occur). */
  function AfterLast(s: string, sep: char): (r: string)
    ensures sep !in r
    ensures |r| <= |s| && r == s[|s| - |r|..]
  {
    if s == [] then []
    else if s[|s| - 1] == sep then []
    else
      var r := AfterLast(s[..|s| - 1], sep) + [s[|s| - 1]];
      assert s == s[..|s| - 1] + [s[|s| - 1]];
      r
  }

  lemma {:induction false} AfterLastOf(p: string, sep: char, d: string)
    requires sep !in d
    ensures AfterLast(p + [sep] + d, sep) == d
  {
    var s := p + [sep] + d;
    if d == [] {
      assert s[|s| - 1] == sep;
    } else {
      var d' := d[..|d| - 1];
      assert s[..|s| - 1] == p + [sep] + d';
      assert s[|s| - 1] == d[|d| - 1] != sep;
      assert sep !in d';
      AfterLastOf(p, sep, d');
      assert d == d' + [d[|d| - 1]];
    }
  }

  /** Python's sep.join(xs) for a one-character separator. */
  function Join(xs: seq<string>, sep: char): string {
    if |xs| == 0 then []
    else if |xs| == 1 then xs[0]
    else xs[0] + [sep] + Join(xs[1..], sep)
  }

  /** Python's s.split(sep) for a one-character separator: never an empty list. */
  function Split(s: string, sep: char): (r: seq<string>)
    ensures |r| >= 1
  {
    if s == [] then [[]]
    else
      var rest := Split(s[1..], sep);
      if s[0] == sep then [[]] + rest else [[s[0]] + rest[0]] + rest[1..]
  }

  /** sep.join(s.split(sep)) == s. */
  lemma {:induction false} JoinOfSplit(s: string, sep: char)
    ensures Join(Split(s, sep), sep) == s
  {
    if s != [] {
      var rest := Split(s[1..], sep);
      JoinOfSplit(s[1..], sep);
      if s[0] == sep {
        assert ([[]] + rest)[1..] == rest;
      } else {
        var r := [[s[0]] + rest[0]] + rest[1..];
        assert r[1..] == rest[1..];
        if |rest| > 1 {
          assert Join(rest, sep) == rest[0] + [sep] + Join(rest[1..], sep);
        }
      }
    }
  }

  lemma {:induction false} SplitWithout(a: string, sep: char)
    requires sep !in a
    ensures Split(a, sep) == [a]
  {
    if a != [] {
      assert sep !in a[1..];
      SplitWithout(a[1..], sep);
      assert a[0] != sep;
      assert [a[0]] + a[1..] == a;
    }
  }

  lemma {:induction false} SplitAfterFirst(a: string, sep: char, b: string)
    requires sep !in a
    ensures Split(a + [sep] + b, sep) == [a] + Split(b, sep)
  {
    var s := a + [sep] + b;
    if a == [] {
      assert s[1..] == b;
    } else {
      assert s[1..] == a[1..] + [sep] + b;
      assert sep !in a[1..];
      SplitAfterFirst(a[1..], sep, b);
      assert [a[0]] + a[1..] == a;
    }
  }

  /** A joined selection splits back into the names it was built from. */
  lemma {:induction false} SplitOfJoin(xs: seq<string>, sep: char)
    requires |xs| >= 1
    requires forall i :: 0 <= i < |xs| ==> sep !in xs[i]
    ensures Split(Join(xs, sep), sep) == xs
  {
    if |xs| == 1 {
      SplitWithout(xs[0], sep);
    } else {
      SplitAfterFirst(xs[0], sep, Join(xs[1..], sep));
      SplitOfJoin(xs[1..], sep);
    }
  }

  /** Python's s.lstrip(c) for one character c. */
  function LStrip(s: string, c: char): string {
    if s != [] && s[0] == c then LStrip(s[1..], c) else s
  }

  /** What lstrip leaves is a suffix of s. */
  lemma {:induction false} LStripSuffix(s: string, c: char)
    ensures |LStrip(s, c)| <= |s| && LStrip(s, c) == s[|s| - |LStrip(s, c)|..]
  {
    if s != [] && s[0] == c {
      LStripSuffix(s[1..], c);
      assert s[1..][|s| - 1 - |LStrip(s, c)|..] == s[|s| - |LStrip(s, c)|..];
    }
  }

  /** What lstrip leaves does not start with c. */
  lemma {:induction false} LStripHead(s: string, c: char)
    ensures LStrip(s, c) == [] || LStrip(s, c)[0] != c
  {
    if s != [] && s[0] == c {
      LStripHead(s[1..], c);
    }
  }

  /** What lstrip drops is a run of c. */
  lemma {:induction false} LStripRun(s: string, c: char)
    ensures |LStrip(s, c)| <= |s|
    ensures forall i :: 0 <= i < |s| - |LStrip(s, c)| ==> s[i] == c
  {
    if s != [] && s[0] == c {
      var t := s[1..];
      LStripRun(t, c);
      forall i | 0 <= i < |s| - |LStrip(s, c)|
        ensures s[i] == c
      {
        if i > 0 {
          assert s[i] == t[i - 1];
        }
      }
    }
  }

  /** lstrip drops exactly the leading run of c: what is left is a suffix not starting with c. */
  lemma {:induction false} LStripSpec(s: string, c: char)
    ensures |LStrip(s, c)| <= |s| && LStrip(s, c) == s[|s| - |LStrip(s, c)|..]
    ensures LStrip(s, c) == [] || LStrip(s, c)[0] != c
    ensures forall i :: 0 <= i < |s| - |LStrip(s, c)| ==> s[i] == c
  {
    LStripSuffix(s, c);
    LStripHead(s, c);
    LStripRun(s, c);
  }

  /** Python's s.index(c), or |s| where Python raises ValueError. */
  function IndexOf(s: string, c: char): (i: nat)
    ensures i <= |s|
    ensures i < |s| ==> s[i] == c
    ensures forall j :: 0 <= j < i ==> s[j] != c
  {
    if s == [] then 0 else if s[0] == c then 0 else 1 + IndexOf(s[1..], c)
  }

  /** s.replace('\\', '\\\\'): a path made safe for a Python string literal. */
  function EscapeBackslashes(s: string): string {
    if s == [] then []
    else (if s[0] == '\\' then ['\\', '\\'] else [s[0]]) + EscapeBackslashes(s[1..])
  }

  /** How the generated script's Python literal reads a doubled backslash back. */
  function UnescapeBackslashes(s: string): string {
    if s == [] then []
    else if |s| >= 2 && s[0] == '\\' && s[1] == '\\' then ['\\'] + UnescapeBackslashes(s[2..])
    else [s[0]] + UnescapeBackslashes(s[1..])
  }

  lemma {:induction false} EscapeRoundTrip(s: string)
    ensures UnescapeBackslashes(EscapeBackslashes(s)) == s
  {
    if s != [] {
      var e := EscapeBackslashes(s);
      EscapeRoundTrip(s[1..]);
      if s[0] == '\\' {
        assert e[2..] == EscapeBackslashes(s[1..]);
      } else {
        assert e[1..] == EscapeBackslashes(s[1..]);
      }
    }
  }

  /** Escaping changes exactly the paths that hold a backslash, each one growing by a character. */
  lemma {:induction false} EscapeLength(s: string)
    ensures |EscapeBackslashes(s)| >= |s|
    ensures ('\\' in s) <==> |EscapeBackslashes(s)| > |s|
    ensures ('\\' !in s) ==> EscapeBackslashes(s) == s
  {
    if s != [] {
      EscapeLength(s[1..]);
      assert s == [s[0]] + s[1..];
    }
  }
}
