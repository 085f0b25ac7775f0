/** The Python string operations the scripts rely on: `str.split`, `str.strip`,
    `str.rstrip`, slicing `s[k:]` and the conversion `int(s)`. */
module Text {
  import opened Results

  /** `sep.join(parts)`. */
  function Join(parts: seq<string>, sep: char): string
    requires |parts| >= 1
  {
    if |parts| == 1 then parts[0] else parts[0] + [sep] + Join(parts[1..], sep)
  }

  /** `s.split(sep)` for a one-character separator: the pieces between separators,
      empty pieces included, so that joining them back gives `s`. */
  function Split(s: string, sep: char): (parts: seq<string>)
    ensures |parts| >= 1
    ensures forall i :: 0 <= i < |parts| ==> sep !in parts[i]
    ensures Join(parts, sep) == s
    ensures sep in s <==> |parts| >= 2
  {
    if s == [] then [""]
    else
      var rest := Split(s[1..], sep);
      if s[0] == sep then
        assert ([""] + rest)[1..] == rest;
        [""] + rest
      else
        var parts := [[s[0]] + rest[0]] + rest[1..];
        assert parts[1..] == rest[1..];
        parts
  }

  lemma {:induction false} SplitWithoutSeparator(s: string, sep: char)
    requires sep !in s
    ensures Split(s, sep) == [s]
  {
    if s != [] {
      SplitWithoutSeparator(s[1..], sep);
    }
  }

  lemma {:induction false} SplitAfterPiece(p: string, sep: char, t: string)
    requires sep !in p
    ensures Split(p + [sep] + t, sep) == [p] + Split(t, sep)
  {
    if p != [] {
      assert (p + [sep] + t)[1..] == p[1..] + [sep] + t;
      SplitAfterPiece(p[1..], sep, t);
      assert [p[0]] + p[1..] == p;
    } else {
      assert (p + [sep] + t)[1..] == t;
    }
  }

  /** Splitting undoes joining pieces that do not contain the separator. */
  lemma {:induction false} SplitJoin(parts: seq<string>, sep: char)
    requires |parts| >= 1
    requires forall i :: 0 <= i < |parts| ==> sep !in parts[i]
    ensures Split(Join(parts, sep), sep) == parts
  {
    if |parts| == 1 {
      SplitWithoutSeparator(parts[0], sep);
    } else {
      SplitJoin(parts[1..], sep);
      SplitAfterPiece(parts[0], sep, Join(parts[1..], sep));
    }
  }

  /** `s.lstrip(chars)`: drops the longest prefix made of characters in `cs`. */
  function LStrip(s: string, cs: set<char>): (r: string)
    ensures |r| <= |s|
  {
    if |s| > 0 && s[0] in cs then LStrip(s[1..], cs) else s
  }

  /** What `lstrip` leaves is a suffix of `s`; everything before it is in `cs`, and it
      does not start with a character of `cs`. */
  lemma {:induction false} LStripSuffix(s: string, cs: set<char>)
    ensures var r := LStrip(s, cs);
      && r == s[|s| - |r|..]
      && (forall i :: 0 <= i < |s| - |r| ==> s[i] in cs)
      && (r == [] || r[0] !in cs)
  {
    if |s| > 0 && s[0] in cs {
      LStripSuffix(s[1..], cs);
    }
  }

  /** `s.rstrip(chars)`: drops the longest suffix made of characters in `cs`. */
  function RStrip(s: string, cs: set<char>): (r: string)
    ensures |r| <= |s|
  {
    if |s| > 0 && s[|s| - 1] in cs then RStrip(s[..|s| - 1], cs) else s
  }

  /** What `rstrip` leaves is a prefix of `s`; everything after it is in `cs`, and it
      does not end with a character of `cs`. */
  lemma {:induction false} RStripPrefix(s: string, cs: set<char>)
    ensures var r := RStrip(s, cs);
      && r == s[..|r|]
      && (forall i :: |r| <= i < |s| ==> s[i] in cs)
      && (r == [] || r[|r| - 1] !in cs)
  {
    if |s| > 0 && s[|s| - 1] in cs {
      RStripPrefix(s[..|s| - 1], cs);
    }
  }

  lemma LStripCons(c: char, t: string, cs: set<char>)
    requires c in cs
    ensures LStrip([c] + t, cs) == LStrip(t, cs)
  {
    assert ([c] + t)[1..] == t;
  }

  lemma RStripSnoc(t: string, c: char, cs: set<char>)
    requires c in cs
    ensures RStrip(t + [c], cs) == RStrip(t, cs)
  {
    assert (t + [c])[..|t|] == t;
  }

  /** `s.strip(chars)`. */
  function Strip(s: string, cs: set<char>): string
  {
    RStrip(LStrip(s, cs), cs)
  }

  lemma StripUnchanged(s: string, cs: set<char>)
    requires s == [] || (s[0] !in cs && s[|s| - 1] !in cs)
    ensures Strip(s, cs) == s
  {
  }

  /** `s[k:]` for a non-negative `k`: empty when `k` is past the end. */
  function DropPrefix<T>(s: seq<T>, k: nat): (r: seq<T>)
    ensures |r| == if k <= |s| then |s| - k else 0
    ensures s == s[..|s| - |r|] + r
  {
    if k <= |s| then s[k..] else []
  }

  /** The characters Python's `str.isspace` accepts, which `int()` strips from both ends. */
  const Whitespace: set<char> :=
    {' ', '\t', '\n', '\U{0B}', '\U{0C}', '\r', '\U{1C}', '\U{1D}', '\U{1E}', '\U{1F}',
     '\U{85}', '\U{A0}', '\U{1680}', '\U{2000}', '\U{2001}', '\U{2002}', '\U{2003}',
     '\U{2004}', '\U{2005}', '\U{2006}', '\U{2007}', '\U{2008}', '\U{2009}', '\U{200A}',
     '\U{2028}', '\U{2029}', '\U{202F}', '\U{205F}', '\U{3000}'}

  predicate IsDigit(c: char) { '0' <= c <= '9' }

  predicate IsDigits(s: string)
  {
    |s| > 0 && forall i :: 0 <= i < |s| ==> IsDigit(s[i])
  }

  function DigitValue(c: char): nat
    requires IsDigit(c)
  {
    c as int - '0' as int
  }

  /** The value of a run of decimal digits, most significant first. */
  function DigitsValue(s: string): nat
    requires forall i :: 0 <= i < |s| ==> IsDigit(s[i])
  {
    if s == [] then 0
    else DigitsValue(s[..|s| - 1]) * 10 + DigitValue(s[|s| - 1])
  }

  /** `int(s)`: optional surrounding whitespace, an optional sign, then decimal digits.
      `None` stands for the `ValueError` Python raises. */
  function ParseInt(s: string): Option<int>
  {
    var t := Strip(s, Whitespace);
    if |t| > 0 && (t[0] == '-' || t[0] == '+') then
      if IsDigits(t[1..]) then
        var magnitude: int := DigitsValue(t[1..]);
        Some(if t[0] == '-' then -magnitude else magnitude)
      else None
    else if IsDigits(t) then Some(DigitsValue(t))
    else None
  }

  /** `str(n)` for a natural number. */
  function NatToString(n: nat): (s: string)
    ensures IsDigits(s)
  {
    if n < 10 then ["0123456789"[n]]
    else NatToString(n / 10) + ["0123456789"[n % 10]]
  }

  /** `str(n)`. */
  function IntToString(n: int): string
  {
    if n < 0 then "-" + NatToString(-n) else NatToString(n)
  }

  lemma {:induction false} DigitsValueOfNatToString(n: nat)
    ensures DigitsValue(NatToString(n)) == n
  {
    var s := NatToString(n);
    if n >= 10 {
      DigitsValueOfNatToString(n / 10);
      assert s[..|s| - 1] == NatToString(n / 10);
    }
  }

  /** `int(str(n)) == n`. */
  lemma ParseIntOfString(n: int)
    ensures ParseInt(IntToString(n)) == Some(n)
  {
    if n < 0 {
      ParseIntOfNegative(n);
    } else {
      ParseIntOfNat(n);
    }
  }

  lemma ParseIntOfNat(m: nat)
    ensures ParseInt(NatToString(m)) == Some(m)
  {
    var d := NatToString(m);
    DigitIsNotSpace(d[0]);
    DigitIsNotSpace(d[|d| - 1]);
    StripUnchanged(d, Whitespace);
    DigitsValueOfNatToString(m);
  }

  lemma ParseIntOfNegative(n: int)
    requires n < 0
    ensures ParseInt("-" + NatToString(-n)) == Some(n)
  {
    var m: nat := -n;
    var d := NatToString(m);
    var s := "-" + d;
    assert s[1..] == d && s[|s| - 1] == d[|d| - 1];
    DigitIsNotSpace(d[|d| - 1]);
    assert '-' !in Whitespace;
    StripUnchanged(s, Whitespace);
    DigitsValueOfNatToString(m);
  }

  lemma DigitIsNotSpace(c: char)
    requires IsDigit(c)
    ensures c !in Whitespace
  {
  }
}
