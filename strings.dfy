/** The handful of Python string operations the overlay code relies on:
    `strip()`, `re.sub('\s+', ' ', s)`, `split`/`join` on one separator,
    `replace`, `in`, `startswith`/`endswith`, `lower()`, `int()` and `str()`
    on integers, and the code-point ordering `sorted` uses on names. */
module Strings {
  import opened Wrappers

  /** Whitespace as Python 2's `re` module matches `\s` without the UNICODE
      flag: space, tab, newline, carriage return, vertical tab, form feed. */
  predicate IsSpace(c: char) {
    c == ' ' || c == '\t' || c == '\n' || c == '\r' || c == '\U{000B}' || c == '\U{000C}'
  }

  /** Leading whitespace removed. */
  function TrimLeft(s: string): (r: string)
    ensures |r| <= |s|
    ensures r == [] || !IsSpace(r[0])
  {
    if |s| > 0 && IsSpace(s[0]) then TrimLeft(s[1..]) else s
  }

  /** `TrimLeft` keeps a suffix. */
  lemma {:induction false} TrimLeftSuffix(s: string)
    ensures TrimLeft(s) == s[|s| - |TrimLeft(s)|..]
    decreases |s|
  {
    if |s| > 0 && IsSpace(s[0]) {
      TrimLeftSuffix(s[1..]);
    }
  }

  /** What `TrimLeft` removes is whitespace. */
  lemma {:induction false} TrimLeftSpaces(s: string)
    ensures forall i :: 0 <= i < |s| - |TrimLeft(s)| ==> IsSpace(s[i])
    decreases |s|
  {
    if |s| > 0 && IsSpace(s[0]) {
      TrimLeftSpaces(s[1..]);
      assert forall i :: 1 <= i < |s| ==> s[i] == s[1..][i - 1];
    }
  }

  /** Trailing whitespace removed. */
  function TrimRight(s: string): (r: string)
    ensures |r| <= |s| && r == s[..|r|]
    ensures r == [] || !IsSpace(r[|r| - 1])
  {
    if |s| > 0 && IsSpace(s[|s| - 1]) then TrimRight(s[..|s| - 1]) else s
  }

  /** What `TrimRight` removes is whitespace. */
  lemma {:induction false} TrimRightSpaces(s: string)
    ensures forall i :: |TrimRight(s)| <= i < |s| ==> IsSpace(s[i])
    decreases |s|
  {
    if |s| > 0 && IsSpace(s[|s| - 1]) {
      TrimRightSpaces(s[..|s| - 1]);
    }
  }

  /** Neither end is whitespace. */
  predicate Stripped(s: string) {
    s == [] || (!IsSpace(s[0]) && !IsSpace(s[|s| - 1]))
  }

  /** Python's `s.strip()`. */
  function Strip(s: string): (r: string)
    ensures Stripped(r)
    ensures |r| <= |s|
  {
    var l := TrimLeft(s);
    var r := TrimRight(l);
    assert r != [] ==> r[0] == l[0];
    r
  }

  lemma StripStripped(s: string)
    requires Stripped(s)
    ensures Strip(s) == s
  {
  }

  /** Every whitespace character is a plain space, no two whitespace
      characters are adjacent, and the text does not end in whitespace. */
  ghost predicate SingleSpaced(d: string) {
    && (forall i :: 0 <= i < |d| && IsSpace(d[i]) ==> d[i] == ' ')
    && (forall i, j :: 0 <= i < j < |d| && j == i + 1 ==> !IsSpace(d[i]) || !IsSpace(d[j]))
    && (d == [] || !IsSpace(d[|d| - 1]))
  }

  /** The shape of a description after parsing: stripped and single-spaced. */
  ghost predicate Collapsed(d: string) {
    SingleSpaced(d) && (d == [] || !IsSpace(d[0]))
  }

  /** `re.sub('\s+', ' ', s)`: every maximal run of whitespace becomes one
      space. */
  function CollapseSpaces(s: string): (r: string)
    ensures s != [] ==> r != [] && r[0] == (if IsSpace(s[0]) then ' ' else s[0])
    ensures s == [] || !IsSpace(s[|s| - 1]) ==> SingleSpaced(r)
    decreases |s|
  {
    if s == [] then []
    else if IsSpace(s[0]) then
      var rest := TrimLeft(s);
      TrimLeftSuffix(s);
      assert rest != [] ==> rest[|rest| - 1] == s[|s| - 1];
      TrimLeftSpaces(s);
      " " + CollapseSpaces(rest)
    else
      [s[0]] + CollapseSpaces(s[1..])
  }

  /** Collapsing a stripped text yields a collapsed description. */
  lemma CollapseStrippedIsCollapsed(s: string)
    requires Stripped(s)
    ensures Collapsed(CollapseSpaces(s))
  {
  }

  /** A single-spaced text is left alone by the whitespace substitution. */
  lemma {:induction false} CollapseSingleSpaced(d: string)
    requires SingleSpaced(d)
    ensures CollapseSpaces(d) == d
    decreases |d|
  {
    if d != [] {
      var t := d[1..];
      assert d == [d[0]] + t;
      SingleSpacedTail(d);
      CollapseSingleSpaced(t);
      if IsSpace(d[0]) {
        SpaceThenWord(d);
        assert TrimLeft(d) == t;
      }
    }
  }

  lemma SpaceThenWord(d: string)
    requires d != [] && SingleSpaced(d) && IsSpace(d[0])
    ensures d[0] == ' ' && |d| > 1 && !IsSpace(d[1])
  {
    if |d| > 1 {
      assert !IsSpace(d[0]) || !IsSpace(d[1]);
    }
  }

  lemma SingleSpacedTail(d: string)
    requires d != [] && SingleSpaced(d)
    ensures SingleSpaced(d[1..])
  {
    var t := d[1..];
    forall i, j | 0 <= i < j < |t| && j == i + 1
      ensures !IsSpace(t[i]) || !IsSpace(t[j])
    {
      assert t[i] == d[i + 1] && t[j] == d[j + 1];
      assert !IsSpace(d[i + 1]) || !IsSpace(d[j + 1]);
    }
  }

  /** What the parser makes of a description is stable under parsing it again. */
  lemma {:induction false} CollapsedIsFixed(d: string)
    requires Collapsed(d)
    ensures Strip(d) == d && CollapseSpaces(Strip(d)) == d
  {
    assert Stripped(d);
    StripStripped(d);
    CollapseSingleSpaced(d);
  }

  // ---------------------------------------------------------------- prefixes

  predicate StartsWith(s: string, p: string) {
    p <= s
  }

  predicate EndsWith(s: string, p: string) {
    |p| <= |s| && s[|s| - |p|..] == p
  }

  /** Python's `t in s` for strings. */
  predicate Contains(s: string, t: string)
    decreases |s|
  {
    t <= s || (s != [] && Contains(s[1..], t))
  }

  lemma ContainsAt(s: string, t: string, i: nat)
    requires i + |t| <= |s| && s[i..i + |t|] == t
    ensures Contains(s, t)
    decreases i
  {
    if i > 0 {
      assert s[1..][i - 1..i - 1 + |t|] == t;
      ContainsAt(s[1..], t, i - 1);
    }
  }

  /** Python's `s.replace(old, new)`: non-overlapping occurrences, left to right. */
  function ReplaceAll(s: string, pat: string, sub: string): (r: string)
    requires pat != []
    ensures !Contains(s, pat) ==> r == s
    ensures |sub| <= |pat| ==> |r| <= |s|
    ensures |sub| < |pat| && Contains(s, pat) ==> |r| < |s|
    decreases |s|
  {
    ContainsLength(s, pat);
    if |s| < |pat| then s
    else if pat <= s then sub + ReplaceAll(s[|pat|..], pat, sub)
    else [s[0]] + ReplaceAll(s[1..], pat, sub)
  }

  /** A stretch that cannot start the pattern is copied unchanged. */
  lemma {:induction false} ReplaceAllPlainPrefix(a: string, b: string, pat: string, sub: string)
    requires pat != [] && pat[0] !in a
    ensures ReplaceAll(a + b, pat, sub) == a + ReplaceAll(b, pat, sub)
  {
    if a != [] {
      var s := a + b;
      assert s[1..] == a[1..] + b;
      assert pat[0] != s[0] && !(pat <= s);
      assert pat[0] !in a[1..];
      ReplaceAllPlainPrefix(a[1..], b, pat, sub);
      if |s| < |pat| {
        assert ReplaceAll(b, pat, sub) == b;
      } else {
        assert ReplaceAll(s, pat, sub) == [s[0]] + ReplaceAll(s[1..], pat, sub);
      }
    } else {
      assert a + b == b;
    }
  }

  lemma {:induction false} ContainsLength(s: string, t: string)
    ensures Contains(s, t) ==> |t| <= |s|
    decreases |s|
  {
    if s != [] {
      ContainsLength(s[1..], t);
    }
  }

  // ------------------------------------------------------------ split / join

  /** Python's `s.split(sep)` for a one-character separator. */
  function Split(s: string, sep: char): (r: seq<string>)
    ensures |r| >= 1
    ensures forall i :: 0 <= i < |r| ==> sep !in r[i]
  {
    if s == [] then [""]
    else if s[0] == sep then [""] + Split(s[1..], sep)
    else
      var rest := Split(s[1..], sep);
      [[s[0]] + rest[0]] + rest[1..]
  }

  /** Python's `sep.join(parts)` for a one-character separator. */
  function Join(parts: seq<string>, sep: char): string {
    if |parts| == 0 then ""
    else if |parts| == 1 then parts[0]
    else parts[0] + [sep] + Join(parts[1..], sep)
  }

  /** Splitting and joining on the same separator gives the text back. */
  lemma {:induction false} JoinSplit(s: string, sep: char)
    ensures Join(Split(s, sep), sep) == s
  {
    if s != [] {
      JoinSplit(s[1..], sep);
      var rest := Split(s[1..], sep);
      if s[0] != sep && |rest| > 1 {
        assert Join(rest, sep) == rest[0] + [sep] + Join(rest[1..], sep);
        assert ([[s[0]] + rest[0]] + rest[1..])[1..] == rest[1..];
      } else if s[0] == sep {
        assert ([""] + rest)[1..] == rest;
      }
    }
  }

  /** Joining components that contain no separator and splitting again gives
      the components back. */
  lemma {:induction false} SplitJoin(parts: seq<string>, sep: char)
    requires |parts| >= 1
    requires forall i :: 0 <= i < |parts| ==> sep !in parts[i]
    ensures Split(Join(parts, sep), sep) == parts
    decreases |parts|, |parts[0]|
  {
    var p := parts[0];
    if |parts| == 1 {
      SplitNoSep(p, sep);
    } else if p == [] {
      SplitJoin(parts[1..], sep);
      assert Join(parts, sep) == [sep] + Join(parts[1..], sep);
    } else {
      var shorter := [p[1..]] + parts[1..];
      assert shorter[1..] == parts[1..];
      SplitJoin(shorter, sep);
      assert Join(shorter, sep) == p[1..] + [sep] + Join(parts[1..], sep);
      assert Join(parts, sep) == [p[0]] + Join(shorter, sep);
      assert [p[0]] + p[1..] == p;
    }
  }

  lemma {:induction false} SplitNoSep(s: string, sep: char)
    requires sep !in s
    ensures Split(s, sep) == [s]
  {
    if s != [] {
      SplitNoSep(s[1..], sep);
      assert [s[0]] + s[1..] == s;
    }
  }

  // ------------------------------------------------------------- lower case

  /** Python's `lower()` on the ASCII letters; other characters unchanged. */
  function LowerChar(c: char): char {
    if 'A' <= c <= 'Z' then (c as int + 32) as char else c
  }

  function Lower(s: string): (r: string)
    ensures |r| == |s| && forall i :: 0 <= i < |s| ==> r[i] == LowerChar(s[i])
  {
    seq(|s|, i requires 0 <= i < |s| => LowerChar(s[i]))
  }

  // ------------------------------------------------------- integers as text

  predicate IsDigit(c: char) {
    '0' <= c <= '9'
  }

  predicate AllDigits(s: string) {
    forall i :: 0 <= i < |s| ==> IsDigit(s[i])
  }

  function DigitChar(d: nat): (c: char)
    requires d < 10
    ensures IsDigit(c) && c as int - '0' as int == d
  {
    ('0' as int + d) as char
  }

  /** Decimal digits of a natural number, most significant first, no padding. */
  function NatToString(n: nat): (r: string)
    ensures r != [] && AllDigits(r)
    decreases n
  {
    if n < 10 then [DigitChar(n)] else NatToString(n / 10) + [DigitChar(n % 10)]
  }

  /** Python's `str(i)` on an integer. */
  function IntToString(i: int): (r: string)
    ensures Stripped(r)
  {
    if i < 0 then "-" + NatToString(-i) else NatToString(i)
  }

  function DigitsValue(s: string): nat
    requires AllDigits(s)
  {
    if s == [] then 0 else DigitsValue(s[..|s| - 1]) * 10 + (s[|s| - 1] as int - '0' as int)
  }

  /** One or more decimal digits and nothing else. */
  function ParseDigits(u: string): (r: Option<int>)
    ensures r.Some? <==> u != [] && AllDigits(u)
    ensures r.Some? ==> r.value >= 0
  {
    if |u| >= 1 && AllDigits(u) then Some(DigitsValue(u)) else None
  }

  /** An optional sign, whitespace after it, then digits. */
  function ParseSigned(t: string): (r: Option<int>)
    ensures r.Some? ==> t != [] && IsDigit(t[|t| - 1])
  {
    if |t| >= 1 && (t[0] == '-' || t[0] == '+') then
      TrimLeftSuffix(t[1..]);
      match ParseDigits(TrimLeft(t[1..]))
      case None => None
      case Some(v) => Some(if t[0] == '-' then -v else v)
    else
      ParseDigits(t)
  }

  /** Python 2's `int(s)`: optional surrounding whitespace, an optional sign
      which may itself be followed by whitespace (`PyOS_strtol` takes the
      sign, then `PyOS_strtoul` skips whitespace again), then one or more
      decimal digits; anything else is a ValueError (None). */
  function ParseInt(s: string): (r: Option<int>)
    ensures r.Some? ==> Strip(s) != [] && IsDigit(Strip(s)[|Strip(s)| - 1])
    ensures r.None? <==> ParseSigned(Strip(s)).None?
  {
    ParseSigned(Strip(s))
  }

  /** Whitespace may follow the sign: `int('- 5') == -5`, and likewise for
      every number. */
  lemma ParseIntSpaceAfterSign(n: nat)
    ensures ParseInt("- " + NatToString(n)) == Some(-(n as int))
  {
    var d := NatToString(n);
    var s := "- " + d;
    assert s[0] == '-' && s[|s| - 1] == d[|d| - 1];
    assert Stripped(s);
    ParseIntStripped(s);
    DigitsOfNat(n);
    ParseMinusSpaceDigits(d, -(n as int));
  }

  /** A minus sign, a space, then digits. */
  lemma ParseMinusSpaceDigits(d: string, v: int)
    requires d != [] && AllDigits(d) && DigitsValue(d) == -v
    ensures ParseSigned("- " + d) == Some(v)
  {
    var s := "- " + d;
    var u := s[1..];
    assert s[0] == '-' && u == " " + d;
    assert u[0] == ' ' && u[1..] == d;
    DigitsTrimmed(d);
    assert TrimLeft(u) == d;
    ParseSignedMinus(s, d, v);
  }

  /** The minus case of `ParseSigned`, once the digits after the sign are known. */
  lemma ParseSignedMinus(t: string, d: string, v: int)
    requires |t| >= 1 && t[0] == '-' && TrimLeft(t[1..]) == d
    requires d != [] && AllDigits(d) && DigitsValue(d) == -v
    ensures ParseSigned(t) == Some(v)
  {
    assert ParseDigits(d) == Some(-v);
  }

  /** But not inside the digits: `int('4 2')` is a ValueError, and so is any
      run of digits with a space inside. */
  lemma ParseIntSpaceInside(a: string, b: string)
    requires a != [] && AllDigits(a) && b != [] && AllDigits(b)
    ensures ParseInt(a + " " + b) == None
  {
    var s := a + " " + b;
    assert s[0] == a[0] && s[|s| - 1] == b[|b| - 1] && s[|a|] == ' ';
    assert IsDigit(a[0]) && IsDigit(b[|b| - 1]);
    ParseIntStripped(s);
    assert !AllDigits(s);
    assert ParseDigits(s) == None;
  }

  /** A sign alone is no number: `int(' - ')` is a ValueError, as is any text
      that strips to a lone sign. */
  lemma ParseIntLoneSign(s: string)
    requires |Strip(s)| == 1 && (Strip(s)[0] == '-' || Strip(s)[0] == '+')
    ensures ParseInt(s) == None
  {
    var t := Strip(s);
    assert t[1..] == [];
    assert ParseDigits(TrimLeft(t[1..])) == None;
  }

  lemma {:induction false} DigitsOfNat(n: nat)
    ensures DigitsValue(NatToString(n)) == n
    decreases n
  {
    if n >= 10 {
      DigitsOfNat(n / 10);
      var s := NatToString(n);
      assert s[..|s| - 1] == NatToString(n / 10);
    }
  }

  /** `int(str(i)) == i`: writing a priority and reading it back is lossless. */
  lemma ParseIntToString(i: int)
    ensures ParseInt(IntToString(i)) == Some(i)
  {
    if i < 0 {
      ParseIntOfNegative(i);
    } else {
      ParseIntOfNatural(i);
    }
  }

  /** `int(str(i)) == i` for a negative `i`. */
  lemma ParseIntOfNegative(i: int)
    requires i < 0
    ensures ParseInt(IntToString(i)) == Some(i)
  {
    ParseIntStripped(IntToString(i));
    ParseSignedOfNegative(i);
  }

  /** `int(str(i)) == i` for a non-negative `i`. */
  lemma ParseIntOfNatural(i: int)
    requires i >= 0
    ensures ParseInt(IntToString(i)) == Some(i)
  {
    ParseIntStripped(IntToString(i));
    ParseIntNatural(i);
  }

  /** `str(i)` of a negative `i` is read back past its sign. */
  lemma ParseSignedOfNegative(i: int)
    requires i < 0
    ensures ParseSigned(IntToString(i)) == Some(i)
  {
    IntToStringNegative(i);
    DigitsOfNat(-i);
    ParseMinusDigits(NatToString(-i), i);
  }

  /** Text with nothing to strip is read as it stands. */
  lemma ParseIntStripped(s: string)
    requires Stripped(s)
    ensures ParseInt(s) == ParseSigned(s)
  {
    StripStripped(s);
  }

  /** `str(i)` of a non-negative `i` is plain digits, read back as `i`. */
  lemma ParseIntNatural(i: int)
    requires i >= 0
    ensures ParseSigned(IntToString(i)) == Some(i)
  {
    DigitsOfNat(i);
    var d := NatToString(i);
    assert IntToString(i) == d;
    assert IsDigit(d[0]);
  }

  lemma IntToStringNegative(i: int)
    requires i < 0
    ensures IntToString(i) == "-" + NatToString(-i)
  {
  }

  /** A minus sign followed by digits is read as the negated value. */
  lemma ParseMinusDigits(d: string, v: int)
    requires d != [] && AllDigits(d) && DigitsValue(d) == -v
    ensures ParseSigned("-" + d) == Some(v)
  {
    var s := "-" + d;
    assert s[0] == '-' && s[1..] == d;
    DigitsTrimmed(d);
    ParseSignedMinus(s, d, v);
  }

  /** Digits have no leading whitespace to skip. */
  lemma DigitsTrimmed(d: string)
    requires d != [] && AllDigits(d)
    ensures TrimLeft(d) == d
  {
    assert IsDigit(d[0]);
  }

  // ------------------------------------------------------ ordering of names

  /** Python's ordering of unicode strings: lexicographic by code point. */
  predicate LexLessEq(a: string, b: string)
    decreases |a|
  {
    a == [] || (b != [] && (a[0] < b[0] || (a[0] == b[0] && LexLessEq(a[1..], b[1..]))))
  }

  lemma {:induction false} LexTotal(a: string, b: string)
    ensures LexLessEq(a, b) || LexLessEq(b, a)
    decreases |a|
  {
    if a != [] && b != [] && a[0] == b[0] {
      LexTotal(a[1..], b[1..]);
    }
  }

  lemma {:induction false} LexTransitive(a: string, b: string, c: string)
    requires LexLessEq(a, b) && LexLessEq(b, c)
    ensures LexLessEq(a, c)
    decreases |a|
  {
    if a != [] && b != [] && c != [] && a[0] == b[0] && b[0] == c[0] {
      LexTransitive(a[1..], b[1..], c[1..]);
    }
  }
}
