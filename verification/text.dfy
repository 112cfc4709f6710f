/** The handful of Python string operations the service relies on:
    `startswith`/`endswith`, `replace(pat, '')`, `strip(chars)`,
    `split(sep)`, ASCII `lower()`, and decimal `int()`/`str()` on integers. */
module Text {
  import opened Results

  /** An optional text parameter is given when present and non-empty, as a
      Python truthiness test on a header or query value decides. */
  predicate Given(h: Option<string>) {
    h.Some? && h.value != ""
  }

  predicate StartsWith(s: string, prefix: string) {
    |prefix| <= |s| && s[..|prefix|] == prefix
  }

  predicate EndsWith(s: string, suffix: string) {
    |suffix| <= |s| && s[|s| - |suffix|..] == suffix
  }

  /** Python's `s.replace(pat, '')`: occurrences are found left to right and
      never overlap. */
  function RemoveAll(s: string, pat: string): (r: string)
    requires |pat| > 0
    ensures |r| <= |s|
    decreases |s|
  {
    if |s| == 0 then ""
    else if StartsWith(s, pat) then RemoveAll(s[|pat|..], pat)
    else [s[0]] + RemoveAll(s[1..], pat)
  }

  /** A pattern one of whose characters never occurs in `s` is never removed. */
  lemma {:induction false} RemoveAllAbsent(s: string, pat: string, c: char)
    requires |pat| > 0 && c in pat && c !in s
    ensures RemoveAll(s, pat) == s
    decreases |s|
  {
    if |s| > 0 {
      assert !StartsWith(s, pat);
      RemoveAllAbsent(s[1..], pat, c);
      assert s == [s[0]] + s[1..];
    }
  }

  /** Removing a single character distributes over concatenation. */
  lemma {:induction false} RemoveCharAppend(a: string, b: string, c: char)
    ensures RemoveAll(a + b, [c]) == RemoveAll(a, [c]) + RemoveAll(b, [c])
    decreases |a|
  {
    if |a| > 0 {
      assert (a + b)[1..] == a[1..] + b;
      assert StartsWith(a + b, [c]) <==> StartsWith(a, [c]);
      RemoveCharAppend(a[1..], b, c);
    } else {
      assert a + b == b;
    }
  }

  function StripLeft(s: string, chars: set<char>): (r: string)
    decreases |s|
  {
    if |s| > 0 && s[0] in chars then StripLeft(s[1..], chars) else s
  }

  function StripRight(s: string, chars: set<char>): (r: string)
    decreases |s|
  {
    if |s| > 0 && s[|s| - 1] in chars then StripRight(s[..|s| - 1], chars) else s
  }

  /** Python's `s.strip(chars)`: drops every leading and trailing character
      that belongs to `chars`. */
  function Strip(s: string, chars: set<char>): (r: string) {
    StripRight(StripLeft(s, chars), chars)
  }

  /** Stripping keeps the middle of the string and leaves no stripped
      character at either end. */
  lemma {:induction false} StripProperties(s: string, chars: set<char>)
    ensures var r := Strip(s, chars);
            (|r| > 0 ==> r[0] !in chars && r[|r| - 1] !in chars)
            && exists i, j :: 0 <= i <= j <= |s| && r == s[i..j]
  {
    var l := StripLeftSlice(s, chars);
    var r := StripRightSlice(s[l..], chars);
    assert StripLeft(s, chars) == s[l..];
    assert Strip(s, chars) == s[l..][..r] == s[l..l + r];
  }

  lemma {:induction false} StripLeftSlice(s: string, chars: set<char>) returns (i: nat)
    ensures i <= |s| && StripLeft(s, chars) == s[i..]
    ensures |s[i..]| > 0 ==> s[i] !in chars
    decreases |s|
  {
    if |s| > 0 && s[0] in chars {
      var k := StripLeftSlice(s[1..], chars);
      assert s[1..][k..] == s[k + 1..];
      i := k + 1;
    } else {
      i := 0;
    }
  }

  lemma {:induction false} StripRightSlice(s: string, chars: set<char>) returns (j: nat)
    ensures j <= |s| && StripRight(s, chars) == s[..j]
    ensures j > 0 ==> s[j - 1] !in chars
    decreases |s|
  {
    if |s| > 0 && s[|s| - 1] in chars {
      var k := StripRightSlice(s[..|s| - 1], chars);
      assert s[..|s| - 1][..k] == s[..k];
      j := k;
    } else {
      j := |s|;
    }
  }

  /** Python's `sep.join(parts)` for a single-character separator. */
  function Join(parts: seq<string>, sep: char): string
    requires |parts| >= 1
  {
    if |parts| == 1 then parts[0] else parts[0] + [sep] + Join(parts[1..], sep)
  }

  /** Python's `s.split(sep)` for a single-character separator: always at
      least one part, no part contains the separator, and joining the parts
      gives back `s`. */
  function Split(s: string, sep: char): (parts: seq<string>)
    ensures |parts| >= 1
    ensures forall k :: 0 <= k < |parts| ==> sep !in parts[k]
    ensures Join(parts, sep) == s
    decreases |s|
  {
    if |s| == 0 then [""]
    else if s[0] == sep then
      var rest := Split(s[1..], sep);
      assert s == [sep] + s[1..];
      [""] + rest
    else
      var rest := Split(s[1..], sep);
      var parts := [[s[0]] + rest[0]] + rest[1..];
      assert parts[1..] == rest[1..];
      assert s == [s[0]] + s[1..];
      parts
  }

  /** A string without the separator splits into itself. */
  lemma {:induction false} SplitNoSeparator(a: string, sep: char)
    requires sep !in a
    ensures Split(a, sep) == [a]
    decreases |a|
  {
    if |a| > 0 {
      SplitNoSeparator(a[1..], sep);
    }
  }

  /** Splitting `a + sep + b` with no separator in `a` peels off `a`. */
  lemma {:induction false} SplitPeel(a: string, b: string, sep: char)
    requires sep !in a
    ensures Split(a + [sep] + b, sep) == [a] + Split(b, sep)
    decreases |a|
  {
    if |a| == 0 {
      assert a + [sep] + b == [sep] + b;
      assert ([sep] + b)[1..] == b;
    } else {
      assert (a + [sep] + b)[1..] == a[1..] + [sep] + b;
      SplitPeel(a[1..], b, sep);
      assert [a[0]] + a[1..] == a;
    }
  }

  /** Split inverts Join when no part contains the separator. */
  lemma {:induction false} SplitJoin(parts: seq<string>, sep: char)
    requires |parts| >= 1
    requires forall k :: 0 <= k < |parts| ==> sep !in parts[k]
    ensures Split(Join(parts, sep), sep) == parts
    decreases |parts|
  {
    if |parts| == 1 {
      SplitNoSeparator(parts[0], sep);
    } else {
      SplitJoin(parts[1..], sep);
      SplitPeel(parts[0], Join(parts[1..], sep), sep);
      assert [parts[0]] + parts[1..] == parts;
    }
  }

  /** A two-part split is undone by re-joining with the separator, and a
      re-joined pair of separator-free strings splits back into the pair. */
  lemma SplitPairRoundTrip(s: string, a: string, b: string, sep: char)
    ensures Split(s, sep) == [a, b] ==> a + [sep] + b == s
    ensures sep !in a && sep !in b ==> Split(a + [sep] + b, sep) == [a, b]
  {
    if Split(s, sep) == [a, b] {
      var parts := Split(s, sep);
      assert parts[1..] == [b];
      assert Join(parts, sep) == a + [sep] + b;
    }
    if sep !in a && sep !in b {
      SplitJoin([a, b], sep);
      assert [a, b][1..] == [b];
      assert Join([a, b], sep) == a + [sep] + b;
    }
  }

  /** Python's `path.split('/')[-1]`: the part after the last slash. */
  function LastSegment(path: string): (r: string)
    ensures '/' !in r
  {
    var parts := Split(path, '/');
    parts[|parts| - 1]
  }

  /** Joining peels off the last part as well as the first. */
  lemma {:induction false} JoinLast(parts: seq<string>, sep: char)
    requires |parts| > 1
    ensures Join(parts, sep) == Join(parts[..|parts| - 1], sep) + [sep] + parts[|parts| - 1]
    decreases |parts|
  {
    if |parts| > 2 {
      JoinLast(parts[1..], sep);
      assert parts[1..][..|parts| - 2] == parts[..|parts| - 1][1..];
    }
  }

  /** A file name is the tail of its path, directly after a slash when the
      path has one. */
  lemma LastSegmentOfPath(path: string)
    ensures EndsWith(path, LastSegment(path))
    ensures '/' in path ==> EndsWith(path, "/" + LastSegment(path))
    ensures '/' !in path ==> LastSegment(path) == path
  {
    var parts := Split(path, '/');
    var last := parts[|parts| - 1];
    if '/' !in path {
      SplitNoSeparator(path, '/');
    } else {
      assert |parts| > 1;
      JoinLast(parts, '/');
      var front := Join(parts[..|parts| - 1], '/');
      assert path == front + ("/" + last);
      EndsWithAppend(front, "/" + last);
      assert path == (front + "/") + last;
      EndsWithAppend(front + "/", last);
    }
  }

  lemma EndsWithAppend(a: string, b: string)
    ensures EndsWith(a + b, b)
  {
    assert (a + b)[|a|..] == b;
  }

  function LowerChar(c: char): char {
    if 'A' <= c <= 'Z' then (c as int + 32) as char else c
  }

  /** Python's `lower()` restricted to ASCII letters. */
  function Lower(s: string): (r: string)
    ensures |r| == |s|
    ensures forall i :: 0 <= i < |s| ==> r[i] == LowerChar(s[i])
  {
    seq(|s|, i requires 0 <= i < |s| => LowerChar(s[i]))
  }

  predicate IsDigit(c: char) {
    '0' <= c <= '9'
  }

  function DigitValue(c: char): nat
    requires IsDigit(c)
  {
    c as int - '0' as int
  }

  function DigitChar(d: nat): char
    requires d < 10
  {
    ('0' as int + d) as char
  }

  /** The value of a run of decimal digits, most significant first. */
  function DigitsValue(s: string): nat
    requires forall i :: 0 <= i < |s| ==> IsDigit(s[i])
    decreases |s|
  {
    if |s| == 0 then 0 else DigitsValue(s[..|s| - 1]) * 10 + DigitValue(s[|s| - 1])
  }

  /** The ASCII whitespace `int()` ignores around its argument. */
  const Whitespace: set<char> := {' ', '\t', '\n', '\r', 11 as char, 12 as char}

  /** The default limit on the digits of a decimal integer text that
      `int()` reads and `str()` prints (CPython 3.11 and later); beyond it
      both raise ValueError. */
  const MaxStrDigits: nat := 4300

  /** Python's `int(s)` on text: surrounding whitespace, an optional sign,
      then between one and `MaxStrDigits` decimal digits; anything else
      raises ValueError (here: None). */
  function ParseInt(s: string): Option<int> {
    var u := Strip(s, Whitespace);
    var digits := Unsigned(u);
    if |digits| == 0 || !AllDigits(digits) || |digits| > MaxStrDigits then None
    else
      var v: int := DigitsValue(digits);
      if |u| > 0 && u[0] == '-' then Some(-v) else Some(v)
  }

  /** A number needs at least one digit of the text. */
  lemma ParseIntNeedsDigit(s: string)
    ensures ParseInt(s).Some? ==> exists i :: 0 <= i < |s| && IsDigit(s[i])
  {
    var u := Strip(s, Whitespace);
    var digits := Unsigned(u);
    if |digits| > 0 && AllDigits(digits) {
      var a := StripLeftSlice(s, Whitespace);
      var b := StripRightSlice(s[a..], Whitespace);
      assert u == s[a..][..b];
      var k := |u| - |digits|;
      assert IsDigit(digits[0]);
      assert digits[0] == u[k];
      assert u[k] == s[a + k];
    }
  }

  predicate AllDigits(s: string) {
    forall i :: 0 <= i < |s| ==> IsDigit(s[i])
  }

  /** The text after an optional leading sign. */
  function Unsigned(u: string): (d: string)
    ensures |d| <= |u| && d == u[|u| - |d|..]
  {
    if |u| > 0 && (u[0] == '-' || u[0] == '+') then u[1..] else u
  }

  /** A string that neither starts nor ends with a stripped character is its
      own strip. */
  lemma StripUnchanged(s: string, chars: set<char>)
    requires |s| > 0 && s[0] !in chars && s[|s| - 1] !in chars
    ensures Strip(s, chars) == s
  {
  }

  function NatToString(n: nat): (r: string)
    decreases n
  {
    if n < 10 then [DigitChar(n)] else NatToString(n / 10) + [DigitChar(n % 10)]
  }

  /** Whether `str(n)` prints `n` rather than raising: its magnitude has
      at most `MaxStrDigits` decimal digits. */
  predicate Printable(n: int) {
    |NatToString(if n < 0 then -n else n)| <= MaxStrDigits
  }

  /** Python's `str(n)` on an integer that it can print. */
  function IntToString(n: int): string
    requires Printable(n)
  {
    if n < 0 then "-" + NatToString(-n) else NatToString(n)
  }

  lemma {:induction false} NatToStringDigits(n: nat)
    ensures |NatToString(n)| >= 1
    ensures forall i :: 0 <= i < |NatToString(n)| ==> IsDigit(NatToString(n)[i])
    ensures DigitsValue(NatToString(n)) == n
    decreases n
  {
    if n >= 10 {
      NatToStringDigits(n / 10);
      var s := NatToString(n);
      assert s[..|s| - 1] == NatToString(n / 10);
    }
  }

  /** `int(str(n)) == n` for every integer that `str()` prints. */
  lemma IntRoundTrip(n: int)
    requires Printable(n)
    ensures ParseInt(IntToString(n)) == Some(n)
  {
    var m := if n < 0 then -n else n;
    NatToStringDigits(m);
    var digits := NatToString(m);
    if n < 0 {
      assert IntToString(n)[1..] == digits;
      ParseNegative(IntToString(n));
    } else {
      ParseUnsigned(digits);
    }
  }

  /** A minus sign before a run of digits negates their value. */
  lemma ParseNegative(s: string)
    requires 1 < |s| <= MaxStrDigits + 1 && s[0] == '-' && AllDigits(s[1..])
    ensures ParseInt(s) == Some(-(DigitsValue(s[1..]) as int))
  {
    assert IsDigit(s[1..][|s| - 2]);
    StripUnchanged(s, Whitespace);
    assert Unsigned(s) == s[1..];
  }



  /** Whitespace around a number is ignored, a number with a stray
      character is refused, and so is the empty string. */
  lemma ParseIntExamples(padded: string, fraction: string, empty: string)
    requires padded == " 42\n" && fraction == "1.5" && empty == ""
    ensures ParseInt(padded) == Some(42)
    ensures ParseInt(fraction) == None
    ensures ParseInt(empty) == None
  {
    ParsePadded(padded);
    ParseFraction(fraction);
  }

  lemma ParsePadded(padded: string)
    requires padded == " 42\n"
    ensures ParseInt(padded) == Some(42)
  {
    assert Strip(padded, Whitespace) == "42" by {
      assert StripLeft(padded, Whitespace) == "42\n" by {
        assert padded[0] in Whitespace && padded[1..] == "42\n";
        assert "42\n"[0] !in Whitespace;
      }
      assert StripRight("42\n", Whitespace) == "42" by {
        assert "42\n"[2] in Whitespace && "42\n"[..2] == "42";
        assert "42"[1] !in Whitespace;
      }
    }
    ParseStripped(padded);
    ParseFortyTwo("42");
  }

  /** A text that starts and ends with a digit has no sign and nothing to
      strip: it is read exactly when all of it is digits. */
  lemma ParseUnsigned(s: string)
    requires |s| > 0 && IsDigit(s[0]) && IsDigit(s[|s| - 1])
    ensures ParseInt(s) == if AllDigits(s) && |s| <= MaxStrDigits then Some(DigitsValue(s)) else None
  {
    StripUnchanged(s, Whitespace);
    assert Unsigned(s) == s;
  }

  /** A run of more digits than the limit is refused, whatever its value. */
  lemma ParseTooManyDigits(s: string)
    requires |s| > MaxStrDigits && AllDigits(s)
    ensures ParseInt(s) == None
  {
    ParseUnsigned(s);
  }

  lemma ParseFortyTwo(s: string)
    requires s == "42"
    ensures ParseInt(s) == Some(42)
  {
    ParseUnsigned(s);
    assert AllDigits(s);
    assert DigitsValue(s) == 42 by {
      assert s[..1] == "4" && "4"[..0] == "";
      assert DigitsValue("4") == 4;
      assert DigitsValue(s) == DigitsValue("4") * 10 + DigitValue('2');
    }
  }

  /** `int()` reads a string as it reads the string with its surrounding
      whitespace removed. */
  lemma ParseStripped(s: string)
    ensures ParseInt(s) == ParseInt(Strip(s, Whitespace))
  {
    var u := Strip(s, Whitespace);
    StripProperties(s, Whitespace);
    if |u| > 0 {
      StripUnchanged(u, Whitespace);
    }
  }

  lemma ParseFraction(fraction: string)
    requires fraction == "1.5"
    ensures ParseInt(fraction) == None
  {
    ParseUnsigned(fraction);
    assert !AllDigits(fraction) by {
      assert !IsDigit(fraction[1]);
    }
  }
}
