/** UUID text handling: how Python's `uuid.UUID(text)` reads an identifier,
    how `str(uuid)` writes one back, and the `is_valid_uuid` check of
    workflow/mixins.py, which accepts a string only if forcing it to a
    version-4 UUID and printing it gives the very same string back. */
module Uuid {
  import opened Results
  import opened Text

  /** One hexadecimal digit of the 128-bit value. */
  type Nibble = n: int | 0 <= n < 16

  predicate IsHexDigit(c: char) {
    '0' <= c <= '9' || 'a' <= c <= 'f' || 'A' <= c <= 'F'
  }

  predicate IsLowerHexDigit(c: char) {
    '0' <= c <= '9' || 'a' <= c <= 'f'
  }

  function HexValue(c: char): Nibble
    requires IsHexDigit(c)
  {
    if '0' <= c <= '9' then c as int - '0' as int
    else if 'a' <= c <= 'f' then c as int - 'a' as int + 10
    else c as int - 'A' as int + 10
  }

  /** Python prints UUID digits in lower case. */
  function HexChar(n: Nibble): (c: char)
    ensures IsLowerHexDigit(c)
  {
    if n < 10 then ('0' as int + n) as char else ('a' as int + n - 10) as char
  }

  lemma HexCharValue(c: char)
    requires IsHexDigit(c)
    ensures HexChar(HexValue(c)) == LowerChar(c)
  {
  }

  /** The text the UUID constructor reads digits from: every `urn:` and then
      every `uuid:` removed, surrounding braces stripped, hyphens removed. */
  function Normalize(s: string): string {
    RemoveAll(Strip(RemoveAll(RemoveAll(s, "urn:"), "uuid:"), {'{', '}'}), "-")
  }

  /** `uuid.UUID(s)`: the 32 digits of the value, or None where Python
      raises ValueError. */
  function ParseNibbles(s: string): (r: Option<seq<Nibble>>)
    ensures r.Some? ==> |r.value| == 32
  {
    var h := Normalize(s);
    if |h| == 32 && forall i :: 0 <= i < 32 ==> IsHexDigit(h[i]) then
      Some(seq(32, i requires 0 <= i < 32 => HexValue(h[i])))
    else None
  }

  function HexString(ds: seq<Nibble>): (h: string)
    ensures |h| == |ds|
  {
    seq(|ds|, i requires 0 <= i < |ds| => HexChar(ds[i]))
  }

  /** `str(uuid)`: 32 lower-case digits grouped 8-4-4-4-12 by hyphens. */
  function Format(ds: seq<Nibble>): string
    requires |ds| == 32
  {
    var h := HexString(ds);
    h[..8] + "-" + h[8..12] + "-" + h[12..16] + "-" + h[16..20] + "-" + h[20..]
  }

  /** `uuid.UUID(s, version=4)` overwrites the variant bits (the top two bits
      of digit 16 become binary 10) and the version digit (digit 12 becomes
      4), as section 4.1.1 and section 4.1.3 of RFC 4122 lay them out. */
  function ForceVersion4(ds: seq<Nibble>): (v: seq<Nibble>)
    requires |ds| == 32
    ensures |v| == 32 && v[12] == 4 && 8 <= v[16] < 12
    ensures v[16] % 4 == ds[16] % 4
    ensures forall i :: 0 <= i < 32 && i != 12 && i != 16 ==> v[i] == ds[i]
  {
    ds[12 := 4][16 := 8 + ds[16] % 4]
  }

  /** `is_valid_uuid(s)` of workflow/mixins.py (with its default version 4):
      parsing succeeds and printing the version-4 value reproduces `s`. */
  predicate IsValidUuid(s: string) {
    match ParseNibbles(s)
    case None => false
    case Some(ds) => Format(ForceVersion4(ds)) == s
  }

  predicate IsHyphenPosition(i: int) {
    i == 8 || i == 13 || i == 18 || i == 23
  }

  /** The 8-4-4-4-12 hyphenated layout with hexadecimal digits of either case. */
  predicate HyphenatedHex(s: string) {
    |s| == 36
    && forall i :: 0 <= i < 36 ==>
         if IsHyphenPosition(i) then s[i] == '-' else IsHexDigit(s[i])
  }

  /** The canonical text form of section 3 of RFC 4122 as Python prints it:
      the hyphenated layout with lower-case digits only. */
  predicate CanonicalText(s: string) {
    |s| == 36
    && forall i :: 0 <= i < 36 ==>
         if IsHyphenPosition(i) then s[i] == '-' else IsLowerHexDigit(s[i])
  }

  /** The reference definition: canonical text whose version digit is 4 and
      whose variant digit is one of 8, 9, a, b (variant bits 10). */
  predicate CanonicalV4(s: string) {
    CanonicalText(s) && s[14] == '4' && s[19] in {'8', '9', 'a', 'b'}
  }

  /** Identifiers drawn from `uuid.uuid4()` or kept because they passed
      `is_valid_uuid`. */
  type Uuid4 = s: string | CanonicalV4(s) witness "00000000-0000-4000-8000-000000000000"

  /** Position in the 36-character text of digit `k` (0 <= k < 32). */
  function DigitPosition(k: int): int {
    if k < 8 then k else if k < 12 then k + 1 else if k < 16 then k + 2
    else if k < 20 then k + 3 else k + 4
  }

  /** Index of the digit printed at non-hyphen position `i` (0 <= i < 36). */
  function DigitIndex(i: int): int {
    if i < 8 then i else if i < 13 then i - 1 else if i < 18 then i - 2
    else if i < 23 then i - 3 else i - 4
  }

  /** What `str(uuid)` prints at every position. */
  lemma FormatIndex(ds: seq<Nibble>)
    requires |ds| == 32
    ensures |Format(ds)| == 36
    ensures forall i :: 0 <= i < 36 ==>
              Format(ds)[i] == if IsHyphenPosition(i) then '-' else HexChar(ds[DigitIndex(i)])
  {
    var h := HexString(ds);
    var f := Format(ds);
    assert f[..8] == h[..8];
    assert f[9..13] == h[8..12];
    assert f[14..18] == h[12..16];
    assert f[19..23] == h[16..20];
    assert f[24..] == h[20..];
    forall i | 0 <= i < 36
      ensures f[i] == if IsHyphenPosition(i) then '-' else HexChar(ds[DigitIndex(i)])
    {
      if i < 8 {
        assert f[i] == f[..8][i];
      } else if 8 < i < 13 {
        assert f[i] == f[9..13][i - 9];
      } else if 13 < i < 18 {
        assert f[i] == f[14..18][i - 14];
      } else if 18 < i < 23 {
        assert f[i] == f[19..23][i - 19];
      } else if 23 < i {
        assert f[i] == f[24..][i - 24];
      }
    }
  }

  /** Printing always yields canonical text, with digit 12 at position 14
      and digit 16 at position 19. */
  lemma FormatCanonical(ds: seq<Nibble>)
    requires |ds| == 32
    ensures CanonicalText(Format(ds))
    ensures Format(ds)[14] == HexChar(ds[12]) && Format(ds)[19] == HexChar(ds[16])
  {
    FormatIndex(ds);
  }

  /** Removing every `c` from text whose first `c` sits at position `k`. */
  lemma DropSeparator(s: string, k: nat, c: char)
    requires k < |s| && s[k] == c && c !in s[..k]
    ensures RemoveAll(s, [c]) == s[..k] + RemoveAll(s[k + 1..], [c])
  {
    assert s == s[..k] + ([c] + s[k + 1..]);
    RemoveCharAppend(s[..k], [c] + s[k + 1..], c);
    RemoveAllAbsent(s[..k], [c], c);
    assert ([c] + s[k + 1..])[1..] == s[k + 1..];
  }

  lemma NoColon(s: string)
    requires HyphenatedHex(s)
    ensures ':' !in s
  {
    forall i | 0 <= i < |s| ensures s[i] != ':' {
      if IsHyphenPosition(i) { } else { assert IsHexDigit(s[i]); }
    }
  }

  /** Removing the hyphens of hyphenated text leaves its five digit groups. */
  lemma RemoveHyphens(s: string)
    requires HyphenatedHex(s)
    ensures RemoveAll(s, "-") == s[..8] + s[9..13] + s[14..18] + s[19..23] + s[24..]
  {
    HyphenGroup(s, 0, 8);
    HyphenGroup(s, 9, 4);
    HyphenGroup(s, 14, 4);
    HyphenGroup(s, 19, 4);
    assert '-' !in s[24..] by {
      forall j | 24 <= j < 36 ensures s[j] != '-' {
        assert IsHexDigit(s[j]);
      }
    }
    RemoveAllAbsent(s[24..], "-", '-');
    assert s[0..] == s;
    Regroup(s[..8], s[9..13], s[14..18], s[19..23], s[24..]);
  }

  lemma Regroup(a: string, b: string, c: string, d: string, e: string)
    ensures a + (b + (c + (d + e))) == a + b + c + d + e
  {
  }

  /** The digit group of `len` characters at `from`, ended by a hyphen. */
  lemma HyphenGroup(s: string, from: nat, len: nat)
    requires HyphenatedHex(s) && from + len < 36 && IsHyphenPosition(from + len)
    requires forall j :: from <= j < from + len ==> !IsHyphenPosition(j)
    ensures RemoveAll(s[from..], "-") == s[from..from + len] + RemoveAll(s[from + len + 1..], "-")
  {
    var t := s[from..];
    assert '-' !in t[..len] by {
      forall j | 0 <= j < len ensures t[..len][j] != '-' {
        assert t[..len][j] == s[from + j];
        assert IsHexDigit(s[from + j]);
      }
    }
    DropSeparator(t, len, '-');
    assert t[..len] == s[from..from + len];
    assert t[len + 1..] == s[from + len + 1..];
  }

  /** Normalisation of hyphenated hex text keeps exactly its 32 digits, in
      order. */
  lemma NormalizeHyphenated(s: string)
    requires HyphenatedHex(s)
    ensures |Normalize(s)| == 32
    ensures forall k :: 0 <= k < 32 ==> Normalize(s)[k] == s[DigitPosition(k)]
  {
    NormalizeOnlyHyphens(s);
    RemoveHyphens(s);
    DigitGroups(s);
  }

  /** Hyphenated hex text has no prefix or brace to drop: normalising it
      only removes its hyphens. */
  lemma NormalizeOnlyHyphens(s: string)
    requires HyphenatedHex(s)
    ensures Normalize(s) == RemoveAll(s, "-")
  {
    NoColon(s);
    RemoveAllAbsent(s, "urn:", ':');
    RemoveAllAbsent(s, "uuid:", ':');
    assert IsHexDigit(s[0]) && IsHexDigit(s[35]);
    StripUnchanged(s, {'{', '}'});
  }

  /** The five digit groups, read in order, put digit `k` at `DigitPosition(k)`. */
  lemma DigitGroups(s: string)
    requires |s| == 36
    ensures var g := s[..8] + s[9..13] + s[14..18] + s[19..23] + s[24..];
            |g| == 32 && forall k :: 0 <= k < 32 ==> g[k] == s[DigitPosition(k)]
  {
  }

  /** Hyphenated hex text in either case parses, and prints back lower-cased. */
  lemma ParseHyphenated(s: string)
    requires HyphenatedHex(s)
    ensures ParseNibbles(s).Some?
    ensures Format(ParseNibbles(s).value) == Lower(s)
    ensures ParseNibbles(s).value[12] == HexValue(s[14])
    ensures ParseNibbles(s).value[16] == HexValue(s[19])
  {
    NormalizeHyphenated(s);
    var h := Normalize(s);
    forall k | 0 <= k < 32 ensures IsHexDigit(h[k]) {
      assert !IsHyphenPosition(DigitPosition(k));
    }
    var ds := ParseNibbles(s).value;
    FormatIndex(ds);
    var f := Format(ds);
    var low := Lower(s);
    forall i | 0 <= i < 36 ensures f[i] == low[i] {
      if !IsHyphenPosition(i) {
        var k := DigitIndex(i);
        assert DigitPosition(k) == i;
        HexCharValue(s[i]);
      }
    }
  }

  /** `is_valid_uuid` accepts exactly the lower-case hyphenated 8-4-4-4-12
      text whose version digit is 4 and whose variant bits are 10. */
  lemma ValidUuidIsCanonicalV4(s: string)
    ensures IsValidUuid(s) <==> CanonicalV4(s)
  {
    if IsValidUuid(s) {
      ValidUuidCanonical(s);
    }
    if CanonicalV4(s) {
      CanonicalV4Valid(s);
    }
  }

  /** Text `is_valid_uuid` accepts is its own canonical version-4 form. */
  lemma ValidUuidCanonical(s: string)
    requires IsValidUuid(s)
    ensures CanonicalV4(s)
  {
    var v := ForceVersion4(ParseNibbles(s).value);
    FormatCanonical(v);
    assert HexChar(v[12]) == '4';
  }

  /** Canonical version-4 text survives the round trip of `is_valid_uuid`. */
  lemma CanonicalV4Valid(s: string)
    requires CanonicalV4(s)
    ensures IsValidUuid(s)
  {
    assert HyphenatedHex(s) by {
      forall i | 0 <= i < 36
        ensures if IsHyphenPosition(i) then s[i] == '-' else IsHexDigit(s[i]) {
      }
    }
    ParseHyphenated(s);
    var ds := ParseNibbles(s).value;
    assert ForceVersion4(ds) == ds;
    assert Lower(s) == s;
  }

  /** The user id a request header names: `str(uuid.UUID(text))` for any
      version, or None where the constructor raises ValueError. */
  function ParseUuid(s: string): (r: Option<string>)
    ensures r.Some? ==> CanonicalText(r.value)
  {
    match ParseNibbles(s)
    case None => None
    case Some(ds) => FormatCanonical(ds); Some(Format(ds))
  }

  /** Every string `is_valid_uuid` accepts is also accepted as a user id,
      and names itself. */
  lemma ValidUuidParses(s: string)
    requires IsValidUuid(s)
    ensures ParseUuid(s) == Some(s)
  {
    ValidUuidIsCanonicalV4(s);
    assert HyphenatedHex(s);
    ParseHyphenated(s);
    assert Lower(s) == s;
  }

  /** Hyphenated text of either case is a well-formed user id of any
      version, and its canonical form is the lower-cased text. */
  lemma HyphenatedParses(s: string)
    requires HyphenatedHex(s)
    ensures ParseUuid(s) == Some(Lower(s))
  {
    ParseHyphenated(s);
  }

  /** Surrounding braces do not change what the constructor reads. */
  lemma BracedParses(s: string)
    requires HyphenatedHex(s)
    ensures ParseUuid("{" + s + "}") == Some(Lower(s))
    ensures !IsValidUuid("{" + s + "}")
  {
    BracedNormalize(s);
    ParseHyphenated(s);
    ValidUuidIsCanonicalV4("{" + s + "}");
  }

  lemma BracedNormalize(s: string)
    requires HyphenatedHex(s)
    ensures Normalize("{" + s + "}") == Normalize(s)
  {
    var b := "{" + s + "}";
    BracedNoColon(s);
    RemoveAllAbsent(b, "urn:", ':');
    RemoveAllAbsent(b, "uuid:", ':');
    StripBraces(s);
    NormalizeOnlyHyphens(s);
  }

  lemma BracedNoColon(s: string)
    requires HyphenatedHex(s)
    ensures ':' !in "{" + s + "}"
  {
    var b := "{" + s + "}";
    NoColon(s);
    forall i | 0 <= i < |b| ensures b[i] != ':' {
      if 0 < i < 37 {
        assert b[i] == s[i - 1];
      }
    }
  }

  lemma StripBraces(s: string)
    requires HyphenatedHex(s)
    ensures Strip("{" + s + "}", {'{', '}'}) == s
  {
    var b := "{" + s + "}";
    var braces := {'{', '}'};
    assert IsHexDigit(s[0]) && IsHexDigit(s[35]);
    assert StripLeft(b, braces) == s + "}" by {
      assert b[1..] == s + "}";
      assert StripLeft(s + "}", braces) == s + "}";
    }
    assert StripRight(s + "}", braces) == s by {
      assert (s + "}")[..36] == s;
      assert StripRight(s, braces) == s;
    }
  }

  /** The identifier of the worked example has the canonical version-4 shape. */
  lemma ExampleShape(s: string)
    requires s == "3fa85f64-5717-4562-b3fc-2c963f66afa6"
    ensures CanonicalV4(s)
  {
    assert CanonicalText(s);
  }

  /** A version-4 identifier in canonical form is kept. */
  lemma ExampleAccepted(s: string)
    requires s == "3fa85f64-5717-4562-b3fc-2c963f66afa6"
    ensures IsValidUuid(s)
  {
    ExampleShape(s);
    ValidUuidIsCanonicalV4(s);
  }

  /** Malformed, upper-case, unhyphenated, version-1 and wrong-variant
      spellings are all replaced. */
  lemma ExamplesRejected(malformed: string, upper: string, bare: string, v1: string, variant: string)
    requires malformed == "not-a-uuid"
    requires upper == "3FA85F64-5717-4562-B3FC-2C963F66AFA6"
    requires bare == "3fa85f6457174562b3fc2c963f66afa6"
    requires v1 == "3fa85f64-5717-1562-b3fc-2c963f66afa6"
    requires variant == "3fa85f64-5717-4562-c3fc-2c963f66afa6"
    ensures !IsValidUuid(malformed) && !IsValidUuid(upper) && !IsValidUuid(bare)
    ensures !IsValidUuid(v1) && !IsValidUuid(variant)
  {
    assert !CanonicalV4(malformed) && !CanonicalV4(bare);
    assert !CanonicalV4(v1) && !CanonicalV4(variant);
    assert !IsLowerHexDigit(upper[2]);
    assert !CanonicalText(upper);
    ValidUuidIsCanonicalV4(malformed);
    ValidUuidIsCanonicalV4(upper);
    ValidUuidIsCanonicalV4(bare);
    ValidUuidIsCanonicalV4(v1);
    ValidUuidIsCanonicalV4(variant);
  }

  /** The upper-case spelling is nevertheless a well-formed user id, naming
      the same identity as the lower-case one. */
  lemma ExampleUpperCaseUserId(upper: string, lower: string)
    requires upper == "3FA85F64-5717-4562-B3FC-2C963F66AFA6"
    requires lower == "3fa85f64-5717-4562-b3fc-2c963f66afa6"
    ensures ParseUuid(upper) == Some(lower)
  {
    UpperCaseShape(upper);
    UpperCaseLowered(upper, lower);
    HyphenatedParses(upper);
  }

  lemma UpperCaseShape(upper: string)
    requires upper == "3FA85F64-5717-4562-B3FC-2C963F66AFA6"
    ensures HyphenatedHex(upper)
  {
  }

  lemma UpperCaseLowered(upper: string, lower: string)
    requires upper == "3FA85F64-5717-4562-B3FC-2C963F66AFA6"
    requires lower == "3fa85f64-5717-4562-b3fc-2c963f66afa6"
    ensures Lower(upper) == lower
  {
  }
}
