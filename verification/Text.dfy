/** Character classes and text operations of the source language, on sequences of Unicode scalars. */
module Text {
  /** Unicode White_Space, what `trim`, `trim_end` and `char::is_whitespace` use. */
  predicate IsWhitespace(c: char) {
    || '\t' <= c <= '\r' || c == ' ' || c == '\U{0085}' || c == '\U{00A0}' || c == '\U{1680}'
    || '\U{2000}' <= c <= '\U{200A}' || c == '\U{2028}' || c == '\U{2029}' || c == '\U{202F}'
    || c == '\U{205F}' || c == '\U{3000}'
  }

  predicate IsControl(c: char) {
    c <= '\U{001F}' || '\U{007F}' <= c <= '\U{009F}'
  }

  predicate IsAlphanumeric(c: char) {
    '0' <= c <= '9' || 'a' <= c <= 'z' || 'A' <= c <= 'Z'
  }

  /** White space is these 25 characters, and control characters are the C0 and C1 codes and DEL. */
  lemma ClassesExactly(c: char)
    ensures IsWhitespace(c) <==>
              c as int in {0x9, 0xA, 0xB, 0xC, 0xD, 0x20, 0x85, 0xA0, 0x1680, 0x2000, 0x2001, 0x2002, 0x2003, 0x2004, 0x2005, 0x2006,
                           0x2007, 0x2008, 0x2009, 0x200A, 0x2028, 0x2029, 0x202F, 0x205F, 0x3000}
    ensures IsControl(c) <==> c as int < 0x20 || 0x7F <= c as int < 0xA0
  {
  }

  predicate LowerHex(s: string) {
    forall i | 0 <= i < |s| :: '0' <= s[i] <= '9' || 'a' <= s[i] <= 'f'
  }

  /** A Git object name, SHA-1 or SHA-256. */
  predicate ValidSha(s: string) {
    (|s| == 40 || |s| == 64) && LowerHex(s)
  }

  lemma LowerHexExactly(s: string)
    ensures LowerHex(s) <==> forall i | 0 <= i < |s| :: s[i] in "0123456789abcdef"
  {
    forall i | 0 <= i < |s| ensures ('0' <= s[i] <= '9' || 'a' <= s[i] <= 'f') <==> s[i] in "0123456789abcdef" {
      HexExactly(s[i]);
    }
  }

  lemma HexExactly(c: char)
    ensures ('0' <= c <= '9' || 'a' <= c <= 'f') <==> c in "0123456789abcdef"
  {
    var digits := "0123456789abcdef";
    if '0' <= c <= '9' { assert digits[c as int - '0' as int] == c; }
    if 'a' <= c <= 'f' { assert digits[10 + c as int - 'a' as int] == c; }
  }

  lemma DigitExactly(c: char)
    ensures '0' <= c <= '9' <==> c in "0123456789"
  {
    var digits := "0123456789";
    if '0' <= c <= '9' { assert digits[c as int - '0' as int] == c; }
  }

  lemma LowerExactly(c: char)
    ensures 'a' <= c <= 'z' <==> c in "abcdefghijklmnopqrstuvwxyz"
  {
    var letters := "abcdefghijklmnopqrstuvwxyz";
    if 'a' <= c <= 'z' { assert letters[c as int - 'a' as int] == c; }
  }

  lemma UpperExactly(c: char)
    ensures 'A' <= c <= 'Z' <==> c in "ABCDEFGHIJKLMNOPQRSTUVWXYZ"
  {
    var letters := "ABCDEFGHIJKLMNOPQRSTUVWXYZ";
    if 'A' <= c <= 'Z' { assert letters[c as int - 'A' as int] == c; }
  }

  lemma AlphanumericExactly(c: char)
    ensures IsAlphanumeric(c) <==> c in "0123456789" || c in "abcdefghijklmnopqrstuvwxyz" || c in "ABCDEFGHIJKLMNOPQRSTUVWXYZ"
  {
    DigitExactly(c);
    LowerExactly(c);
    UpperExactly(c);
  }

  /** Bytes one scalar occupies in UTF-8. */
  function Utf8Size(c: char): (n: nat)
    ensures 1 <= n <= 4
  {
    if c <= '\U{007F}' then 1 else if c <= '\U{07FF}' then 2 else if c <= '\U{FFFF}' then 3 else 4
  }

  function Utf8Length(s: string): (n: nat)
    ensures |s| <= n <= 4 * |s|
  {
    if s == "" then 0 else Utf8Size(s[0]) + Utf8Length(s[1..])
  }

  /** UTF-8 takes one byte below U+0080, two below U+0800, three below U+10000 and four from there; lengths add up. */
  lemma {:induction false} Utf8Exactly(s: string, c: char, t: string)
    ensures Utf8Length([c]) == 1 + (if c as int >= 0x80 then 1 else 0) + (if c as int >= 0x800 then 1 else 0) + (if c as int >= 0x10000 then 1 else 0)
    ensures Utf8Length(s + t) == Utf8Length(s) + Utf8Length(t) && Utf8Length("") == 0
    decreases |s|
  {
    assert [c][1..] == "";
    if s == "" {
      assert s + t == t;
    } else {
      Utf8Exactly(s[1..], c, t);
      assert (s + t)[1..] == s[1..] + t;
    }
  }

  predicate Blank(s: string) {
    forall i | 0 <= i < |s| :: IsWhitespace(s[i])
  }

  function TrimStart(s: string): (r: string)
    ensures |r| <= |s| && r == s[|s| - |r|..]
    ensures r != "" ==> !IsWhitespace(r[0])
    ensures Blank(s[..|s| - |r|])
  {
    if s != "" && IsWhitespace(s[0]) then TrimStart(s[1..]) else s
  }

  function TrimEnd(s: string): (r: string)
    ensures |r| <= |s| && r == s[..|r|]
    ensures r != "" ==> !IsWhitespace(r[|r| - 1])
    ensures forall i | |r| <= i < |s| :: IsWhitespace(s[i])
  {
    if s != "" && IsWhitespace(s[|s| - 1]) then TrimEnd(s[..|s| - 1]) else s
  }

  function Trim(s: string): string {
    TrimEnd(TrimStart(s))
  }

  /** `needle` begins at position `i`. */
  predicate At(s: string, i: nat, needle: string) {
    i + |needle| <= |s| && s[i..i + |needle|] == needle
  }

  ghost predicate Contains(s: string, needle: string) {
    exists i: nat :: At(s, i, needle)
  }
}
