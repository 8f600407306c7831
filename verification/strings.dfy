/**
 * Python text as the dumper uses it: a sequence of code points, with the
 * character classes the source asks about (printable, upper-case,
 * alphanumeric) restricted to ASCII.
 */
module Strings {
  import opened Bytes

  /** One element of a Python `str`; `chr(v)` accepts every v below 0x110000. */
  type CodePoint = c: int | 0 <= c < 0x11_0000

  type Text = seq<CodePoint>

  /** A Dafny string literal as Text. */
  function Chars(s: string): (t: Text)
    ensures |t| == |s|
    ensures forall i :: 0 <= i < |s| ==> t[i] == s[i] as int
  {
    seq(|s|, i requires 0 <= i < |s| => s[i] as int)
  }

  predicate IsUpper(c: CodePoint) { 0x41 <= c <= 0x5A }
  predicate IsLower(c: CodePoint) { 0x61 <= c <= 0x7A }
  predicate IsDigit(c: CodePoint) { 0x30 <= c <= 0x39 }
  predicate IsAlnum(c: CodePoint) { IsUpper(c) || IsLower(c) || IsDigit(c) }
  predicate IsPrintable(c: CodePoint) { 0x20 <= c < 0x7F }

  /** `str.isalnum()`: non-empty and every character alphanumeric. */
  predicate IsAlnumText(s: Text)
  {
    |s| > 0 && forall i :: 0 <= i < |s| ==> IsAlnum(s[i])
  }

  /** `str.isprintable()`: every character printable (true of the empty string). */
  predicate IsPrintableText(s: Text)
  {
    forall i :: 0 <= i < |s| ==> IsPrintable(s[i])
  }

  /**
   * `bytes.decode(…, errors='ignore')` restricted to ASCII: each byte below
   * 0x80 is its own character and every other byte is dropped.
   */
  function AsciiDecode(b: seq<byte>): (t: Text)
    ensures |t| <= |b|
    ensures forall i :: 0 <= i < |t| ==> t[i] < 0x80
  {
    if b == [] then []
    else (if b[0] < 0x80 then [b[0] as CodePoint] else []) + AsciiDecode(b[1..])
  }

  /** On pure ASCII input the decoder is the identity. */
  lemma {:induction false} AsciiDecodeOfAscii(b: seq<byte>)
    requires forall i :: 0 <= i < |b| ==> b[i] < 0x80
    ensures AsciiDecode(b) == seq(|b|, i requires 0 <= i < |b| => b[i] as CodePoint)
  {
    if b != [] {
      AsciiDecodeOfAscii(b[1..]);
    }
  }

  /** Every decoded character is a byte of the input. */
  lemma {:induction false} AsciiDecodeFrom(b: seq<byte>, i: nat)
    requires i < |AsciiDecode(b)|
    ensures AsciiDecode(b)[i] in b
  {
    if b != [] {
      if b[0] < 0x80 && i == 0 {
      } else {
        var j := if b[0] < 0x80 then i - 1 else i;
        AsciiDecodeFrom(b[1..], j);
      }
    }
  }

  /** `str.lower()` on ASCII letters. */
  function Lower(s: Text): (t: Text)
    ensures |t| == |s|
    ensures forall i :: 0 <= i < |s| && IsUpper(s[i]) ==> IsLower(t[i]) && t[i] - s[i] == 0x20
    ensures forall i :: 0 <= i < |s| && !IsUpper(s[i]) ==> t[i] == s[i]
    ensures forall i :: 0 <= i < |t| ==> !IsUpper(t[i])
  {
    seq(|s|, i requires 0 <= i < |s| => if IsUpper(s[i]) then s[i] + 0x20 else s[i])
  }

  predicate StartsWith(s: Text, prefix: Text)
  {
    |prefix| <= |s| && s[..|prefix|] == prefix
  }

  /** Python's `sub in s`. */
  predicate Contains(s: Text, sub: Text)
    decreases |s|
  {
    StartsWith(s, sub) || (|s| > 0 && Contains(s[1..], sub))
  }

  /**
   * `s.replace(pat, '')`: delete the non-overlapping occurrences of a
   * non-empty pattern, scanning left to right.
   */
  function RemoveAll(s: Text, pat: Text): (r: Text)
    requires |pat| > 0
    ensures |r| <= |s|
    decreases |s|
  {
    if s == [] then []
    else if StartsWith(s, pat) then RemoveAll(s[|pat|..], pat)
    else [s[0]] + RemoveAll(s[1..], pat)
  }

  /** Deleting a pattern only ever drops characters of that pattern. */
  lemma {:induction false} RemoveAllKeeps(s: Text, pat: Text, i: nat)
    requires |pat| > 0 && i < |s|
    ensures s[i] in RemoveAll(s, pat) || s[i] in pat
    decreases |s|
  {
    if StartsWith(s, pat) {
      if i < |pat| {
        assert s[i] == pat[i];
      } else {
        RemoveAllKeeps(s[|pat|..], pat, i - |pat|);
      }
    } else if i > 0 {
      RemoveAllKeeps(s[1..], pat, i - 1);
    }
  }

  /** Every character of the result is a character of the input. */
  lemma {:induction false} RemoveAllFrom(s: Text, pat: Text, i: nat)
    requires |pat| > 0 && i < |RemoveAll(s, pat)|
    ensures RemoveAll(s, pat)[i] in s
    decreases |s|
  {
    if StartsWith(s, pat) {
      RemoveAllFrom(s[|pat|..], pat, i);
    } else if i > 0 {
      RemoveAllFrom(s[1..], pat, i - 1);
    }
  }

  /** A first character that does not start the pattern survives the deletion. */
  lemma RemoveAllKeepsHead(s: Text, pat: Text)
    requires |pat| > 0 && |s| > 0 && s[0] != pat[0]
    ensures |RemoveAll(s, pat)| > 0 && RemoveAll(s, pat)[0] == s[0]
  {
  }
}
