/**
 The three pieces of Go's standard library that task construction relies on:
 `strings.TrimSpace`, `strings.ToLower` and `len` on a string.

 Dafny strings are sequences of Unicode scalar values, while a Go string is a
 sequence of UTF-8 bytes. `ByteLen` therefore counts the UTF-8 encoding of the
 characters, which is what Go's `len` returns for valid UTF-8 text.
 */
module GoStrings {

  /**
   `unicode.IsSpace`: the Latin-1 white space characters (tab, line feed,
   vertical tab, form feed, carriage return, space, U+0085, U+00A0) and the
   other characters with the Unicode White_Space property.
   */
  predicate IsSpace(c: char)
  {
    || c == '\t' || c == '\n' || c == '\U{000B}' || c == '\U{000C}' || c == '\r' || c == ' '
    || c == '\U{0085}' || c == '\U{00A0}' || c == '\U{1680}'
    || ('\U{2000}' <= c <= '\U{200A}')
    || c == '\U{2028}' || c == '\U{2029}' || c == '\U{202F}' || c == '\U{205F}' || c == '\U{3000}'
  }

  /** Every character of `s` is white space (vacuously true of the empty string). */
  predicate Blank(s: string)
  {
    forall i :: 0 <= i < |s| ==> IsSpace(s[i])
  }

  /** The index of the first character at or after `i` that is not white space, or `|s|` when there is none. */
  function SkipSpaces(s: string, i: nat): (j: nat)
    requires i <= |s|
    ensures i <= j <= |s|
    ensures forall k :: i <= k < j ==> IsSpace(s[k])
    ensures j == |s| || !IsSpace(s[j])
    decreases |s| - i
  {
    if i < |s| && IsSpace(s[i]) then SkipSpaces(s, i + 1) else i
  }

  /**
   Scanning back from `j` but not below `lo`: the index just past the last
   character that is not white space, or `lo` when there is none.
   */
  function SkipSpacesBack(s: string, lo: nat, j: nat): (i: nat)
    requires lo <= j <= |s|
    ensures lo <= i <= j
    ensures forall k :: i <= k < j ==> IsSpace(s[k])
    ensures i == lo || !IsSpace(s[i - 1])
    decreases j - lo
  {
    if j > lo && IsSpace(s[j - 1]) then SkipSpacesBack(s, lo, j - 1) else j
  }

  /**
   `strings.TrimSpace`: removes the leading and trailing white space. The
   scan for the end stops where the leading white space ended. The result is
   empty exactly for a blank input, and otherwise starts and ends with a
   non-space character.
   */
  function TrimSpace(s: string): (r: string)
    ensures |r| <= |s|
    ensures r == [] || (!IsSpace(r[0]) && !IsSpace(r[|r| - 1]))
    ensures r == [] <==> Blank(s)
  {
    var i := SkipSpaces(s, 0);
    s[i..SkipSpacesBack(s, i, |s|)]
  }

  /** What trimming keeps is one contiguous slice of the input, and everything around it is white space. */
  lemma TrimSpaceIsSlice(s: string)
    ensures var r := TrimSpace(s);
      exists i :: 0 <= i <= |s| - |r| && r == s[i..i + |r|] && Blank(s[..i]) && Blank(s[i + |r|..])
  {
    var i := SkipSpaces(s, 0);
    var j := SkipSpacesBack(s, i, |s|);
    assert TrimSpace(s) == s[i..j];
    assert Blank(s[..i]);
    assert Blank(s[j..]);
  }

  /** A string with no white space at either end is its own trimming. */
  lemma TrimSpaceOfTrimmed(s: string)
    requires s == [] || (!IsSpace(s[0]) && !IsSpace(s[|s| - 1]))
    ensures TrimSpace(s) == s
  {
  }

  /** `strings.TrimSpace` is idempotent. */
  lemma TrimSpaceIdempotent(s: string)
    ensures TrimSpace(TrimSpace(s)) == TrimSpace(s)
  {
    TrimSpaceOfTrimmed(TrimSpace(s));
  }

  /**
   Go's `unicode.ToLower` on the characters whose lower case is ASCII: the
   letters A-Z, U+0130 (capital I with dot above, lowered to `i`) and U+212A
   (Kelvin sign, lowered to `k`). Every other character is returned as is.
   */
  function LowerChar(c: char): char
  {
    if 'A' <= c <= 'Z' then (c as int + 32) as char
    else if c == '\U{0130}' then 'i'
    else if c == '\U{212A}' then 'k'
    else c
  }

  /** `strings.ToLower`, character by character with `LowerChar`. */
  function ToLower(s: string): (r: string)
    ensures |r| == |s|
    ensures forall i :: 0 <= i < |r| ==> !('A' <= r[i] <= 'Z')
    ensures forall i :: 0 <= i < |s| && 'a' <= s[i] <= 'z' ==> r[i] == s[i]
    ensures forall i :: 0 <= i < |s| && 'A' <= s[i] <= 'Z' ==> r[i] as int == s[i] as int + 32
    ensures forall i :: 0 <= i < |s| && s[i] == '\U{0130}' ==> r[i] == 'i'
    ensures forall i :: 0 <= i < |s| && s[i] == '\U{212A}' ==> r[i] == 'k'
    ensures forall i :: 0 <= i < |s| && !('A' <= s[i] <= 'Z') && s[i] != '\U{0130}' && s[i] != '\U{212A}' ==> r[i] == s[i]
  {
    seq(|s|, i requires 0 <= i < |s| => LowerChar(s[i]))
  }

  /** Lower-casing an already lower-cased string changes nothing. */
  lemma ToLowerIdempotent(s: string)
    ensures ToLower(ToLower(s)) == ToLower(s)
  {
  }

  /** The number of bytes UTF-8 uses for one character. */
  function RuneLen(c: char): nat
  {
    if c as int < 0x80 then 1
    else if c as int < 0x800 then 2
    else if c as int < 0x10000 then 3
    else 4
  }

  /** Go's `len` on a string: the length of its UTF-8 encoding in bytes, between one and four bytes per character. */
  function ByteLen(s: string): (n: nat)
    ensures |s| <= n <= 4 * |s|
  {
    if s == [] then 0 else RuneLen(s[0]) + ByteLen(s[1..])
  }

  /** For ASCII text, Go's byte length is the character count. */
  lemma {:induction false} ByteLenAscii(s: string)
    requires forall i :: 0 <= i < |s| ==> s[i] as int < 0x80
    ensures ByteLen(s) == |s|
    decreases |s|
  {
    if s != [] {
      ByteLenAscii(s[1..]);
    }
  }

  /** Text made only of characters from U+0080 to U+07FF takes two bytes per character. */
  lemma {:induction false} ByteLenTwoByte(s: string)
    requires forall i :: 0 <= i < |s| ==> 0x80 <= s[i] as int < 0x800
    ensures ByteLen(s) == 2 * |s|
    decreases |s|
  {
    if s != [] {
      ByteLenTwoByte(s[1..]);
    }
  }

  /** Dropping characters from the front never adds bytes. */
  lemma {:induction false} ByteLenSuffix(s: string, i: nat)
    requires i <= |s|
    ensures ByteLen(s[i..]) <= ByteLen(s)
    decreases i
  {
    if i > 0 {
      assert s[i..] == s[1..][i - 1..];
      ByteLenSuffix(s[1..], i - 1);
    }
  }

  /** Dropping characters from the back never adds bytes. */
  lemma {:induction false} ByteLenPrefix(s: string, j: nat)
    requires j <= |s|
    ensures ByteLen(s[..j]) <= ByteLen(s)
    decreases j
  {
    if j > 0 {
      assert s[..j][0] == s[0];
      assert s[..j][1..] == s[1..][..j - 1];
      ByteLenPrefix(s[1..], j - 1);
    }
  }

  /** Trimming never makes a string longer in bytes. */
  lemma TrimSpaceByteLen(s: string)
    ensures ByteLen(TrimSpace(s)) <= ByteLen(s)
  {
    var i := SkipSpaces(s, 0);
    var j := SkipSpacesBack(s, i, |s|);
    assert TrimSpace(s) == s[i..j];
    ByteLenSlice(s, i, j);
  }

  /** A slice never has more bytes than the whole. */
  lemma ByteLenSlice(s: string, i: nat, j: nat)
    requires i <= j <= |s|
    ensures ByteLen(s[i..j]) <= ByteLen(s)
  {
    assert s[i..j] == s[i..][..j - i];
    ByteLenPrefix(s[i..], j - i);
    ByteLenSuffix(s, i);
  }
}
