/** The string handling of the room engine: JavaScript's `trim`, the
    20-character name cut with its "Gast" default, `toUpperCase` as far as it
    matters for room codes, and the room-code format. */
module Text {

  import opened Wrappers

  /** The longest player name that is kept. */
  const MaxNameLength: nat := 20

  /** The name given to a player who supplies none. */
  const DefaultName: string := "Gast"

  /** The 32 characters room codes are made of: upper-case letters and digits
      without I, O, 0 and 1. */
  const CodeAlphabet: string := "ABCDEFGHJKLMNPQRSTUVWXYZ23456789"

  /** Room codes have four characters. */
  const CodeLength: nat := 4

  /** The characters `String.prototype.trim` removes: ECMAScript WhiteSpace
      (tab, vertical tab, form feed, space, no-break space, byte order mark and
      the space separators) and LineTerminator. */
  predicate IsJsSpace(c: char)
  {
    c == '\t' || c == '\n' || c == '\U{B}' || c == '\U{C}' || c == '\r' || c == ' '
    || c == '\U{A0}' || c == '\U{1680}' || ('\U{2000}' <= c <= '\U{200A}')
    || c == '\U{2028}' || c == '\U{2029}' || c == '\U{202F}' || c == '\U{205F}'
    || c == '\U{3000}' || c == '\U{FEFF}'
  }

  /** The number of white-space characters `s` starts with. */
  function LeadingSpaces(s: string): (n: nat)
    ensures n <= |s|
    ensures forall k :: 0 <= k < n ==> IsJsSpace(s[k])
    ensures n < |s| ==> !IsJsSpace(s[n])
    decreases |s|
  {
    if s != [] && IsJsSpace(s[0]) then 1 + LeadingSpaces(s[1..]) else 0
  }

  /** The number of white-space characters `s` ends with. */
  function TrailingSpaces(s: string): (n: nat)
    ensures n <= |s|
    ensures forall k :: |s| - n <= k < |s| ==> IsJsSpace(s[k])
    ensures n < |s| ==> !IsJsSpace(s[|s| - n - 1])
    decreases |s|
  {
    if s != [] && IsJsSpace(s[|s| - 1]) then 1 + TrailingSpaces(s[..|s| - 1]) else 0
  }

  /** `s.trim()`: `s` without its leading and trailing white space. */
  function Trim(s: string): (r: string)
    ensures |r| <= |s|
    ensures r != [] ==> !IsJsSpace(r[0]) && !IsJsSpace(r[|r| - 1])
    ensures r == [] <==> forall k :: 0 <= k < |s| ==> IsJsSpace(s[k])
    ensures r != [] ==>
      var i := LeadingSpaces(s);
      i + |r| <= |s| && r == s[i..i + |r|] && forall k :: i + |r| <= k < |s| ==> IsJsSpace(s[k])
  {
    var lead := LeadingSpaces(s);
    if lead == |s| then ""
    else
      var trail := TrailingSpaces(s);
      assert !IsJsSpace(s[|s| - trail - 1]);
      assert lead <= |s| - trail - 1;
      s[lead..|s| - trail]
  }

  /** Trimming twice is trimming once. */
  lemma TrimIdempotent(s: string)
    ensures Trim(Trim(s)) == Trim(s)
  {
  }

  /** The smaller of two numbers. */
  function Min(a: int, b: int): int
  {
    if a <= b then a else b
  }

  /** `name?.trim()?.slice(0, 20) || "Gast"`, with `None` for a missing name. */
  function NormalizeName(name: Option<string>): (r: string)
    ensures 0 < |r| <= MaxNameLength
    ensures name.None? ==> r == DefaultName
    ensures name.Some? && Trim(name.value) == [] ==> r == DefaultName
    ensures name.Some? && Trim(name.value) != [] ==>
      var t := Trim(name.value);
      |r| == Min(MaxNameLength, |t|) && r <= t && !IsJsSpace(r[0])
  {
    match name
    case None => DefaultName
    case Some(s) =>
      var t := Trim(s);
      var cut := t[..Min(MaxNameLength, |t|)];
      if cut == [] then DefaultName else cut
  }

  /** The upper-case form of one character under `toUpperCase`: the ASCII
      letters, and the characters whose full upper-case mapping consists of
      ASCII letters only (sharp s, dotless i, long s and the Latin ligatures).
      Every other character is kept, which cannot change whether the result is
      a room code, since a room code holds ASCII characters only. */
  function UpperChar(c: char): (r: string)
    ensures 'a' <= c <= 'z' ==> r == [(c as int - 32) as char]
    ensures !('a' <= c <= 'z') && c < '\U{80}' ==> r == [c]
    ensures 1 <= |r| <= 3
  {
    if 'a' <= c <= 'z' then [(c as int - 32) as char]
    else if c == '\U{DF}' then "SS"
    else if c == '\U{131}' then "I"
    else if c == '\U{17F}' then "S"
    else if c == '\U{FB00}' then "FF"
    else if c == '\U{FB01}' then "FI"
    else if c == '\U{FB02}' then "FL"
    else if c == '\U{FB03}' then "FFI"
    else if c == '\U{FB04}' then "FFL"
    else if c == '\U{FB05}' || c == '\U{FB06}' then "ST"
    else [c]
  }

  /** `s.toUpperCase()`, character by character. */
  function ToUpper(s: string): (r: string)
    ensures |r| >= |s|
    ensures (forall k :: 0 <= k < |s| ==> s[k] < '\U{80}') ==> |r| == |s| && forall k :: 0 <= k < |s| ==> [r[k]] == UpperChar(s[k])
  {
    if s == [] then [] else UpperChar(s[0]) + ToUpper(s[1..])
  }

  /** The codes the code generator produces: four characters of the alphabet. */
  predicate IsRoomCode(s: string)
  {
    |s| == CodeLength && forall k :: 0 <= k < |s| ==> s[k] in CodeAlphabet
  }

  /** The characters of the code alphabet, described by ranges. */
  predicate IsCodeChar(c: char)
  {
    ('A' <= c <= 'Z' && c != 'I' && c != 'O') || ('2' <= c <= '9')
  }

  /** Every character of the code alphabet lies in those ranges. */
  lemma CodeAlphabetChars()
    ensures forall k :: 0 <= k < |CodeAlphabet| ==> IsCodeChar(CodeAlphabet[k])
  {
  }

  /** A character of the code alphabet is an upper-case ASCII letter or a digit. */
  lemma CodeCharIsUpper(c: char)
    requires c in CodeAlphabet
    ensures IsCodeChar(c)
  {
    CodeAlphabetChars();
  }

  /** Upper-casing leaves a string of code characters unchanged. */
  lemma {:induction false} ToUpperKeepsUpper(s: string)
    requires forall k :: 0 <= k < |s| ==> s[k] in CodeAlphabet
    ensures ToUpper(s) == s
  {
    if s != [] {
      CodeCharIsUpper(s[0]);
      ToUpperKeepsUpper(s[1..]);
      assert s == [s[0]] + s[1..];
    }
  }

  /** A room code is its own upper-case form, so looking up the upper-cased
      code finds a room registered under it. */
  lemma RoomCodeIsUpper(code: string)
    requires IsRoomCode(code)
    ensures ToUpper(code) == code
  {
    ToUpperKeepsUpper(code);
  }

  /** The ASCII lower-case form of one character. */
  function LowerChar(c: char): char
  {
    if 'A' <= c <= 'Z' then (c as int + 32) as char else c
  }

  /** The ASCII lower-case form of a string (what a player may type). */
  function LowerAscii(s: string): (r: string)
    ensures |r| == |s|
  {
    if s == [] then [] else [LowerChar(s[0])] + LowerAscii(s[1..])
  }

  /** A code character typed in lower case upper-cases back to itself. */
  lemma UpperOfLowerChar(c: char)
    requires IsCodeChar(c)
    ensures UpperChar(LowerChar(c)) == [c]
  {
  }

  /** A room code typed in lower case upper-cases back to the code itself. */
  lemma {:induction false} UpperOfLowerCode(s: string)
    requires forall k :: 0 <= k < |s| ==> s[k] in CodeAlphabet
    ensures ToUpper(LowerAscii(s)) == s
  {
    if s != [] {
      CodeCharIsUpper(s[0]);
      UpperOfLowerChar(s[0]);
      UpperOfLowerCode(s[1..]);
      var low := LowerAscii(s);
      assert s == [s[0]] + s[1..];
    }
  }
}
