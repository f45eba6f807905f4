/** Bytes, and UTF-8 as section 3 of RFC 3629 defines it: which byte strings are
    well formed, and where they may be cut. */
module Utf8 {
  type Byte = b: int | 0 <= b < 256

  /** A byte 10xxxxxx: it continues a character and never starts one. */
  predicate Continuation(b: Byte) {
    0x80 <= b <= 0xBF
  }

  /** Length of the well-formed character at the head of s; 0 when there is none. */
  function CharLength(s: seq<Byte>): (n: nat)
    ensures n <= 4 && n <= |s|
    ensures 0 < n ==> !Continuation(s[0])
    ensures forall k :: 0 < k < n ==> Continuation(s[k])
  {
    if s == [] then 0
    else if s[0] <= 0x7F then 1
    else if 0xC2 <= s[0] <= 0xDF then
      if 2 <= |s| && Continuation(s[1]) then 2 else 0
    else if 0xE0 <= s[0] <= 0xEF then
      if && 3 <= |s| && Continuation(s[1]) && Continuation(s[2])
         && (s[0] == 0xE0 ==> 0xA0 <= s[1]) && (s[0] == 0xED ==> s[1] <= 0x9F) then 3 else 0
    else if 0xF0 <= s[0] <= 0xF4 then
      if && 4 <= |s| && Continuation(s[1]) && Continuation(s[2]) && Continuation(s[3])
         && (s[0] == 0xF0 ==> 0x90 <= s[1]) && (s[0] == 0xF4 ==> s[1] <= 0x8F) then 4 else 0
    else 0
  }

  /** s is a sequence of well-formed characters. */
  predicate Valid(s: seq<Byte>) {
    s == [] || (0 < CharLength(s) && Valid(s[CharLength(s)..]))
  }

  /** `str::is_char_boundary`: a test on one byte only. */
  predicate IsCharBoundary(s: seq<Byte>, i: nat) {
    i <= |s| && (i == 0 || i == |s| || !Continuation(s[i]))
  }

  /** Whether a character heads s is decided by that character's bytes alone. */
  lemma CharLengthLocal(s: seq<Byte>, t: seq<Byte>)
    requires 0 < CharLength(s) <= |t| && t[..CharLength(s)] == s[..CharLength(s)]
    ensures CharLength(t) == CharLength(s)
  {
    var n := CharLength(s);
    assert forall k :: 0 <= k < n ==> t[k] == t[..n][k] && s[k] == s[..n][k];
  }

  lemma {:induction false} ValidConcat(a: seq<Byte>, b: seq<Byte>)
    requires Valid(a) && Valid(b)
    ensures Valid(a + b)
  {
    if a == [] {
      assert a + b == b;
    } else {
      var n := CharLength(a);
      HeadOfConcat(a, b);
      ValidConcat(a[n..], b);
      ValidFrom(a + b, n);
    }
  }

  lemma HeadOfConcat(a: seq<Byte>, b: seq<Byte>)
    requires 0 < CharLength(a)
    ensures CharLength(a + b) == CharLength(a) && (a + b)[CharLength(a)..] == a[CharLength(a)..] + b
  {
    assert (a + b)[..CharLength(a)] == a[..CharLength(a)];
    CharLengthLocal(a, a + b);
  }

  lemma ValidFrom(s: seq<Byte>, n: nat)
    requires 0 < n == CharLength(s) && Valid(s[n..])
    ensures Valid(s)
  {
  }

  /** A longer prefix is valid if it is without its first character. */
  lemma FirstOff(s: seq<Byte>, i: nat)
    requires 0 < CharLength(s) <= i <= |s|
    ensures Valid(s[..i]) <==> Valid(s[CharLength(s)..][..i - CharLength(s)])
  {
    var n := CharLength(s);
    assert s[..i][..n] == s[..n];
    CharLengthLocal(s, s[..i]);
    assert s[..i][n..] == s[n..][..i - n];
  }

  /** Nothing is cut inside a character. */
  lemma InsideFirst(s: seq<Byte>, i: nat)
    requires 0 < i < CharLength(s)
    ensures !IsCharBoundary(s, i) && !Valid(s[i..])
  {
    assert Continuation(s[i]);
    assert s[i..][0] == s[i];
  }

  lemma Ends(s: seq<Byte>)
    requires Valid(s)
    ensures Valid(s[..0]) && Valid(s[0..]) && Valid(s[..|s|]) && Valid(s[|s|..])
  {
    assert s[0..] == s && s[..|s|] == s;
  }

  /** The one-byte boundary test is exactly right: in well-formed text it accepts
      a position iff both sides of the cut are well formed. */
  lemma {:induction false} BoundaryIff(s: seq<Byte>, i: nat)
    requires Valid(s) && i <= |s|
    ensures IsCharBoundary(s, i) <==> Valid(s[..i]) && Valid(s[i..])
  {
    if i == 0 || i == |s| {
      Ends(s);
    } else if i < CharLength(s) {
      InsideFirst(s, i);
    } else {
      var n := CharLength(s);
      BoundaryIff(s[n..], i - n);
      FirstOff(s, i);
      assert s[n..][i - n..] == s[i..];
      BoundaryOff(s, i);
    }
  }

  lemma BoundaryOff(s: seq<Byte>, i: nat)
    requires Valid(s) && 0 < CharLength(s) <= i < |s|
    ensures IsCharBoundary(s, i) <==> IsCharBoundary(s[CharLength(s)..], i - CharLength(s))
  {
    var rest := s[CharLength(s)..];
    assert rest[i - CharLength(s)] == s[i] && Valid(rest);
  }

  /** A well-formed prefix of well-formed text ends at a boundary. */
  lemma {:induction false} BoundaryAfterPrefix(s: seq<Byte>, i: nat)
    requires Valid(s) && i < |s| && Valid(s[..i])
    ensures !Continuation(s[i])
  {
    var n := CharLength(s);
    if i > 0 {
      if i >= n {
        assert s[..i][..n] == s[..n];
        CharLengthLocal(s, s[..i]);
        if n < i {
          assert s[..i][n..] == s[n..][..i - n];
          BoundaryAfterPrefix(s[n..], i - n);
        } else {
          assert Valid(s[n..]) && s[n..][0] == s[n];
        }
      }
    }
  }

  /** Four consecutive positions of well-formed text contain a boundary. */
  lemma {:induction false} BoundaryWithinFour(s: seq<Byte>, i: nat) returns (j: nat)
    requires Valid(s) && i <= |s|
    ensures j <= i < j + 4 && IsCharBoundary(s, j)
  {
    if i == 0 || i == |s| {
      j := i;
    } else {
      var n := CharLength(s);
      if i < n {
        j := 0;
      } else {
        var k := BoundaryWithinFour(s[n..], i - n);
        j := k + n;
        if k == 0 && s[n..] != [] {
          assert 0 < CharLength(s[n..]);
          assert s[n..][0] == s[n];
        }
      }
    }
  }

  // ------------------------------------------------------------- what the bytes say

  /** e encodes the character c: the table of section 3 of RFC 3629. Surrogates have no
      encoding, and no character has a longer one than it needs. */
  predicate Encodes(e: seq<Byte>, c: nat) {
    || (|e| == 1 && c < 0x80 && c == e[0])
    || (|e| == 2 && 0x80 <= c < 0x800 && 0xC0 <= e[0] < 0xE0 && 0x80 <= e[1] < 0xC0
        && c == (e[0] as int - 0xC0) * 0x40 + (e[1] as int - 0x80))
    || (|e| == 3 && (0x800 <= c < 0xD800 || 0xE000 <= c < 0x1_0000) && 0xE0 <= e[0] < 0xF0
        && 0x80 <= e[1] < 0xC0 && 0x80 <= e[2] < 0xC0
        && c == (e[0] as int - 0xE0) * 0x1000 + (e[1] as int - 0x80) * 0x40 + (e[2] as int - 0x80))
    || (|e| == 4 && 0x1_0000 <= c < 0x11_0000 && 0xF0 <= e[0] < 0xF8
        && 0x80 <= e[1] < 0xC0 && 0x80 <= e[2] < 0xC0 && 0x80 <= e[3] < 0xC0
        && c == (e[0] as int - 0xF0) * 0x4_0000 + (e[1] as int - 0x80) * 0x1000 + (e[2] as int - 0x80) * 0x40 + (e[3] as int - 0x80))
  }

  /** s starts with the n bytes of character c. */
  predicate Starts(s: seq<Byte>, n: nat, c: nat) {
    n <= |s| && Encodes(s[..n], c)
  }

  /** s is the encodings of chars, one after the other. */
  ghost predicate Text(s: seq<Byte>, chars: seq<nat>)
    decreases |chars|
  {
    if chars == [] then s == [] else
      exists n: nat :: Starts(s, n, chars[0]) && Text(s[n..], chars[1..])
  }

  /** Where a character's encoding starts, it is what is recognised. */
  lemma EncodedHeads(s: seq<Byte>, n: nat, c: nat)
    requires Starts(s, n, c)
    ensures CharLength(s) == n > 0
  {
    var e := s[..n];
    assert forall k :: 0 <= k < n ==> s[k] == e[k];
  }

  /** What is recognised is the encoding of a character. */
  lemma HeadEncodes(s: seq<Byte>) returns (c: nat)
    requires 0 < CharLength(s)
    ensures Starts(s, CharLength(s), c)
  {
    var n := CharLength(s);
    if n == 1 {
      c := s[0];
    } else if n == 2 {
      c := (s[0] as int - 0xC0) * 0x40 + (s[1] as int - 0x80);
    } else if n == 3 {
      c := (s[0] as int - 0xE0) * 0x1000 + (s[1] as int - 0x80) * 0x40 + (s[2] as int - 0x80);
    } else {
      c := (s[0] as int - 0xF0) * 0x4_0000 + (s[1] as int - 0x80) * 0x1000 + (s[2] as int - 0x80) * 0x40 + (s[3] as int - 0x80);
    }
  }

  lemma {:induction false} TextValid(s: seq<Byte>, chars: seq<nat>)
    requires Text(s, chars)
    ensures Valid(s)
    decreases |chars|
  {
    if chars != [] {
      var n: nat :| Starts(s, n, chars[0]) && Text(s[n..], chars[1..]);
      EncodedHeads(s, n, chars[0]);
      TextValid(s[n..], chars[1..]);
    }
  }

  lemma {:induction false} ValidText(s: seq<Byte>) returns (chars: seq<nat>)
    requires Valid(s)
    ensures Text(s, chars)
    decreases |s|
  {
    chars := [];
    if s != [] {
      var n := CharLength(s);
      var c := HeadEncodes(s);
      var rest := ValidText(s[n..]);
      chars := [c] + rest;
      assert chars[1..] == rest;
      assert Starts(s, n, chars[0]) && Text(s[n..], chars[1..]);
    }
  }

  /** The recogniser accepts exactly the encodings of characters. */
  lemma ValidIff(s: seq<Byte>)
    ensures Valid(s) <==> exists chars :: Text(s, chars)
  {
    if Valid(s) {
      var chars := ValidText(s);
      assert Text(s, chars);
    }
    if exists chars :: Text(s, chars) {
      var chars :| Text(s, chars);
      TextValid(s, chars);
    }
  }
}
