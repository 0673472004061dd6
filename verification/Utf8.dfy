/** UTF-8: well-formed characters, and the text that bytes stand for. */
module Utf8 {
  import opened Bytes

  predicate Continues(s: seq<byte>, i: nat, lo: nat, hi: nat) { i < |s| && lo <= s[i] <= hi }

  /** The length of the well-formed character that starts `s`, if there is one. */
  function CharLength(s: seq<byte>): (n: nat)
    ensures n <= |s|
  {
    if s == [] then 0
    else if s[0] < 0x80 then 1
    else if 0xC2 <= s[0] <= 0xDF && Continues(s, 1, 0x80, 0xBF) then 2
    else if 0xE0 <= s[0] <= 0xEF
      && Continues(s, 1, if s[0] == 0xE0 then 0xA0 else 0x80, if s[0] == 0xED then 0x9F else 0xBF)
      && Continues(s, 2, 0x80, 0xBF) then 3
    else if 0xF0 <= s[0] <= 0xF4
      && Continues(s, 1, if s[0] == 0xF0 then 0x90 else 0x80, if s[0] == 0xF4 then 0x8F else 0xBF)
      && Continues(s, 2, 0x80, 0xBF) && Continues(s, 3, 0x80, 0xBF) then 4
    else 0
  }

  predicate IsUtf8(s: seq<byte>)
    decreases |s|
  {
    s == [] || (CharLength(s) > 0 && IsUtf8(s[CharLength(s)..]))
  }

  lemma {:induction false} AsciiIsUtf8(s: seq<byte>)
    requires forall k :: 0 <= k < |s| ==> s[k] < 0x80
    ensures IsUtf8(s)
  {
    if s != [] {
      AsciiIsUtf8(s[1..]);
    }
  }

  // ----- The longest well-formed prefix -----

  /** How many bytes at the start of `s` are whole characters. */
  function ValidUpTo(s: seq<byte>): (n: nat)
    ensures n <= |s|
    decreases |s|
  {
    if CharLength(s) == 0 then 0 else CharLength(s) + ValidUpTo(s[CharLength(s)..])
  }

  /** A character is decided by its own bytes. */
  lemma CharStays(s: seq<byte>, x: seq<byte>)
    requires CharLength(s) > 0
    ensures CharLength(s + x) == CharLength(s) == CharLength(s[..CharLength(s)])
  {
  }

  lemma {:induction false} ValidAppend(a: seq<byte>, b: seq<byte>)
    requires IsUtf8(a)
    ensures ValidUpTo(a + b) == |a| + ValidUpTo(b)
    decreases |a|
  {
    hide CharLength;
    if a == [] {
      assert a + b == b;
    } else {
      var n := CharLength(a);
      CharStays(a, b);
      assert (a + b)[n..] == a[n..] + b;
      ValidAppend(a[n..], b);
    }
  }

  lemma {:induction false} ValidIsUtf8(s: seq<byte>)
    ensures var n := ValidUpTo(s); IsUtf8(s[..n]) && CharLength(s[n..]) == 0 && ValidUpTo(s[n..]) == 0
    decreases |s|
  {
    hide CharLength;
    var n, v := CharLength(s), ValidUpTo(s);
    if n > 0 {
      ValidIsUtf8(s[n..]);
      CharStays(s, []);
      assert s[n..][v - n..] == s[v..];
      assert s[..v] == s[..n] + s[n..v] && s[n..v] == s[n..][..v - n];
      CharStays(s[..n], s[n..v]);
      assert s[..v][n..] == s[n..v];
    } else {
      assert s[0..] == s;
    }
  }

  lemma WholeIsUtf8(s: seq<byte>)
    ensures IsUtf8(s) <==> ValidUpTo(s) == |s|
  {
    if IsUtf8(s) {
      ValidAppend(s, []);
      assert s + [] == s;
    }
    ValidIsUtf8(s);
    assert s[..|s|] == s;
  }

  // ----- Text -----

  function Low(b: byte): nat { b % 64 }

  /** The code point of the character that starts `s`. */
  function CodePoint(s: seq<byte>): (c: nat)
    requires CharLength(s) > 0
    ensures c < 0xD800 || 0xE000 <= c < 0x11_0000
  {
    match CharLength(s)
    case 1 => s[0]
    case 2 => s[0] % 32 * 64 + Low(s[1])
    case 3 => s[0] % 16 * 4096 + Low(s[1]) * 64 + Low(s[2])
    case _ => s[0] % 8 * 0x4_0000 + Low(s[1]) * 4096 + Low(s[2]) * 64 + Low(s[3])
  }

  function Text(s: seq<byte>): (t: string)
    requires IsUtf8(s)
    decreases |s|
  {
    if s == [] then [] else [CodePoint(s) as char] + Text(s[CharLength(s)..])
  }

  lemma {:induction false} TextAppend(a: seq<byte>, b: seq<byte>)
    requires IsUtf8(a) && IsUtf8(b)
    ensures IsUtf8(a + b) && Text(a + b) == Text(a) + Text(b)
    decreases |a|
  {
    hide CodePoint, CharLength;
    if a == [] {
      assert a + b == b;
    } else {
      var n := CharLength(a);
      SameCharacter(a, b);
      assert (a + b)[n..] == a[n..] + b;
      TextAppend(a[n..], b);
    }
  }

  lemma SameCharacter(s: seq<byte>, x: seq<byte>)
    requires CharLength(s) > 0
    ensures CharLength(s + x) == CharLength(s) && CodePoint(s + x) == CodePoint(s)
  {
    CharStays(s, x);
  }
}
