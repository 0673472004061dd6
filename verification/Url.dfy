/** URLs: percent-encoding and the validation of components. */
module Url {
  import opened Bytes
  import opened UrlAddress
  import opened Utf8

  datatype UrlError =
    | EmptyInput | MissingScheme | InvalidScheme | InvalidCharacter(at: nat) | InvalidPercentEncoding(at: nat)
    | InvalidUtf8 | EmptyHost | InvalidHost | InvalidIpv6 | InvalidPort

  const PERCENT: byte := '%' as int
  const HASH: byte := '#' as int
  const QUESTION: byte := '?' as int
  const SLASH: byte := '/' as int
  const AT_SIGN: byte := '@' as int
  const OPEN_BRACKET: byte := '[' as int
  const CLOSE_BRACKET: byte := ']' as int

  // ----- Character classes -----

  predicate IsAlpha(b: byte) { 'A' as int <= b <= 'Z' as int || 'a' as int <= b <= 'z' as int }

  predicate IsAlnum(b: byte) { IsAlpha(b) || IsDigit(b) }

  predicate IsUnreserved(b: byte) {
    IsAlnum(b) || b == '-' as int || b == '.' as int || b == '_' as int || b == '~' as int
  }

  predicate IsSubDelim(b: byte) {
    b == '!' as int || b == '$' as int || b == '&' as int || b == '\'' as int || b == '(' as int || b == ')' as int
    || b == '*' as int || b == '+' as int || b == ',' as int || b == ';' as int || b == '=' as int
  }

  predicate IsRegNameChar(b: byte) { IsUnreserved(b) || IsSubDelim(b) }

  predicate IsUserinfoChar(b: byte) { IsRegNameChar(b) || b == COLON }

  predicate IsPathChar(b: byte) { IsRegNameChar(b) || b == COLON || b == AT_SIGN || b == SLASH }

  predicate IsQueryChar(b: byte) { IsPathChar(b) || b == QUESTION }

  predicate IsSchemeChar(b: byte) { IsAlnum(b) || b == '+' as int || b == '-' as int || b == '.' as int }

  // ----- Percent-encoding -----

  function HexDigit(n: nat): byte
    requires n < 16
  {
    if n < 10 then '0' as int + n else 'A' as int + n - 10
  }

  function HexValue(b: byte): (r: Option<nat>)
    ensures r.Some? ==> r.value < 16
    ensures r.Some? <==> IsHex(b)
  {
    if IsDigit(b) then Some(b as int - '0' as int)
    else if 'a' as int <= b <= 'f' as int then Some(b as int - 'a' as int + 10)
    else if 'A' as int <= b <= 'F' as int then Some(b as int - 'A' as int + 10)
    else None
  }

  function EncodeByte(b: byte): seq<byte> {
    if IsUnreserved(b) then [b] else [PERCENT, HexDigit(b as int / 16), HexDigit(b as int % 16)]
  }

  function Encode(s: seq<byte>): seq<byte> {
    if s == [] then [] else Encode(s[..|s| - 1]) + EncodeByte(s[|s| - 1])
  }

  /** Decodes `s`, which stands at offset `at`. */
  function DecodeAt(s: seq<byte>, at: nat): Result<seq<byte>, UrlError>
    decreases |s|
  {
    if s == [] then Ok([])
    else if s[0] != PERCENT then Before([s[0]], DecodeAt(s[1..], at + 1))
    else if |s| < 3 || !IsHex(s[1]) || !IsHex(s[2]) then Err(InvalidPercentEncoding(at))
    else Before([Triple(s[1], s[2])], DecodeAt(s[3..], at + 3))
  }

  function Triple(h: byte, l: byte): byte
    requires IsHex(h) && IsHex(l)
  {
    HexValue(h).value * 16 + HexValue(l).value
  }

  function Before(front: seq<byte>, r: Result<seq<byte>, UrlError>): Result<seq<byte>, UrlError> {
    if r.Ok? then Ok(front + r.value) else r
  }

  lemma EncodedByteDecodes(b: byte, rest: seq<byte>, at: nat)
    ensures DecodeAt(EncodeByte(b) + rest, at) == Before([b], DecodeAt(rest, at + |EncodeByte(b)|))
  {
    var s := EncodeByte(b) + rest;
    assert s[|EncodeByte(b)|..] == rest;
    if !IsUnreserved(b) {
      assert Triple(HexDigit(b as int / 16), HexDigit(b as int % 16)) == b;
    }
  }

  lemma {:induction false} DecodeEncoded(s: seq<byte>, rest: seq<byte>, at: nat)
    ensures DecodeAt(Encode(s) + rest, at) == Before(s, DecodeAt(rest, at + |Encode(s)|))
    decreases |s|
  {
    hide DecodeAt, EncodeByte;
    if s == [] {
      assert Encode(s) + rest == rest;
      var r := DecodeAt(rest, at);
      assert r.Ok? ==> [] + r.value == r.value;
    } else {
      var init, b := s[..|s| - 1], s[|s| - 1];
      assert Encode(s) + rest == Encode(init) + (EncodeByte(b) + rest);
      DecodeEncoded(init, EncodeByte(b) + rest, at);
      EncodedByteDecodes(b, rest, at + |Encode(init)|);
      var r := DecodeAt(rest, at + |Encode(s)|);
      assert r.Ok? ==> init + ([b] + r.value) == s + r.value;
    }
  }

  /** Decoding undoes encoding, for all bytes. */
  lemma DecodeUndoesEncode(s: seq<byte>)
    ensures DecodeAt(Encode(s), 0) == Ok(s)
  {
    DecodeEncoded(s, [], 0);
    assert Encode(s) + [] == Encode(s) && s + [] == s;
  }

  /** Decodes text: the bytes must be UTF-8. */
  function DecodeText(s: seq<byte>): Result<seq<byte>, UrlError> {
    var r := DecodeAt(s, 0);
    if r.Ok? && !IsUtf8(r.value) then Err(InvalidUtf8) else r
  }

  /** Bytes that were encoded are decoded as text exactly when they are text. */
  lemma TextBackIff(s: seq<byte>)
    ensures DecodeText(Encode(s)) == if IsUtf8(s) then Ok(s) else Err(InvalidUtf8)
  {
    hide DecodeAt, Encode, IsUtf8;
    DecodeUndoesEncode(s);
  }

  method EncodeBytes(s: seq<byte>) returns (out: seq<byte>)
    ensures out == Encode(s)
  {
    hide IsUnreserved;
    out := [];
    var i := 0;
    while i < |s|
      invariant 0 <= i <= |s| && out == Encode(s[..i])
    {
      assert s[..i + 1][..i] == s[..i];
      if IsUnreserved(s[i]) {
        out := out + [s[i]];
      } else {
        out := out + [PERCENT];
        out := out + [HexDigit(s[i] as int / 16)];
        out := out + [HexDigit(s[i] as int % 16)];
      }
      i := i + 1;
    }
    assert s[..i] == s;
  }

  method DecodeBytes(s: seq<byte>) returns (r: Result<seq<byte>, UrlError>)
    ensures r == DecodeAt(s, 0)
  {
    hide IsHex;
    var out: seq<byte>, i := [], 0;
    BeforeNothing(DecodeAt(s, 0));
    assert s[0..] == s;
    while i < |s|
      invariant 0 <= i <= |s| && DecodeAt(s, 0) == Before(out, DecodeAt(s[i..], i))
      decreases |s| - i
    {
      ghost var t := s[i..];
      if s[i] != PERCENT {
        assert t[1..] == s[i + 1..];
        BeforeMore(out, s[i], DecodeAt(s[i + 1..], i + 1));
        out := out + [s[i]];
        i := i + 1;
      } else if i + 3 > |s| || !IsHex(s[i + 1]) || !IsHex(s[i + 2]) {
        assert i + 3 <= |s| ==> t[1] == s[i + 1] && t[2] == s[i + 2];
        return Err(InvalidPercentEncoding(i));
      } else {
        assert t[1] == s[i + 1] && t[2] == s[i + 2] && t[3..] == s[i + 3..];
        BeforeMore(out, Triple(s[i + 1], s[i + 2]), DecodeAt(s[i + 3..], i + 3));
        out := out + [Triple(s[i + 1], s[i + 2])];
        i := i + 3;
      }
    }
    assert out + [] == out;
    r := Ok(out);
  }

  lemma BeforeNothing(r: Result<seq<byte>, UrlError>)
    ensures Before([], r) == r
  {
    assert r.Ok? ==> [] + r.value == r.value;
  }

  lemma BeforeMore(front: seq<byte>, b: byte, r: Result<seq<byte>, UrlError>)
    ensures Before(front, Before([b], r)) == Before(front + [b], r)
  {
    assert r.Ok? ==> front + ([b] + r.value) == front + [b] + r.value;
  }

  // ----- Components -----

  /** The first error in a component that stands at offset `at`. */
  function Fault(s: seq<byte>, at: nat, allowed: byte -> bool): Option<UrlError>
    decreases |s|
  {
    if s == [] then None
    else if s[0] != PERCENT then (if allowed(s[0]) then Fault(s[1..], at + 1, allowed) else Some(InvalidCharacter(at)))
    else if |s| < 3 || !IsHex(s[1]) || !IsHex(s[2]) then Some(InvalidPercentEncoding(at))
    else Fault(s[3..], at + 3, allowed)
  }

  /** One allowed byte or one escape. */
  predicate Unit(u: seq<byte>, allowed: byte -> bool) {
    (|u| == 1 && u[0] != PERCENT && allowed(u[0])) || (|u| == 3 && u[0] == PERCENT && IsHex(u[1]) && IsHex(u[2]))
  }

  predicate Units(us: seq<seq<byte>>, allowed: byte -> bool) { forall k :: 0 <= k < |us| ==> Unit(us[k], allowed) }

  function Concat(us: seq<seq<byte>>): seq<byte> { if us == [] then [] else us[0] + Concat(us[1..]) }

  /** A component is valid exactly when it is made of allowed bytes and escapes. */
  lemma {:induction false} FaultlessIffUnits(s: seq<byte>, at: nat, allowed: byte -> bool)
    ensures Fault(s, at, allowed).None? <==> exists us :: Units(us, allowed) && s == Concat(us)
    decreases |s|
  {
    if s == [] {
      assert Units([], allowed) && s == Concat([]);
    } else {
      var n := if s[0] == PERCENT then 3 else 1;
      if |s| >= n {
        FaultlessIffUnits(s[n..], at + n, allowed);
        if Fault(s, at, allowed).None? {
          var us :| Units(us, allowed) && s[n..] == Concat(us);
          UnitsCons(s, n, us, allowed);
        }
      }
      forall us | Units(us, allowed) && s == Concat(us)
        ensures Fault(s, at, allowed).None?
      {
        var u := us[0];
        assert Unit(u, allowed) && s == u + Concat(us[1..]);
        assert |u| == n && s[..n] == u && s[n..] == Concat(us[1..]);
        assert Units(us[1..], allowed);
      }
    }
  }

  lemma UnitsCons(s: seq<byte>, n: nat, us: seq<seq<byte>>, allowed: byte -> bool)
    requires n <= |s| && Unit(s[..n], allowed) && Units(us, allowed) && s[n..] == Concat(us)
    ensures Units([s[..n]] + us, allowed) && s == Concat([s[..n]] + us)
  {
    assert ([s[..n]] + us)[1..] == us;
    assert s == s[..n] + s[n..];
  }

  /** A valid component holds no byte outside its class other than those of escapes. */
  lemma {:induction false} FaultlessBytes(s: seq<byte>, at: nat, allowed: byte -> bool, k: nat)
    requires Fault(s, at, allowed).None? && k < |s|
    ensures allowed(s[k]) || s[k] == PERCENT || IsHex(s[k])
    decreases |s|
  {
    var n := if s[0] == PERCENT then 3 else 1;
    if k >= n {
      FaultlessBytes(s[n..], at + n, allowed, k - n);
    }
  }

  method CheckComponent(s: seq<byte>, base: nat, allowed: byte -> bool) returns (fault: Option<UrlError>)
    ensures fault == Fault(s, base, allowed)
  {
    hide IsHex;
    var i := 0;
    assert s[0..] == s;
    while i < |s|
      invariant 0 <= i <= |s| && Fault(s, base, allowed) == Fault(s[i..], base + i, allowed)
      decreases |s| - i
    {
      ghost var t := s[i..];
      if s[i] != PERCENT {
        assert t[1..] == s[i + 1..];
        if !allowed(s[i]) {
          return Some(InvalidCharacter(base + i));
        }
        i := i + 1;
      } else {
        if i + 3 > |s| {
          return Some(InvalidPercentEncoding(base + i));
        }
        assert t[1] == s[i + 1] && t[2] == s[i + 2] && t[3..] == s[i + 3..];
        if !IsHex(s[i + 1]) || !IsHex(s[i + 2]) {
          return Some(InvalidPercentEncoding(base + i));
        }
        i := i + 3;
      }
    }
    fault := None;
  }

  /** Whatever is encoded is a valid part of every component that allows unreserved bytes. */
  lemma {:induction false} EncodedIsValid(s: seq<byte>, rest: seq<byte>, at: nat, allowed: byte -> bool)
    requires forall b :: IsUnreserved(b) ==> allowed(b)
    ensures Fault(Encode(s) + rest, at, allowed) == Fault(rest, at + |Encode(s)|, allowed)
    decreases |s|
  {
    if s == [] {
      assert Encode(s) + rest == rest;
    } else {
      var init, b := s[..|s| - 1], s[|s| - 1];
      assert Encode(s) + rest == Encode(init) + (EncodeByte(b) + rest);
      EncodedIsValid(init, EncodeByte(b) + rest, at, allowed);
      var t := EncodeByte(b) + rest;
      assert t[|EncodeByte(b)|..] == rest;
    }
  }
}
