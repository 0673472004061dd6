/** Base64: the scalar codec and its round trips. */
module Base64 {
  import opened Bytes

  datatype Base64Error = InvalidLength | InvalidCharacter(b: byte) | InvalidPadding

  const PAD: byte := '=' as int

  /** The standard alphabet. */
  function Char(v: nat): byte
    requires v < 64
  {
    if v < 26 then 'A' as int + v
    else if v < 52 then 'a' as int + v - 26
    else if v < 62 then '0' as int + v - 52
    else if v == 62 then '+' as int
    else '/' as int
  }

  function CharValue(c: byte): (r: Option<nat>)
    ensures r.Some? ==> r.value < 64
  {
    if 'A' as int <= c <= 'Z' as int then Some(c as int - 'A' as int)
    else if 'a' as int <= c <= 'z' as int then Some(c as int - 'a' as int + 26)
    else if '0' as int <= c <= '9' as int then Some(c as int - '0' as int + 52)
    else if c == '+' as int then Some(62)
    else if c == '/' as int then Some(63)
    else None
  }

  lemma CharRoundTrip(v: nat)
    requires v < 64
    ensures CharValue(Char(v)) == Some(v) && Char(v) != PAD && !IsSpace(Char(v))
  {
  }

  // ----- The scalar encoder -----

  /** Three bytes as one number. */
  function Triplet(a: byte, b: byte, c: byte): (n: nat)
    ensures n < 0x100_0000
  {
    a as int * 0x10000 + b as int * 0x100 + c as int
  }

  function Quad(n: nat): (q: seq<byte>)
    requires n < 0x100_0000
    ensures |q| == 4
  {
    [Char(n / 0x40000), Char(n / 0x1000 % 64), Char(n / 0x40 % 64), Char(n % 64)]
  }

  function Encode(s: seq<byte>): (r: seq<byte>)
    ensures |r| == EncodedLength(|s|)
    decreases |s|
  {
    if s == [] then []
    else if |s| == 1 then Quad(Triplet(s[0], 0, 0))[..2] + [PAD, PAD]
    else if |s| == 2 then Quad(Triplet(s[0], s[1], 0))[..3] + [PAD]
    else Quad(Triplet(s[0], s[1], s[2])) + Encode(s[3..])
  }

  function EncodedLength(n: nat): nat { (n + 2) / 3 * 4 }

  // ----- Decoding -----

  predicate IsSpace(b: byte) { b == 32 || b == 9 || b == 10 || b == 12 || b == 13 }

  function Strip(s: seq<byte>): seq<byte> {
    if s == [] then [] else if IsSpace(s[0]) then Strip(s[1..]) else [s[0]] + Strip(s[1..])
  }

  /** The bytes of one quartet. */
  function DecodeQuad(a: byte, b: byte, c: byte, d: byte): Result<seq<byte>, Base64Error> {
    var va, vb, vc, vd := CharValue(a), CharValue(b), CharValue(c), CharValue(d);
    if va.None? then Err(InvalidCharacter(a))
    else if vb.None? then Err(InvalidCharacter(b))
    else if c != PAD && vc.None? then Err(InvalidCharacter(c))
    else if d != PAD && vd.None? then Err(InvalidCharacter(d))
    else if c == PAD && d != PAD then Err(InvalidPadding)
    else
      var n := Number(va.value, vb.value, if c == PAD then 0 else vc.value, if d == PAD then 0 else vd.value);
      Ok(BytesOf(n)[..if c == PAD then 1 else if d == PAD then 2 else 3])
  }

  /** The three bytes of a 24-bit number. */
  function BytesOf(n: nat): (s: seq<byte>)
    requires n < 0x100_0000
    ensures |s| == 3
  {
    [n / 0x10000, n / 0x100 % 256, n % 256]
  }

  function Number(a: nat, b: nat, c: nat, d: nat): (n: nat)
    requires a < 64 && b < 64 && c < 64 && d < 64
    ensures n < 0x100_0000
  {
    a * 0x40000 + b * 0x1000 + c * 0x40 + d
  }

  function DecodeQuads(s: seq<byte>): Result<seq<byte>, Base64Error>
    decreases |s|
  {
    if s == [] then Ok([])
    else if |s| < 4 then Err(InvalidLength)
    else
      match DecodeQuad(s[0], s[1], s[2], s[3])
      case Err(e) => Err(e)
      case Ok(front) =>
        match DecodeQuads(s[4..])
        case Err(e) => Err(e)
        case Ok(rest) => Ok(front + rest)
  }

  function Decode(s: seq<byte>): Result<seq<byte>, Base64Error> {
    var t := Strip(s);
    if |t| % 4 != 0 then Err(InvalidLength) else DecodeQuads(t)
  }

  // ----- The round trip -----

  /** Sextets survive the alphabet. */
  lemma DecodeChars(a: nat, b: nat, c: nat, d: nat)
    requires a < 64 && b < 64 && c < 64 && d < 64
    ensures DecodeQuad(Char(a), Char(b), Char(c), Char(d)) == Ok(BytesOf(Number(a, b, c, d))[..3])
    ensures DecodeQuad(Char(a), Char(b), Char(c), PAD) == Ok(BytesOf(Number(a, b, c, 0))[..2])
    ensures DecodeQuad(Char(a), Char(b), PAD, PAD) == Ok(BytesOf(Number(a, b, 0, 0))[..1])
  {
    hide Char, CharValue, Number, BytesOf;
    CharRoundTrip(a);
    CharRoundTrip(b);
    CharRoundTrip(c);
    CharRoundTrip(d);
  }

  lemma Sextets(n: nat)
    requires n < 0x100_0000
    ensures n / 0x40000 < 64 && Number(n / 0x40000, n / 0x1000 % 64, n / 0x40 % 64, n % 64) == n
  {
    var m1 := n / 0x40;
    var m2 := m1 / 0x40;
    var m3 := m2 / 0x40;
    assert n == 64 * m1 + n % 64 && m1 == 64 * m2 + m1 % 64 && m2 == 64 * m3 + m2 % 64;
    assert m2 == n / 0x1000 && m3 == n / 0x40000;
  }

  lemma Octets(a: byte, b: byte, c: byte)
    ensures BytesOf(Triplet(a, b, c)) == [a, b, c]
  {
    var n := Triplet(a, b, c);
    ByteSplit(a as int * 256 + b as int, c);
    ByteSplit(a, b);
    assert n / 0x10000 == n / 0x100 / 0x100;
  }

  lemma ByteSplit(m: nat, c: byte)
    ensures (m * 256 + c as int) / 256 == m && (m * 256 + c as int) % 256 == c
  {
  }

  lemma LowSextets(a: byte, b: byte)
    ensures var n := Triplet(a, 0, 0); n / 0x40 % 64 == 0 && n % 64 == 0
    ensures Triplet(a, b, 0) % 64 == 0
  {
    assert Triplet(a, 0, 0) == 64 * (64 * (a as int * 16));
    assert Triplet(a, b, 0) == 64 * (a as int * 1024 + b as int * 4);
  }

  lemma QuadParts(n: nat) returns (a: nat, b: nat, c: nat, d: nat)
    requires n < 0x100_0000
    ensures a < 64 && b < 64 && c == n / 0x40 % 64 && d == n % 64
    ensures Quad(n) == [Char(a), Char(b), Char(c), Char(d)] && Number(a, b, c, d) == n
  {
    hide Char;
    Sextets(n);
    a, b, c, d := n / 0x40000, n / 0x1000 % 64, n / 0x40 % 64, n % 64;
  }

  lemma QuadBack(x: byte, y: byte, z: byte)
    ensures var q := Quad(Triplet(x, y, z)); DecodeQuad(q[0], q[1], q[2], q[3]) == Ok([x, y, z])
  {
    hide *;
    var a, b, c, d := QuadParts(Triplet(x, y, z));
    DecodeChars(a, b, c, d);
    Octets(x, y, z);
    assert [x, y, z][..3] == [x, y, z];
  }

  lemma TailOne(x: byte)
    ensures var q := Quad(Triplet(x, 0, 0)); DecodeQuad(q[0], q[1], PAD, PAD) == Ok([x])
  {
    hide *;
    var a, b, c, d := QuadParts(Triplet(x, 0, 0));
    LowSextets(x, 0);
    DecodeChars(a, b, c, d);
    Octets(x, 0, 0);
    assert [x, 0, 0][..1] == [x];
  }

  lemma TailTwo(x: byte, y: byte)
    ensures var q := Quad(Triplet(x, y, 0)); DecodeQuad(q[0], q[1], q[2], PAD) == Ok([x, y])
  {
    hide *;
    var a, b, c, d := QuadParts(Triplet(x, y, 0));
    LowSextets(x, y);
    DecodeChars(a, b, c, d);
    Octets(x, y, 0);
    assert [x, y, 0][..2] == [x, y];
  }

  lemma DecodeCons(q: seq<byte>, front: seq<byte>, rest: seq<byte>, r: seq<byte>)
    requires |q| == 4 && DecodeQuad(q[0], q[1], q[2], q[3]) == Ok(front) && DecodeQuads(rest) == Ok(r)
    ensures DecodeQuads(q + rest) == Ok(front + r)
  {
    hide DecodeQuad;
    var t := q + rest;
    assert t[0] == q[0] && t[1] == q[1] && t[2] == q[2] && t[3] == q[3] && t[4..] == rest;
  }

  lemma NothingDecodes()
    ensures DecodeQuads([]) == Ok([])
  {
  }

  lemma {:induction false} QuadsBack(s: seq<byte>)
    ensures DecodeQuads(Encode(s)) == Ok(s)
    decreases |s|
  {
    hide DecodeQuad, DecodeQuads, Quad, Triplet;
    NothingDecodes();
    if |s| == 1 {
      TailOne(s[0]);
      var q := Quad(Triplet(s[0], 0, 0))[..2] + [PAD, PAD];
      assert s == [s[0]];
      DecodeCons(q, s, [], []);
      assert Encode(s) == q + [] && s + [] == s;
    } else if |s| == 2 {
      TailTwo(s[0], s[1]);
      var q := Quad(Triplet(s[0], s[1], 0))[..3] + [PAD];
      assert s == [s[0], s[1]];
      DecodeCons(q, s, [], []);
      assert Encode(s) == q + [] && s + [] == s;
    } else if |s| > 2 {
      QuadBack(s[0], s[1], s[2]);
      QuadsBack(s[3..]);
      DecodeCons(Quad(Triplet(s[0], s[1], s[2])), [s[0], s[1], s[2]], Encode(s[3..]), s[3..]);
      assert s == [s[0], s[1], s[2]] + s[3..];
    }
  }

  lemma LengthIsFours(n: nat)
    ensures EncodedLength(n) % 4 == 0
  {
  }

  /** Encoded text, with white space inserted anywhere, decodes to the original bytes. */
  lemma DecodeUndoesEncode(s: seq<byte>, text: seq<byte>)
    requires Strip(text) == Encode(s)
    ensures Decode(text) == Ok(s)
  {
    hide DecodeQuads, Encode;
    QuadsBack(s);
    LengthIsFours(|s|);
  }

  /** Encoded text holds no white space, so it is one such text. */
  lemma {:induction false} EncodedIsStripped(s: seq<byte>)
    ensures Strip(Encode(s)) == Encode(s)
  {
    NoSpaces(s);
    StripNothing(Encode(s));
  }

  lemma {:induction false} StripNothing(t: seq<byte>)
    requires forall k :: 0 <= k < |t| ==> !IsSpace(t[k])
    ensures Strip(t) == t
    decreases |t|
  {
    if t != [] {
      StripNothing(t[1..]);
    }
  }

  lemma {:induction false} NoSpaces(s: seq<byte>)
    ensures forall k :: 0 <= k < |Encode(s)| ==> !IsSpace(Encode(s)[k])
    decreases |s|
  {
    if |s| > 2 {
      NoSpaces(s[3..]);
    }
  }

  // ----- Padding -----

  /** A quartet of the alphabet, with padding only in its last one or two places. */
  predicate IsQuartet(q: seq<byte>) {
    && |q| == 4 && CharValue(q[0]).Some? && CharValue(q[1]).Some?
    && ((q[2] == PAD && q[3] == PAD) || (CharValue(q[2]).Some? && (q[3] == PAD || CharValue(q[3]).Some?)))
  }

  predicate AllQuartets(s: seq<byte>)
    decreases |s|
  {
    s == [] || (|s| >= 4 && IsQuartet(s[..4]) && AllQuartets(s[4..]))
  }

  /** Decoding succeeds exactly when every quartet is well formed; padding is allowed in each. */
  lemma {:induction false} AcceptsQuartets(s: seq<byte>)
    ensures DecodeQuads(s).Ok? <==> AllQuartets(s)
    decreases |s|
  {
    hide Number, BytesOf;
    if |s| >= 4 {
      AcceptsQuartets(s[4..]);
      assert CharValue(PAD).None?;
    }
  }

  lemma DecodeIff(text: seq<byte>)
    ensures Decode(text).Ok? <==> |Strip(text)| % 4 == 0 && AllQuartets(Strip(text))
  {
    hide DecodeQuads, AllQuartets;
    AcceptsQuartets(Strip(text));
  }

  lemma EncodeOne(x: byte)
    ensures var e, q := Encode([x]), Quad(Triplet(x, 0, 0)); |e| == 4 && e == [q[0], q[1], PAD, PAD]
    ensures DecodeQuads(Encode([x])) == Ok([x])
  {
    QuadsBack([x]);
    hide Quad, Triplet;
  }

  /** Padding before the last quartet is accepted: the pieces of two encodings decode as one. */
  lemma PaddingInTheMiddle(x: byte, y: byte)
    ensures Decode(Encode([x]) + Encode([y])) == Ok([x, y])
  {
    TailOne(x);
    NoSpaces([x]);
    NoSpaces([y]);
    EncodeOne(x);
    EncodeOne(y);
    hide DecodeQuad, Quad, Triplet, Encode, IsSpace;
    var t := Encode([x]) + Encode([y]);
    StripNothing(t);
    assert t[4..] == Encode([y]);
    assert [x] + [y] == [x, y];
  }

  // ----- The other round trip -----

  /** Padding only in the last quartet, whose unused bits are zero. */
  predicate Canonical(s: seq<byte>)
    decreases |s|
  {
    if |s| <= 4 then |s| == 4 ==> SpareBitsClear(s) else PAD !in s[..4] && Canonical(s[4..])
  }

  predicate SpareBitsClear(q: seq<byte>)
    requires |q| == 4
  {
    if q[2] == PAD then CharValue(q[1]).Some? && CharValue(q[1]).value % 16 == 0
    else q[3] == PAD ==> CharValue(q[2]).Some? && CharValue(q[2]).value % 4 == 0
  }

  lemma CharOfValue(c: byte)
    ensures CharValue(c).Some? ==> Char(CharValue(c).value) == c
    ensures CharValue(PAD).None?
  {
  }

  lemma CutSextet(q: nat, r: nat)
    requires r < 64
    ensures (64 * q + r) / 64 == q && (64 * q + r) % 64 == r
  {
  }

  lemma CutByte(q: nat, r: nat)
    requires r < 256
    ensures (256 * q + r) / 256 == q && (256 * q + r) % 256 == r
  {
  }

  lemma CutTwelve(q: nat, r: nat)
    requires r < 0x1000
    ensures (0x1000 * q + r) / 0x1000 == q
  {
  }

  lemma CutSixteen(q: nat, r: nat)
    requires r < 0x10000
    ensures (0x10000 * q + r) / 0x10000 == q
  {
  }

  lemma CutEighteen(q: nat, r: nat)
    requires r < 0x40000
    ensures (0x40000 * q + r) / 0x40000 == q
  {
  }

  /** The first two sextets of a number whose lowest twelve bits are empty. */
  lemma TwoSextets(a: nat, b: nat, r: nat)
    requires a < 64 && b < 64 && r < 0x1000
    ensures var m := 0x40000 * a + 0x1000 * b + r; m / 0x40000 == a && m / 0x1000 % 64 == b
  {
    var m := 0x40000 * a + 0x1000 * b + r;
    CutEighteen(a, 0x1000 * b + r);
    CutTwelve(64 * a + b, r);
    CutSextet(a, b);
    assert m == 0x40000 * a + (0x1000 * b + r) && m == 0x1000 * (64 * a + b) + r;
  }

  /** One byte of two sextets: the second one loses its low four bits. */
  lemma SpareSixteen(a: nat, b: nat)
    requires a < 64 && b < 64
    ensures var m := Triplet(Number(a, b, 0, 0) / 0x10000, 0, 0); m / 0x40000 == a && m / 0x1000 % 64 == b - b % 16
  {
    var h, k := b / 16, b % 16;
    assert b == 16 * h + k && h < 4 && k < 16;
    var x := 4 * a + h;
    assert Number(a, b, 0, 0) == 0x10000 * x + 0x1000 * k;
    assert Triplet(x, 0, 0) == 0x40000 * a + 0x1000 * (16 * h) + 0;
    hide Number, Triplet;
    CutSixteen(x, 0x1000 * k);
    TwoSextets(a, 16 * h, 0);
  }

  lemma UpperBytes(x: nat, y: nat, r: nat)
    requires y < 256 && r < 256
    ensures var n := 0x10000 * x + 0x100 * y + r; n / 0x10000 == x && n / 0x100 % 256 == y
  {
    var n := 0x10000 * x + 0x100 * y + r;
    CutSixteen(x, 0x100 * y + r);
    CutByte(256 * x + y, r);
    CutByte(x, y);
    assert n == 0x10000 * x + (0x100 * y + r) && n == 256 * (256 * x + y) + r;
  }

  lemma ThreeSextets(a: nat, b: nat, c: nat)
    requires a < 64 && b < 64 && c < 64
    ensures var m := 0x40000 * a + 0x1000 * b + 0x40 * c; m / 0x40000 == a && m / 0x1000 % 64 == b && m / 0x40 % 64 == c
  {
    var m := 0x40000 * a + 0x1000 * b + 0x40 * c;
    TwoSextets(a, b, 0x40 * c);
    CutSextet(64 * (64 * a + b) + c, 0);
    CutSextet(64 * a + b, c);
    assert m == 64 * (64 * (64 * a + b) + c) + 0;
  }

  /** Two bytes of three sextets: the third one loses its low two bits. */
  lemma SpareEight(a: nat, b: nat, c: nat)
    requires a < 64 && b < 64 && c < 64
    ensures var n := Number(a, b, c, 0); var m := Triplet(n / 0x10000, n / 0x100 % 256, 0);
      m / 0x40000 == a && m / 0x1000 % 64 == b && m / 0x40 % 64 == c - c % 4
  {
    var h, k, i, j := b / 16, b % 16, c / 4, c % 4;
    assert b == 16 * h + k && h < 4 && k < 16 && c == 4 * i + j && i < 16 && j < 4;
    var x, y := 4 * a + h, 16 * k + i;
    assert Number(a, b, c, 0) == 0x10000 * x + 0x100 * y + 0x40 * j;
    assert Triplet(x, y, 0) == 0x40000 * a + 0x1000 * b + 0x40 * (4 * i);
    hide Number, Triplet;
    UpperBytes(x, y, 0x40 * j);
    ThreeSextets(a, b, 4 * i);
  }

  lemma TripletOfBytes(n: nat)
    requires n < 0x100_0000
    ensures var s := BytesOf(n); Triplet(s[0], s[1], s[2]) == n
  {
    assert n / 0x100 / 256 == n / 0x10000;
  }

  lemma NumberQuad(a: nat, b: nat, c: nat, d: nat)
    requires a < 64 && b < 64 && c < 64 && d < 64
    ensures Quad(Number(a, b, c, d)) == [Char(a), Char(b), Char(c), Char(d)]
  {
    hide Char;
    var n := Number(a, b, c, d);
    assert n / 0x40 == 4096 * a + 64 * b + c;
    assert n / 0x1000 == 64 * a + b;
    assert n / 0x40000 == a;
  }

  /** A quartet without padding is what its three bytes encode to. */
  lemma FullQuartetBack(q: seq<byte>, rest: seq<byte>)
    requires IsQuartet(q) && PAD !in q
    ensures var r := DecodeQuad(q[0], q[1], q[2], q[3]);
      r.Ok? && |r.value| == 3 && Encode(r.value + rest) == q + Encode(rest)
  {
    CharOfValue(q[0]);
    CharOfValue(q[1]);
    CharOfValue(q[2]);
    CharOfValue(q[3]);
    var a, b, c, d := CharValue(q[0]).value, CharValue(q[1]).value, CharValue(q[2]).value, CharValue(q[3]).value;
    NumberQuad(a, b, c, d);
    TripletOfBytes(Number(a, b, c, d));
    hide Char, CharValue, Quad, Triplet, Number, BytesOf;
    var r := BytesOf(Number(a, b, c, d));
    assert r[..3] == r && (r + rest)[3..] == rest;
    assert q == [q[0], q[1], q[2], q[3]];
  }

  /** A padded quartet is what its bytes encode to exactly when its unused bits are zero. */
  lemma PaddedQuartetBack(q: seq<byte>)
    requires IsQuartet(q) && PAD in q
    ensures var r := DecodeQuad(q[0], q[1], q[2], q[3]); r.Ok? && (Encode(r.value) == q <==> SpareBitsClear(q))
  {
    CharOfValue(q[0]);
    CharOfValue(q[1]);
    CharOfValue(q[2]);
    var a, b := CharValue(q[0]).value, CharValue(q[1]).value;
    CharRoundTrip(b - b % 16);
    CharRoundTrip(b);
    if q[2] == PAD {
      SpareSixteen(a, b);
      hide Char, CharValue, Triplet, Number;
      var r := BytesOf(Number(a, b, 0, 0))[..1];
      assert Encode(r) == [Char(a), Char(b - b % 16), PAD, PAD];
      assert q == [q[0], q[1], PAD, PAD];
    } else {
      var c := CharValue(q[2]).value;
      CharRoundTrip(c - c % 4);
      CharRoundTrip(c);
      SpareEight(a, b, c);
      hide Char, CharValue, Triplet, Number;
      var r := BytesOf(Number(a, b, c, 0))[..2];
      assert Encode(r) == [Char(a), Char(b), Char(c - c % 4), PAD];
      assert q == [q[0], q[1], q[2], PAD];
    }
  }

  /** Encoding pads only at the end. */
  lemma {:induction false} PadsAtTheEnd(s: seq<byte>, k: nat)
    requires k + 2 < |Encode(s)|
    ensures Encode(s)[k] != PAD
    decreases |s|
  {
    hide Triplet, Char;
    assert forall v :: 0 <= v < 64 ==> Char(v) != PAD by {
      forall v | 0 <= v < 64 ensures Char(v) != PAD { CharRoundTrip(v); }
    }
    if |s| >= 3 && k >= 4 {
      PadsAtTheEnd(s[3..], k - 4);
    }
  }

  lemma {:induction false} QuartetsReencode(s: seq<byte>)
    requires DecodeQuads(s).Ok?
    ensures Encode(DecodeQuads(s).value) == s <==> Canonical(s)
    decreases |s|
  {
    AcceptsQuartets(s);
    if |s| >= 4 {
      var q, t := s[..4], s[4..];
      AcceptsQuartets(t);
      if PAD !in q {
        FullQuartetBack(q, DecodeQuads(t).value);
        QuartetsReencode(t);
        hide DecodeQuad, Encode, IsQuartet;
        assert s == q + t;
      } else if t == [] {
        PaddedQuartetBack(q);
        hide DecodeQuad, Encode, IsQuartet, SpareBitsClear;
        assert s == q;
        var r := DecodeQuad(q[0], q[1], q[2], q[3]).value;
        assert r + [] == r;
      } else {
        var e := Encode(DecodeQuads(s).value);
        if e == s {
          var k :| 0 <= k < 4 && q[k] == PAD;
          PadsAtTheEnd(DecodeQuads(s).value, k);
        }
      }
    }
  }

  /** Encoding what was decoded gives the text back, without its white space, exactly when its
      padding is confined to the last quartet and the bits that quartet does not use are zero. */
  lemma ReencodesIff(text: seq<byte>)
    requires Decode(text).Ok?
    ensures Encode(Decode(text).value) == Strip(text) <==> Canonical(Strip(text))
  {
    QuartetsReencode(Strip(text));
  }
}
