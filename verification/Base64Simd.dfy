/** The vector kernel of the Base64 encoder, instruction by instruction, and that it computes
    what the scalar encoder does. */
module Base64Simd {
  import opened Bytes
  import opened Base64

  // ----- Bitwise operations on words -----

  function And(x: nat, m: nat): nat
    decreases x
  {
    if x == 0 || m == 0 then 0 else (if x % 2 == 1 && m % 2 == 1 then 1 else 0) + 2 * And(x / 2, m / 2)
  }

  function Or(x: nat, y: nat): nat
    decreases x + y
  {
    if x == 0 then y else if y == 0 then x
    else (if x % 2 == 1 || y % 2 == 1 then 1 else 0) + 2 * Or(x / 2, y / 2)
  }

  function Shl(m: nat, k: nat): nat
    decreases k
  {
    if k == 0 then m else 2 * Shl(m, k - 1)
  }

  function Shr(x: nat, k: nat): nat
    decreases k
  {
    if k == 0 then x else Shr(x / 2, k - 1)
  }

  lemma {:induction false} AndEven(x: nat, m: nat)
    ensures And(x, 2 * m) == 2 * And(x / 2, m)
  {
    assert 2 * m % 2 == 0 && 2 * m / 2 == m;
  }

  /** Masking commutes with shifting. */
  lemma {:induction false} AndShift(x: nat, k: nat, m: nat)
    ensures And(x, Shl(m, k)) == Shl(And(Shr(x, k), m), k)
    decreases k
  {
    hide And;
    if k > 0 {
      AndEven(x, Shl(m, k - 1));
      AndShift(x / 2, k - 1, m);
    }
  }

  /** A mask of six ones keeps the remainder. */
  lemma {:induction false} AndSixOnes(x: nat)
    ensures And(x, 63) == x % 64
  {
    AndOdd(x, 31);
    AndOdd(x / 2, 15);
    AndOdd(x / 4, 7);
    AndOdd(x / 8, 3);
    AndOdd(x / 16, 1);
    AndOdd(x / 32, 0);
    hide And;
    Halvings(x);
    assert And(x / 64, 0) == 0 by { AndNothing(x / 64); }
  }

  lemma {:induction false} AndNothing(x: nat)
    ensures And(x, 0) == 0
  {
  }

  lemma {:induction false} AndOdd(x: nat, m: nat)
    ensures And(x, 2 * m + 1) == x % 2 + 2 * And(x / 2, m)
  {
    assert (2 * m + 1) % 2 == 1 && (2 * m + 1) / 2 == m;
  }

  lemma {:induction false} Halvings(x: nat)
    ensures x / 2 / 2 == x / 4 && x / 4 / 2 == x / 8 && x / 8 / 2 == x / 16 && x / 16 / 2 == x / 32
      && x / 32 / 2 == x / 64
    ensures x / 64 / 2 == x / 128 && x / 128 / 2 == x / 256 && x / 256 / 2 == x / 512 && x / 512 / 2 == x / 1024
  {
  }

  lemma {:induction false} Shifts(x: nat)
    ensures Shr(x, 4) == x / 16 && Shr(x, 6) == x / 64 && Shr(x, 8) == x / 256 && Shr(x, 10) == x / 1024
    ensures Shl(x, 4) == 16 * x && Shl(x, 6) == 64 * x && Shl(x, 8) == 256 * x && Shl(x, 10) == 1024 * x
  {
    Halvings(x);
  }

  /** The four masks of the kernel pick six bits each. */
  lemma {:induction false} Masks(x: nat)
    requires x < 0x10000
    ensures And(x, 0xFC00) == x / 1024 * 1024 && And(x, 0x0FC0) == x / 64 % 64 * 64
    ensures And(x, 0x03F0) == x / 16 % 64 * 16 && And(x, 0x003F) == x % 64
  {
    hide And, Shl, Shr;
    Shifts(x);
    Shifts(63);
    AndShift(x, 10, 63);
    AndShift(x, 6, 63);
    AndShift(x, 4, 63);
    AndSixOnes(x / 1024);
    AndSixOnes(x / 64);
    AndSixOnes(x / 16);
    AndSixOnes(x);
    Shifts(x / 1024 % 64);
    Shifts(x / 64 % 64);
    Shifts(x / 16 % 64);
  }

  lemma {:induction false} OrEven(a: nat, y: nat)
    ensures Or(a, 2 * y) == a % 2 + 2 * Or(a / 2, y)
  {
  }

  lemma {:induction false} OrShift(a: nat, k: nat, b: nat)
    requires Shr(a, k) == 0
    ensures Or(a, Shl(b, k)) == a + Shl(b, k)
    decreases k
  {
    if k > 0 {
      OrEven(a, Shl(b, k - 1));
      OrShift(a / 2, k - 1, b);
    }
  }

  lemma {:induction false} OrBytes(a: nat, b: nat)
    requires a < 256
    ensures Or(a, 256 * b) == a + 256 * b
  {
    hide Or, Shl, Shr;
    Shifts(a);
    Shifts(b);
    OrShift(a, 8, b);
  }

  // ----- Sixteen-bit lanes -----

  function Word(lo: byte, hi: byte): (w: nat)
    ensures w < 0x10000
  {
    lo as int + 256 * hi as int
  }

  function MulHi(x: nat, y: nat): nat { x * y / 0x10000 }

  function MulLo(x: nat, y: nat): nat { x * y % 0x10000 }

  /** The even words of the constants 0x0FC0FC00, 0x04000040, 0x003F03F0 and 0x01000010. */
  function LowWord(x: nat): nat { Or(MulHi(And(x, 0xFC00), 0x0040), MulLo(And(x, 0x03F0), 0x0010)) }

  /** Their odd words. */
  function HighWord(x: nat): nat { Or(MulHi(And(x, 0x0FC0), 0x0400), MulLo(And(x, 0x003F), 0x0100)) }

  lemma {:induction false} Products(k: nat)
    requires k < 64
    ensures MulHi(k * 1024, 0x0040) == k && MulHi(k * 64, 0x0400) == k
    ensures MulLo(k * 16, 0x0010) == 256 * k && MulLo(k, 0x0100) == 256 * k
  {
    assert k * 1024 * 0x0040 == k * 0x10000 && k * 64 * 0x0400 == k * 0x10000;
    assert k * 16 * 0x0010 == 256 * k;
  }

  lemma {:induction false} LowWordIs(x: nat)
    requires x < 0x10000
    ensures LowWord(x) == x / 1024 + 256 * (x / 16 % 64)
  {
    hide And, Or, MulHi, MulLo;
    Masks(x);
    Products(x / 1024);
    Products(x / 16 % 64);
    OrBytes(x / 1024, x / 16 % 64);
  }

  lemma {:induction false} HighWordIs(x: nat)
    requires x < 0x10000
    ensures HighWord(x) == x / 64 % 64 + 256 * (x % 64)
  {
    hide And, Or, MulHi, MulLo;
    Masks(x);
    Products(x / 64 % 64);
    Products(x % 64);
    OrBytes(x / 64 % 64, x % 64);
  }

  /** The kernels without a high multiply shift instead, to the same effect. */
  lemma {:induction false} ShiftsReplaceMulHi(x: nat)
    requires x < 0x10000
    ensures MulHi(And(x, 0xFC00), 0x0040) == And(x, 0xFC00) / 1024
    ensures MulHi(And(x, 0x0FC0), 0x0400) == And(x, 0x0FC0) / 64
  {
    hide And, MulHi;
    Masks(x);
    Products(x / 1024);
    Products(x / 64 % 64);
  }

  // ----- The vector kernel -----

  const SHUFFLE: seq<nat> := [1, 0, 2, 1, 4, 3, 5, 4, 7, 6, 8, 7, 10, 9, 11, 10]

  /** Word `i` of the shuffled vector: two bytes picked by the mask, in little-endian order. */
  function ShuffledWord(v: seq<byte>, i: nat): (w: nat)
    requires |v| == 16 && i < 8
    ensures w < 0x10000
  {
    Word(v[SHUFFLE[2 * i]], v[SHUFFLE[2 * i + 1]])
  }

  function LaneWord(v: seq<byte>, i: nat): nat
    requires |v| == 16 && i < 8
  {
    if i % 2 == 0 then LowWord(ShuffledWord(v, i)) else HighWord(ShuffledWord(v, i))
  }

  /** Byte `k` of the reshuffled vector. */
  function Reshuffled(v: seq<byte>, k: nat): nat
    requires |v| == 16 && k < 16
  {
    if k % 2 == 0 then LaneWord(v, k / 2) % 256 else LaneWord(v, k / 2) / 256
  }

  const OFFSETS: seq<byte> := [65, 71, 252, 252, 252, 252, 252, 252, 252, 252, 252, 252, 237, 240, 0, 0]

  /** A signed byte compare against 25, a saturating subtraction of 51 and one table lookup. */
  function Translate(v: byte): byte {
    var saturated := if v < 51 then 0 else v as int - 51;
    var above := if 25 < v < 128 then 255 else 0;
    var index := (saturated - above) % 256;
    var offset := if index >= 128 then 0 else OFFSETS[index % 16];
    (v as int + offset as int) % 256
  }

  lemma {:induction false} TranslateIsChar(v: byte)
    requires v < 64
    ensures Translate(v) == Char(v)
  {
    var saturated := if v < 51 then 0 else v as int - 51;
    var above := if 25 < v < 128 then 255 else 0;
    var index := (saturated - above) % 256;
    if v < 26 {
      assert index == 0;
    } else if v < 52 {
      assert index == 1;
    } else {
      assert index == v - 50;
      assert v < 62 ==> OFFSETS[index] == 252;
    }
  }

  /** Sixteen characters for the first twelve bytes of a vector. */
  function EncodeVector(v: seq<byte>): (r: seq<byte>)
    requires |v| == 16
    ensures |r| == 16
  {
    seq(16, k requires 0 <= k < 16 => Translate(Reshuffled(v, k) % 256))
  }

  lemma {:induction false} WordOf(v: seq<byte>, j: nat)
    requires |v| == 16 && j < 4
    ensures ShuffledWord(v, 2 * j) == Word(v[3 * j + 1], v[3 * j])
    ensures ShuffledWord(v, 2 * j + 1) == Word(v[3 * j + 2], v[3 * j + 1])
  {
    hide Word;
    if j == 0 {
    } else if j == 1 {
    } else if j == 2 {
    } else {
    }
  }

  lemma {:induction false} WordSextets(a: byte, b: byte, c: byte)
    ensures var n := Triplet(a, b, c);
      && Word(b, a) / 1024 == n / 0x40000 && Word(b, a) / 16 % 64 == n / 0x1000 % 64
      && Word(c, b) / 64 % 64 == n / 0x40 % 64 && Word(c, b) % 64 == n % 64
  {
    var n := Triplet(a, b, c);
    assert n == 256 * Word(b, a) + c as int && n == 0x10000 * a as int + Word(c, b);
    HighPart(Word(b, a), c);
    LowPart(a, Word(c, b));
  }

  lemma {:induction false} HighPart(w: nat, c: byte)
    ensures var n := 256 * w + c as int; n / 0x40000 == w / 1024 && n / 0x1000 == w / 16
  {
  }

  lemma {:induction false} LowPart(a: byte, w: nat)
    requires w < 0x10000
    ensures var n := 0x10000 * a as int + w; n / 0x40 % 64 == w / 64 % 64 && n % 64 == w % 64
  {
    var n := 0x10000 * a as int + w;
    assert n == 64 * (1024 * a as int) + w;
    assert n / 64 == 1024 * a as int + w / 64;
    assert n / 64 == 64 * (16 * a as int) + w / 64;
  }

  /** Lane `j` holds the four sextets of triplet `j`. */
  lemma {:induction false} LaneIsQuad(v: seq<byte>, j: nat)
    requires |v| == 16 && j < 4
    ensures EncodeVector(v)[4 * j..4 * j + 4] == Quad(Triplet(v[3 * j], v[3 * j + 1], v[3 * j + 2]))
  {
    hide LowWord, HighWord, Word, Triplet, ShuffledWord, LaneWord, EncodeVector, Char;
    var a, b, c := v[3 * j], v[3 * j + 1], v[3 * j + 2];
    LaneWords(v, j);
    LowWordIs(Word(b, a));
    HighWordIs(Word(c, b));
    WordSextets(a, b, c);
    var n := Triplet(a, b, c);
    LaneBytes(v, j, n / 0x40000, n / 0x1000 % 64, n / 0x40 % 64, n % 64);
  }

  lemma {:induction false} LaneWords(v: seq<byte>, j: nat)
    requires |v| == 16 && j < 4
    ensures LaneWord(v, 2 * j) == LowWord(Word(v[3 * j + 1], v[3 * j]))
    ensures LaneWord(v, 2 * j + 1) == HighWord(Word(v[3 * j + 2], v[3 * j + 1]))
  {
    hide LowWord, HighWord, Word, ShuffledWord;
    WordOf(v, j);
    assert 2 * j % 2 == 0 && (2 * j + 1) % 2 == 1;
  }

  lemma {:induction false} Unpack(v: seq<byte>, j: nat, s0: nat, s1: nat, s2: nat, s3: nat)
    requires |v| == 16 && j < 4 && s0 < 64 && s1 < 64 && s2 < 64 && s3 < 64
    requires LaneWord(v, 2 * j) == s0 + 256 * s1 && LaneWord(v, 2 * j + 1) == s2 + 256 * s3
    ensures Reshuffled(v, 4 * j) == s0 && Reshuffled(v, 4 * j + 1) == s1
    ensures Reshuffled(v, 4 * j + 2) == s2 && Reshuffled(v, 4 * j + 3) == s3
  {
    hide LaneWord;
  }

  lemma {:induction false} LaneBytes(v: seq<byte>, j: nat, s0: nat, s1: nat, s2: nat, s3: nat)
    requires |v| == 16 && j < 4 && s0 < 64 && s1 < 64 && s2 < 64 && s3 < 64
    requires LaneWord(v, 2 * j) == s0 + 256 * s1 && LaneWord(v, 2 * j + 1) == s2 + 256 * s3
    ensures EncodeVector(v)[4 * j..4 * j + 4] == [Char(s0), Char(s1), Char(s2), Char(s3)]
  {
    hide LaneWord, Translate, Char, Reshuffled;
    Unpack(v, j, s0, s1, s2, s3);
    TranslateIsChar(s0);
    TranslateIsChar(s1);
    TranslateIsChar(s2);
    TranslateIsChar(s3);
    var r := EncodeVector(v);
    assert r[4 * j] == Translate(s0) && r[4 * j + 1] == Translate(s1) && r[4 * j + 2] == Translate(s2)
      && r[4 * j + 3] == Translate(s3);
  }

  // ----- Blocks, and the scalar tail -----

  /** A block of twelve bytes, loaded into a vector whose last four bytes are zero. */
  function EncodeBlock(b: seq<byte>): (r: seq<byte>)
    requires |b| == 12
    ensures |r| == 16
  {
    EncodeVector(b + [0, 0, 0, 0])
  }

  lemma {:induction false} EncodeSplits(a: seq<byte>, b: seq<byte>)
    requires |a| % 3 == 0
    ensures Encode(a + b) == Encode(a) + Encode(b)
    decreases |a|
  {
    hide Quad, Triplet, EncodedLength;
    if a == [] {
      assert a + b == b;
    } else {
      assert |a| >= 3;
      EncodeSplits(a[3..], b);
      assert (a + b)[3..] == a[3..] + b;
      assert (a + b)[0] == a[0] && (a + b)[1] == a[1] && (a + b)[2] == a[2];
    }
  }

  lemma {:induction false} EncodeThree(a: seq<byte>)
    requires |a| == 3
    ensures Encode(a) == Quad(Triplet(a[0], a[1], a[2]))
  {
    hide Quad, Triplet;
    assert a[3..] == [];
    assert Encode(a) == Quad(Triplet(a[0], a[1], a[2])) + [];
  }

  lemma {:induction false} EncodeTwelve(b: seq<byte>)
    requires |b| == 12
    ensures Encode(b) == Encode(b[..3]) + Encode(b[3..6]) + Encode(b[6..9]) + Encode(b[9..])
  {
    hide Encode;
    assert b == b[..9] + b[9..] && b[..9] == b[..6] + b[6..9] && b[..6] == b[..3] + b[3..6];
    EncodeSplits(b[..9], b[9..]);
    EncodeSplits(b[..6], b[6..9]);
    EncodeSplits(b[..3], b[3..6]);
  }

  /** The vector kernel computes what the scalar encoder does. */
  lemma {:induction false} BlockIsScalar(b: seq<byte>)
    requires |b| == 12
    ensures EncodeBlock(b) == Encode(b)
  {
    hide Encode, EncodeVector, Quad, Triplet;
    var v := b + [0, 0, 0, 0];
    var r := EncodeVector(v);
    LaneIsQuad(v, 0);
    LaneIsQuad(v, 1);
    LaneIsQuad(v, 2);
    LaneIsQuad(v, 3);
    EncodeThree(b[..3]);
    EncodeThree(b[3..6]);
    EncodeThree(b[6..9]);
    EncodeThree(b[9..]);
    EncodeTwelve(b);
    assert r == r[0..4] + r[4..8] + r[8..12] + r[12..16];
  }

  /** Whole blocks by the kernel, the rest by the scalar encoder. */
  function EncodeFast(s: seq<byte>): seq<byte>
    decreases |s|
  {
    if |s| < 12 then Encode(s) else EncodeBlock(s[..12]) + EncodeFast(s[12..])
  }

  /** The fast path and the scalar path produce the same bytes, for every input. */
  lemma {:induction false} FastIsScalar(s: seq<byte>)
    ensures EncodeFast(s) == Encode(s)
    decreases |s|
  {
    hide Encode, EncodeBlock;
    if |s| >= 12 {
      BlockIsScalar(s[..12]);
      FastIsScalar(s[12..]);
      EncodeSplits(s[..12], s[12..]);
      assert s == s[..12] + s[12..];
    }
  }

  // ----- The encoder as it writes its buffer -----

  /** Encodes whole blocks into `out`. */
  method EncodeBlocks(input: seq<byte>, out: array<byte>) returns (consumed: nat)
    modifies out
    ensures consumed <= |input| && consumed % 12 == 0 && EncodedLength(consumed) <= out.Length
    ensures out[..EncodedLength(consumed)] == Encode(input[..consumed])
  {
    hide Encode, EncodeBlock;
    var i, o := 0, 0;
    assert input[..0] == [] && Encode([]) == [] by { EncodeNothing(); }
    while i + 12 <= |input| && o + 16 <= out.Length
      invariant 0 <= i <= |input| && i % 12 == 0 && o == i / 3 * 4 <= out.Length
      invariant out[..o] == Encode(input[..i])
    {
      var b := input[i..i + 12];
      var chars := EncodeBlock(b);
      BlockIsScalar(b);
      EncodeSplits(input[..i], b);
      assert input[..i] + b == input[..i + 12];
      ghost var before := out[..o];
      forall k | 0 <= k < 16 {
        out[o + k] := chars[k];
      }
      assert out[..o + 16] == before + chars;
      i, o := i + 12, o + 16;
    }
    LengthOf(i);
    consumed := i;
  }

  lemma {:induction false} EncodeNothing()
    ensures Encode([]) == []
  {
  }

  lemma {:induction false} LengthOf(i: nat)
    requires i % 3 == 0
    ensures EncodedLength(i) == i / 3 * 4
  {
  }

  /** Writes the four characters of one group. */
  method PutQuad(out: array<byte>, o: nat, q: seq<byte>)
    requires |q| == 4 && o + 4 <= out.Length
    modifies out
    ensures out[..o] == old(out[..o]) && out[o..o + 4] == q && out[o + 4..] == old(out[o + 4..])
  {
    out[o], out[o + 1], out[o + 2], out[o + 3] := q[0], q[1], q[2], q[3];
  }

  /** Encodes the last one or two bytes, with padding. */
  method PutTail(tail: seq<byte>, out: array<byte>, o: nat)
    requires |tail| < 3 && o + EncodedLength(|tail|) == out.Length
    modifies out
    ensures out[..] == old(out[..o]) + Encode(tail)
  {
    hide Quad, Triplet, Encode;
    LengthStep(|tail|);
    if tail == [] {
      EncodeNothing();
      assert out[..] == out[..o] + [];
      return;
    }
    var q := if |tail| == 1 then Quad(Triplet(tail[0], 0, 0))[..2] + [PAD,
      PAD] else Quad(Triplet(tail[0], tail[1], 0))[..3] + [PAD];
    EncodeTail(tail);
    PutQuad(out, o, q);
    assert out[..] == out[..o] + out[o..o + 4];
  }

  /** Encodes what is left into `out` from position `at` on. */
  method EncodeScalar(input: seq<byte>, out: array<byte>, at: nat)
    requires at + EncodedLength(|input|) == out.Length
    modifies out
    ensures out[..] == old(out[..at]) + Encode(input)
  {
    hide Quad, Triplet, Encode, EncodedLength;
    var i, o := 0, at;
    EncodeNothing();
    assert input[..0] == [] && out[..o] == old(out[..at]) + [];
    while i + 3 <= |input|
      invariant 0 <= i <= |input| && i % 3 == 0 && at <= o && o + EncodedLength(|input| - i) == out.Length
      invariant out[..o] == old(out[..at]) + Encode(input[..i])
    {
      var t := input[i..i + 3];
      EncodeThree(t);
      EncodeSplits(input[..i], t);
      assert input[..i] + t == input[..i + 3];
      LengthStep(|input| - i);
      ghost var before := out[..o];
      PutQuad(out, o, Quad(Triplet(input[i], input[i + 1], input[i + 2])));
      assert out[..o + 4] == before + Encode(t);
      i, o := i + 3, o + 4;
    }
    var tail := input[i..];
    EncodeSplits(input[..i], tail);
    assert input[..i] + tail == input;
    PutTail(tail, out, o);
  }

  lemma {:induction false} EncodeTail(t: seq<byte>)
    requires 1 <= |t| <= 2
    ensures |t| == 1 ==> Encode(t) == Quad(Triplet(t[0], 0, 0))[..2] + [PAD, PAD]
    ensures |t| == 2 ==> Encode(t) == Quad(Triplet(t[0], t[1], 0))[..3] + [PAD]
  {
  }

  lemma {:induction false} LengthStep(n: nat)
    ensures n >= 3 ==> EncodedLength(n) == 4 + EncodedLength(n - 3)
    ensures 0 < n < 3 ==> EncodedLength(n) == 4
    ensures n == 0 ==> EncodedLength(n) == 0
  {
  }

  lemma {:induction false} LengthSplits(consumed: nat, n: nat)
    requires consumed % 3 == 0 && consumed <= n
    ensures EncodedLength(consumed) + EncodedLength(n - consumed) == EncodedLength(n)
  {
    var k := consumed / 3;
    assert consumed == 3 * k;
    assert (n + 2) / 3 == k + (n - consumed + 2) / 3;
  }

  /** The whole encoder: blocks first, then the scalar tail. */
  method EncodeBytes(input: seq<byte>) returns (text: seq<byte>)
    ensures text == Encode(input)
  {
    hide Encode;
    var out := new byte[EncodedLength(|input|)];
    var consumed := EncodeBlocks(input, out);
    var prefix := EncodedLength(consumed);
    LengthSplits(consumed, |input|);
    EncodeScalar(input[consumed..], out, prefix);
    EncodeSplits(input[..consumed], input[consumed..]);
    assert input == input[..consumed] + input[consumed..];
    text := out[..];
  }

  /** Drops white space. */
  method StripSpaces(s: seq<byte>) returns (t: seq<byte>)
    ensures t == Strip(s)
  {
    t := [];
    var i := 0;
    assert s[0..] == s && [] + Strip(s) == Strip(s);
    while i < |s|
      invariant 0 <= i <= |s| && Strip(s) == t + Strip(s[i..])
    {
      assert s[i..][0] == s[i] && s[i..][1..] == s[i + 1..];
      if !IsSpace(s[i]) {
        t := t + [s[i]];
      }
      i := i + 1;
    }
  }

  lemma {:induction false} NextQuad(t: seq<byte>, i: nat)
    requires i + 4 <= |t|
    ensures var q := DecodeQuad(t[i], t[i + 1], t[i + 2], t[i + 3]);
      DecodeQuads(t[i..]) == if q.Err? then Err(q.error) else InFront(q.value, DecodeQuads(t[i + 4..]))
  {
    hide DecodeQuad;
    var u := t[i..];
    assert u[0] == t[i] && u[1] == t[i + 1] && u[2] == t[i + 2] && u[3] == t[i + 3] && u[4..] == t[i + 4..];
  }

  method DecodeText(s: seq<byte>) returns (r: Result<seq<byte>, Base64Error>)
    ensures r == Decode(s)
  {
    hide DecodeQuad, DecodeQuads;
    var t := StripSpaces(s);
    if |t| % 4 != 0 {
      return Err(InvalidLength);
    }
    var out: seq<byte>, i := [], 0;
    assert t[0..] == t;
    InFrontOfNothing(DecodeQuads(t));
    while i < |t|
      invariant 0 <= i <= |t| && i % 4 == 0
      invariant DecodeQuads(t) == InFront(out, DecodeQuads(t[i..]))
      decreases |t| - i
    {
      NextQuad(t, i);
      var q := DecodeQuad(t[i], t[i + 1], t[i + 2], t[i + 3]);
      if q.Err? {
        return Err(q.error);
      }
      InFrontMore(out, q.value, DecodeQuads(t[i + 4..]));
      out := out + q.value;
      i := i + 4;
    }
    NothingDecodes();
    assert t[i..] == [] && out + [] == out;
    r := Ok(out);
  }

  function InFront(front: seq<byte>, r: Result<seq<byte>, Base64Error>): Result<seq<byte>, Base64Error> {
    if r.Ok? then Ok(front + r.value) else r
  }

  lemma {:induction false} InFrontOfNothing(r: Result<seq<byte>, Base64Error>)
    ensures InFront([], r) == r
  {
    assert r.Ok? ==> [] + r.value == r.value;
  }

  lemma {:induction false} InFrontMore(a: seq<byte>, b: seq<byte>, r: Result<seq<byte>, Base64Error>)
    ensures InFront(a, InFront(b, r)) == InFront(a + b, r)
  {
    assert r.Ok? ==> a + (b + r.value) == a + b + r.value;
  }
}
