/** D-Bus values as trees, and the bytes they marshal to at a position. */
module DbusWire {
  import opened Bytes
  import opened DbusNames
  import opened Utf8
  import opened DbusSignature

  const MAX_ARRAY_LEN := 0x400_0000

  datatype ByteOrder = Little | Big

  // ----- Integers and padding -----

  /** `n` bytes of `v`; higher bits are cut off. */
  function IntBytes(order: ByteOrder, v: nat, n: nat): (s: seq<byte>)
    ensures |s| == n
  {
    if order.Little? then LeBytes(v, n) else Reverse(LeBytes(v, n))
  }

  function FromInt(order: ByteOrder, s: seq<byte>): nat { if order.Little? then FromLe(s) else FromLe(Reverse(s)) }

  lemma IntRoundTrip(order: ByteOrder, v: nat, n: nat)
    requires v < Pow256(n)
    ensures FromInt(order, IntBytes(order, v, n)) == v
  {
    LeRoundTrip(v, n);
    ReverseTwice(LeBytes(v, n));
  }

  lemma IntInjective(order: ByteOrder, s: seq<byte>)
    ensures FromInt(order, s) < Pow256(|s|) && IntBytes(order, FromInt(order, s), |s|) == s
  {
    LeInjective(s);
    LeInjective(Reverse(s));
    ReverseTwice(s);
  }

  function Gap(pos: nat, alignment: nat): (n: nat)
    requires alignment > 0
    ensures n < alignment
  {
    if pos % alignment == 0 then 0 else alignment - pos % alignment
  }

  function Pad(pos: nat, alignment: nat): (s: seq<byte>)
    requires alignment > 0
    ensures |s| == Gap(pos, alignment)
  {
    seq(Gap(pos, alignment), i => 0)
  }

  lemma AtLeastOnce(k: nat, d: nat)
    requires k >= 1
    ensures k * d >= d
  {
    assert k * d == (k - 1) * d + d;
  }

  lemma RemainderIs(v: nat, d: nat, q: nat, r: nat)
    requires r < d && v == q * d + r
    ensures v % d == r
  {
    var a, b := v / d, v % d;
    assert v == a * d + b;
    if a < q {
      assert (q - a) * d == q * d - a * d;
      AtLeastOnce(q - a, d);
    } else if q < a {
      assert (a - q) * d == a * d - q * d;
      AtLeastOnce(a - q, d);
    }
  }

  /** Padding stops at the first multiple of the alignment. */
  lemma GapIsLeast(pos: nat, alignment: nat, k: nat)
    requires alignment > 0 && k <= Gap(pos, alignment)
    ensures (pos + k) % alignment == 0 <==> k == Gap(pos, alignment)
  {
    var q, m := pos / alignment, pos % alignment;
    assert pos == q * alignment + m;
    if m != 0 {
      if m + k < alignment {
        RemainderIs(pos + k, alignment, q, m + k);
      } else {
        assert (q + 1) * alignment == q * alignment + alignment;
        RemainderIs(pos + k, alignment, q + 1, 0);
      }
    }
  }

  lemma AlignedEight(pos: nat)
    ensures Gap(pos + Gap(pos, 8), 4) == 0
  {
    GapIsLeast(pos, 8, Gap(pos, 8));
  }

  // ----- Values -----

  predicate IsFixed(c: byte) { Width(c) > 0 }

  /** Bytes of a fixed-size basic type; 0 for the others. */
  function Width(c: byte): nat {
    if c == BYTE then 1
    else if c in {INT16, UINT16} then 2
    else if c in {BOOLEAN, INT32, UINT32, UNIX_FD} then 4
    else if c in {INT64, UINT64, DOUBLE} then 8
    else 0
  }

  predicate IsText(c: byte) { c in {STRING, OBJECT_PATH, SIGNATURE} }

  /** A value of any D-Bus type. Numbers are their bits: a negative integer its two's
      complement, a double its IEEE 754 image, a boolean 0 or 1. */
  datatype Value =
    | Fixed(code: byte, bits: nat)
    | Text(code: byte, text: seq<byte>)
    | Items(elem: Type, items: seq<Value>)
    | Record(fields: seq<Value>)
    | Entry(key: Value, value: Value)
    | Boxed(inner: Value)

  function TypeOf(v: Value): Type
    decreases v, 1
  {
    match v
    case Fixed(c, _) => Basic(c)
    case Text(c, _) => Basic(c)
    case Items(e, _) => Array(e)
    case Record(fs) => Struct(TypesOf(fs))
    case Entry(k, x) => Dict(KeyCode(k), TypeOf(x))
    case Boxed(_) => Variant
  }

  function TypesOf(vs: seq<Value>): (ts: seq<Type>)
    ensures |ts| == |vs|
    decreases vs, 0
  {
    if vs == [] then [] else [TypeOf(vs[0])] + TypesOf(vs[1..])
  }

  function KeyCode(k: Value): byte { if k.Fixed? || k.Text? then k.code else 0 }

  /** What the host language's types say of a value: numbers in range, strings in UTF-8 and
      shorter than 4 GiB, array items of the announced type, basic dict keys, no empty struct. */
  predicate Typed(v: Value)
    decreases v, 1
  {
    match v
    case Fixed(c, bits) => IsFixed(c) && bits < Pow256(Width(c)) && (c == BOOLEAN ==> bits < 2)
    case Text(c, text) => IsText(c) && IsUtf8(text) && |text| < Pow256(4)
    case Items(e, vs) => Solid(e) && AllTyped(vs) && AllOf(e, vs)
    case Record(fs) => fs != [] && AllTyped(fs)
    case Entry(k, x) => (k.Fixed? || k.Text?) && Typed(k) && Typed(x)
    case Boxed(x) => Typed(x)
  }

  predicate AllTyped(vs: seq<Value>)
    decreases vs, 0
  {
    vs == [] || (Typed(vs[0]) && AllTyped(vs[1..]))
  }

  lemma {:induction false} TypedIsSolid(v: Value)
    requires Typed(v)
    ensures Solid(TypeOf(v))
    decreases v, 1
  {
    match v
    case Fixed(_, _) =>
    case Text(_, _) =>
    case Items(_, _) =>
    case Record(fs) => AllTypedIsSolid(fs);
    case Entry(k, x) => TypedIsSolid(k); TypedIsSolid(x);
    case Boxed(_) =>
  }

  lemma {:induction false} AllTypedIsSolid(vs: seq<Value>)
    requires AllTyped(vs)
    ensures AllSolid(TypesOf(vs))
    decreases vs, 0
  {
    if vs != [] {
      TypedIsSolid(vs[0]);
      AllTypedIsSolid(vs[1..]);
      assert TypesOf(vs)[1..] == TypesOf(vs[1..]);
    }
  }

  predicate AllOf(t: Type, vs: seq<Value>) { vs == [] || (TypeOf(vs[0]) == t && AllOf(t, vs[1..])) }

  // ----- Marshalling at a position -----

  type Bits = Result<seq<byte>, DbusError>

  function AlignmentOf(t: Type): (n: nat)
    ensures n in {1, 2, 4, 8}
  {
    var a := Alignment(Print(t)[0]);
    if a.Some? then a.value else 8
  }

  function StrBytes(order: ByteOrder, text: seq<byte>, pos: nat): seq<byte> {
    Pad(pos, 4) + IntBytes(order, |text|, 4) + text + [0]
  }

  function SigBytes(sig: seq<byte>): seq<byte>
    requires |sig| < 256
  {
    [|sig|] + sig + [0]
  }

  function MarshalText(order: ByteOrder, c: byte, text: seq<byte>, pos: nat): Bits {
    if c == SIGNATURE then
      if ValidSignature(text) then Ok(SigBytes(text)) else Err(InvalidSignature)
    else if c == OBJECT_PATH && !ValidPath(text) then Err(InvalidName)
    else if 0 in text then Err(InvalidMessage)
    else Ok(StrBytes(order, text, pos))
  }

  function MarshalBasic(order: ByteOrder, v: Value, pos: nat): Bits {
    match v
    case Fixed(c, bits) =>
      if IsFixed(c) then Ok(Pad(pos, Width(c)) + IntBytes(order, bits, Width(c))) else Err(InvalidSignature)
    case Text(c, text) => MarshalText(order, c, text, pos)
    case _ => Err(InvalidSignature)
  }

  /** Where the items of an array at `pos` start. */
  function ItemsStart(pos: nat, t: Type): nat {
    var p := pos + Gap(pos, 8) + 4;
    p + Gap(p, AlignmentOf(t))
  }

  function ArrayBytes(order: ByteOrder, t: Type, body: seq<byte>, pos: nat): seq<byte> {
    Pad(pos, 8) + IntBytes(order, |body|, 4) + Pad(pos + Gap(pos, 8) + 4, AlignmentOf(t)) + body
  }

  /** The bytes of `v` written when the buffer holds `pos` bytes. */
  function Marshal(order: ByteOrder, v: Value, pos: nat): Bits
    decreases v, 1
  {
    match v
    case Fixed(_, _) => MarshalBasic(order, v, pos)
    case Text(_, _) => MarshalBasic(order, v, pos)
    case Items(t, vs) =>
      if !ValidSingle(Print(t), true) then Err(InvalidSignature)
      else (
        match MarshalAll(order, vs, ItemsStart(pos, t))
        case Err(e) => Err(e)
        case Ok(body) => if |body| > MAX_ARRAY_LEN then Err(InvalidMessage) else Ok(ArrayBytes(order, t, body, pos)))
    case Record(fs) =>
      if fs == [] || !ValidSignature(PrintAll(TypesOf(fs))) then Err(InvalidSignature)
      else Padded(pos, MarshalAll(order, fs, pos + Gap(pos, 8)))
    case Entry(k, x) =>
      if !ValidSignature(PrintAll([TypeOf(k), TypeOf(x)])) then Err(InvalidSignature)
      else (
        match MarshalBasic(order, k, pos + Gap(pos, 8))
        case Err(e) => Err(e)
        case Ok(b) => Padded(pos, Following(b, Marshal(order, x, pos + Gap(pos, 8) + |b|))))
    case Boxed(x) =>
      var sig := Print(TypeOf(x));
      if !ValidSingle(sig, false) then Err(InvalidSignature)
      else Following(SigBytes(sig), Marshal(order, x, pos + |SigBytes(sig)|))
  }

  function MarshalAll(order: ByteOrder, vs: seq<Value>, pos: nat): Bits
    decreases vs, 0
  {
    if vs == [] then Ok([])
    else
      match Marshal(order, vs[0], pos)
      case Err(e) => Err(e)
      case Ok(b) => Following(b, MarshalAll(order, vs[1..], pos + |b|))
  }

  function Following(front: seq<byte>, b: Bits): Bits { if b.Ok? then Ok(front + b.value) else b }

  function Padded(pos: nat, b: Bits): Bits { Following(Pad(pos, 8), b) }

}
