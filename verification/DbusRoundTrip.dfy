/** Reading undoes marshalling, at every position of every buffer. */
module DbusRoundTrip {
  import opened Bytes
  import opened DbusNames
  import opened Utf8
  import opened DbusSignature
  import opened DbusWire
  import opened DbusRead

  /** `b` lies at `pos`, inside the range that ends at `end`. */
  ghost predicate Holds(s: Source, pos: nat, end: nat, b: seq<byte>) {
    At(s.data, pos, b) && pos + |b| <= end <= |s.data|
  }

  lemma HoldsParts(s: Source, pos: nat, end: nat, a: seq<byte>, b: seq<byte>)
    requires Holds(s, pos, end, a + b)
    ensures Holds(s, pos, end, a) && Holds(s, pos + |a|, end, b)
  {
    AtParts(s.data, pos, a, b);
  }

  lemma BytesBack(s: Source, pos: nat, end: nat, b: seq<byte>)
    requires Holds(s, pos, end, b)
    ensures ReadBytes(s, pos, end, |b|) == Ok(Got(b, pos + |b|))
  {
    AtSlice(s.data, pos, b);
  }

  lemma IntBack(s: Source, pos: nat, end: nat, v: nat, n: nat)
    requires 0 < n && v < Pow256(n) && Holds(s, pos, end, Pad(pos, n) + IntBytes(s.order, v, n))
    ensures ReadInt(s, pos, end, n) == Ok(Got(v, pos + Gap(pos, n) + n))
  {
    hide Pad, IntBytes, FromInt, Gap, Pow256, Holds;
    var p, b := Pad(pos, n), IntBytes(s.order, v, n);
    InRange(s, pos, end, p + b);
    HoldsParts(s, pos, end, p, b);
    BytesBack(s, pos + |p|, end, b);
    IntRoundTrip(s.order, v, n);
  }

  lemma InRange(s: Source, pos: nat, end: nat, b: seq<byte>)
    requires Holds(s, pos, end, b)
    ensures pos + |b| <= end <= |s.data|
  {
  }

  lemma TerminatedBack(s: Source, pos: nat, end: nat, text: seq<byte>)
    requires Holds(s, pos, end, text + [0])
    ensures ReadTerminated(s, pos, end, |text|) == Ok(Got(text, pos + |text| + 1))
  {
    hide Holds;
    InRange(s, pos, end, text + [0]);
    HoldsParts(s, pos, end, text, [0]);
    BytesBack(s, pos, end, text);
    BytesBack(s, pos + |text|, end, [0]);
  }

  lemma StrHeader(s: Source, pos: nat, end: nat, text: seq<byte>)
    requires Holds(s, pos, end, StrBytes(s.order, text, pos))
    ensures Holds(s, pos, end, Pad(pos, 4) + IntBytes(s.order, |text|, 4))
    ensures Holds(s, pos + Gap(pos, 4) + 4, end, text + [0])
  {
    hide Holds, IntBytes, Gap;
    var head := Pad(pos, 4) + IntBytes(s.order, |text|, 4);
    assert StrBytes(s.order, text, pos) == head + (text + [0]);
    HoldsParts(s, pos, end, head, text + [0]);
  }

  lemma StrBack(s: Source, pos: nat, end: nat, text: seq<byte>)
    requires Holds(s, pos, end, StrBytes(s.order, text, pos)) && |text| < Pow256(4) && 0 !in text && IsUtf8(text)
    ensures ReadStr(s, pos, end) == Ok(Got(text, pos + |StrBytes(s.order, text, pos)|))
  {
    hide Holds, IntBytes, Gap, IsUtf8, Pow256, ReadInt, ReadTerminated;
    InRange(s, pos, end, StrBytes(s.order, text, pos));
    StrHeader(s, pos, end, text);
    IntBack(s, pos, end, |text|, 4);
    TerminatedBack(s, pos + Gap(pos, 4) + 4, end, text);
  }

  lemma IntFits(s: Source, pos: nat, end: nat, n: nat)
    requires Within(s, pos, end) && 0 < n && ReadInt(s, pos, end, n).Ok?
    ensures ReadInt(s, pos, end, n).value.value < Pow256(n)
  {
    hide Gap, FromInt, IntBytes, Pow256;
    var p := ReadAlign(pos, end, n).value;
    IntInjective(s.order, ReadBytes(s, p, end, n).value.value);
  }

  /** A string is read back as written exactly when its length fits its 32-bit length field. */
  lemma StrBackIff(s: Source, pos: nat, end: nat, text: seq<byte>)
    requires Holds(s, pos, end, StrBytes(s.order, text, pos)) && 0 !in text && IsUtf8(text)
    ensures Within(s, pos, end)
    ensures (ReadStr(s, pos, end).Ok? && ReadStr(s, pos, end).value.value == text) <==> |text| < 0x1_0000_0000
  {
    hide Holds, IntBytes, Gap, IsUtf8, ReadInt, ReadTerminated;
    InRange(s, pos, end, StrBytes(s.order, text, pos));
    if |text| < 0x1_0000_0000 {
      StrBack(s, pos, end, text);
    } else if ReadStr(s, pos, end).Ok? {
      IntFits(s, pos, end, 4);
    }
  }

  lemma SignatureIsUtf8(sig: seq<byte>)
    requires ValidSignature(sig)
    ensures IsUtf8(sig)
  {
    ParseAllSound(sig, 0);
    var ts := ParseAll(sig, 0).value;
    AtSlice(sig, 0, PrintAll(ts));
    PrintAllAscii(ts, 0, 0);
    AsciiIsUtf8(sig);
  }

  ghost predicate Ascii(s: seq<byte>) { forall k :: 0 <= k < |s| ==> s[k] < 0x80 }

  lemma {:induction false} PrintAscii(t: Type, arrays: nat, structs: nat, allowDict: bool)
    requires Legal(t, arrays, structs, allowDict)
    ensures Ascii(Print(t))
    decreases t, 1
  {
    match t
    case Basic(c) =>
    case Array(e) => PrintAscii(e, arrays + 1, structs, true);
    case Struct(fs) => PrintAllAscii(fs, arrays, structs + 1);
    case Dict(k, v) => PrintAscii(v, arrays, structs + 1, false);
    case Variant =>
  }

  lemma {:induction false} PrintAllAscii(ts: seq<Type>, arrays: nat, structs: nat)
    requires AllLegal(ts, arrays, structs)
    ensures Ascii(PrintAll(ts))
    decreases ts, 0
  {
    if ts != [] {
      PrintAscii(ts[0], arrays, structs, false);
      PrintAllAscii(ts[1..], arrays, structs);
    }
  }

  lemma SigBack(s: Source, pos: nat, end: nat, sig: seq<byte>)
    requires ValidSignature(sig) && Holds(s, pos, end, SigBytes(sig))
    ensures ReadSig(s, pos, end) == Ok(Got(sig, pos + |sig| + 2))
  {
    SignatureIsUtf8(sig);
    hide Holds, IsUtf8, ParseAll;
    InRange(s, pos, end, SigBytes(sig));
    assert SigBytes(sig) == [|sig|] + (sig + [0]);
    HoldsParts(s, pos, end, [|sig|], sig + [0]);
    BytesBack(s, pos, end, [|sig|]);
    TerminatedBack(s, pos + 1, end, sig);
  }

  lemma VariantSigBack(s: Source, pos: nat, end: nat, sig: seq<byte>)
    requires ValidSingle(sig, false) && Holds(s, pos, end, SigBytes(sig))
    ensures ReadVariantSig(s, pos, end) == Ok(Got(sig, pos + |sig| + 2))
  {
    hide Holds, ValidSignature, ReadSig;
    InRange(s, pos, end, SigBytes(sig));
    SingleIsSignature(sig);
    SigBack(s, pos, end, sig);
  }

  lemma VariantTypeBack(s: Source, pos: nat, end: nat, t: Type)
    requires Solid(t) && ValidSingle(Print(t), false) && Holds(s, pos, end, SigBytes(Print(t)))
    ensures Within(s, pos, end)
    ensures ReadVariantSig(s, pos, end) == Ok(Got(Print(t), pos + |Print(t)| + 2)) && TypeIn(Print(t)) == t
  {
    hide Holds, ReadVariantSig, Solid, Legal, ParseOne, Print;
    InRange(s, pos, end, SigBytes(Print(t)));
    VariantSigBack(s, pos, end, Print(t));
    SingleOfPrinted(t, false);
  }

  lemma ArrayParts(s: Source, pos: nat, end: nat, t: Type, body: seq<byte>)
    requires Holds(s, pos, end, ArrayBytes(s.order, t, body, pos))
    ensures Holds(s, pos + Gap(pos, 8), end, IntBytes(s.order, |body|, 4)) && Holds(s, ItemsStart(pos, t), end, body)
    ensures ItemsStart(pos, t) + |body| == pos + |ArrayBytes(s.order, t, body, pos)| <= end <= |s.data|
  {
    hide Holds, IntBytes, Gap, AlignmentOf, Pad;
    var p8, len := Pad(pos, 8), IntBytes(s.order, |body|, 4);
    var p := Pad(pos + |p8| + 4, AlignmentOf(t));
    InRange(s, pos, end, p8 + len + p + body);
    HoldsParts(s, pos, end, p8 + len + p, body);
    HoldsParts(s, pos, end, p8 + len, p);
    HoldsParts(s, pos, end, p8, len);
  }

  lemma ReadArrayIs(s: Source, pos: nat, end: nat, alignment: nat, n: nat)
    requires alignment > 0 && n <= MAX_ARRAY_LEN && pos + Gap(pos, 8) <= end <= |s.data|
    requires ReadInt(s, pos + Gap(pos, 8), end, 4) == Ok(Got(n, pos + Gap(pos, 8) + 4))
    requires var p := pos + Gap(pos, 8) + 4; p + Gap(p, alignment) + n <= end
    ensures var p := pos + Gap(pos, 8) + 4;
      ReadArray(s, pos, end, alignment) == Ok(Range(p + Gap(p, alignment), p + Gap(p, alignment) + n))
  {
    hide Gap, ReadInt;
  }

  /** The length of an array stands behind padding to eight, so it needs none of its own. */
  lemma LengthNeedsNoPadding(pos: nat, len: seq<byte>)
    ensures var at := pos + Gap(pos, 8); Gap(at, 4) == 0 && Pad(at, 4) + len == len
  {
    hide Gap;
    AlignedEight(pos);
    var p := Pad(pos + Gap(pos, 8), 4);
    assert p == [] && [] + len == len;
  }

  lemma ArrayBack(s: Source, pos: nat, end: nat, t: Type, body: seq<byte>)
    requires |body| <= MAX_ARRAY_LEN && Holds(s, pos, end, ArrayBytes(s.order, t, body, pos))
    ensures ItemsStart(pos, t) + |body| == pos + |ArrayBytes(s.order, t, body, pos)| <= end <= |s.data|
    ensures ReadArray(s, pos, end, AlignmentOf(t)) == Ok(Range(ItemsStart(pos, t), ItemsStart(pos, t) + |body|))
    ensures Holds(s, ItemsStart(pos, t), ItemsStart(pos, t) + |body|, body)
  {
    hide Holds, IntBytes, Gap, ReadInt, ReadArray, AlignmentOf, Pad, ArrayBytes;
    var at := pos + Gap(pos, 8);
    LengthNeedsNoPadding(pos, IntBytes(s.order, |body|, 4));
    ArrayParts(s, pos, end, t, body);
    IntBack(s, at, end, |body|, 4);
    ReadArrayIs(s, pos, end, AlignmentOf(t), |body|);
    Narrower(s, ItemsStart(pos, t), end, body);
  }

  lemma Narrower(s: Source, pos: nat, end: nat, b: seq<byte>)
    requires Holds(s, pos, end, b)
    ensures Holds(s, pos, pos + |b|, b)
  {
  }

  // ----- Every value -----

  lemma FixedBack(s: Source, pos: nat, end: nat, c: byte, bits: nat)
    requires Typed(Fixed(c, bits)) && Holds(s, pos, end, Pad(pos, Width(c)) + IntBytes(s.order, bits, Width(c)))
    ensures IsBasic(c) && Within(s, pos, end)
    ensures ReadBasic(s, pos, end, c) == Ok(Got(Fixed(c, bits), pos + Gap(pos, Width(c)) + Width(c)))
  {
    assert IsBasic(c);
    hide Holds, IntBytes, Gap, Pow256, ReadInt, ReadStr, ReadSig, Width, IsBasic;
    InRange(s, pos, end, Pad(pos, Width(c)) + IntBytes(s.order, bits, Width(c)));
    IntBack(s, pos, end, bits, Width(c));
  }

  lemma TextBack(s: Source, pos: nat, end: nat, c: byte, text: seq<byte>, b: seq<byte>)
    requires Typed(Text(c, text)) && MarshalText(s.order, c, text, pos) == Ok(b) && Holds(s, pos, end, b)
    ensures IsBasic(c) && Within(s, pos, end) && ReadBasic(s, pos, end, c) == Ok(Got(Text(c, text), pos + |b|))
  {
    hide *;
    InRange(s, pos, end, b);
    if c == SIGNATURE {
      SigTextBack(s, pos, end, text, b);
    } else {
      StrTextBack(s, pos, end, c, text, b);
    }
  }

  lemma SigTextBack(s: Source, pos: nat, end: nat, text: seq<byte>, b: seq<byte>)
    requires MarshalText(s.order, SIGNATURE, text, pos) == Ok(b) && Holds(s, pos, end, b)
    ensures IsBasic(SIGNATURE) && Within(s, pos, end)
      && ReadBasic(s, pos, end, SIGNATURE) == Ok(Got(Text(SIGNATURE, text), pos + |b|))
  {
    hide Holds, ParseAll, ReadSig, ReadStr, ReadInt;
    InRange(s, pos, end, b);
    SigBack(s, pos, end, text);
  }

  lemma StrTextBack(s: Source, pos: nat, end: nat, c: byte, text: seq<byte>, b: seq<byte>)
    requires Typed(Text(c, text)) && c != SIGNATURE && MarshalText(s.order, c, text, pos) == Ok(b)
      && Holds(s, pos, end, b)
    ensures IsBasic(c) && Within(s, pos, end) && ReadBasic(s, pos, end, c) == Ok(Got(Text(c, text), pos + |b|))
  {
    hide Holds, StrBytes, Pow256, IsUtf8, ReadSig, ReadStr, ReadInt, ValidPath;
    InRange(s, pos, end, b);
    StrBack(s, pos, end, text);
  }

  lemma BasicBack(s: Source, pos: nat, end: nat, v: Value, b: seq<byte>)
    requires (v.Fixed? || v.Text?) && Typed(v) && MarshalBasic(s.order, v, pos) == Ok(b) && Holds(s, pos, end, b)
    ensures IsBasic(v.code) && Within(s, pos, end) && ReadBasic(s, pos, end, v.code) == Ok(Got(v, pos + |b|))
  {
    hide Holds, IntBytes, Gap, Pow256, IsUtf8, ReadBasic, MarshalText, IsBasic;
    match v
    case Fixed(c, bits) => FixedBack(s, pos, end, c, bits);
    case Text(c, text) => TextBack(s, pos, end, c, text, b);
  }

  /** A value marshalled at `pos` is read back from there, and reading stops where writing did. */
  lemma {:induction false} ReadUndoesMarshal(s: Source, pos: nat, end: nat, v: Value, b: seq<byte>)
    requires Typed(v) && Marshal(s.order, v, pos) == Ok(b) && Holds(s, pos, end, b)
    ensures Solid(TypeOf(v)) && pos <= end <= |s.data| && ReadValue(s, pos, end, TypeOf(v)) == Ok(Got(v, pos + |b|))
    decreases v, 1
  {
    InRange(s, pos, end, b);
    TypedIsSolid(v);
    match v
    case Fixed(_, _) => BasicBack(s, pos, end, v, b);
    case Text(_, _) => BasicBack(s, pos, end, v, b);
    case Items(t, vs) => ItemsBack(s, pos, end, t, vs, b);
    case Record(fs) => RecordBack(s, pos, end, fs, b);
    case Entry(k, x) => EntryBack(s, pos, end, k, x, b);
    case Boxed(x) => BoxedBack(s, pos, end, x, b);
  }

  lemma {:induction false} ItemsBack(s: Source, pos: nat, end: nat, t: Type, vs: seq<Value>, b: seq<byte>)
    requires var v := Items(t, vs); Typed(v) && Marshal(s.order, v, pos) == Ok(b) && Holds(s, pos, end, b) && Solid(t)
    requires pos <= end <= |s.data|
    ensures ReadValue(s, pos, end, Array(t)) == Ok(Got(Items(t, vs), pos + |b|))
    decreases vs, 3
  {
    hide Holds, ReadArray, ArrayBytes, ItemsStart, ReadItems, MarshalAll, AllTyped, AllOf, Solid;
    var body := MarshalAll(s.order, vs, ItemsStart(pos, t)).value;
    ArrayBack(s, pos, end, t, body);
    AllItemsBack(s, ItemsStart(pos, t), ItemsStart(pos, t) + |body|, t, vs, body);
  }

  lemma MarshalAllParts(order: ByteOrder, vs: seq<Value>, pos: nat, b: seq<byte>) returns (first: seq<byte>,
      rest: seq<byte>)
    requires vs != [] && MarshalAll(order, vs, pos) == Ok(b)
    ensures Marshal(order, vs[0], pos) == Ok(first) && MarshalAll(order, vs[1..], pos + |first|) == Ok(rest)
    ensures b == first + rest
  {
    hide Marshal;
    first := Marshal(order, vs[0], pos).value;
    rest := MarshalAll(order, vs[1..], pos + |first|).value;
  }

  lemma ReadItemsStep(s: Source, pos: nat, end: nat, t: Type, v: Value, p: nat, vs: seq<Value>)
    requires Within(s, pos, end) && Solid(t) && ReadValue(s, pos, end, t) == Ok(Got(v, p))
    requires ReadItems(s, p, end, t) == Ok(vs)
    ensures ReadItems(s, pos, end, t) == Ok([v] + vs)
  {
    hide ReadValue, Solid;
  }

  lemma {:induction false} AllItemsBack(s: Source, pos: nat, end: nat, t: Type, vs: seq<Value>, b: seq<byte>)
    requires AllTyped(vs) && AllOf(t, vs) && MarshalAll(s.order, vs, pos) == Ok(b) && Holds(s, pos, end, b)
    requires end == pos + |b| && Solid(t)
    ensures pos <= end <= |s.data| && ReadItems(s, pos, end, t) == Ok(vs)
    decreases vs, 2
  {
    hide Holds, Marshal, Solid, Typed, TypeOf, ReadValue;
    InRange(s, pos, end, b);
    if vs != [] {
      hide MarshalAll, ReadItems;
      var first, rest := MarshalAllParts(s.order, vs, pos, b);
      HoldsParts(s, pos, end, first, rest);
      ReadUndoesMarshal(s, pos, end, vs[0], first);
      AllItemsBack(s, pos + |first|, end, t, vs[1..], rest);
      ReadItemsStep(s, pos, end, t, vs[0], pos + |first|, vs[1..]);
      assert vs == [vs[0]] + vs[1..];
    }
  }

  lemma {:induction false} RecordBack(s: Source, pos: nat, end: nat, fs: seq<Value>, b: seq<byte>)
    requires var v := Record(fs);
      Typed(v) && Marshal(s.order, v, pos) == Ok(b) && Holds(s, pos, end, b) && Solid(TypeOf(v))
    requires pos <= end <= |s.data|
    ensures ReadValue(s, pos, end, TypeOf(Record(fs))) == Ok(Got(Record(fs), pos + |b|))
    decreases fs, 3
  {
    hide Holds, MarshalAll, ReadFields, AllTyped, AllSolid, TypesOf, Gap, ValidSignature, PrintAll;
    var p := pos + Gap(pos, 8);
    var body := MarshalAll(s.order, fs, p).value;
    assert b == Pad(pos, 8) + body;
    InRange(s, pos, end, b);
    HoldsParts(s, pos, end, Pad(pos, 8), body);
    FieldsBack(s, p, end, fs, body);
  }

  lemma ReadFieldsStep(s: Source, pos: nat, end: nat, ts: seq<Type>, v: Value, p: nat, vs: seq<Value>, q: nat)
    requires Within(s, pos, end) && ts != [] && AllSolid(ts) && ReadValue(s, pos, end, ts[0]) == Ok(Got(v, p))
    requires ReadFields(s, p, end, ts[1..]) == Ok(Got(vs, q))
    ensures ReadFields(s, pos, end, ts) == Ok(Got([v] + vs, q))
  {
    hide ReadValue, Solid;
  }

  lemma TypesOfParts(fs: seq<Value>)
    requires fs != []
    ensures TypesOf(fs)[0] == TypeOf(fs[0]) && TypesOf(fs)[1..] == TypesOf(fs[1..])
  {
  }

  lemma {:induction false} FieldsBack(s: Source, pos: nat, end: nat, fs: seq<Value>, b: seq<byte>)
    requires AllTyped(fs) && AllSolid(TypesOf(fs)) && MarshalAll(s.order, fs, pos) == Ok(b) && Holds(s, pos, end, b)
    ensures pos <= end <= |s.data| && ReadFields(s, pos, end, TypesOf(fs)) == Ok(Got(fs, pos + |b|))
    decreases fs, 2
  {
    hide Holds, Marshal, Solid, AllSolid, Typed, TypeOf, ReadValue;
    InRange(s, pos, end, b);
    if fs != [] {
      hide MarshalAll, TypesOf, ReadFields;
      TypesOfParts(fs);
      AllTypedIsSolid(fs[1..]);
      var first, rest := MarshalAllParts(s.order, fs, pos, b);
      HoldsParts(s, pos, end, first, rest);
      var ts := TypesOf(fs);
      ReadUndoesMarshal(s, pos, end, fs[0], first);
      FieldsBack(s, pos + |first|, end, fs[1..], rest);
      ReadFieldsStep(s, pos, end, ts, fs[0], pos + |first|, fs[1..], pos + |b|);
      assert fs == [fs[0]] + fs[1..];
    }
  }

  lemma MarshalEntryParts(order: ByteOrder, k: Value, x: Value, pos: nat, b: seq<byte>) returns (key: seq<byte>,
      value: seq<byte>)
    requires Marshal(order, Entry(k, x), pos) == Ok(b)
    ensures var p := pos + Gap(pos, 8);
      MarshalBasic(order, k, p) == Ok(key) && Marshal(order, x, p + |key|) == Ok(value)
        && b == Pad(pos, 8) + (key + value)
  {
    hide MarshalBasic, Gap, ValidSignature, PrintAll, TypeOf, Pad;
    var p := pos + Gap(pos, 8);
    key := MarshalBasic(order, k, p).value;
    value := Marshal(order, x, p + |key|).value;
  }

  lemma ReadEntryStep(s: Source, pos: nat, end: nat, c: byte, t: Type, k: Value, next: nat, g: Got<Value>)
    requires Within(s, pos, end) && Solid(Dict(c, t))
    requires var p := pos + Gap(pos, 8); p <= end && ReadBasic(s, p, end, c) == Ok(Got(k, next))
    requires next <= end && ReadValue(s, next, end, t) == Ok(g)
    ensures ReadValue(s, pos, end, Dict(c, t)) == Ok(Got(Entry(k, g.value), g.next))
  {
    hide ReadBasic, Gap, IsBasic;
  }

  lemma EntryTypes(k: Value, x: Value)
    requires Typed(Entry(k, x)) && Solid(TypeOf(Entry(k, x)))
    ensures Typed(k) && Typed(x) && (k.Fixed? || k.Text?) && TypeOf(Entry(k, x)) == Dict(k.code, TypeOf(x))
      && Solid(TypeOf(x)) && IsBasic(k.code)
  {
  }

  lemma {:induction false} EntryBack(s: Source, pos: nat, end: nat, k: Value, x: Value, b: seq<byte>)
    requires var v := Entry(k, x);
      Typed(v) && Marshal(s.order, v, pos) == Ok(b) && Holds(s, pos, end, b) && Solid(TypeOf(v))
    requires pos <= end <= |s.data|
    ensures ReadValue(s, pos, end, TypeOf(Entry(k, x))) == Ok(Got(Entry(k, x), pos + |b|))
    decreases x, 3
  {
    hide Holds, Marshal, MarshalBasic, ReadValue, ReadBasic, Gap, Pad, Typed, Solid, TypeOf, IsBasic;
    EntryTypes(k, x);
    var p := pos + Gap(pos, 8);
    var key, value := MarshalEntryParts(s.order, k, x, pos, b);
    InRange(s, pos, end, b);
    HoldsParts(s, pos, end, Pad(pos, 8), key + value);
    HoldsParts(s, p, end, key, value);
    InRange(s, p, end, key + value);
    BasicBack(s, p, end, k, key);
    ReadUndoesMarshal(s, p + |key|, end, x, value);
    ReadEntryStep(s, pos, end, k.code, TypeOf(x), k, p + |key|, Got(x, pos + |b|));
  }

  lemma MarshalBoxedParts(order: ByteOrder, x: Value, pos: nat, b: seq<byte>) returns (sig: seq<byte>, value: seq<byte>)
    requires Marshal(order, Boxed(x), pos) == Ok(b)
    ensures sig == Print(TypeOf(x)) && ValidSingle(sig, false) && b == SigBytes(sig) + value
    ensures Marshal(order, x, pos + |SigBytes(sig)|) == Ok(value)
  {
    hide Print, ParseOne, TypeOf;
    sig := Print(TypeOf(x));
    value := Marshal(order, x, pos + |SigBytes(sig)|).value;
  }

  lemma ReadBoxedStep(s: Source, pos: nat, end: nat, sig: Got<seq<byte>>, t: Type, g: Got<Value>)
    requires Within(s, pos, end) && ReadVariantSig(s, pos, end) == Ok(sig) && TypeIn(sig.value) == t && Solid(t)
    requires ReadValue(s, sig.next, end, t) == Ok(g)
    ensures ReadValue(s, pos, end, Variant) == Ok(Got(Boxed(g.value), g.next))
  {
    hide ReadVariantSig, TypeIn, Solid;
  }

  lemma {:induction false} BoxedBack(s: Source, pos: nat, end: nat, x: Value, b: seq<byte>)
    requires Typed(x) && Marshal(s.order, Boxed(x), pos) == Ok(b) && Holds(s, pos, end, b)
    requires pos <= end <= |s.data|
    ensures ReadValue(s, pos, end, Variant) == Ok(Got(Boxed(x), pos + |b|))
    decreases x, 3
  {
    hide Holds, Marshal, ReadValue, ReadVariantSig, ParseOne, Typed, TypeIn, TypeOf, Print, Solid;
    var sig, value := MarshalBoxedParts(s.order, x, pos, b);
    HoldsParts(s, pos, end, SigBytes(sig), value);
    TypedIsSolid(x);
    VariantTypeBack(s, pos, end, TypeOf(x));
    assert |SigBytes(sig)| == |sig| + 2;
    ReadUndoesMarshal(s, pos + |sig| + 2, end, x, value);
    ReadBoxedStep(s, pos, end, Got(sig, pos + |sig| + 2), TypeOf(x), Got(x, pos + |b|));
  }
}
