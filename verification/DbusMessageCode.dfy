/** Encoding and decoding as the library runs them, on its writer and reader. */
module DbusMessageCode {
  import opened Bytes
  import opened DbusNames
  import opened DbusSignature
  import opened DbusWire
  import opened DbusRead
  import opened DbusWriter
  import opened DbusReader
  import opened DbusMessage

  // ----- Encoding -----

  /** `w` holds `before` and the bytes of the fields `done`. */
  ghost predicate Wrote(w: Writer, before: seq<byte>, done: seq<Field>)
    reads w
  {
    MarshalFields(w.order, done, |before|).Ok? && w.data == before + MarshalFields(w.order, done, |before|).value
  }

  lemma {:induction false} MarshalFieldsAppend(order: ByteOrder, a: seq<Field>, b: seq<Field>, pos: nat)
    ensures var r := MarshalFields(order, a, pos);
      MarshalFields(order, a + b, pos) == if r.Ok? then Following(r.value,
        MarshalFields(order, b, pos + |r.value|)) else r
    decreases |a|
  {
    hide FieldBytes;
    if a == [] {
      assert a + b == b;
      var r := MarshalFields(order, b, pos);
      assert r.Ok? ==> [] + r.value == r.value;
    } else {
      assert (a + b)[1..] == a[1..] + b;
      var first := FieldBytes(order, a[0], pos);
      if first.Ok? {
        MarshalFieldsAppend(order, a[1..], b, pos + |first.value|);
        var r := MarshalFields(order, a[1..], pos + |first.value|);
        if r.Ok? {
          var rest := MarshalFields(order, b, pos + |first.value| + |r.value|);
          assert rest.Ok? ==> first.value + (r.value + rest.value) == (first.value + r.value) + rest.value;
        }
      }
    }
  }

  lemma MarshalOneField(order: ByteOrder, f: Field, pos: nat)
    ensures MarshalFields(order, [f], pos) == FieldBytes(order, f, pos)
  {
    hide FieldBytes;
    var r := FieldBytes(order, f, pos);
    assert r.Ok? ==> r.value + [] == r.value;
  }

  method PutHead(w: Writer, f: Field)
    requires IsBasic(KeyCode(f.value))
    modifies w
    ensures w.data == old(w.data) + FieldHead(f, |old(w.data)|)
  {
    hide Gap, ParseAll, IsBasic, KeyCode;
    w.Align(8);
    w.data := w.data + [f.code];
    BasicSignature(KeyCode(f.value));
    var _ := w.WriteSignature([KeyCode(f.value)]);
  }

  method PutValue(w: Writer, v: Value) returns (err: Option<DbusError>)
    requires Typeable(v)
    modifies w
    ensures w.Outcome(err, old(w.data), MarshalBasic(w.order, v, |old(w.data)|))
  {
    hide IntBytes, StrBytes, Gap, ParseAll, ValidPath;
    match v
    case Fixed(c, n) =>
      w.WriteInt(n, Width(c));
      err := None;
    case Text(c, t) =>
      if c == SIGNATURE {
        err := w.WriteSignature(t);
      } else if c == OBJECT_PATH {
        err := w.WriteObjectPath(t);
      } else {
        err := w.WriteStr(t);
      }
  }

  /** One header field: its code, the signature of its value and the value. */
  method PutField(w: Writer, f: Field) returns (err: Option<DbusError>)
    requires Typeable(f.value)
    modifies w
    ensures w.Outcome(err, old(w.data), FieldBytes(w.order, f, |old(w.data)|))
  {
    hide FieldHead, MarshalBasic;
    PutHead(w, f);
    err := PutValue(w, f.value);
  }

  /** A value a header field may hold. */
  predicate Typeable(v: Value) {
    match v
    case Fixed(c, _) => c == UINT32
    case Text(c, _) => DbusWire.IsText(c)
    case _ => false
  }

  lemma BasicSignature(c: byte)
    requires IsBasic(c)
    ensures ValidSignature([c])
  {
    assert ParseOne([c], 0, 0, 0, false) == Ok(Parsed(Basic(c), 1));
    assert ParseAll([c], 1) == Ok([]);
  }

  /** The fields of a list that holds at most one, after those of `done`. */
  method PutOptional(w: Writer, ghost before: seq<byte>, ghost done: seq<Field>,
      piece: seq<Field>) returns (err: Option<DbusError>)
    requires |piece| <= 1 && (piece != [] ==> Typeable(piece[0].value)) && Wrote(w, before, done)
    modifies w
    ensures err.None? ==> Wrote(w, before, done + piece)
    ensures err.Some? ==> MarshalFields(w.order, done + piece, |before|) == Err(err.value)
  {
    hide FieldBytes, MarshalFields;
    err := None;
    MarshalFieldsAppend(w.order, done, piece, |before|);
    if piece == [] {
      assert done + piece == done;
    } else {
      MarshalOneField(w.order, piece[0], |w.data|);
      assert piece == [piece[0]];
      err := PutField(w, piece[0]);
    }
  }

  lemma ErrorStays(order: ByteOrder, a: seq<Field>, b: seq<Field>, pos: nat, e: DbusError)
    requires MarshalFields(order, a, pos) == Err(e)
    ensures MarshalFields(order, a + b, pos) == Err(e)
  {
    hide MarshalFields;
    MarshalFieldsAppend(order, a, b, pos);
  }

  method PutFirst(w: Writer, ghost before: seq<byte>, m: Message) returns (err: Option<DbusError>)
    requires w.data == before
    modifies w
    ensures FirstThree(m) + LaterFields(m) == FieldsOf(m)
    ensures err.None? ==> Wrote(w, before, FirstThree(m))
    ensures err.Some? ==> MarshalFields(w.order, FieldsOf(m), |before|) == Err(err.value)
  {
    hide MarshalFields, LaterFields;
    var p1, p2, p3 := TextField(PATH, m.path), TextField(INTERFACE, m.interface), TextField(MEMBER, m.member);
    ghost var later := LaterFields(m);
    NothingWritten(w, before);
    assert [] + p1 == p1 && p1 + (p2 + (p3 + later)) == p1 + p2 + (p3 + later) == p1 + p2 + p3 + later;
    err := PutOptional(w, before, [], p1);
    if err.Some? {
      ErrorStays(w.order, p1, p2 + (p3 + later), |before|, err.value);
      return;
    }
    err := PutOptional(w, before, p1, p2);
    if err.Some? {
      ErrorStays(w.order, p1 + p2, p3 + later, |before|, err.value);
      return;
    }
    err := PutOptional(w, before, p1 + p2, p3);
    if err.Some? {
      ErrorStays(w.order, p1 + p2 + p3, later, |before|, err.value);
    }
  }

  function FirstThree(m: Message): seq<Field> {
    TextField(PATH, m.path) + TextField(INTERFACE, m.interface) + TextField(MEMBER, m.member)
  }

  lemma NothingWritten(w: Writer, before: seq<byte>)
    requires w.data == before
    ensures Wrote(w, before, [])
  {
    assert before + [] == before;
  }

  method PutLater(w: Writer, ghost before: seq<byte>, ghost done: seq<Field>,
      m: Message) returns (err: Option<DbusError>)
    requires Wrote(w, before, done)
    modifies w
    ensures done + LaterFields(m) == done + MiddleThree(m) + LastFields(m)
    ensures err.None? ==> Wrote(w, before, done + MiddleThree(m))
    ensures err.Some? ==> MarshalFields(w.order, done + LaterFields(m), |before|) == Err(err.value)
  {
    hide MarshalFields, LastFields;
    var p1, p2, p3 := TextField(ERROR_NAME, m.errorName), IntField(REPLY_SERIAL, m.replySerial),
      TextField(DESTINATION, m.destination);
    ghost var last := LastFields(m);
    assert done + (p1 + (p2 + (p3 + last))) == done + p1 + (p2 + (p3 + last)) == done + p1 + p2 + (p3 + last)
      == done + p1 + p2 + p3 + last;
    assert done + p1 + p2 + p3 == done + MiddleThree(m);
    err := PutOptional(w, before, done, p1);
    if err.Some? {
      ErrorStays(w.order, done + p1, p2 + (p3 + last), |before|, err.value);
      return;
    }
    err := PutOptional(w, before, done + p1, p2);
    if err.Some? {
      ErrorStays(w.order, done + p1 + p2, p3 + last, |before|, err.value);
      return;
    }
    err := PutOptional(w, before, done + p1 + p2, p3);
    if err.Some? {
      ErrorStays(w.order, done + p1 + p2 + p3, last, |before|, err.value);
    }
  }

  function MiddleThree(m: Message): seq<Field> {
    TextField(ERROR_NAME, m.errorName) + IntField(REPLY_SERIAL, m.replySerial) + TextField(DESTINATION, m.destination)
  }

  method PutLast(w: Writer, ghost before: seq<byte>, ghost done: seq<Field>,
      m: Message) returns (err: Option<DbusError>)
    requires Wrote(w, before, done)
    modifies w
    ensures err.None? ==> Wrote(w, before, done + LastFields(m))
    ensures err.Some? ==> MarshalFields(w.order, done + LastFields(m), |before|) == Err(err.value)
  {
    hide MarshalFields, Announced;
    var p1, p2, p3 := TextField(SENDER, m.sender), TextField(BODY_SIGNATURE, SignatureOf(m)),
      IntField(UNIX_FDS, FdsOf(m));
    assert done + (p1 + (p2 + p3)) == done + p1 + (p2 + p3) == done + p1 + p2 + p3;
    err := PutOptional(w, before, done, p1);
    if err.Some? {
      ErrorStays(w.order, done + p1, p2 + p3, |before|, err.value);
      return;
    }
    err := PutOptional(w, before, done + p1, p2);
    if err.Some? {
      ErrorStays(w.order, done + p1 + p2, p3, |before|, err.value);
      return;
    }
    err := PutOptional(w, before, done + p1 + p2, p3);
  }

  method PutFields(w: Writer, m: Message) returns (err: Option<DbusError>)
    modifies w
    ensures w.Outcome(err, old(w.data), MarshalFields(w.order, FieldsOf(m), |old(w.data)|))
  {
    hide MarshalFields, FieldsOf, LaterFields, LastFields, FirstThree, MiddleThree;
    ghost var before := w.data;
    err := PutFirst(w, before, m);
    if err.Some? {
      return;
    }
    err := PutLater(w, before, FirstThree(m), m);
    if err.Some? {
      return;
    }
    err := PutLast(w, before, FirstThree(m) + MiddleThree(m), m);
  }

  method CheckForEncode(m: Message) returns (err: Option<DbusError>)
    ensures err == EncodeCheck(m)
  {
    hide ParseAll, Announced;
    if m.serial == 0 {
      return Some(InvalidState);
    }
    if UNIX_FD in m.signature && Announced(m) == 0 {
      return Some(InvalidMessage);
    }
    var ok := CheckSignature(m.signature);
    if !ok {
      return Some(InvalidSignature);
    }
    if !HasRequiredFields(m) {
      return Some(InvalidState);
    }
    if (m.body == []) != (m.signature == []) {
      return Some(InvalidMessage);
    }
    if |m.body| > MAX_MESSAGE_LEN {
      return Some(MessageTooBig(|m.body|));
    }
    err := None;
  }

  /** The fixed header and room for the length of the fields. */
  method PutHeader(w: Writer, m: Message) returns (lengthPos: nat, ghost gap: seq<byte>)
    requires w.data == [] && w.order == m.order
    modifies w
    ensures lengthPos == 16 && |gap| == 4 && w.data == FixedHeader(m) + Pad(12, 8) + gap + Pad(20, 8)
  {
    hide IntBytes;
    w.data := [Marker(m.order), KindByte(m.kind), m.flags, PROTOCOL_VERSION];
    w.WriteInt(|m.body|, 4);
    w.WriteInt(m.serial, 4);
    assert w.data == FixedHeader(m);
    w.Align(8);
    lengthPos := |w.data|;
    w.WriteInt(0, 4);
    gap := w.data[lengthPos..];
    w.Align(8);
  }

  /** The length of the fields, the body, and the checks on both lengths. */
  method PutBody(w: Writer, m: Message, lengthPos: nat, fieldsStart: nat, ghost gap: seq<byte>,
      ghost fields: seq<byte>) returns (r: Bits)
    requires lengthPos == 16 && fieldsStart == 24 && |gap| == 4 && w.order == m.order
    requires w.data == FixedHeader(m) + Pad(12, 8) + gap + Pad(20, 8) + fields
    modifies w
    ensures r == Limited(m, fields)
  {
    hide IntBytes, FixedHeader, Frame, Pad;
    assert |Pad(12, 8)| == 4 && |Pad(20, 8)| == 4;
    var n := |w.data| - fieldsStart;
    if n > MAX_ARRAY_LEN {
      return Err(MessageTooBig(n));
    }
    PatchFillsIn(FixedHeader(m), Pad(12, 8), gap, IntBytes(m.order, n, 4), Pad(20, 8), fields);
    var err := w.PatchU32(lengthPos, n);
    AppendBody(w, m, fields);
    var total := |w.data|;
    if total > MAX_MESSAGE_LEN {
      return Err(MessageTooBig(total));
    }
    PatchSame(m, fields);
    err := w.PatchU32(4, |m.body|);
    r := Ok(w.data);
  }

  method AppendBody(w: Writer, m: Message, ghost fields: seq<byte>)
    requires w.data == FixedHeader(m) + (Pad(12, 8) + IntBytes(m.order, |fields|, 4) + Pad(20, 8) + fields)
    modifies w
    ensures w.data == Frame(m, fields)
  {
    hide IntBytes, FixedHeader;
    w.Align(8);
    w.data := w.data + m.body;
  }

  method EncodeMessage(m: Message) returns (r: Bits)
    ensures r == Encode(m)
  {
    hide MarshalFields, FieldsOf, EncodeCheck, FixedHeader, Frame;
    var err := CheckForEncode(m);
    if err.Some? {
      return Err(err.value);
    }
    var w := new Writer(m.order);
    var lengthPos, gap := PutHeader(w, m);
    var fieldsStart := |w.data|;
    err := PutFields(w, m);
    if err.Some? {
      return Err(err.value);
    }
    r := PutBody(w, m, lengthPos, fieldsStart, gap, MarshalFields(m.order, FieldsOf(m), FIELDS_START).value);
  }

  /** The body length is patched over itself. */
  lemma PatchSame(m: Message, fields: seq<byte>)
    ensures var s := Frame(m, fields); |s| >= 8 && s[..4] + IntBytes(m.order, |m.body|, 4) + s[8..] == s
  {
    hide IntBytes;
    var s := Frame(m, fields);
    assert s[4..8] == IntBytes(m.order, |m.body|, 4);
    assert s == s[..4] + s[4..8] + s[8..];
  }

  // ----- Decoding -----

  method ReadBasicValue(r: Reader, c: byte) returns (v: Result<Value, DbusError>)
    requires r.Valid() && IsBasic(c) && c in {UINT32, STRING, OBJECT_PATH, SIGNATURE}
    modifies r
    ensures r.Did(v, ReadBasic(r.s, old(r.pos), r.end, c))
  {
    hide ReadInt, ReadStr, ReadPath, ReadSig;
    if c == UINT32 {
      var n := r.Int(4);
      return if n.Ok? then Ok(Fixed(c, n.value)) else Err(n.error);
    }
    var t: Result<seq<byte>, DbusError>;
    if c == SIGNATURE {
      t := r.Signature();
    } else if c == OBJECT_PATH {
      t := r.ObjectPath();
    } else {
      t := r.Str();
    }
    v := if t.Ok? then Ok(Text(c, t.value)) else Err(t.error);
  }

  /** One header field into the message under construction; unknown fields are skipped. */
  method ReadHeaderField(r: Reader, code: byte, sig: seq<byte>, m: Message) returns (out: Result<Message, DbusError>)
    requires r.Valid() && ValidSingle(sig, false)
    modifies r
    ensures r.Did(out, ReadField(r.s, old(r.pos), r.end, code, sig, m))
  {
    hide ReadBasic, SetField, ParseOne, Skip;
    if PATH <= code <= UNIX_FDS {
      if sig != [FieldType(code)] {
        return Err(InvalidMessage);
      }
      var v := ReadBasicValue(r, FieldType(code));
      if v.Err? {
        return Err(v.error);
      }
      out := SetField(m, code, v.value);
    } else {
      LegalShallower(TypeIn(sig), 0, 0, false, 0, 0);
      var err := r.SkipValue(sig, TypeIn(sig));
      out := if err.Some? then Err(err.value) else Ok(m);
    }
  }

  method ReadHeaderFields(r: Reader, empty: Message) returns (out: Result<Message, DbusError>)
    requires r.Valid()
    modifies r
    ensures r.Valid() && out == DecodeFields(r.s, old(r.pos), r.end, {}, empty)
  {
    hide ReadAlign, ReadBytes, ReadVariantSig, ReadField, ValidSingle;
    var m, seen := empty, {};
    while r.pos < r.end
      invariant r.Valid() && old(r.pos) <= r.pos
      invariant DecodeFields(r.s, old(r.pos), r.end, {}, empty) == DecodeFields(r.s, r.pos, r.end, seen, m)
      decreases r.end - r.pos
    {
      var err := r.Align(8);
      if err.Some? {
        return Err(err.value);
      }
      var b := r.Bytes(1);
      if b.Err? {
        return Err(b.error);
      }
      var sig := r.VariantSignature();
      if sig.Err? {
        return Err(sig.error);
      }
      var code := b.value[0];
      if code in seen {
        return Err(InvalidMessage);
      }
      seen := Seen(seen, code);
      out := ReadHeaderField(r, code, sig.value, m);
      if out.Err? {
        return;
      }
      m := out.value;
    }
    out := Ok(m);
  }

  method DecodeMessage(b: seq<byte>) returns (out: Result<Message, DbusError>)
    ensures out == Decode(b)
  {
    hide ReadInt, DecodeRest;
    if |b| < 1 || OrderOf(b[0]).None? || |b| < 2 || KindOf(b[1]).None? || |b| < 4 || b[3] != PROTOCOL_VERSION {
      return Err(InvalidMessage);
    }
    var r := new Reader(Source(b, OrderOf(b[0]).value), 4, |b|);
    var bodyLen := r.Int(4);
    if bodyLen.Err? {
      return Err(bodyLen.error);
    }
    var serial := r.Int(4);
    if serial.Err? {
      return Err(serial.error);
    }
    if serial.value == 0 {
      return Err(InvalidMessage);
    }
    if bodyLen.value > MAX_MESSAGE_LEN {
      return Err(MessageTooBig(bodyLen.value));
    }
    HeaderIsTwelve(r.s);
    out := DecodeTail(r, Empty(KindOf(b[1]).value, r.s.order, b[2], serial.value), bodyLen.value);
  }

  lemma HeaderIsTwelve(s: Source)
    requires 4 <= |s.data| && ReadInt(s, 4, |s.data|, 4).Ok?
    ensures ReadInt(s, 4, |s.data|, 4).value.next == 8
    ensures ReadInt(s, 8, |s.data|, 4).Ok? ==> ReadInt(s, 8, |s.data|, 4).value.next == 12
  {
    hide FromInt;
  }

  method DecodeTail(r: Reader, m: Message, bodyLen: nat) returns (out: Result<Message, DbusError>)
    requires r.Valid() && r.pos == 12 && r.end == |r.s.data|
    modifies r
    ensures out == DecodeRest(r.s, m, bodyLen)
  {
    hide ReadArray, DecodeFields, Gap;
    var range := r.ArrayRange(8);
    if range.Err? {
      return Err(range.error);
    }
    var fields := new Reader(r.s, range.value.start, range.value.end);
    out := ReadHeaderFields(fields, m);
    if out.Err? {
      return;
    }
    var err := r.Align(8);
    if err.Some? {
      return Err(err.value);
    }
    var body := r.Bytes(bodyLen);
    if body.Err? {
      return Err(body.error);
    }
    if r.pos < r.end {
      return Err(InvalidMessage);
    }
    out := DecodeCheck(out.value.(body := body.value));
  }
}
