/** Decoding an encoded message gives the message back, exactly when its names are valid. */
module DbusMessageRoundTrip {
  import opened Bytes
  import opened DbusNames
  import opened Utf8
  import opened DbusSignature
  import opened DbusWire
  import opened DbusRead
  import opened DbusRoundTrip
  import opened DbusMessage

  /** The names decoding checks and encoding does not, and a usable reply serial. */
  predicate NamesValid(m: Message) {
    && (m.interface.Some? ==> ValidInterface(m.interface.value))
    && (m.member.Some? ==> ValidMember(m.member.value))
    && (m.errorName.Some? ==> ValidInterface(m.errorName.value))
    && m.replySerial != Some(0)
    && (m.destination.Some? ==> ValidBusName(m.destination.value))
    && (m.sender.Some? ==> ValidBusName(m.sender.value))
  }

  /** The message as its receiver sees it: descriptors travel outside the byte stream. */
  function Received(m: Message): Message { m.(unixFds := Announced(m), fds := []) }

  // ----- Storing a list of fields -----

  function Store(fs: seq<Field>, r: Result<Message, DbusError>): Result<Message, DbusError> {
    if fs == [] || r.Err? then r else Store(fs[1..], SetField(r.value, fs[0].code, fs[0].value))
  }

  lemma {:induction false} StoreAppend(a: seq<Field>, b: seq<Field>, r: Result<Message, DbusError>)
    ensures Store(a + b, r) == Store(b, Store(a, r))
  {
    hide SetField;
    if a == [] {
      assert a + b == b;
    } else if r.Ok? {
      assert (a + b)[1..] == a[1..] + b;
      StoreAppend(a[1..], b, SetField(r.value, a[0].code, a[0].value));
    }
  }

  /** A list of fields the encoder may write: codes ascending above `low`, values of the right type. */
  predicate Writable(fs: seq<Field>, low: nat)
    decreases |fs|
  {
    fs == [] || (low < fs[0].code <= UNIX_FDS && Fitting(fs[0]) && Writable(fs[1..], fs[0].code))
  }

  predicate Fitting(f: Field) {
    match f.value
    case Text(c, t) => c == FieldType(f.code) && DbusWire.IsText(c) && IsUtf8(t)
    case Fixed(c, n) => c == FieldType(f.code) && c == UINT32 && n < Pow256(4)
    case _ => false
  }

  lemma BasicSingle(c: byte)
    requires IsBasic(c)
    ensures ValidSingle([c], false) && TypeIn([c]) == Basic(c)
  {
    assert Print(Basic(c)) == [c];
    SingleOfPrinted(Basic(c), false);
  }

  lemma FieldHeadBack(s: Source, pos: nat, end: nat, f: Field)
    requires IsBasic(KeyCode(f.value)) && Holds(s, pos, end, FieldHead(f, pos))
    ensures Within(s, pos, end) && ReadAlign(pos, end, 8) == Ok(pos + Gap(pos, 8))
    ensures var p := pos + Gap(pos, 8);
      && ReadBytes(s, p, end, 1) == Ok(Got([f.code], p + 1))
      && ReadVariantSig(s, p + 1, end) == Ok(Got([KeyCode(f.value)], p + 4))
  {
    hide Holds, Gap, ReadVariantSig, ValidSingle, IsBasic;
    var c := KeyCode(f.value);
    var sig := SigBytes([c]);
    InRange(s, pos, end, FieldHead(f, pos));
    HoldsParts(s, pos, end, Pad(pos, 8), [f.code] + sig);
    HoldsParts(s, pos + Gap(pos, 8), end, [f.code], sig);
    BytesBack(s, pos + Gap(pos, 8), end, [f.code]);
    BasicSingle(c);
    VariantSigBack(s, pos + Gap(pos, 8) + 1, end, [c]);
  }

  lemma FieldParts(order: ByteOrder, f: Field, pos: nat, b: seq<byte>) returns (value: seq<byte>)
    requires FieldBytes(order, f, pos) == Ok(b)
    ensures MarshalBasic(order, f.value, pos + Gap(pos, 8) + 4) == Ok(value)
    ensures b == FieldHead(f, pos) + value && |FieldHead(f, pos)| == Gap(pos, 8) + 4
  {
    hide MarshalBasic, Gap;
    value := MarshalBasic(order, f.value, pos + Gap(pos, 8) + 4).value;
  }

  lemma FittingIsTyped(order: ByteOrder, f: Field, pos: nat, b: seq<byte>)
    requires Fitting(f) && MarshalBasic(order, f.value, pos) == Ok(b) && |b| < Pow256(4)
    ensures Typed(f.value) && IsBasic(KeyCode(f.value)) && KeyCode(f.value) == FieldType(f.code)
  {
    hide IntBytes, Gap, IsUtf8, ParseAll, ValidPath;
  }

  /** One field written is one field read and stored. */
  lemma FieldBack(s: Source, pos: nat, end: nat, f: Field, b: seq<byte>, m: Message)
    requires Fitting(f) && PATH <= f.code <= UNIX_FDS && FieldBytes(s.order, f, pos) == Ok(b)
    requires Holds(s, pos, end, b) && |b| < Pow256(4)
    ensures Within(s, pos, end) && ReadAlign(pos, end, 8) == Ok(pos + Gap(pos, 8))
    ensures var p, c := pos + Gap(pos, 8), KeyCode(f.value);
      && ReadBytes(s, p, end, 1) == Ok(Got([f.code], p + 1))
      && ReadVariantSig(s, p + 1, end) == Ok(Got([c], p + 4)) && ValidSingle([c], false)
      && ReadField(s, p + 4, end, f.code, [c], m) ==
        var r := SetField(m, f.code, f.value); if r.Ok? then Ok(Got(r.value, pos + |b|)) else Err(r.error)
  {
    hide Holds, Gap, FieldHead, FieldBytes, ReadVariantSig, ReadAlign, ReadBytes, MarshalBasic, SetField, IsBasic,
      Typed, ReadBasic,
      ValidSingle, FieldType, Fitting;
    InRange(s, pos, end, b);
    var value := FieldParts(s.order, f, pos, b);
    HoldsParts(s, pos, end, FieldHead(f, pos), value);
    FittingIsTyped(s.order, f, pos + Gap(pos, 8) + 4, value);
    FieldHeadBack(s, pos, end, f);
    BasicSingle(KeyCode(f.value));
    KeyIsBasic(f);
    BasicBack(s, pos + Gap(pos, 8) + 4, end, f.value, value);
  }

  lemma KeyIsBasic(f: Field)
    requires Fitting(f)
    ensures f.value.Fixed? || f.value.Text?
  {
  }

  lemma MarshalFieldsParts(order: ByteOrder, fs: seq<Field>, pos: nat, b: seq<byte>) returns (first: seq<byte>,
      rest: seq<byte>)
    requires fs != [] && MarshalFields(order, fs, pos) == Ok(b)
    ensures FieldBytes(order, fs[0], pos) == Ok(first) && MarshalFields(order, fs[1..], pos + |first|) == Ok(rest)
    ensures b == first + rest && |first| > 0
  {
    hide MarshalBasic;
    first := FieldBytes(order, fs[0], pos).value;
    rest := MarshalFields(order, fs[1..], pos + |first|).value;
  }

  lemma {:induction false} StoreErr(fs: seq<Field>, e: DbusError)
    ensures Store(fs, Err(e)) == Err(e)
  {
  }

  /** Decoding the bytes of a list of fields stores the fields in order. */
  lemma {:induction false} FieldsBack(s: Source, pos: nat, end: nat, seen: set<byte>, low: nat, fs: seq<Field>,
      b: seq<byte>, m: Message)
    requires Writable(fs, low) && (forall c :: c in seen ==> c <= low) && MarshalFields(s.order, fs, pos) == Ok(b)
    requires Holds(s, pos, end, b) && end == pos + |b| && |b| < Pow256(4)
    ensures Within(s, pos, end) && DecodeFields(s, pos, end, seen, m) == Store(fs, Ok(m))
    decreases |fs|
  {
    hide Holds, FieldBytes, Gap, ReadVariantSig, ReadAlign, ReadBytes, SetField, ReadField, ValidSingle, FieldType,
      Fitting, Pow256;
    InRange(s, pos, end, b);
    if fs != [] {
      hide MarshalFields;
      var f := fs[0];
      var first, rest := MarshalFieldsParts(s.order, fs, pos, b);
      HoldsParts(s, pos, end, first, rest);
      FieldBack(s, pos, end, f, first, m);
      var r := SetField(m, f.code, f.value);
      if r.Ok? {
        FieldsBack(s, pos + |first|, end, Seen(seen, f.code), f.code, fs[1..], rest, r.value);
      } else {
        StoreErr(fs[1..], r.error);
      }
    }
  }

  // ----- The fields of a message -----

  lemma {:induction false} WritableHigher(fs: seq<Field>, low: nat, low': nat)
    requires Writable(fs, low) && low' <= low
    ensures Writable(fs, low')
  {
  }

  lemma WritablePiece(piece: seq<Field>, code: byte, rest: seq<Field>, low: nat)
    requires low < code <= UNIX_FDS && Writable(rest, code)
    requires |piece| <= 1 && (piece != [] ==> piece[0].code == code && Fitting(piece[0]))
    ensures Writable(piece + rest, low)
  {
    hide Fitting;
    if piece == [] {
      assert piece + rest == rest;
      WritableHigher(rest, code, low);
    } else {
      assert (piece + rest)[1..] == rest;
    }
  }

  lemma FieldsWritable(m: Message)
    requires WellTyped(m)
    ensures Writable(FieldsOf(m), 0)
  {
    hide IsUtf8, Writable, Announced;
    var fds := IntField(UNIX_FDS, FdsOf(m));
    AnnouncedFits(m);
    assert Writable(fds + [], SENDER + 1) by {
      assert Writable([], UNIX_FDS) by { NoFields(UNIX_FDS); }
      WritablePiece(fds, UNIX_FDS, [], SENDER + 1);
    }
    assert fds + [] == fds;
    var sig := TextField(BODY_SIGNATURE, SignatureOf(m)) + fds;
    WritablePiece(TextField(BODY_SIGNATURE, SignatureOf(m)), BODY_SIGNATURE, fds, SENDER);
    WritablePiece(TextField(SENDER, m.sender), SENDER, sig, DESTINATION);
    var last := LastFields(m);
    WritablePiece(TextField(DESTINATION, m.destination), DESTINATION, last, REPLY_SERIAL);
    var reply := TextField(DESTINATION, m.destination) + last;
    WritablePiece(IntField(REPLY_SERIAL, m.replySerial), REPLY_SERIAL, reply, ERROR_NAME);
    WritablePiece(TextField(ERROR_NAME, m.errorName), ERROR_NAME, IntField(REPLY_SERIAL, m.replySerial) + reply,
      MEMBER);
    var later := LaterFields(m);
    WritablePiece(TextField(MEMBER, m.member), MEMBER, later, INTERFACE);
    var member := TextField(MEMBER, m.member) + later;
    WritablePiece(TextField(INTERFACE, m.interface), INTERFACE, member, PATH);
    WritablePiece(TextField(PATH, m.path), PATH, TextField(INTERFACE, m.interface) + member, 0);
  }

  lemma NoFields(low: nat)
    ensures Writable([], low)
  {
  }

  lemma AnnouncedFits(m: Message)
    requires m.unixFds < Pow256(4)
    ensures Announced(m) < Pow256(4)
  {
  }

  lemma StorePiece(piece: seq<Field>, r: Result<Message, DbusError>)
    requires |piece| <= 1
    ensures Store(piece, r) == if piece == [] || r.Err? then r else SetField(r.value, piece[0].code, piece[0].value)
  {
  }

  /** Two pieces at once, so that a chain of pieces is stored one by one. */
  lemma StoreNext(piece: seq<Field>, rest: seq<Field>, r: Result<Message, DbusError>)
    requires |piece| <= 1
    ensures Store(piece + rest, r)
      == Store(rest, if piece == [] || r.Err? then r else SetField(r.value, piece[0].code, piece[0].value))
  {
    hide Store, SetField;
    StoreAppend(piece, rest, r);
    StorePiece(piece, r);
  }

  predicate FirstNamesValid(m: Message) {
    (m.interface.Some? ==> ValidInterface(m.interface.value)) && (m.member.Some? ==> ValidMember(m.member.value))
  }

  predicate LaterNamesValid(m: Message) {
    && (m.errorName.Some? ==> ValidInterface(m.errorName.value)) && m.replySerial != Some(0)
    && (m.destination.Some? ==> ValidBusName(m.destination.value))
  }

  predicate LastNamesValid(m: Message) { m.sender.Some? ==> ValidBusName(m.sender.value) }

  lemma StoreFirst(m: Message, e: Message)
    requires e.path.None? && e.interface.None? && e.member.None?
    ensures var r := Store(FieldsOf(m), Ok(e));
      if FirstNamesValid(m) then r == Store(LaterFields(m),
        Ok(e.(path := m.path, interface := m.interface, member := m.member)))
      else r.Err?
  {
    hide Store, LaterFields, ValidInterface, ValidMember;
    var later := LaterFields(m);
    var p1, p2, p3 := TextField(PATH, m.path), TextField(INTERFACE, m.interface), TextField(MEMBER, m.member);
    StoreNext(p1, p2 + (p3 + later), Ok(e));
    var e1 := e.(path := m.path);
    StoreNext(p2, p3 + later, Ok(e1));
    StoreErr(p3 + later, InvalidName);
    var e2 := e1.(interface := m.interface);
    StoreNext(p3, later, Ok(e2));
    StoreErr(later, InvalidName);
  }

  lemma StoreLater(m: Message, e: Message)
    requires e.errorName.None? && e.replySerial.None? && e.destination.None?
    ensures var r := Store(LaterFields(m), Ok(e));
      if LaterNamesValid(m)
      then r == Store(LastFields(m),
        Ok(e.(errorName := m.errorName, replySerial := m.replySerial, destination := m.destination)))
      else r.Err?
  {
    hide Store, LastFields, ValidInterface, ValidBusName;
    var last := LastFields(m);
    var p1, p2, p3 := TextField(ERROR_NAME, m.errorName), IntField(REPLY_SERIAL, m.replySerial),
      TextField(DESTINATION, m.destination);
    StoreNext(p1, p2 + (p3 + last), Ok(e));
    StoreErr(p2 + (p3 + last), InvalidName);
    var e1 := e.(errorName := m.errorName);
    StoreNext(p2, p3 + last, Ok(e1));
    StoreErr(p3 + last, InvalidMessage);
    var e2 := e1.(replySerial := m.replySerial);
    StoreNext(p3, last, Ok(e2));
    StoreErr(last, InvalidName);
  }

  lemma StoreLast(m: Message, e: Message)
    requires e.sender.None? && e.signature == [] && e.unixFds == 0
    ensures var r := Store(LastFields(m), Ok(e));
      if LastNamesValid(m) then r == Ok(e.(sender := m.sender, signature := m.signature,
        unixFds := Announced(m))) else r.Err?
  {
    hide Store, ValidBusName, Announced;
    var p1, p2, p3 := TextField(SENDER, m.sender), TextField(BODY_SIGNATURE, SignatureOf(m)),
      IntField(UNIX_FDS, FdsOf(m));
    StoreNext(p1, p2 + p3, Ok(e));
    StoreErr(p2 + p3, InvalidName);
    var e1 := e.(sender := m.sender);
    StoreNext(p2, p3, Ok(e1));
    StorePiece(p3, Ok(e1.(signature := m.signature)));
  }

  /** Storing the fields of a message rebuilds it, exactly when its names are valid. */
  lemma StoreFields(m: Message)
    ensures var r := Store(FieldsOf(m), Ok(Empty(m.kind, m.order, m.flags, m.serial)));
      if NamesValid(m) then r == Ok(Received(m).(body := [])) else r.Err?
  {
    hide Store, FieldsOf, LaterFields, LastFields, ValidInterface, ValidMember, ValidBusName, Announced;
    var e := Empty(m.kind, m.order, m.flags, m.serial);
    StoreFirst(m, e);
    var e1 := e.(path := m.path, interface := m.interface, member := m.member);
    StoreLater(m, e1);
    StoreLast(m, e1.(errorName := m.errorName, replySerial := m.replySerial, destination := m.destination));
  }

  // ----- The frame -----

  lemma HeaderBack(m: Message, rest: seq<byte>)
    requires |m.body| < Pow256(4) && m.serial < Pow256(4)
    ensures var b := FixedHeader(m) + rest; var s := Source(b, m.order);
      && b[0] == Marker(m.order) && b[1] == KindByte(m.kind) && b[2] == m.flags && b[3] == PROTOCOL_VERSION
      && ReadInt(s, 4, |b|, 4) == Ok(Got(|m.body|, 8)) && ReadInt(s, 8, |b|, 4) == Ok(Got(m.serial, 12))
  {
    hide IntBytes, ReadInt, At, Pow256;
    var b := FixedHeader(m) + rest;
    var s, n := Source(b, m.order), |b|;
    var head, len, serial := b[..4], IntBytes(m.order, |m.body|, 4), IntBytes(m.order, m.serial, 4);
    assert b == head + (len + serial) + rest;
    AtSelf(b);
    AtParts(b, 0, head + (len + serial), rest);
    AtParts(b, 0, head, len + serial);
    AtParts(b, 4, len, serial);
    assert Pad(4, 4) + len == len && Pad(8, 4) + serial == serial;
    IntBack(s, 4, n, |m.body|, 4);
    IntBack(s, 8, n, m.serial, 4);
  }

  lemma FrameParts(m: Message, fields: seq<byte>)
    ensures var b := Frame(m, fields); var s := Source(b, m.order);
      && Holds(s, 12, |b|, ArrayBytes(m.order, Variant, fields, 12)) && ItemsStart(12, Variant) == FIELDS_START
      && AlignmentOf(Variant) == 8
      && Holds(s, FIELDS_START + |fields| + Gap(FIELDS_START + |fields|, 8), |b|, m.body)
      && |b| == FIELDS_START + |fields| + Gap(FIELDS_START + |fields|, 8) + |m.body|
  {
    var b := Frame(m, fields);
    var block := ArrayBytes(m.order, Variant, fields, 12);
    assert AlignmentOf(Variant) == 8;
    assert block == Pad(12, 8) + IntBytes(m.order, |fields|, 4) + Pad(20, 8) + fields;
    hide IntBytes, At, FixedHeader, ArrayBytes;
    var pad := Pad(FIELDS_START + |fields|, 8);
    AtSelf(b);
    AtParts(b, 0, FixedHeader(m) + block, pad + m.body);
    AtParts(b, 0, FixedHeader(m), block);
    AtParts(b, FIELDS_START + |fields|, pad, m.body);
  }

  lemma RestBack(m: Message, fields: seq<byte>)
    requires WellTyped(m) && MarshalFields(m.order, FieldsOf(m), FIELDS_START) == Ok(fields)
      && |fields| <= MAX_ARRAY_LEN
    ensures var s := Source(Frame(m, fields), m.order);
      |s.data| >= 12 && DecodeRest(s, Empty(m.kind, m.order, m.flags, m.serial), |m.body|)
      == var r := Store(FieldsOf(m), Ok(Empty(m.kind, m.order, m.flags, m.serial)));
        if r.Ok? then DecodeCheck(r.value.(body := m.body)) else r
  {
    hide *;
    FrameParts(m, fields);
    FieldsWritable(m);
    var s := Source(Frame(m, fields), m.order);
    var e := Empty(m.kind, m.order, m.flags, m.serial);
    ArrayBack(s, 12, |s.data|, Variant, fields);
    FieldsRangeBack(s, m, fields, e);
    DecodeRestIs(s, e, FIELDS_START + |fields|, m.body, Store(FieldsOf(m), Ok(e)));
  }

  lemma FieldsRangeBack(s: Source, m: Message, fields: seq<byte>, e: Message)
    requires Writable(FieldsOf(m), 0) && MarshalFields(s.order, FieldsOf(m), FIELDS_START) == Ok(fields)
    requires |fields| <= MAX_ARRAY_LEN && Holds(s, FIELDS_START, FIELDS_START + |fields|, fields)
    ensures Within(s, FIELDS_START, FIELDS_START + |fields|)
    ensures DecodeFields(s, FIELDS_START, FIELDS_START + |fields|, {}, e) == Store(FieldsOf(m), Ok(e))
  {
    hide Writable, FieldsOf, MarshalFields, Holds, DecodeFields, Store;
    FieldsBack(s, FIELDS_START, FIELDS_START + |fields|, {}, 0, FieldsOf(m), fields, e);
  }

  lemma DecodeRestIs(s: Source, e: Message, end: nat, body: seq<byte>, r: Result<Message, DbusError>)
    requires 12 <= |s.data| == end + Gap(end, 8) + |body| && FIELDS_START <= end
    requires ReadArray(s, 12, |s.data|, 8) == Ok(Range(FIELDS_START, end))
    requires DecodeFields(s, FIELDS_START, end, {}, e) == r
    requires Holds(s, end + Gap(end, 8), |s.data|, body)
    ensures DecodeRest(s, e, |body|) == if r.Ok? then DecodeCheck(r.value.(body := body)) else r
  {
    hide ReadArray, DecodeFields, Holds, Gap, DecodeCheck;
    BytesBack(s, end + Gap(end, 8), |s.data|, body);
  }

  /** Decoding what was encoded succeeds exactly when the names are valid, and then gives back
      every field, the announced descriptor count and the body. */
  lemma DecodeUndoesEncode(m: Message, b: seq<byte>)
    requires WellTyped(m) && Encode(m) == Ok(b)
    ensures if NamesValid(m) then Decode(b) == Ok(Received(m)) else Decode(b).Err?
  {
    hide Frame, FieldsOf, MarshalFields, Store, DecodeRest, ReadInt, ParseAll, NamesValid, IsUtf8;
    var fields := MarshalFields(m.order, FieldsOf(m), FIELDS_START).value;
    var rest := FrameRest(m, fields);
    HeaderBack(m, rest);
    RestBack(m, fields);
    StoreFields(m);
  }

  lemma FrameRest(m: Message, fields: seq<byte>) returns (rest: seq<byte>)
    ensures Frame(m, fields) == FixedHeader(m) + rest
    ensures |m.body| <= |Frame(m, fields)|
  {
    hide FixedHeader, IntBytes;
    var block, tail := Pad(12, 8) + IntBytes(m.order, |fields|, 4) + Pad(20, 8) + fields,
      Pad(FIELDS_START + |fields|, 8) + m.body;
    rest := block + tail;
    assert FixedHeader(m) + block + tail == FixedHeader(m) + (block + tail);
  }

  /** Encoding does not look at the reply serial, decoding refuses a zero one. */
  lemma ZeroReplySerialIsLost(order: ByteOrder, serial: nat)
    requires 0 < serial < Pow256(4)
    ensures var m := Empty(MethodReturn, order, 0, serial).(replySerial := Some(0));
      Encode(m).Ok? && Decode(Encode(m).value).Err?
  {
    hide IntBytes, Pow256, Gap;
    var m := Empty(MethodReturn, order, 0, serial).(replySerial := Some(0));
    var f := Field(REPLY_SERIAL, Fixed(UINT32, 0));
    assert FieldsOf(m) == [f];
    var b := FieldBytes(order, f, FIELDS_START).value;
    assert MarshalFields(order, [f], FIELDS_START) == Ok(b + []) && |b| < 100;
    assert |Frame(m, b + [])| < 200;
    DecodeUndoesEncode(m, Frame(m, b + []));
  }
}
