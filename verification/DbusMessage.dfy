/** D-Bus messages: the wire format of a whole message and its decoder. */
module DbusMessage {
  import opened Bytes
  import opened DbusNames
  import opened Utf8
  import opened DbusSignature
  import opened DbusWire
  import opened DbusRead

  const PROTOCOL_VERSION: byte := 1
  const MAX_MESSAGE_LEN := 0x800_0000

  datatype Kind = MethodCall | MethodReturn | Error | Signal

  function KindByte(k: Kind): byte {
    match k
    case MethodCall => 1
    case MethodReturn => 2
    case Error => 3
    case Signal => 4
  }

  function KindOf(b: byte): Option<Kind> {
    if b == 1 then Some(MethodCall)
    else if b == 2 then Some(MethodReturn)
    else if b == 3 then Some(Error)
    else if b == 4 then Some(Signal)
    else None
  }

  function Marker(order: ByteOrder): byte { if order.Little? then 108 else 66 }

  function OrderOf(b: byte): Option<ByteOrder> {
    if b == 108 then Some(Little) else if b == 66 then Some(Big) else None
  }

  type Name = Option<seq<byte>>

  datatype Message = Message(
    kind: Kind, flags: byte, order: ByteOrder, serial: nat,
    path: Name, interface: Name, member: Name, errorName: Name, replySerial: Option<nat>,
    destination: Name, sender: Name, signature: seq<byte>, unixFds: nat, fds: seq<int>, body: seq<byte>)

  predicate IsText(s: Name) { s.Some? ==> IsUtf8(s.value) }

  /** What the host language's types say of a message. */
  predicate WellTyped(m: Message) {
    && m.serial < Pow256(4) && m.unixFds < Pow256(4) && (m.replySerial.Some? ==> m.replySerial.value < Pow256(4))
    && IsText(m.path) && IsText(m.interface) && IsText(m.member) && IsText(m.errorName)
    && IsText(m.destination) && IsText(m.sender) && IsUtf8(m.signature)
  }

  function Empty(kind: Kind, order: ByteOrder, flags: byte, serial: nat): Message {
    Message(kind, flags, order, serial, None, None, None, None, None, None, None, [], 0, [], [])
  }

  /** Attached descriptors win over a count decoded earlier. */
  function Announced(m: Message): nat { if m.fds != [] then |m.fds| % Pow256(4) else m.unixFds }

  // ----- Header fields -----

  const PATH: byte := 1
  const INTERFACE: byte := 2
  const MEMBER: byte := 3
  const ERROR_NAME: byte := 4
  const REPLY_SERIAL: byte := 5
  const DESTINATION: byte := 6
  const SENDER: byte := 7
  const BODY_SIGNATURE: byte := 8
  const UNIX_FDS: byte := 9

  function FieldType(code: byte): byte {
    if code == PATH then OBJECT_PATH
    else if code == REPLY_SERIAL || code == UNIX_FDS then UINT32
    else if code == BODY_SIGNATURE then SIGNATURE
    else STRING
  }

  datatype Field = Field(code: byte, value: Value)

  function TextField(code: byte, s: Name): seq<Field> {
    if s.None? then [] else [Field(code, Text(FieldType(code), s.value))]
  }

  function IntField(code: byte, n: Option<nat>): seq<Field> {
    if n.None? then [] else [Field(code, Fixed(UINT32, n.value))]
  }

  function SignatureOf(m: Message): Name { if m.signature == [] then None else Some(m.signature) }

  function FdsOf(m: Message): Option<nat> { if Announced(m) > 0 then Some(Announced(m)) else None }

  function FieldsOf(m: Message): seq<Field> {
    TextField(PATH, m.path) + (TextField(INTERFACE, m.interface) + (TextField(MEMBER, m.member) + LaterFields(m)))
  }

  function LaterFields(m: Message): seq<Field> {
    TextField(ERROR_NAME, m.errorName) + (IntField(REPLY_SERIAL, m.replySerial)
    + (TextField(DESTINATION, m.destination) + LastFields(m)))
  }

  function LastFields(m: Message): seq<Field> {
    TextField(SENDER, m.sender) + (TextField(BODY_SIGNATURE, SignatureOf(m)) + IntField(UNIX_FDS, FdsOf(m)))
  }

  /** A field is a struct of its code and a variant. */
  function FieldHead(f: Field, pos: nat): seq<byte> { Pad(pos, 8) + ([f.code] + SigBytes([KeyCode(f.value)])) }

  function FieldBytes(order: ByteOrder, f: Field, pos: nat): Bits {
    Following(FieldHead(f, pos), MarshalBasic(order, f.value, pos + |FieldHead(f, pos)|))
  }

  function MarshalFields(order: ByteOrder, fs: seq<Field>, pos: nat): Bits {
    if fs == [] then Ok([])
    else
      match FieldBytes(order, fs[0], pos)
      case Err(e) => Err(e)
      case Ok(b) => Following(b, MarshalFields(order, fs[1..], pos + |b|))
  }

  // ----- Encoding -----

  predicate HasRequiredFields(m: Message) {
    match m.kind
    case MethodCall => m.member.Some?
    case Signal => m.path.Some? && m.member.Some?
    case MethodReturn => m.replySerial.Some?
    case Error => m.replySerial.Some? && m.errorName.Some?
  }

  function EncodeCheck(m: Message): Option<DbusError> {
    if m.serial == 0 then Some(InvalidState)
    else if UNIX_FD in m.signature && Announced(m) == 0 then Some(InvalidMessage)
    else if !ValidSignature(m.signature) then Some(InvalidSignature)
    else if !HasRequiredFields(m) then Some(InvalidState)
    else if (m.body == []) != (m.signature == []) then Some(InvalidMessage)
    else if |m.body| > MAX_MESSAGE_LEN then Some(MessageTooBig(|m.body|))
    else None
  }

  /** The twelve fixed bytes. */
  function FixedHeader(m: Message): (s: seq<byte>)
    ensures |s| == 12
  {
    [Marker(m.order), KindByte(m.kind), m.flags, PROTOCOL_VERSION]
    + (IntBytes(m.order, |m.body|, 4) + IntBytes(m.order, m.serial, 4))
  }

  const FIELDS_START := 24

  function Frame(m: Message, fields: seq<byte>): seq<byte> {
    FixedHeader(m) + (Pad(12, 8) + IntBytes(m.order, |fields|, 4) + Pad(20, 8) + fields)
    + (Pad(FIELDS_START + |fields|, 8) + m.body)
  }

  function Limited(m: Message, fields: seq<byte>): Bits {
    if |fields| > MAX_ARRAY_LEN then Err(MessageTooBig(|fields|))
    else
      var b := Frame(m, fields);
      if |b| > MAX_MESSAGE_LEN then Err(MessageTooBig(|b|)) else Ok(b)
  }

  function Encode(m: Message): Bits {
    var err := EncodeCheck(m);
    if err.Some? then Err(err.value)
    else
      match MarshalFields(m.order, FieldsOf(m), FIELDS_START)
      case Err(e) => Err(e)
      case Ok(fields) => Limited(m, fields)
  }

  // ----- Decoding -----

  function SetName(m: Message, ok: bool, m': Message): Result<Message, DbusError> {
    if ok then Ok(m') else Err(InvalidName)
  }

  /** Stores a decoded header field, refusing an invalid name or a zero reply serial. */
  function SetField(m: Message, code: byte, v: Value): Result<Message, DbusError> {
    match v
    case Text(_, t) =>
      if code == PATH then Ok(m.(path := Some(t)))
      else if code == INTERFACE then SetName(m, ValidInterface(t), m.(interface := Some(t)))
      else if code == MEMBER then SetName(m, ValidMember(t), m.(member := Some(t)))
      else if code == ERROR_NAME then SetName(m, ValidInterface(t), m.(errorName := Some(t)))
      else if code == DESTINATION then SetName(m, ValidBusName(t), m.(destination := Some(t)))
      else if code == SENDER then SetName(m, ValidBusName(t), m.(sender := Some(t)))
      else Ok(m.(signature := t))
    case Fixed(_, n) =>
      if code == REPLY_SERIAL then
        if n == 0 then Err(InvalidMessage) else Ok(m.(replySerial := Some(n)))
      else Ok(m.(unixFds := n))
    case _ => Ok(m)
  }

  function ReadField(s: Source, pos: nat, end: nat, code: byte, sig: seq<byte>, m: Message): (r: Read<Message>)
    requires Within(s, pos, end) && ValidSingle(sig, false)
    ensures r.Ok? ==> pos < r.value.next <= end
  {
    if PATH <= code <= UNIX_FDS then
      if sig != [FieldType(code)] then Err(InvalidMessage)
      else
        match ReadBasic(s, pos, end, FieldType(code))
        case Err(e) => Err(e)
        case Ok(g) =>
          match SetField(m, code, g.value)
          case Err(e) => Err(e)
          case Ok(m') => Ok(Got(m', g.next))
    else
      match Skip(s, pos, end, TypeIn(sig))
      case Err(e) => Err(e)
      case Ok(p) => Ok(Got(m, p))
  }

  function Seen(seen: set<byte>, code: byte): set<byte> { if code <= UNIX_FDS then seen + {code} else seen }

  function DecodeFields(s: Source, pos: nat, end: nat, seen: set<byte>, m: Message): Result<Message, DbusError>
    requires Within(s, pos, end)
    decreases end - pos
  {
    if pos == end then Ok(m)
    else
      match ReadAlign(pos, end, 8)
      case Err(e) => Err(e)
      case Ok(p) =>
        match ReadBytes(s, p, end, 1)
        case Err(e) => Err(e)
        case Ok(code) =>
          match ReadVariantSig(s, code.next, end)
          case Err(e) => Err(e)
          case Ok(sig) =>
            if code.value[0] in seen then Err(InvalidMessage)
            else
              match ReadField(s, sig.next, end, code.value[0], sig.value, m)
              case Err(e) => Err(e)
              case Ok(g) => DecodeFields(s, g.next, end, Seen(seen, code.value[0]), g.value)
  }

  function DecodeCheck(m: Message): Result<Message, DbusError> {
    if !HasRequiredFields(m) then Err(InvalidMessage)
    else if (m.body == []) != (m.signature == []) then Err(InvalidMessage)
    else if UNIX_FD in m.signature && m.unixFds == 0 then Err(InvalidMessage)
    else Ok(m)
  }

  /** Everything after the fixed header. */
  function DecodeRest(s: Source, m: Message, bodyLen: nat): Result<Message, DbusError>
    requires 12 <= |s.data|
  {
    var end := |s.data|;
    match ReadArray(s, 12, end, 8)
    case Err(e) => Err(e)
    case Ok(range) =>
      match DecodeFields(s, range.start, range.end, {}, m)
      case Err(e) => Err(e)
      case Ok(m') =>
        match ReadAlign(range.end, end, 8)
        case Err(e) => Err(e)
        case Ok(p) =>
          match ReadBytes(s, p, end, bodyLen)
          case Err(e) => Err(e)
          case Ok(body) => if body.next < end then Err(InvalidMessage) else DecodeCheck(m'.(body := body.value))
  }

  function Decode(b: seq<byte>): Result<Message, DbusError> {
    if |b| < 4 || OrderOf(b[0]).None? || KindOf(b[1]).None? || b[3] != PROTOCOL_VERSION then Err(InvalidMessage)
    else
      var s := Source(b, OrderOf(b[0]).value);
      match ReadInt(s, 4, |b|, 4)
      case Err(e) => Err(e)
      case Ok(bodyLen) =>
        match ReadInt(s, bodyLen.next, |b|, 4)
        case Err(e) => Err(e)
        case Ok(serial) =>
          if serial.value == 0 then Err(InvalidMessage)
          else if bodyLen.value > MAX_MESSAGE_LEN then Err(MessageTooBig(bodyLen.value))
          else DecodeRest(s, Empty(KindOf(b[1]).value, s.order, b[2], serial.value), bodyLen.value)
  }
}
