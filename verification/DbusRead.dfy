/** Reading D-Bus values out of a range of a buffer, and skipping them. */
module DbusRead {
  import opened Bytes
  import opened DbusNames
  import opened Utf8
  import opened DbusSignature
  import opened DbusWire

  /** A buffer with its byte order; a cursor is a position in it with the end of its range. */
  datatype Source = Source(data: seq<byte>, order: ByteOrder)

  predicate Within(s: Source, pos: nat, end: nat) { pos <= end <= |s.data| }

  datatype Got<+T> = Got(value: T, next: nat)

  type Read<+T> = Result<Got<T>, DbusError>

  // ----- Primitives -----

  function ReadAlign(pos: nat, end: nat, alignment: nat): (r: Result<nat, DbusError>)
    requires alignment > 0 && pos <= end
    ensures r.Ok? ==> pos <= r.value <= end
  {
    if pos + Gap(pos, alignment) > end then Err(InvalidMessage) else Ok(pos + Gap(pos, alignment))
  }

  function ReadBytes(s: Source, pos: nat, end: nat, n: nat): (r: Read<seq<byte>>)
    requires Within(s, pos, end)
    ensures r.Ok? ==> r.value.next == pos + n <= end && |r.value.value| == n
  {
    if pos + n > end then Err(InvalidMessage) else Ok(Got(s.data[pos..pos + n], pos + n))
  }

  /** An aligned integer of `n` bytes. */
  function ReadInt(s: Source, pos: nat, end: nat, n: nat): (r: Read<nat>)
    requires Within(s, pos, end) && n > 0
    ensures r.Ok? ==> pos + n <= r.value.next <= end
  {
    match ReadAlign(pos, end, n)
    case Err(e) => Err(e)
    case Ok(p) =>
      match ReadBytes(s, p, end, n)
      case Err(e) => Err(e)
      case Ok(g) => Ok(Got(FromInt(s.order, g.value), g.next))
  }

  /** `n` bytes and the nul that must follow them. */
  function ReadTerminated(s: Source, pos: nat, end: nat, n: nat): (r: Read<seq<byte>>)
    requires Within(s, pos, end)
    ensures r.Ok? ==> r.value.next == pos + n + 1 <= end && |r.value.value| == n
  {
    match ReadBytes(s, pos, end, n)
    case Err(e) => Err(e)
    case Ok(g) =>
      match ReadBytes(s, g.next, end, 1)
      case Err(e) => Err(e)
      case Ok(z) => if z.value != [0] then Err(InvalidMessage) else Ok(Got(g.value, z.next))
  }

  function ReadStr(s: Source, pos: nat, end: nat): (r: Read<seq<byte>>)
    requires Within(s, pos, end)
    ensures r.Ok? ==> pos < r.value.next <= end
  {
    match ReadInt(s, pos, end, 4)
    case Err(e) => Err(e)
    case Ok(n) =>
      match ReadTerminated(s, n.next, end, n.value)
      case Err(e) => Err(e)
      case Ok(g) => if 0 in g.value || !IsUtf8(g.value) then Err(InvalidMessage) else Ok(g)
  }

  function ReadPath(s: Source, pos: nat, end: nat): (r: Read<seq<byte>>)
    requires Within(s, pos, end)
    ensures r.Ok? ==> pos < r.value.next <= end
  {
    match ReadStr(s, pos, end)
    case Err(e) => Err(e)
    case Ok(g) => if !ValidPath(g.value) then Err(InvalidName) else Ok(g)
  }

  function ReadSig(s: Source, pos: nat, end: nat): (r: Read<seq<byte>>)
    requires Within(s, pos, end)
    ensures r.Ok? ==> pos < r.value.next <= end && ValidSignature(r.value.value)
  {
    match ReadBytes(s, pos, end, 1)
    case Err(e) => Err(e)
    case Ok(n) =>
      match ReadTerminated(s, n.next, end, n.value[0])
      case Err(e) => Err(e)
      case Ok(g) =>
        if !IsUtf8(g.value) then Err(InvalidMessage)
        else if !ValidSignature(g.value) then Err(InvalidSignature)
        else Ok(g)
  }

  function ReadVariantSig(s: Source, pos: nat, end: nat): (r: Read<seq<byte>>)
    requires Within(s, pos, end)
    ensures r.Ok? ==> pos < r.value.next <= end && ValidSingle(r.value.value, false)
  {
    match ReadSig(s, pos, end)
    case Err(e) => Err(e)
    case Ok(g) => if !ValidSingle(g.value, false) then Err(InvalidSignature) else Ok(g)
  }

  /** The range of an array's items: where they start, and where they and the array end. */
  datatype Range = Range(start: nat, end: nat)

  function ReadArray(s: Source, pos: nat, end: nat, alignment: nat): (r: Result<Range, DbusError>)
    requires Within(s, pos, end) && alignment > 0
    ensures r.Ok? ==> pos + 4 <= r.value.start <= r.value.end <= end
  {
    match ReadAlign(pos, end, 8)
    case Err(e) => Err(e)
    case Ok(p) =>
      match ReadInt(s, p, end, 4)
      case Err(e) => Err(e)
      case Ok(n) =>
        if n.value > MAX_ARRAY_LEN then Err(InvalidMessage)
        else
          match ReadAlign(n.next, end, alignment)
          case Err(e) => Err(e)
          case Ok(start) => if start + n.value > end then Err(InvalidMessage) else Ok(Range(start, start + n.value))
  }

  // ----- Values -----

  /** The type a validated single-type signature stands for. */
  function TypeIn(sig: seq<byte>): (t: Type)
    requires ValidSingle(sig, false)
    ensures Solid(t) && Legal(t, 0, 0, false) && sig == Print(t)
  {
    var t := ParseOne(sig, 0, 0, 0, false).value.t;
    ParseOneSound(sig, 0, 0, 0, false);
    AtSlice(sig, 0, Print(t));
    LegalIsSolid(t, 0, 0, false);
    t
  }

  function AsText(c: byte, r: Read<seq<byte>>): Read<Value> {
    match r
    case Err(e) => Err(e)
    case Ok(g) => Ok(Got(Text(c, g.value), g.next))
  }

  function ReadBasic(s: Source, pos: nat, end: nat, c: byte): (r: Read<Value>)
    requires Within(s, pos, end) && IsBasic(c)
    ensures r.Ok? ==> pos < r.value.next <= end
  {
    if IsFixed(c) then
      match ReadInt(s, pos, end, Width(c))
      case Err(e) => Err(e)
      case Ok(g) => if c == BOOLEAN && g.value > 1 then Err(InvalidMessage) else Ok(Got(Fixed(c, g.value), g.next))
    else if c == SIGNATURE then AsText(c, ReadSig(s, pos, end))
    else if c == OBJECT_PATH then AsText(c, ReadPath(s, pos, end))
    else AsText(c, ReadStr(s, pos, end))
  }

  /** Reads one value of type `t`, each part by the primitive for its type. */
  function ReadValue(s: Source, pos: nat, end: nat, t: Type): (r: Read<Value>)
    requires Within(s, pos, end) && Solid(t)
    ensures r.Ok? ==> pos < r.value.next <= end
    decreases end - pos, t, 0
  {
    match t
    case Basic(c) => ReadBasic(s, pos, end, c)
    case Array(e) => (
      match ReadArray(s, pos, end, AlignmentOf(e))
      case Err(x) => Err(x)
      case Ok(range) =>
        match ReadItems(s, range.start, range.end, e)
        case Err(x) => Err(x)
        case Ok(vs) => Ok(Got(Items(e, vs), range.end)))
    case Struct(fs) => (
      match ReadAlign(pos, end, 8)
      case Err(x) => Err(x)
      case Ok(p) =>
        match ReadFields(s, p, end, fs)
        case Err(x) => Err(x)
        case Ok(g) => Ok(Got(Record(g.value), g.next)))
    case Dict(k, v) => (
      match ReadAlign(pos, end, 8)
      case Err(x) => Err(x)
      case Ok(p) =>
        match ReadBasic(s, p, end, k)
        case Err(x) => Err(x)
        case Ok(key) =>
          match ReadValue(s, key.next, end, v)
          case Err(x) => Err(x)
          case Ok(g) => Ok(Got(Entry(key.value, g.value), g.next)))
    case Variant =>
      match ReadVariantSig(s, pos, end)
      case Err(x) => Err(x)
      case Ok(sig) =>
        match ReadValue(s, sig.next, end, TypeIn(sig.value))
        case Err(x) => Err(x)
        case Ok(g) => Ok(Got(Boxed(g.value), g.next))
  }

  function ReadItems(s: Source, pos: nat, end: nat, t: Type): (r: Result<seq<Value>, DbusError>)
    requires Within(s, pos, end) && Solid(t)
    decreases end - pos, t, 1
  {
    if pos == end then Ok([])
    else
      match ReadValue(s, pos, end, t)
      case Err(x) => Err(x)
      case Ok(g) =>
        match ReadItems(s, g.next, end, t)
        case Err(x) => Err(x)
        case Ok(vs) => Ok([g.value] + vs)
  }

  function ReadFields(s: Source, pos: nat, end: nat, ts: seq<Type>): (r: Read<seq<Value>>)
    requires Within(s, pos, end) && AllSolid(ts)
    ensures r.Ok? ==> pos <= r.value.next <= end && (ts != [] ==> pos < r.value.next)
    decreases end - pos, ts, 1
  {
    if ts == [] then Ok(Got([], pos))
    else
      match ReadValue(s, pos, end, ts[0])
      case Err(x) => Err(x)
      case Ok(g) =>
        match ReadFields(s, g.next, end, ts[1..])
        case Err(x) => Err(x)
        case Ok(rest) => Ok(Got([g.value] + rest.value, rest.next))
  }

  // ----- Skipping -----

  function NextOf<T>(r: Read<T>): Result<nat, DbusError> { if r.Ok? then Ok(r.value.next) else Err(r.error) }

  function SkipBasic(s: Source, pos: nat, end: nat, c: byte): (r: Result<nat, DbusError>)
    requires Within(s, pos, end) && IsBasic(c)
    ensures r.Ok? ==> pos < r.value <= end
  {
    if IsFixed(c) then NextOf(ReadInt(s, pos, end, Width(c)))
    else if c == SIGNATURE then NextOf(ReadSig(s, pos, end))
    else NextOf(ReadStr(s, pos, end))
  }

  /** Skips one value of type `t` without decoding it. */
  function Skip(s: Source, pos: nat, end: nat, t: Type): (r: Result<nat, DbusError>)
    requires Within(s, pos, end) && Solid(t)
    ensures r.Ok? ==> pos < r.value <= end
    decreases end - pos, t, 0
  {
    match t
    case Basic(c) => SkipBasic(s, pos, end, c)
    case Array(e) => (
      match ReadArray(s, pos, end, AlignmentOf(e))
      case Err(x) => Err(x)
      case Ok(range) => SkipItems(s, range.start, range.end, e))
    case Struct(fs) => (
      match ReadAlign(pos, end, 8)
      case Err(x) => Err(x)
      case Ok(p) => SkipFields(s, p, end, fs))
    case Dict(k, v) => (
      match ReadAlign(pos, end, 8)
      case Err(x) => Err(x)
      case Ok(p) =>
        match SkipBasic(s, p, end, k)
        case Err(x) => Err(x)
        case Ok(q) => Skip(s, q, end, v))
    case Variant =>
      match ReadVariantSig(s, pos, end)
      case Err(x) => Err(x)
      case Ok(sig) => Skip(s, sig.next, end, TypeIn(sig.value))
  }

  function SkipItems(s: Source, pos: nat, end: nat, t: Type): (r: Result<nat, DbusError>)
    requires Within(s, pos, end) && Solid(t)
    ensures r.Ok? ==> r.value == end
    decreases end - pos, t, 1
  {
    if pos == end then Ok(pos)
    else
      match Skip(s, pos, end, t)
      case Err(x) => Err(x)
      case Ok(p) => SkipItems(s, p, end, t)
  }

  function SkipFields(s: Source, pos: nat, end: nat, ts: seq<Type>): (r: Result<nat, DbusError>)
    requires Within(s, pos, end) && AllSolid(ts)
    ensures r.Ok? ==> pos <= r.value <= end && (ts != [] ==> pos < r.value)
    decreases end - pos, ts, 1
  {
    if ts == [] then Ok(pos)
    else
      match Skip(s, pos, end, ts[0])
      case Err(x) => Err(x)
      case Ok(p) => SkipFields(s, p, end, ts[1..])
  }

  /** A value that can be read can be skipped, and skipping stops where reading does. */
  lemma {:induction false} SkipStopsWhereReadingDoes(s: Source, pos: nat, end: nat, t: Type)
    requires Within(s, pos, end) && Solid(t) && ReadValue(s, pos, end, t).Ok?
    ensures Skip(s, pos, end, t) == Ok(ReadValue(s, pos, end, t).value.next)
    decreases end - pos, t, 0
  {
    hide ReadArray, ReadStr, ReadSig, ReadInt, ReadVariantSig, ReadAlign, IsBasic, Width, ValidPath;
    match t
    case Basic(c) =>
    case Array(e) =>
      var range := ReadArray(s, pos, end, AlignmentOf(e)).value;
      SkipItemsStops(s, range.start, range.end, e);
    case Struct(fs) =>
      SkipFieldsStops(s, ReadAlign(pos, end, 8).value, end, fs);
    case Dict(k, v) =>
      var key := ReadBasic(s, ReadAlign(pos, end, 8).value, end, k).value;
      SkipStopsWhereReadingDoes(s, key.next, end, v);
    case Variant =>
      var sig := ReadVariantSig(s, pos, end).value;
      SkipStopsWhereReadingDoes(s, sig.next, end, TypeIn(sig.value));
  }

  lemma {:induction false} SkipItemsStops(s: Source, pos: nat, end: nat, t: Type)
    requires Within(s, pos, end) && Solid(t) && ReadItems(s, pos, end, t).Ok?
    ensures SkipItems(s, pos, end, t) == Ok(end)
    decreases end - pos, t, 1
  {
    if pos < end {
      SkipStopsWhereReadingDoes(s, pos, end, t);
      SkipItemsStops(s, ReadValue(s, pos, end, t).value.next, end, t);
    }
  }

  lemma {:induction false} SkipFieldsStops(s: Source, pos: nat, end: nat, ts: seq<Type>)
    requires Within(s, pos, end) && AllSolid(ts) && ReadFields(s, pos, end, ts).Ok?
    ensures SkipFields(s, pos, end, ts) == Ok(ReadFields(s, pos, end, ts).value.next)
    decreases end - pos, ts, 1
  {
    if ts != [] {
      SkipStopsWhereReadingDoes(s, pos, end, ts[0]);
      SkipFieldsStops(s, ReadValue(s, pos, end, ts[0]).value.next, end, ts[1..]);
    }
  }
}
