/** Cutting a byte stream into messages and pairing them with their descriptors. */
module DbusStream {
  import opened Bytes
  import opened DbusNames
  import opened Utf8
  import opened DbusSignature
  import opened DbusWire
  import opened DbusRead
  import opened DbusRoundTrip
  import opened DbusMessage
  import opened DbusMessageRoundTrip
  import opened DbusMessageCode

  const FIXED_HEADER_LEN := 12

  // ----- Framing -----

  datatype Framing = NeedMore | Malformed(error: DbusError) | Complete(total: nat)

  function U32At(b: seq<byte>, i: nat, order: ByteOrder): nat
    requires i + 4 <= |b|
  {
    FromInt(order, b[i..i + 4])
  }

  function RoundUp8(n: nat): nat { (n + 7) / 8 * 8 }

  /** The size a message announces, once its first twenty bytes are there. */
  function Announces(b: seq<byte>, order: ByteOrder): nat
    requires |b| >= 20
  {
    RoundUp8(24 + U32At(b, 16, order)) + U32At(b, 4, order)
  }

  /** What the buffered bytes say about the first message. */
  function Inspect(b: seq<byte>): (r: Framing)
    ensures r.Complete? ==> 20 <= r.total <= |b|
  {
    if |b| < FIXED_HEADER_LEN then NeedMore
    else if OrderOf(b[0]).None? || b[3] != PROTOCOL_VERSION then Malformed(InvalidMessage)
    else
      var order := OrderOf(b[0]).value;
      if U32At(b, 8, order) == 0 then Malformed(InvalidMessage)
      else if U32At(b, 4, order) > MAX_MESSAGE_LEN then Malformed(MessageTooBig(U32At(b, 4, order)))
      else if |b| < 20 then NeedMore
      else if U32At(b, 16, order) > MAX_ARRAY_LEN then Malformed(MessageTooBig(U32At(b, 16, order)))
      else if Announces(b, order) > MAX_MESSAGE_LEN then Malformed(MessageTooBig(Announces(b, order)))
      else if |b| < Announces(b, order) then NeedMore
      else Complete(Announces(b, order))
  }

  /** More bytes never change a framing already decided. */
  lemma InspectGrows(b: seq<byte>, x: seq<byte>)
    requires !Inspect(b).NeedMore?
    ensures Inspect(b + x) == Inspect(b)
  {
    SameHeader(b, x);
    hide FromInt, RoundUp8;
  }

  lemma SameHeader(b: seq<byte>, x: seq<byte>)
    ensures forall i, order :: 0 <= i && i + 4 <= |b| ==> U32At(b + x, i, order) == U32At(b, i, order)
  {
    forall i, order | 0 <= i && i + 4 <= |b|
      ensures U32At(b + x, i, order) == U32At(b, i, order)
    {
      assert (b + x)[i..i + 4] == b[i..i + 4];
    }
  }

  /** A proper part of a message is never taken for a message or an error. */
  lemma PartNeedsMore(b: seq<byte>, x: seq<byte>)
    requires Inspect(b + x) == Complete(|b + x|) && x != []
    ensures Inspect(b) == NeedMore
  {
    SameHeader(b, x);
    hide FromInt, RoundUp8;
  }

  // ----- Messages and their descriptors -----

  function Attach(m: Message, fds: seq<int>): Message {
    if m.unixFds > 0 then m.(unixFds := |fds|, fds := fds) else m
  }

  datatype Polled = Polled(result: Result<Option<Message>, DbusError>, buffer: seq<byte>, pending: seq<int>,
      missing: bool)

  /** One poll of the stream: unknown message types are skipped. */
  function Poll(buffer: seq<byte>, pending: seq<int>): (r: Polled)
    ensures r.result.Ok? && r.result.value.Some? ==> |r.buffer| < |buffer|
    ensures r.missing ==> r.result.Err?
    decreases |buffer|
  {
    match Inspect(buffer)
    case NeedMore => Polled(Ok(None), buffer, pending, false)
    case Malformed(e) => Polled(Err(e), buffer, pending, false)
    case Complete(n) =>
      if KindOf(buffer[1]).None? then Poll(buffer[n..], pending)
      else
        match Decode(buffer[..n])
        case Err(e) => Polled(Err(e), buffer[n..], pending, false)
        case Ok(m) =>
          if |pending| < m.unixFds then Polled(Err(InvalidMessage), buffer, pending, true)
          else Polled(Ok(Some(Attach(m, pending[..m.unixFds]))), buffer[n..], pending[m.unixFds..], false)
  }

  class MessageStream {
    var buffer: seq<byte>
    var pending: seq<int>

    constructor ()
      ensures buffer == [] && pending == []
    {
      buffer, pending := [], [];
    }

    method FeedWithFds(data: seq<byte>, fds: seq<int>)
      modifies this
      ensures buffer == old(buffer) + data && pending == old(pending) + fds
    {
      pending := pending + fds;
      buffer := buffer + data;
    }

    /** The next complete message; bytes are kept while it is incomplete or lacks descriptors. */
    method NextMessage() returns (r: Result<Option<Message>, DbusError>)
      modifies this
      ensures var p := Poll(old(buffer), old(pending)); r == p.result && buffer == p.buffer && pending == p.pending
    {
      hide Inspect, Decode;
      while true
        invariant Poll(buffer, pending) == Poll(old(buffer), old(pending))
        decreases |buffer|
      {
        var framing := Frames();
        match framing
        case NeedMore => return Ok(None);
        case Malformed(e) => return Err(e);
        case Complete(total) =>
          if KindOf(buffer[1]).None? {
            buffer := buffer[total..];
          } else {
            r := Deliver(total);
            return;
          }
      }
    }

    /** The checks on the header of the first message, as far as it is buffered. */
    method Frames() returns (r: Framing)
      ensures r == Inspect(buffer)
    {
      hide FromInt;
      if |buffer| < FIXED_HEADER_LEN {
        return NeedMore;
      }
      var order := OrderOf(buffer[0]);
      if order.None? || buffer[3] != PROTOCOL_VERSION {
        return Malformed(InvalidMessage);
      }
      var bodyLen, serial := U32At(buffer, 4, order.value), U32At(buffer, 8, order.value);
      if serial == 0 {
        return Malformed(InvalidMessage);
      }
      if bodyLen > MAX_MESSAGE_LEN {
        return Malformed(MessageTooBig(bodyLen));
      }
      if |buffer| < 20 {
        return NeedMore;
      }
      var fieldsLen := U32At(buffer, 16, order.value);
      if fieldsLen > MAX_ARRAY_LEN {
        return Malformed(MessageTooBig(fieldsLen));
      }
      var total := RoundUp8(24 + fieldsLen) + bodyLen;
      if total > MAX_MESSAGE_LEN {
        return Malformed(MessageTooBig(total));
      }
      r := if |buffer| < total then NeedMore else Complete(total);
    }

    /** Decodes the message in the first `total` bytes and gives it its descriptors. */
    method Deliver(total: nat) returns (r: Result<Option<Message>, DbusError>)
      requires Inspect(buffer) == Complete(total) && KindOf(buffer[1]).Some?
      modifies this
      ensures var p := Poll(old(buffer), old(pending)); r == p.result && buffer == p.buffer && pending == p.pending
    {
      hide Inspect, Decode;
      var decoded := DecodeMessage(buffer[..total]);
      if decoded.Ok? && |pending| < decoded.value.unixFds {
        return Err(InvalidMessage);
      }
      buffer := buffer[total..];
      if decoded.Err? {
        return Err(decoded.error);
      }
      var message, needed := decoded.value, decoded.value.unixFds;
      if needed > 0 {
        var fds := pending[..needed];
        pending := pending[needed..];
        message := message.(unixFds := |fds|, fds := fds);
      }
      r := Ok(Some(message));
    }
  }

  // ----- Draining a stream -----

  datatype Stop = Waiting | Failed(error: DbusError) | MissingFds

  datatype Drained = Drained(out: seq<Message>, buffer: seq<byte>, pending: seq<int>, stop: Stop)

  /** Polls until the stream has no further message or fails. */
  function Drain(buffer: seq<byte>, pending: seq<int>): Drained
    decreases |buffer|
  {
    var p := Poll(buffer, pending);
    match p.result
    case Err(e) => Drained([], p.buffer, p.pending, if p.missing then MissingFds else Failed(e))
    case Ok(None) => Drained([], p.buffer, p.pending, Waiting)
    case Ok(Some(m)) =>
      var d := Drain(p.buffer, p.pending);
      d.(out := [m] + d.out)
  }

  /** A poll that delivers or fails does the same whatever follows; one that waits for bytes or
      for descriptors keeps what it needs to carry on with more input. */
  lemma {:induction false} PollGrows(b: seq<byte>, p: seq<int>, x: seq<byte>, f: seq<int>)
    ensures var r, r' := Poll(b, p), Poll(b + x, p + f);
      if r.result == Ok(None) || r.missing then r' == Poll(r.buffer + x, r.pending + f)
      else
        && r'.result == r.result && !r'.missing
        && (r.result.Ok? ==> r'.buffer == r.buffer + x && r'.pending == r.pending + f)
    decreases |b|
  {
    hide Inspect, Decode;
    if !Inspect(b).NeedMore? {
      InspectGrows(b, x);
    }
    if Inspect(b).Complete? {
      var n := Inspect(b).total;
      assert (b + x)[..n] == b[..n] && (b + x)[n..] == b[n..] + x;
      if KindOf(b[1]).None? {
        PollGrows(b[n..], p, x, f);
      } else if Decode(b[..n]).Ok? {
        var k := Decode(b[..n]).value.unixFds;
        if k <= |p| {
          assert (p + f)[..k] == p[..k] && (p + f)[k..] == p[k..] + f;
        }
      }
    }
  }

  /** Draining in two parts is draining at once. */
  lemma {:induction false} DrainGrows(b: seq<byte>, p: seq<int>, x: seq<byte>, f: seq<int>)
    ensures var d, d' := Drain(b, p), Drain(b + x, p + f);
      if d.stop.Failed? then d'.out == d.out && d'.stop == d.stop
      else var e := Drain(d.buffer + x, d.pending + f); d' == e.(out := d.out + e.out)
    decreases |b|
  {
    hide Poll;
    PollGrows(b, p, x, f);
    var r := Poll(b, p);
    if r.result.Ok? && r.result.value.Some? {
      DrainGrows(r.buffer, r.pending, x, f);
      var d := Drain(r.buffer, r.pending);
      var e := Drain(d.buffer + x, d.pending + f);
      assert [r.result.value.value] + (d.out + e.out) == ([r.result.value.value] + d.out) + e.out;
    } else {
      var e := Drain(r.buffer + x, r.pending + f);
      assert [] + e.out == e.out;
    }
  }

  // ----- Any way of cutting the input into reads -----

  datatype Chunk = Chunk(data: seq<byte>, fds: seq<int>)

  /** A reader that drains after every chunk. It gives up at an error, except that it queues
      further descriptors and retries while some are missing. */
  function Feed(d: Drained, c: Chunk): Drained {
    if d.stop.Failed? then d
    else var e := Drain(d.buffer + c.data, d.pending + c.fds); e.(out := d.out + e.out)
  }

  function FeedAll(d: Drained, cs: seq<Chunk>): Drained
    decreases |cs|
  {
    if cs == [] then d else FeedAll(Feed(d, cs[0]), cs[1..])
  }

  function DataOf(cs: seq<Chunk>): seq<byte> { if cs == [] then [] else cs[0].data + DataOf(cs[1..]) }

  function FdsIn(cs: seq<Chunk>): seq<int> { if cs == [] then [] else cs[0].fds + FdsIn(cs[1..]) }

  lemma {:induction false} FailedStays(d: Drained, cs: seq<Chunk>)
    requires d.stop.Failed?
    ensures FeedAll(d, cs) == d
  {
    if cs != [] {
      FailedStays(d, cs[1..]);
    }
  }

  lemma {:induction false} ChunksFrom(b: seq<byte>, p: seq<int>, cs: seq<Chunk>)
    ensures var r, w := FeedAll(Drain(b, p), cs), Drain(b + DataOf(cs), p + FdsIn(cs));
      r.out == w.out && r.stop == w.stop && (!r.stop.Failed? ==> r == w)
    decreases |cs|
  {
    hide Drain;
    if cs == [] {
      assert b + DataOf(cs) == b && p + FdsIn(cs) == p;
    } else {
      var d, c, rest := Drain(b, p), cs[0], cs[1..];
      if d.stop.Failed? {
        FailedStays(d, cs);
        DrainGrows(b, p, DataOf(cs), FdsIn(cs));
      } else {
        DrainGrows(b, p, c.data, c.fds);
        ChunksFrom(b + c.data, p + c.fds, rest);
        assert b + DataOf(cs) == (b + c.data) + DataOf(rest) && p + FdsIn(cs) == (p + c.fds) + FdsIn(rest);
      }
    }
  }

  /** However the input is cut, and whatever it holds, the same messages come out in the same
      order with the same descriptors, the stream stops for the same reason, and unless it
      failed the same bytes and descriptors are left. */
  lemma AnyChunking(cs: seq<Chunk>)
    ensures var r, w := FeedAll(Drain([], []), cs), Drain(DataOf(cs), FdsIn(cs));
      r.out == w.out && r.stop == w.stop && (!r.stop.Failed? ==> r == w)
  {
    hide Drain, FeedAll;
    ChunksFrom([], [], cs);
    assert [] + DataOf(cs) == DataOf(cs) && [] + FdsIn(cs) == FdsIn(cs);
  }

  // ----- What was sent is what is delivered -----

  /** A message a peer can send: it encodes, its names are valid and it announces the
      descriptors it carries. */
  predicate Sendable(m: Message) { WellTyped(m) && NamesValid(m) && Encode(m).Ok? && m.unixFds == |m.fds| }

  predicate AllSendable(ms: seq<Message>) { ms == [] || (Sendable(ms[0]) && AllSendable(ms[1..])) }

  function BytesOf(m: Message): seq<byte> { if Encode(m).Ok? then Encode(m).value else [] }

  function Wire(ms: seq<Message>): seq<byte> { if ms == [] then [] else BytesOf(ms[0]) + Wire(ms[1..]) }

  function Carried(ms: seq<Message>): seq<int> { if ms == [] then [] else ms[0].fds + Carried(ms[1..]) }

  lemma RoundUpIsGap(n: nat)
    ensures RoundUp8(n) == n + Gap(n, 8)
  {
  }

  lemma IntAt(s: Source, i: nat, v: nat)
    requires i % 4 == 0 && Within(s, i, |s.data|) && ReadInt(s, i, |s.data|, 4).Ok?
      && ReadInt(s, i, |s.data|, 4).value.value == v
    ensures i + 4 <= |s.data| && U32At(s.data, i, s.order) == v
  {
    hide FromInt;
  }

  /** Every encoded message is framed by exactly its own length. */
  lemma EncodedIsComplete(m: Message, b: seq<byte>)
    requires WellTyped(m) && Encode(m) == Ok(b)
    ensures Inspect(b) == Complete(|b|) && KindOf(b[1]) == Some(m.kind)
  {
    hide Frame, FieldsOf, MarshalFields, ParseAll, ReadInt, IsUtf8, U32At, RoundUp8, FixedHeader, ArrayBytes, Holds,
      Gap;
    var fields := MarshalFields(m.order, FieldsOf(m), FIELDS_START).value;
    var rest := FrameRest(m, fields);
    HeaderBack(m, rest);
    FrameParts(m, fields);
    var s := Source(b, m.order);
    IntAt(s, 4, |m.body|);
    IntAt(s, 8, m.serial);
    FieldsLength(s, fields);
    RoundUpIsGap(FIELDS_START + |fields|);
  }

  lemma FieldsLength(s: Source, fields: seq<byte>)
    requires |fields| <= MAX_ARRAY_LEN && Holds(s, 12, |s.data|, ArrayBytes(s.order, Variant, fields, 12))
    ensures 20 <= |s.data| && U32At(s.data, 16, s.order) == |fields|
  {
    hide IntBytes, ArrayBytes, U32At, ReadInt, Holds;
    ArrayParts(s, 12, |s.data|, Variant, fields);
    assert Pad(16, 4) + IntBytes(s.order, |fields|, 4) == IntBytes(s.order, |fields|, 4);
    InRange(s, 16, |s.data|, IntBytes(s.order, |fields|, 4));
    IntBack(s, 16, |s.data|, |fields|, 4);
    IntAt(s, 16, |fields|);
  }

  lemma AttachReceived(m: Message)
    requires Sendable(m)
    ensures Received(m).unixFds == |m.fds| && Attach(Received(m), m.fds) == m
  {
    hide IsUtf8, NamesValid, Encode;
    AnnouncedIsCount(m);
  }

  lemma AnnouncedIsCount(m: Message)
    requires m.unixFds == |m.fds| < Pow256(4)
    ensures Announced(m) == |m.fds|
  {
  }

  /** One sent message at the head of the stream is delivered as it was sent. */
  lemma PollDelivers(m: Message, x: seq<byte>, f: seq<int>)
    requires Sendable(m)
    ensures Poll(BytesOf(m) + x, m.fds + f) == Polled(Ok(Some(m)), x, f, false)
  {
    hide Encode, Decode, Inspect, WellTyped, NamesValid, Received, Attach, IsUtf8;
    var b := Encode(m).value;
    EncodedIsComplete(m, b);
    InspectGrows(b, x);
    assert (b + x)[..|b|] == b && (b + x)[|b|..] == x;
    DecodeUndoesEncode(m, b);
    AttachReceived(m);
    assert (m.fds + f)[..|m.fds|] == m.fds && (m.fds + f)[|m.fds|..] == f;
  }

  /** A part of a sent message is kept, untouched, until the rest arrives. */
  lemma PartIsKept(m: Message, part: seq<byte>, f: seq<int>)
    requires PartOf(part, m)
    ensures Poll(part, f) == Polled(Ok(None), part, f, false)
  {
    hide Encode, Inspect, WellTyped, NamesValid, IsUtf8;
    var b := Encode(m).value;
    EncodedIsComplete(m, b);
    assert b == part + b[|part|..];
    PartNeedsMore(part, b[|part|..]);
  }

  predicate PartOf(part: seq<byte>, m: Message) { Sendable(m) && part < BytesOf(m) }

  ghost predicate PartOfNext(part: seq<byte>) { part == [] || exists m :: PartOf(part, m) }

  lemma {:induction false} DrainDelivers(ms: seq<Message>, part: seq<byte>, f: seq<int>)
    requires AllSendable(ms) && PartOfNext(part)
    ensures Drain(Wire(ms) + part, Carried(ms) + f) == Drained(ms, part, f, Waiting)
    decreases |ms|
  {
    hide Poll, BytesOf, Sendable, PartOf;
    if ms == [] {
      assert Wire(ms) + part == part && Carried(ms) + f == f;
      if part == [] {
        NothingToPoll(f);
      } else {
        var m :| PartOf(part, m);
        PartIsKept(m, part, f);
      }
    } else {
      var m, rest := ms[0], ms[1..];
      var x, g := Wire(rest) + part, Carried(rest) + f;
      assert Wire(ms) + part == BytesOf(m) + x && Carried(ms) + f == m.fds + g;
      PollDelivers(m, x, g);
      DrainDelivers(rest, part, f);
      assert ms == [m] + rest;
    }
  }

  lemma NothingToPoll(f: seq<int>)
    ensures Poll([], f) == Polled(Ok(None), [], f, false)
  {
  }

  /** The messages a peer sends come out exactly as sent, in order and with their descriptors,
      whatever reads the bytes and the descriptors arrive in; the part of a next message waits. */
  lemma SentIsDelivered(ms: seq<Message>, part: seq<byte>, f: seq<int>, cs: seq<Chunk>)
    requires AllSendable(ms) && PartOfNext(part) && DataOf(cs) == Wire(ms) + part && FdsIn(cs) == Carried(ms) + f
    ensures FeedAll(Drain([], []), cs) == Drained(ms, part, f, Waiting)
  {
    hide Drain, FeedAll, AllSendable, PartOfNext, Wire, Carried;
    AnyChunking(cs);
    DrainDelivers(ms, part, f);
  }

  // ----- Descriptors that arrive in time -----

  /** Whenever the bytes of the first messages are in, so are their descriptors. */
  ghost predicate FdsKeepUp(ms: seq<Message>, cs: seq<Chunk>) {
    forall i, k :: 0 <= i <= |cs| && 0 <= k <= |ms| && Wire(ms[..k]) <= DataOf(cs[..i])
      ==> |Carried(ms[..k])| <= |FdsIn(cs[..i])|
  }

  /** A message whose descriptors are not all queued is an error that keeps its bytes. */
  lemma PollStarves(m: Message, x: seq<byte>, g: seq<int>)
    requires Sendable(m) && |g| < |m.fds|
    ensures Poll(BytesOf(m) + x, g) == Polled(Err(InvalidMessage), BytesOf(m) + x, g, true)
  {
    hide Encode, Decode, Inspect, WellTyped, NamesValid, Received, Attach, IsUtf8;
    var b := Encode(m).value;
    EncodedIsComplete(m, b);
    InspectGrows(b, x);
    assert (b + x)[..|b|] == b;
    DecodeUndoesEncode(m, b);
    AttachReceived(m);
  }

  lemma {:induction false} DrainStarves(ms: seq<Message>, x: seq<byte>, g: seq<int>)
    requires AllSendable(ms) && g < Carried(ms)
    ensures Drain(Wire(ms) + x, g).stop == MissingFds
    decreases |ms|
  {
    hide Poll, BytesOf, Sendable;
    var m, rest := ms[0], ms[1..];
    var y := Wire(rest) + x;
    assert Wire(ms) + x == BytesOf(m) + y;
    if |g| < |m.fds| {
      PollStarves(m, y, g);
    } else {
      assert g[..|m.fds|] == m.fds && g == m.fds + g[|m.fds|..];
      PollDelivers(m, y, g[|m.fds|..]);
      DrainStarves(rest, x, g[|m.fds|..]);
    }
  }

  lemma {:induction false} ChunkSnoc(cs: seq<Chunk>, c: Chunk)
    ensures DataOf(cs + [c]) == DataOf(cs) + c.data && FdsIn(cs + [c]) == FdsIn(cs) + c.fds
    decreases |cs|
  {
    if cs != [] {
      ChunkSnoc(cs[1..], c);
      assert (cs + [c])[1..] == cs[1..] + [c];
    }
  }

  lemma {:induction false} WirePrefix(ms: seq<Message>, k: nat)
    requires k <= |ms| && AllSendable(ms)
    ensures AllSendable(ms[..k]) && Carried(ms) == Carried(ms[..k]) + Carried(ms[k..])
    decreases |ms|
  {
    hide Sendable, Wire, BytesOf;
    if k > 0 {
      WirePrefix(ms[1..], k - 1);
      assert ms[..k][1..] == ms[1..][..k - 1] && ms[k..] == ms[1..][k - 1..];
    } else {
      assert ms[0..] == ms && ms[..0] == [];
    }
  }

  /** Any prefix of the byte stream is some whole messages and a part of the next. */
  lemma {:induction false} WholeMessagesAndAPart(ms: seq<Message>, part: seq<byte>, b: seq<byte>) returns (k: nat,
      p: seq<byte>)
    requires AllSendable(ms) && PartOfNext(part) && b <= Wire(ms) + part
    ensures k <= |ms| && b == Wire(ms[..k]) + p && PartOfNext(p)
    decreases |ms|
  {
    hide Sendable, BytesOf;
    k, p := 0, b;
    assert ms[..0] == [];
    if ms == [] {
      if b != [] {
        var m :| PartOf(part, m);
        assert PartOf(b, m);
      }
    } else {
      var e := BytesOf(ms[0]);
      assert Wire(ms) + part == e + (Wire(ms[1..]) + part);
      if |b| < |e| {
        assert PartOf(b, ms[0]);
      } else {
        assert b[..|e|] == e && b[|e|..] <= Wire(ms[1..]) + part;
        var k', p' := WholeMessagesAndAPart(ms[1..], part, b[|e|..]);
        k, p := k' + 1, p';
        assert ms[..k][1..] == ms[1..][..k'];
        assert b == e + b[|e|..];
      }
    }
  }

  lemma {:induction false} PrefixOfChunks(cs: seq<Chunk>, i: nat)
    requires i <= |cs|
    ensures DataOf(cs[..i]) <= DataOf(cs) && FdsIn(cs[..i]) <= FdsIn(cs)
    decreases |cs| - i
  {
    hide DataOf, FdsIn;
    if i == |cs| {
      assert cs[..i] == cs;
    } else {
      assert cs[..i + 1] == cs[..i] + [cs[i]];
      ChunkSnoc(cs[..i], cs[i]);
      PrefixOfChunks(cs, i + 1);
    }
  }

  /** While the descriptors keep up, the reader waits after every chunk. */
  lemma ChunksDrain(ms: seq<Message>, part: seq<byte>, f: seq<int>, cs: seq<Chunk>, i: nat)
    requires AllSendable(ms) && PartOfNext(part) && DataOf(cs) == Wire(ms) + part && FdsIn(cs) == Carried(ms) + f
    requires i <= |cs| && FdsKeepUp(ms, cs)
    ensures FeedAll(Drain([], []), cs[..i]).stop.Waiting?
  {
    hide Drain, FeedAll, AllSendable, PartOfNext, Wire, Carried;
    AnyChunking(cs[..i]);
    PrefixOfChunks(cs, i);
    var b, g := DataOf(cs[..i]), FdsIn(cs[..i]);
    var k, p := WholeMessagesAndAPart(ms, part, b);
    WirePrefix(ms, k);
    var n := |Carried(ms[..k])|;
    assert n <= |g|;
    assert g[..n] == Carried(ms[..k]) && g == g[..n] + g[n..];
    DrainDelivers(ms[..k], p, g[n..]);
  }

  lemma ChunksStarve(ms: seq<Message>, part: seq<byte>, f: seq<int>, cs: seq<Chunk>, i: nat, k: nat)
    requires AllSendable(ms) && DataOf(cs) == Wire(ms) + part && FdsIn(cs) == Carried(ms) + f
    requires i <= |cs| && k <= |ms| && Wire(ms[..k]) <= DataOf(cs[..i]) && |Carried(ms[..k])| > |FdsIn(cs[..i])|
    ensures FeedAll(Drain([], []), cs[..i]).stop == MissingFds
  {
    hide Drain, FeedAll, AllSendable, Wire, Carried;
    AnyChunking(cs[..i]);
    PrefixOfChunks(cs, i);
    WirePrefix(ms, k);
    var b, g, w := DataOf(cs[..i]), FdsIn(cs[..i]), Wire(ms[..k]);
    assert b == w + b[|w|..];
    assert g < Carried(ms[..k]);
    DrainStarves(ms[..k], b[|w|..], g);
  }

  /** No read reports missing descriptors exactly when the descriptors of every message are queued
      no later than its last byte. */
  lemma NeverMissingIff(ms: seq<Message>, part: seq<byte>, f: seq<int>, cs: seq<Chunk>)
    requires AllSendable(ms) && PartOfNext(part) && DataOf(cs) == Wire(ms) + part && FdsIn(cs) == Carried(ms) + f
    ensures (forall i :: 0 <= i <= |cs| ==> FeedAll(Drain([], []), cs[..i]).stop.Waiting?) <==> FdsKeepUp(ms, cs)
  {
    hide Drain, FeedAll, AllSendable, PartOfNext, Wire, Carried;
    if FdsKeepUp(ms, cs) {
      forall i | 0 <= i <= |cs| ensures FeedAll(Drain([], []), cs[..i]).stop.Waiting? {
        ChunksDrain(ms, part, f, cs, i);
      }
    } else {
      var i, k :| 0 <= i <= |cs| && 0 <= k <= |ms| && Wire(ms[..k]) <= DataOf(cs[..i])
        && |Carried(ms[..k])| > |FdsIn(cs[..i])|;
      ChunksStarve(ms, part, f, cs, i, k);
    }
  }
}
