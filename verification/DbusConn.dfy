/** The connection: the transmit queue, the dispatch of replies, and serial numbers. */
module DbusConn {
  import opened Bytes
  import opened DbusNames
  import opened DbusMessage
  import opened DbusMessageCode

  // ----- The transmit queue -----

  /** An encoded message, how much of it is written, and the descriptors of its first byte. */
  datatype Segment = Segment(bytes: seq<byte>, pos: nat, fds: seq<int>) {
    function Remaining(): seq<byte> { if pos <= |bytes| then bytes[pos..] else [] }
  }

  /** What the kernel answers to a write. */
  datatype Answer = Wrote(n: nat) | WouldBlock | Failed(error: DbusError)

  /** A chunk the kernel accepted, with the descriptors handed over with it. */
  datatype Sent = Sent(data: seq<byte>, fds: seq<int>)

  datatype Tx = Tx(segments: seq<Segment>, needsWrite: bool, sent: seq<Sent>, closed: seq<int>)

  datatype Flushed = Flushed(tx: Tx, script: seq<Answer>, error: Option<DbusError>)

  function Held(segments: seq<Segment>): seq<int> {
    if segments == [] then [] else segments[0].fds + Held(segments[1..])
  }

  function Queue(tx: Tx, bytes: seq<byte>, fds: seq<int>): Tx {
    tx.(segments := tx.segments + [Segment(bytes, 0, fds)], needsWrite := true)
  }

  /** Dropping a segment closes the descriptors it still holds. */
  function DropAll(tx: Tx): Tx {
    tx.(segments := [], needsWrite := false, closed := tx.closed + Held(tx.segments))
  }

  function DropFront(tx: Tx): Tx
    requires tx.segments != []
  {
    tx.(segments := tx.segments[1..], closed := tx.closed + tx.segments[0].fds)
  }

  /** The kernel took `n` bytes of the front segment, and its descriptors with the first of them. */
  function Advance(tx: Tx, n: nat): Tx
    requires tx.segments != [] && n <= |tx.segments[0].Remaining()|
  {
    var front := tx.segments[0];
    Tx([Segment(front.bytes, front.pos + n, [])] + tx.segments[1..], tx.needsWrite,
      tx.sent + [Sent(front.Remaining()[..n], front.fds)], tx.closed + front.fds)
  }

  function Min(a: nat, b: nat): nat { if a < b then a else b }

  /** Writes queued segments in order against any sequence of kernel answers. */
  function Flush(tx: Tx, script: seq<Answer>): Flushed
    decreases |script|, |tx.segments|
  {
    if tx.segments == [] then Flushed(tx.(needsWrite := false), script, None)
    else if tx.segments[0].pos >= |tx.segments[0].bytes| then Flush(DropFront(tx), script)
    else if script == [] then Flushed(tx, [], None)
    else
      match script[0]
      case WouldBlock => Flushed(tx, script[1..], None)
      case Failed(e) => Flushed(DropAll(tx), script[1..], Some(e))
      case Wrote(n) =>
        if n == 0 then Flushed(DropAll(tx), script[1..], Some(Disconnected))
        else Flush(Advance(tx, Min(n, |tx.segments[0].Remaining()|)), script[1..])
  }

  // ----- What any run of the queue keeps -----

  /** A byte on the wire and the descriptors attached to it. */
  datatype Mark = Mark(b: byte, fds: seq<int>)

  /** Descriptors travel with the first byte. */
  function Marked(data: seq<byte>, fds: seq<int>): (r: seq<Mark>)
    ensures |r| == |data|
  {
    seq(|data|, i requires 0 <= i < |data| => Mark(data[i], if i == 0 then fds else []))
  }

  function Unsent(segments: seq<Segment>): seq<Mark> {
    if segments == [] then [] else Marked(segments[0].Remaining(), segments[0].fds) + Unsent(segments[1..])
  }

  function Accepted(sent: seq<Sent>): seq<Mark> {
    if sent == [] then [] else Accepted(sent[..|sent| - 1]) + Marked(sent[|sent| - 1].data, sent[|sent| - 1].fds)
  }

  predicate Sound(g: Segment) { g.pos <= |g.bytes| && g.bytes != [] && (g.pos > 0 ==> g.fds == []) }

  predicate AllSound(segments: seq<Segment>) { forall i :: 0 <= i < |segments| ==> Sound(segments[i]) }

  /** The stream as the peer will see it: what is accepted, then what is queued. */
  function Stream(tx: Tx): seq<Mark> { Accepted(tx.sent) + Unsent(tx.segments) }

  /** Every descriptor handed in: the closed ones, then those still held. */
  function Descriptors(tx: Tx): seq<int> { tx.closed + Held(tx.segments) }

  lemma MarkedSplits(data: seq<byte>, n: nat, fds: seq<int>)
    requires 0 < n <= |data|
    ensures Marked(data, fds) == Marked(data[..n], fds) + Marked(data[n..], [])
  {
  }

  lemma AcceptedSnoc(sent: seq<Sent>, c: Sent)
    ensures Accepted(sent + [c]) == Accepted(sent) + Marked(c.data, c.fds)
  {
    hide Marked;
    assert (sent + [c])[..|sent|] == sent;
  }

  lemma UnsentCons(g: Segment, rest: seq<Segment>)
    ensures Unsent([g] + rest) == Marked(g.Remaining(), g.fds) + Unsent(rest) && Held([g] + rest) == g.fds + Held(rest)
  {
    hide Marked;
    assert ([g] + rest)[1..] == rest;
  }

  lemma AdvanceKeeps(tx: Tx, n: nat)
    requires AllSound(tx.segments) && tx.segments != [] && 0 < n <= |tx.segments[0].Remaining()|
    ensures AllSound(Advance(tx, n).segments)
    ensures Stream(Advance(tx, n)) == Stream(tx) && Descriptors(Advance(tx, n)) == Descriptors(tx)
  {
    hide Marked, Unsent, Held, Accepted;
    var front, rest := tx.segments[0], tx.segments[1..];
    var data, g := front.Remaining(), Segment(front.bytes, front.pos + n, []);
    assert tx.segments == [front] + rest && g.Remaining() == data[n..];
    AcceptedSnoc(tx.sent, Sent(data[..n], front.fds));
    UnsentCons(front, rest);
    UnsentCons(g, rest);
    MarkedSplits(data, n, front.fds);
    Regroup(Accepted(tx.sent), Marked(data[..n], front.fds), Marked(data[n..], []), Unsent(rest));
    Regroup(tx.closed, front.fds, [], Held(rest));
  }

  lemma Assoc<T>(a: seq<T>, b: seq<T>, c: seq<T>)
    ensures (a + b) + c == a + (b + c)
  {
  }

  lemma Regroup<T>(a: seq<T>, b: seq<T>, c: seq<T>, d: seq<T>)
    ensures (a + b) + (c + d) == a + ((b + c) + d) && b + [] == b
  {
  }

  lemma DropFrontKeeps(tx: Tx)
    requires AllSound(tx.segments) && tx.segments != [] && tx.segments[0].pos >= |tx.segments[0].bytes|
    ensures AllSound(DropFront(tx).segments)
    ensures Stream(DropFront(tx)) == Stream(tx) && Descriptors(DropFront(tx)) == Descriptors(tx)
  {
    assert Marked(tx.segments[0].Remaining(), tx.segments[0].fds) == [];
    assert Unsent(tx.segments) == [] + Unsent(tx.segments[1..]) == Unsent(tx.segments[1..]);
  }

  /** A flush neither loses, repeats nor reorders a byte or a descriptor; after a failure
      everything still held is closed. */
  lemma {:induction false} FlushKeeps(tx: Tx, script: seq<Answer>)
    requires AllSound(tx.segments)
    ensures var f := Flush(tx, script);
      && AllSound(f.tx.segments) && Descriptors(f.tx) == Descriptors(tx)
      && (f.error.None? ==> Stream(f.tx) == Stream(tx))
      && (f.error.Some? ==> f.tx.segments == [] && Stream(f.tx) <= Stream(tx) && f.tx.closed == Descriptors(tx))
      && (f.error.None? && !f.tx.needsWrite && tx.needsWrite ==> f.tx.segments == [])
    decreases |script|, |tx.segments|
  {
    hide AllSound, Stream, Descriptors, Advance, DropFront;
    if tx.segments != [] {
      var front := tx.segments[0];
      if front.pos >= |front.bytes| {
        DropFrontKeeps(tx);
        DropFrontIs(tx);
        FlushKeeps(DropFront(tx), script);
      } else if script != [] {
        var a := script[0];
        if a.Wrote? && a.n > 0 {
          var n := Min(a.n, |front.Remaining()|);
          AdvanceKeeps(tx, n);
          AdvanceIs(tx, n);
          FlushKeeps(Advance(tx, n), script[1..]);
        } else {
          DropAllKeeps(tx);
        }
      }
    }
    SameParts(tx);
  }

  lemma DropFrontIs(tx: Tx)
    requires tx.segments != []
    ensures |DropFront(tx).segments| < |tx.segments| && DropFront(tx).needsWrite == tx.needsWrite
  {
  }

  lemma AdvanceIs(tx: Tx, n: nat)
    requires tx.segments != [] && n <= |tx.segments[0].Remaining()|
    ensures Advance(tx, n).needsWrite == tx.needsWrite
  {
  }

  lemma SameParts(tx: Tx)
    ensures Stream(tx.(needsWrite := false)) == Stream(tx) && Descriptors(tx.(needsWrite := false)) == Descriptors(tx)
  {
  }

  lemma DropAllKeeps(tx: Tx)
    ensures Descriptors(DropAll(tx)) == Descriptors(tx) && DropAll(tx).closed == Descriptors(tx)
    ensures Stream(DropAll(tx)) <= Stream(tx) && AllSound(DropAll(tx).segments)
  {
    assert Held([]) == [] && Unsent([]) == [];
    assert Accepted(tx.sent) + [] == Accepted(tx.sent);
  }

  lemma QueueKeeps(tx: Tx, bytes: seq<byte>, fds: seq<int>)
    requires AllSound(tx.segments) && bytes != []
    ensures AllSound(Queue(tx, bytes, fds).segments)
    ensures Stream(Queue(tx, bytes, fds)) == Stream(tx) + Marked(bytes, fds)
    ensures Descriptors(Queue(tx, bytes, fds)) == Descriptors(tx) + fds
  {
    hide Marked, Unsent, Held, Accepted;
    AppendSegment(tx.segments, Segment(bytes, 0, fds));
    Assoc(Accepted(tx.sent), Unsent(tx.segments), Marked(bytes, fds));
    Assoc(tx.closed, Held(tx.segments), fds);
  }

  lemma {:induction false} AppendSegment(segments: seq<Segment>, g: Segment)
    requires g.pos == 0
    ensures Unsent(segments + [g]) == Unsent(segments) + Marked(g.bytes, g.fds)
    ensures Held(segments + [g]) == Held(segments) + g.fds
  {
    hide Marked, Unsent, Held;
    if segments == [] {
      LastSegment(g);
      assert segments + [g] == [g];
    } else {
      var first, rest := segments[0], segments[1..];
      AppendSegment(rest, g);
      UnsentCons(first, rest + [g]);
      UnsentCons(first, rest);
      assert segments + [g] == [first] + (rest + [g]) && segments == [first] + rest;
      Assoc(Marked(first.Remaining(), first.fds), Unsent(rest), Marked(g.bytes, g.fds));
      Assoc(first.fds, Held(rest), g.fds);
    }
  }

  lemma LastSegment(g: Segment)
    requires g.pos == 0
    ensures Unsent([g]) == Unsent([]) + Marked(g.bytes, g.fds) && Held([g]) == Held([]) + g.fds
  {
    hide Marked;
    assert g.Remaining() == g.bytes && [g][1..] == [];
  }

  // ----- Whole runs -----

  datatype Op = Send(bytes: seq<byte>, fds: seq<int>) | Write(script: seq<Answer>)

  function Do(tx: Tx, op: Op): Flushed {
    match op
    case Send(bytes, fds) => Flushed(Queue(tx, bytes, fds), [], None)
    case Write(script) => Flush(tx, script)
  }

  datatype Ran = Ran(tx: Tx, failed: bool)

  /** Any run of operations; a connection may go on after a failed flush. */
  function Run(ops: seq<Op>): Ran {
    if ops == [] then Ran(IDLE, false)
    else
      var r := Run(ops[..|ops| - 1]);
      var f := Do(r.tx, ops[|ops| - 1]);
      Ran(f.tx, r.failed || f.error.Some?)
  }

  /** The bytes of the messages handed in, descriptors attached to the first byte of theirs. */
  function QueuedBytes(ops: seq<Op>): seq<Mark> {
    if ops == [] then []
    else
      var op := ops[|ops| - 1];
      QueuedBytes(ops[..|ops| - 1]) + if op.Send? then Marked(op.bytes, op.fds) else []
  }

  function QueuedFds(ops: seq<Op>): seq<int> {
    if ops == [] then [] else var op := ops[|ops| - 1]; QueuedFds(ops[..|ops| - 1]) + if op.Send? then op.fds else []
  }

  predicate NonEmpty(ops: seq<Op>) { forall i :: 0 <= i < |ops| && ops[i].Send? ==> ops[i].bytes != [] }

  const IDLE := Tx([], false, [], [])

  /** What `send` queues is never empty. */
  lemma EncodedNotEmpty(m: Message)
    ensures Encode(m).Ok? ==> Encode(m).value != []
  {
    hide MarshalFields, FieldsOf, EncodeCheck;
  }

  lemma DoKeeps(tx: Tx, op: Op)
    requires AllSound(tx.segments) && (op.Send? ==> op.bytes != [])
    ensures var f := Do(tx, op);
      && AllSound(f.tx.segments) && Descriptors(f.tx) == Descriptors(tx) + (if op.Send? then op.fds else [])
      && (f.error.None? ==> Stream(f.tx) == Stream(tx) + if op.Send? then Marked(op.bytes, op.fds) else [])
      && (f.error.Some? ==> !op.Send? && f.tx.segments == [] && Stream(f.tx) <= Stream(tx))
  {
    hide AllSound, Stream, Descriptors, Queue, Flush, Marked;
    if op.Send? {
      QueueKeeps(tx, op.bytes, op.fds);
    } else {
      FlushKeeps(tx, op.script);
      assert Stream(tx) + [] == Stream(tx) && Descriptors(tx) + [] == Descriptors(tx);
    }
  }

  /** Over any run of sends and flushes, with any answers of the kernel and also after hard errors,
      every descriptor is held or closed, exactly once and in order. While nothing failed, the
      accepted bytes followed by the unsent tails are the messages in order, descriptors attached
      to the first byte of their message. */
  lemma {:induction false} EveryRunConserves(ops: seq<Op>)
    requires NonEmpty(ops)
    ensures var r := Run(ops);
      AllSound(r.tx.segments) && Descriptors(r.tx) == QueuedFds(ops) && (!r.failed ==> Stream(r.tx) == QueuedBytes(ops))
    decreases |ops|
  {
    hide AllSound, Stream, Descriptors, Do, Marked;
    if ops == [] {
      NothingQueued();
    } else {
      var before, op := ops[..|ops| - 1], ops[|ops| - 1];
      EveryRunConserves(before);
      DoKeeps(Run(before).tx, op);
    }
  }

  lemma NothingQueued()
    ensures AllSound(IDLE.segments) && Descriptors(IDLE) == [] && Stream(IDLE) == []
  {
  }

  /** The first hard error leaves a prefix of the messages on the wire and closes everything. */
  lemma FirstFailure(ops: seq<Op>, op: Op)
    requires NonEmpty(ops + [op]) && !Run(ops).failed && Run(ops + [op]).failed
    ensures var tx := Run(ops + [op]).tx;
      tx.segments == [] && Accepted(tx.sent) <= QueuedBytes(ops) && tx.closed == QueuedFds(ops)
  {
    hide AllSound, Do, Marked, Accepted;
    assert (ops + [op])[..|ops|] == ops && (ops + [op])[|ops|] == op;
    assert NonEmpty(ops) by {
      forall i | 0 <= i < |ops| && ops[i].Send? ensures ops[i].bytes != [] { assert (ops + [op])[i] == ops[i]; }
    }
    EveryRunConserves(ops);
    DoKeeps(Run(ops).tx, op);
    var tx := Run(ops + [op]).tx;
    assert Accepted(tx.sent) + [] == Accepted(tx.sent) && tx.closed + [] == tx.closed;
    assert QueuedFds(ops) + [] == QueuedFds(ops);
  }

  // ----- Replies -----

  datatype Reply = Reply(serial: nat, message: Message)

  datatype Inbox = Inbox(incoming: seq<Message>, replies: seq<Reply>)

  /** The serial a message answers, when it is a reply. */
  function Answers(m: Message): Option<nat> {
    if m.kind == MethodReturn || m.kind == Error then m.replySerial else None
  }

  function Dispatch(x: Inbox, m: Message): Inbox {
    match Answers(m)
    case Some(serial) => x.(replies := x.replies + [Reply(serial, m)])
    case None => x.(incoming := x.incoming + [m])
  }

  /** The position of the first reply to `serial`, or the number of replies. */
  function FirstFor(replies: seq<Reply>, serial: nat): (i: nat)
    ensures i <= |replies| && (i < |replies| ==> replies[i].serial == serial)
  {
    if replies == [] || replies[0].serial == serial then 0 else 1 + FirstFor(replies[1..], serial)
  }

  datatype Taken = Taken(x: Inbox, reply: Option<Message>)

  function Take(x: Inbox, serial: nat): Taken {
    var i := FirstFor(x.replies, serial);
    if i == |x.replies| then Taken(x, None)
    else Taken(x.(replies := x.replies[..i] + x.replies[i + 1..]), Some(x.replies[i].message))
  }

  /** The replies to one serial, in order. */
  function For(replies: seq<Reply>, serial: nat): seq<Message> {
    if replies == [] then [] else Match(replies[0], serial) + For(replies[1..], serial)
  }

  function Match(r: Reply, serial: nat): seq<Message> { if r.serial == serial then [r.message] else [] }

  lemma {:induction false} ForAppend(a: seq<Reply>, b: seq<Reply>, serial: nat)
    ensures For(a + b, serial) == For(a, serial) + For(b, serial)
  {
    hide Match;
    if a == [] {
      assert a + b == b;
    } else {
      ForAppend(a[1..], b, serial);
      assert (a + b)[1..] == a[1..] + b;
      Assoc(Match(a[0], serial), For(a[1..], serial), For(b, serial));
    }
  }

  lemma ForOne(r: Reply, serial: nat)
    ensures For([r], serial) == Match(r, serial)
  {
    assert [r][1..] == [];
  }

  lemma {:induction false} NoneBefore(replies: seq<Reply>, serial: nat)
    ensures For(replies[..FirstFor(replies, serial)], serial) == []
  {
    var i := FirstFor(replies, serial);
    if i > 0 {
      NoneBefore(replies[1..], serial);
      assert replies[..i][1..] == replies[1..][..i - 1];
    }
  }

  /** Taking a reply hands out the oldest one for its serial and touches no other serial. */
  lemma TakeIsOldest(x: Inbox, serial: nat, other: nat)
    ensures var t := Take(x, serial); For(x.replies, other) == Given(t, serial, other) + For(t.x.replies, other)
    ensures Take(x, serial).reply.None? <==> For(x.replies, serial) == []
  {
    hide For, FirstFor;
    var rs := x.replies;
    var i := FirstFor(rs, serial);
    NoneBefore(rs, serial);
    if i == |rs| {
      assert rs[..i] == rs;
    } else {
      var before, r, after := rs[..i], rs[i], rs[i + 1..];
      CutAt(rs, i);
      ForSplits(before, r, after, serial);
      ForSplits(before, r, after, other);
    }
  }

  lemma CutAt(rs: seq<Reply>, i: nat)
    requires i < |rs|
    ensures rs == rs[..i] + ([rs[i]] + rs[i + 1..])
  {
  }

  lemma ForSplits(before: seq<Reply>, r: Reply, after: seq<Reply>, serial: nat)
    ensures For(before + ([r] + after), serial) == For(before, serial) + (Match(r, serial) + For(after, serial))
    ensures For(before + after, serial) == For(before, serial) + For(after, serial)
  {
    hide For, Match;
    ForAppend(before, [r] + after, serial);
    ForAppend([r], after, serial);
    ForOne(r, serial);
    ForAppend(before, after, serial);
  }

  /** The oldest message in the queue, for `try_recv` and `recv_timeout`. */
  function Next(x: Inbox): Taken {
    if x.incoming == [] then Taken(x, None) else Taken(x.(incoming := x.incoming[1..]), Some(x.incoming[0]))
  }

  /** A message comes in, a call looks for its reply, or the application asks for a message. */
  datatype Event = Arrives(m: Message) | Awaits(serial: nat) | Receives

  function Step(x: Inbox, e: Event): Inbox {
    match e
    case Arrives(m) => Dispatch(x, m)
    case Awaits(serial) => Take(x, serial).x
    case Receives => Next(x).x
  }

  /** The inbox after some events. */
  function After(x: Inbox, es: seq<Event>): Inbox
    decreases |es|
  {
    if es == [] then x else After(Step(x, es[0]), es[1..])
  }

  /** The replies handed out for one serial. */
  function HandedOut(x: Inbox, es: seq<Event>, serial: nat): seq<Message>
    decreases |es|
  {
    if es == [] then []
    else
      (if es[0].Awaits? then Given(Take(x, es[0].serial), es[0].serial, serial) else [])
      + HandedOut(Step(x, es[0]), es[1..], serial)
  }

  /** The messages handed to the application. */
  function Delivered(x: Inbox, es: seq<Event>): seq<Message>
    decreases |es|
  {
    if es == [] then [] else DeliveredBy(x, es[0]) + Delivered(Step(x, es[0]), es[1..])
  }

  function DeliveredBy(x: Inbox, e: Event): seq<Message> {
    if e.Receives? && Next(x).reply.Some? then [Next(x).reply.value] else []
  }

  function Given(t: Taken, serial: nat, other: nat): seq<Message> {
    if t.reply.Some? && serial == other then [t.reply.value] else []
  }

  /** The replies to `serial` that arrived, in order. */
  function Arrived(es: seq<Event>, serial: nat): seq<Message> {
    if es == [] then [] else ReplyIn(es[0], serial) + Arrived(es[1..], serial)
  }

  function ReplyIn(e: Event, serial: nat): seq<Message> {
    if e.Arrives? && Answers(e.m) == Some(serial) then [e.m] else []
  }

  /** The messages that answer no call, in order of arrival. */
  function Unanswering(es: seq<Event>): seq<Message> {
    if es == [] then [] else OtherIn(es[0]) + Unanswering(es[1..])
  }

  function OtherIn(e: Event): seq<Message> { if e.Arrives? && Answers(e.m).None? then [e.m] else [] }

  /** Over any run of arrivals, awaits and receptions, and for every serial: the replies handed
      out, followed by those still waiting, are those that arrived, in order; nothing is lost,
      repeated or given to another call. */
  lemma {:induction false} RepliesReachTheirCalls(x: Inbox, es: seq<Event>, serial: nat)
    ensures HandedOut(x, es, serial) + For(After(x, es).replies, serial) == For(x.replies, serial) + Arrived(es, serial)
    decreases |es|
  {
    hide For, Take, Next, Given, ReplyIn, Dispatch, Step;
    if es == [] {
      assert [] + For(x.replies, serial) == For(x.replies, serial) + [];
    } else {
      var e, rest := es[0], es[1..];
      var x' := Step(x, e);
      RepliesReachTheirCalls(x', rest, serial);
      StepForSerial(x, e, serial);
      var given := if e.Awaits? then Given(Take(x, e.serial), e.serial, serial) else [];
      Assoc(given, HandedOut(x', rest, serial), For(After(x', rest).replies, serial));
      Assoc(given, For(x'.replies, serial), Arrived(rest, serial));
      Assoc(For(x.replies, serial), ReplyIn(e, serial), Arrived(rest, serial));
    }
  }

  /** One event hands out the oldest reply to a serial, files one that arrives, or leaves the
      replies to it alone. */
  lemma StepForSerial(x: Inbox, e: Event, serial: nat)
    ensures (if e.Awaits? then Given(Take(x, e.serial), e.serial, serial) else []) + For(Step(x, e).replies, serial)
      == For(x.replies, serial) + ReplyIn(e, serial)
  {
    hide For, Take, Given, Dispatch;
    match e
    case Arrives(m) => DispatchFiles(x, e, serial);
    case Awaits(k) =>
      TakeIsOldest(x, k, serial);
      assert For(x.replies, serial) + [] == For(x.replies, serial);
    case Receives => assert [] + For(x.replies, serial) == For(x.replies, serial) + [];
  }

  /** The messages that answer no call reach the application: those it received, followed by those
      still queued, are those that arrived, in order. */
  lemma {:induction false} OthersReachTheApplication(x: Inbox, es: seq<Event>)
    ensures Delivered(x, es) + After(x, es).incoming == x.incoming + Unanswering(es)
    decreases |es|
  {
    hide Step, DeliveredBy, OtherIn;
    if es == [] {
      assert [] + x.incoming == x.incoming + [];
    } else {
      var e, rest := es[0], es[1..];
      var x' := Step(x, e);
      OthersReachTheApplication(x', rest);
      StepForOthers(x, e);
      Assoc(DeliveredBy(x, e), Delivered(x', rest), After(x', rest).incoming);
      Assoc(DeliveredBy(x, e), x'.incoming, Unanswering(rest));
      Assoc(x.incoming, OtherIn(e), Unanswering(rest));
    }
  }

  lemma StepForOthers(x: Inbox, e: Event)
    ensures DeliveredBy(x, e) + Step(x, e).incoming == x.incoming + OtherIn(e)
  {
    hide FirstFor;
  }

  lemma DispatchFiles(x: Inbox, e: Event, serial: nat)
    requires e.Arrives?
    ensures For(Dispatch(x, e.m).replies, serial) == For(x.replies, serial) + ReplyIn(e, serial)
  {
    match Answers(e.m)
    case Some(k) =>
      ForAppend(x.replies, [Reply(k, e.m)], serial);
      ForOne(Reply(k, e.m), serial);
    case None =>
  }

  // ----- Serials -----

  const SERIALS := 0xFFFF_FFFF

  /** The counter wraps at 32 bits and never becomes zero. */
  function NextSerial(n: nat): nat
    requires n <= SERIALS
  {
    var next := (n + 1) % 0x1_0000_0000;
    if next == 0 then 1 else next
  }

  /** The serial handed out `k` allocations after `start`. */
  function SerialAfter(start: nat, k: nat): (r: nat)
    requires 1 <= start <= SERIALS
    ensures 1 <= r <= SERIALS
    decreases k, [start]
  {
    if k == 0 then start else NextSerial(SerialAfter(start, k - 1))
  }

  lemma {:induction false} SerialClosedForm(start: nat, k: nat)
    requires 1 <= start <= SERIALS
    ensures SerialAfter(start, k) == 1 + (start - 1 + k) % SERIALS
    decreases k
  {
    if k > 0 {
      SerialClosedForm(start, k - 1);
      ModNext(start + k - 2);
    }
  }

  lemma ModNext(x: nat)
    ensures (x + 1) % SERIALS == if x % SERIALS == SERIALS - 1 then 0 else x % SERIALS + 1
  {
  }

  /** Two allocations less than a full cycle apart get different serials; a full cycle later the
      serial comes back. */
  lemma SerialsDistinct(start: nat, i: nat, j: nat)
    requires 1 <= start <= SERIALS && i < j
    ensures j - i < SERIALS ==> SerialAfter(start, i) != SerialAfter(start, j)
    ensures j - i == SERIALS ==> SerialAfter(start, i) == SerialAfter(start, j)
  {
    SerialClosedForm(start, i);
    SerialClosedForm(start, j);
    CycleApart(start - 1 + i, start - 1 + j);
  }

  lemma CycleApart(a: nat, b: nat)
    requires a < b
    ensures b - a < SERIALS ==> a % SERIALS != b % SERIALS
    ensures b - a == SERIALS ==> a % SERIALS == b % SERIALS
  {
    var qa, qb := a / SERIALS, b / SERIALS;
    assert a == qa * SERIALS + a % SERIALS && b == qb * SERIALS + b % SERIALS;
    if a % SERIALS == b % SERIALS {
      assert b - a == (qb - qa) * SERIALS;
    }
  }

  // ----- The connection object -----

  /** A transport that answers writes from a script and keeps what the kernel accepted. */
  class Transport {
    var script: seq<Answer>
    var sent: seq<Sent>

    method Write(data: seq<byte>, fds: seq<int>) returns (a: Answer)
      modifies this
      ensures old(script) == [] ==> a == WouldBlock && script == [] && sent == old(sent)
      ensures old(script) != [] ==> script == old(script)[1..]
      ensures old(script) != [] && !old(script)[0].Wrote? ==> a == old(script)[0] && sent == old(sent)
      ensures old(script) != [] && old(script)[0].Wrote? ==>
        var n := Min(old(script)[0].n, |data|);
        a == Wrote(n) && sent == old(sent) + if n == 0 then [] else [Sent(data[..n], fds)]
    {
      if script == [] {
        return WouldBlock;
      }
      a, script := script[0], script[1..];
      if a.Wrote? {
        var n := Min(a.n, |data|);
        a := Wrote(n);
        if n > 0 {
          sent := sent + [Sent(data[..n], fds)];
        }
      }
    }
  }

  class Connection {
    const transport: Transport
    var tx: seq<Segment>
    var needsWrite: bool
    var closed: seq<int>
    var nextSerial: nat
    var inbox: Inbox

    constructor (transport: Transport)
      ensures this.transport == transport && tx == [] && !needsWrite && closed == []
      ensures nextSerial == 1 && inbox == Inbox([], [])
    {
      this.transport := transport;
      tx, needsWrite, closed, nextSerial, inbox := [], false, [], 1, Inbox([], []);
    }

    ghost function Now(): Tx
      reads this, transport
    {
      Tx(tx, needsWrite, transport.sent, closed)
    }

    method AllocateSerial() returns (serial: nat)
      requires 1 <= nextSerial <= SERIALS
      modifies this`nextSerial
      ensures serial == old(nextSerial) && nextSerial == NextSerial(serial) && 1 <= nextSerial <= SERIALS
    {
      serial := nextSerial;
      nextSerial := (nextSerial + 1) % 0x1_0000_0000;
      if nextSerial == 0 {
        nextSerial := 1;
      }
    }

    method Enqueue(bytes: seq<byte>, fds: seq<int>)
      modifies this
      ensures Now() == Queue(old(Now()), bytes, fds)
      ensures nextSerial == old(nextSerial) && inbox == old(inbox)
    {
      tx := tx + [Segment(bytes, 0, fds)];
      needsWrite := true;
    }

    method DropSegments()
      modifies this
      ensures Now() == DropAll(old(Now()))
      ensures nextSerial == old(nextSerial) && inbox == old(inbox)
    {
      closed := closed + Held(tx);
      tx := [];
      needsWrite := false;
    }

    /** Encodes a message, giving it a serial if it has none, and queues it with its descriptors. */
    method Send(m: Message) returns (err: Option<DbusError>)
      requires 1 <= nextSerial <= SERIALS
      modifies this
      ensures var m' := if m.serial == 0 then m.(serial := old(nextSerial)) else m;
        if Encode(m').Ok? then err.None? && Now() == Queue(old(Now()), Encode(m').value, m.fds)
        else err == Some(Encode(m').error) && Now() == old(Now())
      ensures nextSerial == (if m.serial == 0 then NextSerial(old(nextSerial)) else old(nextSerial))
        && inbox == old(inbox)
    {
      hide Encode;
      var m' := m;
      if m.serial == 0 {
        var serial := AllocateSerial();
        m' := m.(serial := serial);
      }
      var bytes := EncodeMessage(m');
      if bytes.Err? {
        return Some(bytes.error);
      }
      Enqueue(bytes.value, m'.fds);
      err := None;
    }

    /** One write of the front segment; `done` when flushing ends with it. */
    method WriteFront() returns (done: bool, err: Option<DbusError>)
      requires tx != [] && tx[0].pos < |tx[0].bytes|
      modifies this, transport
      ensures var f := Flush(old(Now()), old(transport.script));
        if done then Now() == f.tx && transport.script == f.script && err == f.error
        else Flush(Now(), transport.script) == f && |transport.script| < |old(transport.script)|
      ensures nextSerial == old(nextSerial) && inbox == old(inbox)
    {
      var front := tx[0];
      var outcome := transport.Write(front.Remaining(), front.fds);
      match outcome
      case WouldBlock => return true, None;
      case Failed(e) =>
        DropSegments();
        return true, Some(e);
      case Wrote(written) =>
        if written == 0 {
          DropSegments();
          return true, Some(Disconnected);
        }
        tx := [Segment(front.bytes, front.pos + written, [])] + tx[1..];
        closed := closed + front.fds;
        return false, None;
    }

    method FlushWritable() returns (err: Option<DbusError>)
      modifies this, transport
      ensures var f := Flush(old(Now()), old(transport.script));
        Now() == f.tx && transport.script == f.script && err == f.error
      ensures nextSerial == old(nextSerial) && inbox == old(inbox)
    {
      hide Advance, DropAll;
      while tx != []
        invariant Flush(Now(), transport.script) == Flush(old(Now()), old(transport.script))
        invariant nextSerial == old(nextSerial) && inbox == old(inbox)
        decreases |transport.script|, |tx|
      {
        if tx[0].pos >= |tx[0].bytes| {
          closed := closed + tx[0].fds;
          tx := tx[1..];
        } else {
          var done;
          done, err := WriteFront();
          if done {
            return;
          }
        }
      }
      needsWrite := false;
      err := None;
    }

    method Receive(m: Message)
      modifies this`inbox
      ensures inbox == Dispatch(old(inbox), m)
    {
      if m.kind == MethodReturn || m.kind == Error {
        if m.replySerial.Some? {
          inbox := inbox.(replies := inbox.replies + [Reply(m.replySerial.value, m)]);
        } else {
          inbox := inbox.(incoming := inbox.incoming + [m]);
        }
      } else {
        inbox := inbox.(incoming := inbox.incoming + [m]);
      }
    }

    /** The search of a waiting call through the replies that came in. */
    method TakeReply(serial: nat) returns (reply: Option<Message>)
      modifies this`inbox
      ensures var t := Take(old(inbox), serial); inbox == t.x && reply == t.reply
    {
      var i := 0;
      while i < |inbox.replies| && inbox.replies[i].serial != serial
        invariant 0 <= i <= |inbox.replies| && inbox == old(inbox)
        invariant FirstFor(inbox.replies, serial) == i + FirstFor(inbox.replies[i..], serial)
      {
        assert inbox.replies[i..][1..] == inbox.replies[i + 1..];
        i := i + 1;
      }
      if i == |inbox.replies| {
        return None;
      }
      reply := Some(inbox.replies[i].message);
      inbox := inbox.(replies := inbox.replies[..i] + inbox.replies[i + 1..]);
    }

    /** The front of the queue, which `try_recv` and each turn of `recv_timeout` take. */
    method TakeIncoming() returns (m: Option<Message>)
      modifies this`inbox
      ensures var t := Next(old(inbox)); inbox == t.x && m == t.reply
    {
      if inbox.incoming == [] {
        return None;
      }
      m := Some(inbox.incoming[0]);
      inbox := inbox.(incoming := inbox.incoming[1..]);
    }
  }
}
