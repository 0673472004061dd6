/** Two connections joined: what one sends comes out of the other's stream. */
module DbusDuplex {
  import opened Bytes
  import opened DbusMessage
  import opened DbusConn
  import opened DbusStream

  // ----- The stream as the reading end sees it -----

  /** The reads of a stream, descriptors attached to the first byte of theirs. */
  function Marks(cs: seq<Chunk>): seq<Mark> {
    if cs == [] then [] else Marked(cs[0].data, cs[0].fds) + Marks(cs[1..])
  }

  predicate NoEmptyRead(cs: seq<Chunk>) { forall i :: 0 <= i < |cs| ==> cs[i].data != [] }

  /** The messages as they go over the wire, descriptors attached to their first byte. */
  function MarksOf(ms: seq<Message>): seq<Mark> {
    if ms == [] then [] else Marked(BytesOf(ms[0]), ms[0].fds) + MarksOf(ms[1..])
  }

  function BytesIn(w: seq<Mark>): seq<byte> { seq(|w|, i requires 0 <= i < |w| => w[i].b) }

  function FdsOf(w: seq<Mark>): seq<int> { if w == [] then [] else w[0].fds + FdsOf(w[1..]) }

  lemma BytesAppend(a: seq<Mark>, b: seq<Mark>)
    ensures BytesIn(a + b) == BytesIn(a) + BytesIn(b)
  {
  }

  lemma {:induction false} FdsAppend(a: seq<Mark>, b: seq<Mark>)
    ensures FdsOf(a + b) == FdsOf(a) + FdsOf(b)
  {
    if a == [] {
      assert a + b == b;
    } else {
      FdsAppend(a[1..], b);
      assert (a + b)[1..] == a[1..] + b;
      Assoc(a[0].fds, FdsOf(a[1..]), FdsOf(b));
    }
  }

  lemma {:induction false} NoFds(w: seq<Mark>)
    requires forall i :: 0 <= i < |w| ==> w[i].fds == []
    ensures FdsOf(w) == []
  {
    if w != [] {
      NoFds(w[1..]);
    }
  }

  lemma MarkedParts(data: seq<byte>, fds: seq<int>)
    ensures BytesIn(Marked(data, fds)) == data && FdsOf(Marked(data, fds)) == if data == [] then [] else fds
  {
    var w := Marked(data, fds);
    if data != [] {
      NoFds(w[1..]);
      assert fds + [] == fds;
    }
  }

  lemma {:induction false} ReadParts(cs: seq<Chunk>)
    requires NoEmptyRead(cs)
    ensures BytesIn(Marks(cs)) == DataOf(cs) && FdsOf(Marks(cs)) == FdsIn(cs)
  {
    hide BytesIn, FdsOf, Marked;
    if cs == [] {
      NoMarks();
    } else {
      ReadParts(cs[1..]);
      MarkedParts(cs[0].data, cs[0].fds);
      BytesAppend(Marked(cs[0].data, cs[0].fds), Marks(cs[1..]));
      FdsAppend(Marked(cs[0].data, cs[0].fds), Marks(cs[1..]));
    }
  }

  lemma NoMarks()
    ensures BytesIn([]) == [] && FdsOf([]) == []
  {
  }

  lemma {:induction false} SentParts(ms: seq<Message>)
    requires AllSendable(ms)
    ensures BytesIn(MarksOf(ms)) == Wire(ms) && FdsOf(MarksOf(ms)) == Carried(ms)
  {
    hide BytesIn, FdsOf, Marked, Sendable, BytesOf;
    if ms == [] {
      NoMarks();
    } else {
      var b := BytesOf(ms[0]);
      SentParts(ms[1..]);
      NotEmpty(ms[0]);
      MarkedParts(b, ms[0].fds);
      BytesAppend(Marked(b, ms[0].fds), MarksOf(ms[1..]));
      FdsAppend(Marked(b, ms[0].fds), MarksOf(ms[1..]));
    }
  }

  lemma NotEmpty(m: Message)
    requires Sendable(m)
    ensures BytesOf(m) != []
  {
    EncodedNotEmpty(m);
  }

  // ----- Any prefix of the stream -----

  /** How many of the messages lie whole in the first `n` bytes of the stream. */
  function Whole(ms: seq<Message>, n: nat): (k: nat)
    ensures k <= |ms|
  {
    if ms == [] || n < |BytesOf(ms[0])| then 0 else 1 + Whole(ms[1..], n - |BytesOf(ms[0])|)
  }

  /** What follows the whole messages in a prefix of the stream: a part of the next, and the
      descriptors of that one if its first byte is there. */
  lemma {:induction false} PrefixIsWhole(ms: seq<Message>, w: seq<Mark>) returns (part: seq<byte>, f: seq<int>)
    requires AllSendable(ms) && w <= MarksOf(ms)
    ensures var k := Whole(ms, |w|);
      AllSendable(ms[..k]) && BytesIn(w) == Wire(ms[..k]) + part && FdsOf(w) == Carried(ms[..k]) + f && PartOfNext(part)
    decreases |ms|
  {
    hide BytesIn, FdsOf, Marked, Sendable, BytesOf, PartOfNext;
    if ms == [] {
      NothingWhole();
      return [], [];
    }
    var m, rest := ms[0], ms[1..];
    var b := BytesOf(m);
    var e := Marked(b, m.fds);
    if |w| < |b| {
      part, f := PartIsNext(m, w);
      assert w == e[..|w|];
      assert ms[..0] == [] && [] + BytesIn(w) == BytesIn(w) && [] + FdsOf(w) == FdsOf(w);
    } else {
      assert w[..|b|] == e && w[|b|..] <= MarksOf(rest) && w == e + w[|b|..];
      part, f := PrefixIsWhole(rest, w[|b|..]);
      NotEmpty(m);
      MarkedParts(b, m.fds);
      BytesAppend(e, w[|b|..]);
      FdsAppend(e, w[|b|..]);
      var k := Whole(rest, |w| - |b|);
      assert ms[..k + 1][1..] == rest[..k];
      Assoc(b, Wire(rest[..k]), part);
      Assoc(m.fds, Carried(rest[..k]), f);
    }
  }

  lemma NothingWhole()
    ensures BytesIn([]) == [] && FdsOf([]) == [] && PartOfNext([]) && Whole([], 0) == 0
  {
    NoMarks();
  }

  lemma PartIsNext(m: Message, w: seq<Mark>) returns (part: seq<byte>, f: seq<int>)
    requires Sendable(m) && w < Marked(BytesOf(m), m.fds)
    ensures BytesIn(w) == part && FdsOf(w) == f && PartOfNext(part)
  {
    hide Sendable, BytesOf;
    var b := BytesOf(m);
    part, f := BytesIn(w), FdsOf(w);
    assert part == b[..|w|];
    assert PartOf(part, m);
  }

  /** However the accepted bytes are cut into reads, as long as descriptors stay with their byte:
      after every read the peer has exactly the messages that are whole so far, as they were sent
      and with their descriptors, and waits, never short of a descriptor. */
  lemma PrefixIsRead(ms: seq<Message>, cs: seq<Chunk>)
    requires AllSendable(ms) && NoEmptyRead(cs) && Marks(cs) <= MarksOf(ms)
    ensures var r := FeedAll(Drain([], []), cs); r.out == ms[..Whole(ms, |DataOf(cs)|)] && r.stop.Waiting?
  {
    hide Drain, FeedAll, AllSendable, PartOfNext, Wire, Carried, Marks, MarksOf, FdsOf, DataOf, FdsIn, Whole;
    var part, f := PrefixIsWhole(ms, Marks(cs));
    ReadParts(cs);
    assert |DataOf(cs)| == |Marks(cs)|;
    SentIsDelivered(ms[..Whole(ms, |DataOf(cs)|)], part, f, cs);
  }

  lemma {:induction false} ReadSoFar(cs: seq<Chunk>, i: nat)
    requires i <= |cs|
    ensures Marks(cs[..i]) <= Marks(cs)
  {
    hide Marked;
    if i > 0 {
      ReadSoFar(cs[1..], i - 1);
      assert cs[..i][1..] == cs[1..][..i - 1];
    }
  }

  // ----- Whole runs -----

  /** What the application of the sending end does: hand in a message, or flush. */
  datatype Call = Post(m: Message) | Push(script: seq<Answer>)

  function OpOf(c: Call): Op {
    match c
    case Post(m) => Send(BytesOf(m), m.fds)
    case Push(script) => Op.Write(script)
  }

  function OpsOf(calls: seq<Call>): (ops: seq<Op>)
    ensures |ops| == |calls| && forall i :: 0 <= i < |calls| ==> ops[i] == OpOf(calls[i])
  {
    seq(|calls|, i requires 0 <= i < |calls| => OpOf(calls[i]))
  }

  /** The messages handed in, in order. */
  function Posted(calls: seq<Call>): seq<Message> {
    if calls == [] then []
    else
      var c := calls[|calls| - 1];
      Posted(calls[..|calls| - 1]) + if c.Post? then [c.m] else []
  }

  predicate AllPostable(calls: seq<Call>) { forall i :: 0 <= i < |calls| && calls[i].Post? ==> Sendable(calls[i].m) }

  lemma {:induction false} PostedSendable(a: seq<Message>, m: Message)
    requires AllSendable(a) && Sendable(m)
    ensures AllSendable(a + [m]) && MarksOf(a + [m]) == MarksOf(a) + Marked(BytesOf(m), m.fds)
  {
    hide Sendable, Marked, BytesOf;
    if a == [] {
      assert a + [m] == [m] && [m][1..] == [];
    } else {
      PostedSendable(a[1..], m);
      assert (a + [m])[1..] == a[1..] + [m];
      Assoc(Marked(BytesOf(a[0]), a[0].fds), MarksOf(a[1..]), Marked(BytesOf(m), m.fds));
    }
  }

  /** The queue holds the messages handed in. */
  lemma {:induction false} PostedIsQueued(calls: seq<Call>)
    requires AllPostable(calls)
    ensures NonEmpty(OpsOf(calls)) && AllSendable(Posted(calls)) && QueuedBytes(OpsOf(calls)) == MarksOf(Posted(calls))
  {
    hide Sendable, Marked, BytesOf, MarksOf, NonEmpty;
    if calls == [] {
      NothingPosted();
    } else {
      var before, c := calls[..|calls| - 1], calls[|calls| - 1];
      PostedIsQueued(before);
      var ops := OpsOf(calls);
      assert ops[..|calls| - 1] == OpsOf(before);
      if c.Post? {
        PostedSendable(Posted(before), c.m);
      } else {
        assert Posted(before) + [] == Posted(before) && QueuedBytes(OpsOf(before)) + [] == QueuedBytes(OpsOf(before));
      }
      NothingEmpty(calls);
    }
  }

  lemma NothingEmpty(calls: seq<Call>)
    requires AllPostable(calls)
    ensures NonEmpty(OpsOf(calls))
  {
    hide Sendable, BytesOf;
    var ops := OpsOf(calls);
    forall i | 0 <= i < |ops| && ops[i].Send? ensures ops[i].bytes != [] {
      NotEmpty(calls[i].m);
    }
  }

  lemma NothingPosted()
    ensures NonEmpty(OpsOf([])) && AllSendable(Posted([])) && QueuedBytes(OpsOf([])) == MarksOf(Posted([]))
  {
  }

  /** The run has not failed before its last call. */
  predicate FirstFailureAtMost(calls: seq<Call>) { calls == [] || !Run(OpsOf(calls[..|calls| - 1])).failed }

  lemma AcceptedIsPrefix(calls: seq<Call>)
    requires AllPostable(calls) && FirstFailureAtMost(calls)
    ensures AllSendable(Posted(calls)) && Accepted(Run(OpsOf(calls)).tx.sent) <= MarksOf(Posted(calls))
  {
    hide Sendable, Marked, BytesOf, MarksOf, Run, Accepted, Unsent, QueuedBytes, AllSound;
    PostedIsQueued(calls);
    var ops := OpsOf(calls);
    EveryRunConserves(ops);
    if Run(ops).failed {
      if calls == [] {
        NothingRun();
      } else {
        var before, op := OpsOf(calls[..|calls| - 1]), ops[|ops| - 1];
        assert ops == before + [op];
        FirstFailure(before, op);
        QueuedGrows(before, op);
      }
    }
  }

  lemma NothingRun()
    ensures !Run([]).failed && OpsOf([]) == []
  {
  }

  lemma QueuedGrows(ops: seq<Op>, op: Op)
    ensures QueuedBytes(ops) <= QueuedBytes(ops + [op])
  {
    hide Marked;
    assert (ops + [op])[..|ops|] == ops;
  }

  /** Over any run of one end, with any answers of its kernel, up to and including the first hard
      error, and any reads of the other end that keep descriptors with their byte: after every read
      the other end holds the messages that are whole so far, in order, as they were handed in. */
  lemma SendsAreReceived(calls: seq<Call>, cs: seq<Chunk>, i: nat)
    requires AllPostable(calls) && FirstFailureAtMost(calls)
    requires NoEmptyRead(cs) && Marks(cs) <= Accepted(Run(OpsOf(calls)).tx.sent) && i <= |cs|
    ensures var r, ms := FeedAll(Drain([], []), cs[..i]), Posted(calls);
      r.out == ms[..Whole(ms, |DataOf(cs[..i])|)] && r.stop.Waiting?
  {
    hide Drain, FeedAll, AllSendable, Marks, MarksOf, Accepted, Run, Whole;
    AcceptedIsPrefix(calls);
    ReadSoFar(cs, i);
    PrefixIsRead(Posted(calls), cs[..i]);
  }

  lemma {:induction false} AllWhole(ms: seq<Message>)
    ensures Whole(ms, |Wire(ms)|) == |ms|
  {
    hide BytesOf;
    if ms != [] {
      AllWhole(ms[1..]);
    }
  }

  /** Once everything is flushed and read, the other end has every message. */
  lemma FlushedIsReceived(calls: seq<Call>, cs: seq<Chunk>)
    requires AllPostable(calls) && !Run(OpsOf(calls)).failed && Run(OpsOf(calls)).tx.segments == []
    requires NoEmptyRead(cs) && Marks(cs) == Accepted(Run(OpsOf(calls)).tx.sent)
    ensures var r := FeedAll(Drain([], []), cs); r.out == Posted(calls) && r.stop.Waiting?
  {
    hide Drain, FeedAll, AllSendable, Marks, MarksOf, Accepted, Run, Whole, DataOf, Wire, QueuedBytes, NoEmptyRead,
      AllPostable, Posted;
    var ms, tx := Posted(calls), Run(OpsOf(calls)).tx;
    PostedIsQueued(calls);
    EveryRunConserves(OpsOf(calls));
    assert Unsent([]) == [] && Accepted(tx.sent) + [] == Accepted(tx.sent);
    PrefixIsRead(ms, cs);
    ReadParts(cs);
    SentParts(ms);
    AllWhole(ms);
    assert ms[..|ms|] == ms;
  }
}
