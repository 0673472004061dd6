/** The receiving half of a connection: reads are drained into the inbox, and calls wait for replies. */
module DbusLink {
  import opened Bytes
  import opened DbusNames
  import opened DbusMessage
  import opened DbusConn
  import opened DbusStream
  import opened DbusDuplex

  // ----- Draining what the transport has -----

  /** What a read returns; no bytes mean that the peer is gone. */
  datatype Got = Data(bytes: seq<byte>, fds: seq<int>) | Nothing | Broke(error: DbusError)

  datatype Link = Link(buffer: seq<byte>, pending: seq<int>, inbox: Inbox)

  /** A drain: the link afterwards, the messages that came in, the reads, what the transport still
      has and the error that ended it. */
  datatype Pulled = Pulled(l: Link, arrived: seq<Message>, chunks: seq<Chunk>, script: seq<Got>,
      error: Option<DbusError>)

  const MAX_READS := 64

  function DispatchAll(x: Inbox, ms: seq<Message>): Inbox
    decreases |ms|
  {
    if ms == [] then x else DispatchAll(Dispatch(x, ms[0]), ms[1..])
  }

  function ErrorOf(stop: Stop): Option<DbusError> {
    match stop
    case Waiting => None
    case Failed(e) => Some(e)
    case MissingFds => Some(InvalidMessage)
  }

  /** The messages that are whole after one more read. */
  function Absorb(l: Link, c: Chunk): Drained { Drain(l.buffer + c.data, l.pending + c.fds) }

  function Filed(l: Link, d: Drained): Link { Link(d.buffer, d.pending, DispatchAll(l.inbox, d.out)) }

  function Pull(l: Link, script: seq<Got>, tries: nat): Pulled
    decreases tries
  {
    if tries == 0 || script == [] then Pulled(l, [], [], script, None)
    else
      match script[0]
      case Nothing => Pulled(l, [], [], script[1..], None)
      case Broke(e) => Pulled(l, [], [], script[1..], Some(e))
      case Data(bytes, fds) =>
        if bytes == [] then Pulled(l, [], [], script[1..], Some(Disconnected))
        else
          var d := Absorb(l, Chunk(bytes, fds));
          if !d.stop.Waiting? then Pulled(Filed(l, d), d.out, [Chunk(bytes, fds)], script[1..], ErrorOf(d.stop))
          else
            var r := Pull(Filed(l, d), script[1..], tries - 1);
            r.(arrived := d.out + r.arrived, chunks := [Chunk(bytes, fds)] + r.chunks)
  }

  // ----- A drain is a feed of the stream -----

  function Idle(l: Link): Drained { Drained([], l.buffer, l.pending, Waiting) }

  /** No whole message is buffered. */
  predicate Settled(l: Link) { Drain(l.buffer, l.pending) == Idle(l) }

  lemma {:induction false} DrainSettles(b: seq<byte>, p: seq<int>)
    ensures var d := Drain(b, p);
      d.stop.Waiting? ==> Drain(d.buffer, d.pending) == Drained([], d.buffer, d.pending, Waiting)
    decreases |b|
  {
    hide Poll;
    PollGrows(b, p, [], []);
    assert b + [] == b && p + [] == p;
    var r := Poll(b, p);
    if r.result.Ok? && r.result.value.Some? {
      DrainSettles(r.buffer, r.pending);
    } else {
      assert r.buffer + [] == r.buffer && r.pending + [] == r.pending;
    }
  }

  /** Messages already out are carried along. */
  lemma {:induction false} FeedAllAfter(d: Drained, cs: seq<Chunk>, out: seq<Message>)
    ensures var r := FeedAll(d, cs); FeedAll(d.(out := out + d.out), cs) == r.(out := out + r.out)
    decreases |cs|
  {
    hide Drain;
    if cs != [] {
      var e := Feed(d, cs[0]);
      FeedAllAfter(e, cs[1..], out);
      if !d.stop.Failed? {
        var f := Drain(d.buffer + cs[0].data, d.pending + cs[0].fds);
        Assoc(out, d.out, f.out);
      }
    }
  }

  lemma {:induction false} FeedAllAppend(d: Drained, a: seq<Chunk>, b: seq<Chunk>)
    ensures FeedAll(d, a + b) == FeedAll(FeedAll(d, a), b)
    decreases |a|
  {
    hide Feed;
    if a == [] {
      assert a + b == b;
    } else {
      FeedAllAppend(Feed(d, a[0]), a[1..], b);
      assert (a + b)[0] == a[0] && (a + b)[1..] == a[1..] + b;
    }
  }

  lemma {:induction false} DispatchAppend(x: Inbox, a: seq<Message>, b: seq<Message>)
    ensures DispatchAll(x, a + b) == DispatchAll(DispatchAll(x, a), b)
    decreases |a|
  {
    hide Dispatch;
    if a == [] {
      assert a + b == b;
    } else {
      DispatchAppend(Dispatch(x, a[0]), a[1..], b);
      assert (a + b)[0] == a[0] && (a + b)[1..] == a[1..] + b;
    }
  }

  /** A drain that meets no error feeds its reads to the stream and files what comes out. */
  lemma {:induction false} PullFeeds(l: Link, script: seq<Got>, tries: nat)
    requires Settled(l)
    ensures var r := Pull(l, script, tries);
      && NoEmptyRead(r.chunks) && r.l.inbox == DispatchAll(l.inbox, r.arrived)
      && (r.error.None? ==> Settled(r.l) && FeedAll(Idle(l), r.chunks) == Idle(r.l).(out := r.arrived))
    decreases tries
  {
    hide Drain, Dispatch;
    if tries > 0 && script != [] && script[0].Data? && script[0].bytes != [] {
      var c := Chunk(script[0].bytes, script[0].fds);
      var d := Absorb(l, c);
      DrainSettles(l.buffer + c.data, l.pending + c.fds);
      if d.stop.Waiting? {
        var l' := Filed(l, d);
        PullFeeds(l', script[1..], tries - 1);
        var r := Pull(l', script[1..], tries - 1);
        DispatchAppend(l.inbox, d.out, r.arrived);
        FirstRead(l, c, r.chunks);
      }
    }
  }

  lemma FirstRead(l: Link, c: Chunk, rest: seq<Chunk>)
    requires Absorb(l, c).stop.Waiting?
    ensures var d := Absorb(l, c); var r := FeedAll(Idle(Filed(l, d)), rest);
      FeedAll(Idle(l), [c] + rest) == r.(out := d.out + r.out)
  {
    hide Drain, DispatchAll;
    var d := Absorb(l, c);
    assert ([c] + rest)[0] == c && ([c] + rest)[1..] == rest;
    assert [] + d.out == d.out && d.out + [] == d.out;
    FeedAllAfter(Idle(Filed(l, d)), rest, d.out);
  }

  // ----- Whole runs of the receiving end -----

  /** The end drains its transport, a call looks for its reply, or the application asks for a message. */
  datatype Act = Drains(script: seq<Got>) | Looks(serial: nat) | Asks

  /** The link, the events its inbox saw, the reads, and whether a drain met an error. */
  datatype Trace = Trace(l: Link, events: seq<Event>, chunks: seq<Chunk>, failed: bool)

  const NO_MAIL := Inbox([], [])

  function Arrivals(ms: seq<Message>): (es: seq<Event>)
    ensures |es| == |ms| && forall i :: 0 <= i < |ms| ==> es[i] == Arrives(ms[i])
  {
    seq(|ms|, i requires 0 <= i < |ms| => Arrives(ms[i]))
  }

  function Act1(t: Trace, a: Act): Trace {
    match a
    case Drains(script) =>
      var r := Pull(t.l, script, MAX_READS);
      Trace(r.l, t.events + Arrivals(r.arrived), t.chunks + r.chunks, t.failed || r.error.Some?)
    case Looks(serial) => t.(l := t.l.(inbox := Take(t.l.inbox, serial).x), events := t.events + [Awaits(serial)])
    case Asks => t.(l := t.l.(inbox := Next(t.l.inbox).x), events := t.events + [Receives])
  }

  function Traced(acts: seq<Act>): Trace {
    if acts == [] then Trace(Link([], [], NO_MAIL), [], [], false) else Act1(Traced(acts[..|acts| - 1]),
      acts[|acts| - 1])
  }

  /** The messages that arrived, in order. */
  function Incoming(es: seq<Event>): seq<Message> {
    if es == [] then [] else (if es[0].Arrives? then [es[0].m] else []) + Incoming(es[1..])
  }

  lemma {:induction false} IncomingAppend(a: seq<Event>, b: seq<Event>)
    ensures Incoming(a + b) == Incoming(a) + Incoming(b)
    decreases |a|
  {
    if a == [] {
      assert a + b == b;
    } else {
      IncomingAppend(a[1..], b);
      assert (a + b)[1..] == a[1..] + b;
      Assoc(if a[0].Arrives? then [a[0].m] else [], Incoming(a[1..]), Incoming(b));
    }
  }

  lemma {:induction false} IncomingArrivals(ms: seq<Message>)
    ensures Incoming(Arrivals(ms)) == ms
  {
    if ms != [] {
      IncomingArrivals(ms[1..]);
      assert Arrivals(ms)[1..] == Arrivals(ms[1..]);
    }
  }

  lemma {:induction false} AfterAppend(x: Inbox, a: seq<Event>, b: seq<Event>)
    ensures After(x, a + b) == After(After(x, a), b)
    decreases |a|
  {
    hide Step;
    if a == [] {
      assert a + b == b;
    } else {
      AfterAppend(Step(x, a[0]), a[1..], b);
      assert (a + b)[0] == a[0] && (a + b)[1..] == a[1..] + b;
    }
  }

  lemma {:induction false} AfterArrivals(x: Inbox, ms: seq<Message>)
    ensures After(x, Arrivals(ms)) == DispatchAll(x, ms)
    decreases |ms|
  {
    hide Dispatch;
    if ms != [] {
      AfterArrivals(Dispatch(x, ms[0]), ms[1..]);
      assert Arrivals(ms)[1..] == Arrivals(ms[1..]);
    }
  }

  /** The inbox went through the events, and while no drain failed what arrived is what the stream
      makes of the reads. */
  predicate Consistent(t: Trace) {
    && NoEmptyRead(t.chunks) && t.l.inbox == After(NO_MAIL, t.events)
    && (!t.failed ==> Settled(t.l) && FeedAll(Drain([], []), t.chunks) == Idle(t.l).(out := Incoming(t.events)))
  }

  lemma DrainConsistent(t: Trace, script: seq<Got>)
    requires Consistent(t) && !t.failed
    ensures Consistent(Act1(t, Drains(script)))
  {
    hide Drain, Dispatch, DispatchAll, Pull, Settled, Incoming, After, FeedAll;
    var r := Pull(t.l, script, MAX_READS);
    PullFeeds(t.l, script, MAX_READS);
    AfterAppend(NO_MAIL, t.events, Arrivals(r.arrived));
    AfterArrivals(t.l.inbox, r.arrived);
    IncomingAppend(t.events, Arrivals(r.arrived));
    IncomingArrivals(r.arrived);
    FeedAllAppend(Drain([], []), t.chunks, r.chunks);
    var out := Incoming(t.events);
    FeedAllAfter(Idle(t.l), r.chunks, out);
    assert out + [] == out;
  }

  lemma LookConsistent(t: Trace, a: Act)
    requires Consistent(t) && !a.Drains?
    ensures Consistent(Act1(t, a))
  {
    hide Drain, Take, Next, FeedAll, Settled, Incoming, After;
    var e := if a.Asks? then Receives else Awaits(a.serial);
    AfterAppend(NO_MAIL, t.events, [e]);
    OneEvent(t.l.inbox, e);
    IncomingAppend(t.events, [e]);
    SameLink(t.l, Act1(t, a).l);
    assert Incoming(t.events) + [] == Incoming(t.events);
  }

  lemma OneEvent(x: Inbox, e: Event)
    ensures After(x, [e]) == Step(x, e) && (!e.Arrives? ==> Incoming([e]) == [])
  {
    hide Take, Next, Dispatch;
    assert [e][1..] == [];
  }

  lemma SameLink(l: Link, l': Link)
    requires l'.buffer == l.buffer && l'.pending == l.pending
    ensures Settled(l') == Settled(l) && Idle(l') == Idle(l)
  {
  }

  /** No drain but the last may have failed. */
  predicate FailsAtMostLast(acts: seq<Act>) { acts == [] || !Traced(acts[..|acts| - 1]).failed }

  lemma {:induction false} EveryTraceIsConsistent(acts: seq<Act>)
    requires FailsAtMostLast(acts)
    ensures Consistent(Traced(acts))
    decreases |acts|
  {
    hide Consistent, Pull;
    if acts == [] {
      StartConsistent();
    } else {
      var before, a := acts[..|acts| - 1], acts[|acts| - 1];
      EarlierFails(before);
      EveryTraceIsConsistent(before);
      if a.Drains? {
        DrainConsistent(Traced(before), a.script);
      } else {
        LookConsistent(Traced(before), a);
      }
    }
  }

  lemma EarlierFails(acts: seq<Act>)
    requires !Traced(acts).failed
    ensures FailsAtMostLast(acts)
  {
    hide Pull;
  }

  lemma StartConsistent()
    ensures Consistent(Traced([]))
  {
    NothingToPoll([]);
  }

  // ----- From one application to the other -----

  function RepliesAmong(ms: seq<Message>, serial: nat): seq<Message> {
    if ms == [] then [] else (if Answers(ms[0]) == Some(serial) then [ms[0]] else []) + RepliesAmong(ms[1..], serial)
  }

  function OthersAmong(ms: seq<Message>): seq<Message> {
    if ms == [] then [] else (if Answers(ms[0]).None? then [ms[0]] else []) + OthersAmong(ms[1..])
  }

  lemma {:induction false} ArrivedAmong(es: seq<Event>, serial: nat)
    ensures Arrived(es, serial) == RepliesAmong(Incoming(es), serial) && Unanswering(es) == OthersAmong(Incoming(es))
    decreases |es|
  {
    hide Answers;
    if es != [] {
      ArrivedAmong(es[1..], serial);
      var m := Incoming(es);
      if es[0].Arrives? {
        assert m[0] == es[0].m && m[1..] == Incoming(es[1..]);
      } else {
        assert m == Incoming(es[1..]);
      }
    }
  }

  /** Whatever one end sends and its kernel accepts, and however the other end reads it, waits for
      replies and asks for messages: the replies its calls got, followed by those waiting, are the
      replies among the messages that are whole so far, per serial and in order, and the messages
      its application got, followed by those queued, are the others. */
  lemma EndToEnd(calls: seq<Call>, acts: seq<Act>, serial: nat)
    requires AllPostable(calls) && FirstFailureAtMost(calls) && !Traced(acts).failed
    requires Marks(Traced(acts).chunks) <= Accepted(Run(OpsOf(calls)).tx.sent)
    ensures var t := Traced(acts); var ms := Posted(calls)[..Whole(Posted(calls), |DataOf(t.chunks)|)];
      && HandedOut(NO_MAIL, t.events, serial) + For(t.l.inbox.replies, serial) == RepliesAmong(ms, serial)
      && Delivered(NO_MAIL, t.events) + t.l.inbox.incoming == OthersAmong(ms)
  {
    hide Drain, FeedAll, AllPostable, FirstFailureAtMost, Marks, Accepted, Run, Traced, Settled, Whole, HandedOut,
      Delivered, After, For;
    var t := Traced(acts);
    EarlierFails(acts);
    EveryTraceIsConsistent(acts);
    var n := |t.chunks|;
    assert t.chunks[..n] == t.chunks;
    SendsAreReceived(calls, t.chunks, n);
    RepliesReachTheirCalls(NO_MAIL, t.events, serial);
    OthersReachTheApplication(NO_MAIL, t.events);
    ArrivedAmong(t.events, serial);
    NoMailYet(serial);
  }

  lemma NoMailYet(serial: nat)
    ensures For(NO_MAIL.replies, serial) == [] && NO_MAIL.incoming == []
    ensures forall s: seq<Message> :: [] + s == s
  {
  }

  // ----- Waiting for a reply -----

  /** What waiting on the transport reports. */
  datatype Wake = Wake(writable: bool, readable: bool) | WaitFailed(error: DbusError)

  /** Both halves of a connection and what their transport will answer. */
  datatype Ends = Ends(l: Link, tx: Tx, answers: seq<Answer>, script: seq<Got>)

  datatype Waited = Waited(ends: Ends, result: Result<Message, DbusError>)

  /** An error reply becomes the error it names. */
  function Verdict(m: Message): Result<Message, DbusError> {
    if m.kind == Error then Err(Remote(if m.errorName.Some? then m.errorName.value else [])) else Ok(m)
  }

  function FlushIf(e: Ends, writable: bool): (Ends, Option<DbusError>) {
    if !writable then (e, None)
    else
      var f := Flush(e.tx, e.answers);
      (e.(tx := f.tx, answers := f.script), f.error)
  }

  function DrainIf(e: Ends, readable: bool): (Ends, Option<DbusError>) {
    if !readable then (e, None)
    else
      var r := Pull(e.l, e.script, MAX_READS);
      (e.(l := r.l, script := r.script), r.error)
  }

  /** Waits for the reply to `serial` over the given wake-ups; the deadline passes after the last. */
  function Wait(e: Ends, serial: nat, wakes: seq<Wake>): Waited
    decreases |wakes|
  {
    var t := Take(e.l.inbox, serial);
    if t.reply.Some? then Waited(e.(l := e.l.(inbox := t.x)), Verdict(t.reply.value))
    else if wakes == [] then Waited(e, Err(Timeout))
    else if wakes[0].WaitFailed? then Waited(e, Err(wakes[0].error))
    else
      var (e1, err1) := FlushIf(e, wakes[0].writable);
      if err1.Some? then Waited(e1, Err(err1.value))
      else
        var (e2, err2) := DrainIf(e1, wakes[0].readable);
        if err2.Some? then Waited(e2, Err(err2.value)) else Wait(e2, serial, wakes[1..])
  }

  function Acts(t: Trace, acts: seq<Act>): Trace
    decreases |acts|
  {
    if acts == [] then t else Acts(Act1(t, acts[0]), acts[1..])
  }

  /** The reply a wait ends with is the one its last search hands out. */
  predicate EndsWith(t: Trace, acts: seq<Act>, serial: nat, got: Option<Message>, result: Result<Message, DbusError>) {
    if got.Some? then
      && acts != [] && acts[|acts| - 1] == Looks(serial)
      && Take(Acts(t, acts[..|acts| - 1]).l.inbox, serial).reply == got && result == Verdict(got.value)
    else result.Err? && forall i :: 0 <= i < |acts| ==> acts[i].Drains?
  }

  /** A drain fails only as the last act, and its error is what the wait returns. */
  predicate FailsWith(t: Trace, acts: seq<Act>, result: Result<Message, DbusError>) {
    !t.failed && Acts(t, acts).failed ==> LastFails(t, acts, result)
  }

  predicate LastFails(t: Trace, acts: seq<Act>, result: Result<Message, DbusError>) {
    && acts != [] && acts[|acts| - 1].Drains? && !Acts(t, acts[..|acts| - 1]).failed && result.Err?
    && Pull(Acts(t, acts[..|acts| - 1]).l, acts[|acts| - 1].script, MAX_READS).error == Some(result.error)
  }

  /** Waiting drains, and at last looks: it is part of a run, so all that holds of runs holds of it. */
  lemma {:induction false} WaitIsARun(t: Trace, e: Ends, serial: nat, wakes: seq<Wake>) returns (acts: seq<Act>,
      got: Option<Message>)
    requires e.l == t.l
    ensures var w := Wait(e, serial, wakes);
      && Acts(t, acts).l == w.ends.l && EndsWith(t, acts, serial, got, w.result) && FailsWith(t, acts, w.result)
    ensures forall i :: 0 <= i < |acts| ==> acts[i].Drains? || acts[i] == Looks(serial)
    decreases |wakes|
  {
    hide Take, Pull, Flush, Acts, Act1, Verdict, EndsWith, FailsWith;
    var found := Take(e.l.inbox, serial);
    NoAct(t);
    got := None;
    acts := [];
    if found.reply.Some? {
      acts, got := [Looks(serial)], found.reply;
      OneAct(t, acts[0]);
      LookEnds(t, serial);
    } else if wakes == [] || wakes[0].WaitFailed? {
      NothingEnds(t, serial, Wait(e, serial, wakes).result);
    } else {
      var (e1, err1) := FlushIf(e, wakes[0].writable);
      var (e2, err2) := DrainIf(e1, wakes[0].readable);
      NothingEnds(t, serial, Wait(e, serial, wakes).result);
      if err1.Some? {
        return;
      }
      OneAct(t, Drains(e1.script));
      if err2.Some? {
        acts := [Drains(e1.script)];
        DrainEnds(t, e1.script, serial, err2.value);
        return;
      }
      if !wakes[0].readable {
        acts, got := WaitIsARun(t, e2, serial, wakes[1..]);
      } else {
        var t' := Act1(t, Drains(e1.script));
        var rest;
        rest, got := WaitIsARun(t', e2, serial, wakes[1..]);
        acts := [Drains(e1.script)] + rest;
        DrainGoesOn(t, e1.script, rest, serial, got, Wait(e2, serial, wakes[1..]).result);
      }
    }
  }

  lemma LookEnds(t: Trace, serial: nat)
    requires Take(t.l.inbox, serial).reply.Some?
    ensures var got := Take(t.l.inbox, serial).reply;
      EndsWith(t, [Looks(serial)], serial, got, Verdict(got.value)) && FailsWith(t, [Looks(serial)], Verdict(got.value))
  {
    hide Take, Verdict, Pull, Acts;
    assert [Looks(serial)][..0] == [];
    NoAct(t);
    OneAct(t, Looks(serial));
  }

  lemma NothingEnds(t: Trace, serial: nat, result: Result<Message, DbusError>)
    ensures result.Err? ==> EndsWith(t, [], serial, None, result) && FailsWith(t, [], result)
  {
  }

  lemma DrainEnds(t: Trace, script: seq<Got>, serial: nat, error: DbusError)
    requires Pull(t.l, script, MAX_READS).error == Some(error)
    ensures EndsWith(t, [Drains(script)], serial, None, Err(error)) && FailsWith(t, [Drains(script)], Err(error))
  {
    hide Pull;
    assert [Drains(script)][..0] == [];
  }

  lemma DrainGoesOn(t: Trace, script: seq<Got>, rest: seq<Act>, serial: nat, got: Option<Message>,
      result: Result<Message, DbusError>)
    requires Pull(t.l, script, MAX_READS).error.None?
    requires var t' := Act1(t, Drains(script)); EndsWith(t', rest, serial, got, result) && FailsWith(t', rest, result)
    ensures var acts := [Drains(script)] + rest;
      && Acts(t, acts) == Acts(Act1(t, Drains(script)), rest)
      && EndsWith(t, acts, serial, got, result) && FailsWith(t, acts, result)
  {
    hide Pull, Take, Verdict, Acts;
    var first, acts := [Drains(script)], [Drains(script)] + rest;
    OneAct(t, Drains(script));
    ActsAppend(t, first, rest);
    if rest == [] {
      NoAct(Act1(t, Drains(script)));
    } else {
      assert acts[..|acts| - 1] == first + rest[..|rest| - 1] && acts[|acts| - 1] == rest[|rest| - 1];
      ActsAppend(t, first, rest[..|rest| - 1]);
    }
  }

  lemma NoAct(t: Trace)
    ensures Acts(t, []) == t
  {
  }

  lemma OneAct(t: Trace, a: Act)
    ensures Acts(t, [a]) == Act1(t, a)
    ensures a.Drains? ==> Act1(t, a).l == Pull(t.l, a.script, MAX_READS).l
    ensures a.Looks? ==> Act1(t, a).l == t.l.(inbox := Take(t.l.inbox, a.serial).x)
  {
    hide Pull, Take;
    assert [a][1..] == [];
  }

  lemma {:induction false} ActsAppend(t: Trace, a: seq<Act>, b: seq<Act>)
    ensures Acts(t, a + b) == Acts(Acts(t, a), b)
    decreases |a|
  {
    hide Act1;
    if a == [] {
      assert a + b == b;
    } else {
      ActsAppend(Act1(t, a[0]), a[1..], b);
      assert (a + b)[0] == a[0] && (a + b)[1..] == a[1..] + b;
    }
  }

  lemma NotFound(x: Inbox, serial: nat)
    ensures Take(x, serial).reply.None? ==> Take(x, serial).x == x
  {
  }

  // ----- A waiting call, end to end -----

  lemma {:induction false} ActsTraced(a: seq<Act>, b: seq<Act>)
    ensures Acts(Traced(a), b) == Traced(a + b)
    decreases |b|
  {
    hide Act1;
    if b == [] {
      assert a + b == a;
    } else {
      var init, last := b[..|b| - 1], b[|b| - 1];
      ActsTraced(a, init);
      assert b == init + [last];
      ActsAppend(Traced(a), init, [last]);
      OneAct(Traced(a + init), last);
      assert (a + b)[..|a + b| - 1] == a + init && (a + b)[|a + b| - 1] == last;
    }
  }

  lemma {:induction false} HandedOutAppend(x: Inbox, a: seq<Event>, b: seq<Event>, serial: nat)
    ensures HandedOut(x, a + b, serial) == HandedOut(x, a, serial) + HandedOut(After(x, a), b, serial)
    decreases |a|
  {
    hide Step, Take, Given;
    if a == [] {
      assert a + b == b;
    } else {
      var x' := Step(x, a[0]);
      HandedOutAppend(x', a[1..], b, serial);
      assert (a + b)[0] == a[0] && (a + b)[1..] == a[1..] + b;
      Assoc(if a[0].Awaits? then Given(Take(x, a[0].serial), a[0].serial, serial) else [],
        HandedOut(x', a[1..], serial),
        HandedOut(After(x', a[1..]), b, serial));
    }
  }

  lemma LookHandsOut(t: Trace, serial: nat, m: Message)
    requires t.l.inbox == After(NO_MAIL, t.events) && Take(t.l.inbox, serial).reply == Some(m)
    ensures var t' := Act1(t, Looks(serial));
      HandedOut(NO_MAIL, t'.events, serial) == HandedOut(NO_MAIL, t.events, serial) + [m]
  {
    hide Take, After;
    HandedOutAppend(NO_MAIL, t.events, [Awaits(serial)], serial);
    assert [Awaits(serial)][1..] == [];
    assert HandedOut(t.l.inbox, [Awaits(serial)], serial) == [m] + [];
  }

  /** A call that waits for its reply gets the next one among those the peer sent for its serial:
      as many came before it as had been handed out. */
  lemma WaitEndToEnd(calls: seq<Call>, before: seq<Act>, e: Ends, serial: nat,
      wakes: seq<Wake>) returns (acts: seq<Act>, got: Option<Message>)
    requires AllPostable(calls) && FirstFailureAtMost(calls) && e.l == Traced(before).l
    ensures var w, t := Wait(e, serial, wakes), Traced(before + acts);
      && t.l == w.ends.l
      && (got.Some? ==> acts != [] && w.result == Verdict(got.value)) && (got.None? ==> w.result.Err?)
      && (got.Some? && !t.failed && Marks(t.chunks) <= Accepted(Run(OpsOf(calls)).tx.sent) ==>
        var ms := Posted(calls)[..Whole(Posted(calls), |DataOf(t.chunks)|)];
        var n := |HandedOut(NO_MAIL, Traced(before + acts[..|acts| - 1]).events, serial)|;
        n < |RepliesAmong(ms, serial)| && RepliesAmong(ms, serial)[n] == got.value)
  {
    hide Wait, Acts, Traced, Take, Verdict, AllPostable, FirstFailureAtMost, Marks, Accepted, Run, HandedOut, For,
      Delivered, Whole, FailsWith, Pull;
    acts, got := WaitIsARun(Traced(before), e, serial, wakes);
    ActsTraced(before, acts);
    var t := Traced(before + acts);
    if got.Some? && !t.failed && Marks(t.chunks) <= Accepted(Run(OpsOf(calls)).tx.sent) {
      var init := acts[..|acts| - 1];
      ActsTraced(before, init);
      var u := Traced(before + init);
      assert before + acts == (before + init) + [Looks(serial)];
      ActsTraced(before + init, [Looks(serial)]);
      OneAct(u, Looks(serial));
      NotFailedBefore(u, serial);
      EarlierFails(before + init);
      EveryTraceIsConsistent(before + init);
      LookHandsOut(u, serial, got.value);
      EndToEnd(calls, before + acts, serial);
      var given := HandedOut(NO_MAIL, u.events, serial);
      Nth(given, got.value, For(t.l.inbox.replies, serial));
    }
  }

  lemma NotFailedBefore(t: Trace, serial: nat)
    ensures Act1(t, Looks(serial)).failed == t.failed
  {
  }

  lemma Nth(a: seq<Message>, m: Message, b: seq<Message>)
    ensures var s := (a + [m]) + b; |a| < |s| && s[|a|] == m
  {
  }

  /** Replies are filed under the serial they answer. */
  predicate WellFiled(x: Inbox) {
    forall i :: 0 <= i < |x.replies| ==> Answers(x.replies[i].message) == Some(x.replies[i].serial)
  }

  lemma DispatchFilesWell(x: Inbox, m: Message)
    requires WellFiled(x)
    ensures WellFiled(Dispatch(x, m))
  {
  }

  lemma {:induction false} DispatchAllFilesWell(x: Inbox, ms: seq<Message>)
    requires WellFiled(x)
    ensures WellFiled(DispatchAll(x, ms))
    decreases |ms|
  {
    hide Dispatch, WellFiled;
    if ms != [] {
      DispatchFilesWell(x, ms[0]);
      DispatchAllFilesWell(Dispatch(x, ms[0]), ms[1..]);
    }
  }

  lemma {:induction false} PullFilesWell(l: Link, script: seq<Got>, tries: nat)
    requires WellFiled(l.inbox)
    ensures WellFiled(Pull(l, script, tries).l.inbox)
    decreases tries
  {
    hide Drain, Dispatch, DispatchAll, WellFiled;
    if tries > 0 && script != [] && script[0].Data? && script[0].bytes != [] {
      var d := Absorb(l, Chunk(script[0].bytes, script[0].fds));
      DispatchAllFilesWell(l.inbox, d.out);
      PullFilesWell(Filed(l, d), script[1..], tries - 1);
    }
  }

  /** A call gets a reply to its own serial that is no error, or an error. */
  lemma {:induction false} WaitAnswers(e: Ends, serial: nat, wakes: seq<Wake>)
    requires WellFiled(e.l.inbox)
    ensures var r := Wait(e, serial, wakes).result;
      r.Ok? ==> Answers(r.value) == Some(serial) && r.value.kind == MethodReturn
    decreases |wakes|
  {
    hide Pull, Flush, WellFiled;
    if Take(e.l.inbox, serial).reply.Some? {
      TakenAnswers(e.l.inbox, serial);
    } else if wakes != [] && wakes[0].Wake? {
      var (e1, err1) := FlushIf(e, wakes[0].writable);
      if err1.None? {
        var (e2, err2) := DrainIf(e1, wakes[0].readable);
        PullFilesWell(e1.l, e1.script, MAX_READS);
        if err2.None? {
          WaitAnswers(e2, serial, wakes[1..]);
        }
      }
    }
  }

  lemma TakenAnswers(x: Inbox, serial: nat)
    requires WellFiled(x) && Take(x, serial).reply.Some?
    ensures Answers(Take(x, serial).reply.value) == Some(serial)
  {
  }

  // ----- The receiving half as an object -----

  /** A transport that answers reads from a script. */
  class Inlet {
    var script: seq<Got>

    method Read() returns (g: Got)
      modifies this
      ensures if old(script) == [] then g == Nothing && script == []
        else g == old(script)[0] && script == old(script)[1..]
    {
      g := Nothing;
      if script != [] {
        g, script := script[0], script[1..];
      }
    }
  }

  class Endpoint {
    const conn: Connection
    const stream: MessageStream
    const inlet: Inlet

    constructor (transport: Transport, inlet: Inlet)
      ensures this.inlet == inlet && conn.transport == transport && fresh(conn) && fresh(stream)
      ensures LinkNow() == Link([], [], NO_MAIL)
    {
      conn := new Connection(transport);
      stream := new MessageStream();
      this.inlet := inlet;
    }

    ghost function LinkNow(): Link
      reads this, conn, stream
    {
      Link(stream.buffer, stream.pending, conn.inbox)
    }

    ghost function Now(): Ends
      reads this, conn, stream, inlet, conn.transport
    {
      Ends(LinkNow(), conn.Now(), conn.transport.script, inlet.script)
    }

    /** Takes the whole messages out of the stream and files them. */
    method DispatchWaiting() returns (err: Option<DbusError>)
      modifies stream, conn`inbox
      ensures var d := Drain(old(stream.buffer), old(stream.pending));
        LinkNow() == Filed(old(LinkNow()), d) && err == ErrorOf(d.stop)
    {
      hide Poll;
      ghost var b, p, x := stream.buffer, stream.pending, conn.inbox;
      ghost var done: seq<Message> := [];
      DoneNothing(Drain(b, p));
      while true
        invariant var d := Drain(stream.buffer, stream.pending); Drain(b, p) == d.(out := done + d.out)
        invariant conn.inbox == DispatchAll(x, done)
        decreases |stream.buffer|
      {
        ghost var polled := Poll(stream.buffer, stream.pending);
        MissingIsInvalid(stream.buffer, stream.pending);
        var r := stream.NextMessage();
        if r.Err? {
          assert done + [] == done;
          return Some(r.error);
        }
        if r.value.None? {
          assert done + [] == done;
          return None;
        }
        var m := r.value.value;
        conn.Receive(m);
        DispatchAppend(x, done, [m]);
        OneDispatch(DispatchAll(x, done), m);
        Assoc(done, [m], Drain(polled.buffer, polled.pending).out);
        done := done + [m];
      }
    }

    /** Reads what the transport has, at most sixty-four times, and files every whole message. */
    method DrainAvailable() returns (err: Option<DbusError>)
      modifies stream, conn`inbox, inlet
      ensures var r := Pull(old(LinkNow()), old(inlet.script), MAX_READS);
        LinkNow() == r.l && inlet.script == r.script && err == r.error
    {
      hide Drain, DispatchAll;
      ghost var l, script := LinkNow(), inlet.script;
      var iterations := 0;
      while iterations < MAX_READS
        invariant 0 <= iterations <= MAX_READS
        invariant var r, now := Pull(l, script, MAX_READS), Pull(LinkNow(), inlet.script, MAX_READS - iterations);
          r.l == now.l && r.script == now.script && r.error == now.error
      {
        iterations := iterations + 1;
        var g := inlet.Read();
        match g
        case Nothing => return None;
        case Broke(e) => return Some(e);
        case Data(bytes, fds) =>
          if bytes == [] {
            return Some(Disconnected);
          }
          stream.FeedWithFds(bytes, fds);
          err := DispatchWaiting();
          if err.Some? {
            return;
          }
      }
      err := None;
    }

    /** Drains, then hands out the oldest message that answers no call. */
    method TryRecv() returns (r: Result<Option<Message>, DbusError>)
      modifies stream, conn`inbox, inlet
      ensures var p := Pull(old(LinkNow()), old(inlet.script), MAX_READS);
        if p.error.Some? then r == Err(p.error.value) && LinkNow() == p.l
        else r == Ok(Next(p.l.inbox).reply) && LinkNow() == p.l.(inbox := Next(p.l.inbox).x)
    {
      hide Pull;
      var err := DrainAvailable();
      if err.Some? {
        return Err(err.value);
      }
      var m := conn.TakeIncoming();
      r := Ok(m);
    }

    /** Waits for the reply to a call, flushing and draining as the transport allows. */
    method WaitReply(serial: nat, wakes: seq<Wake>) returns (r: Result<Message, DbusError>)
      modifies conn, stream, inlet, conn.transport
      ensures var w := Wait(old(Now()), serial, wakes); r == w.result && Now() == w.ends
    {
      hide Flush, Pull, Take;
      ghost var start := Now();
      var i := 0;
      while true
        invariant 0 <= i <= |wakes| && Wait(Now(), serial, wakes[i..]) == Wait(start, serial, wakes)
        decreases |wakes| - i
      {
        NotFound(conn.inbox, serial);
        var reply := conn.TakeReply(serial);
        if reply.Some? {
          var m := reply.value;
          if m.kind == Error {
            return Err(Remote(if m.errorName.Some? then m.errorName.value else []));
          }
          return Ok(m);
        }
        if i == |wakes| {
          return Err(Timeout);
        }
        assert wakes[i..][0] == wakes[i] && wakes[i..][1..] == wakes[i + 1..];
        if wakes[i].WaitFailed? {
          return Err(wakes[i].error);
        }
        if wakes[i].writable {
          var err := conn.FlushWritable();
          if err.Some? {
            return Err(err.value);
          }
        }
        if wakes[i].readable {
          var err := DrainAvailable();
          if err.Some? {
            return Err(err.value);
          }
        }
        i := i + 1;
      }
    }
  }

  lemma DoneNothing(d: Drained)
    ensures d == d.(out := [] + d.out)
  {
    assert [] + d.out == d.out;
  }

  lemma OneDispatch(x: Inbox, m: Message)
    ensures DispatchAll(x, [m]) == Dispatch(x, m)
  {
    assert [m][1..] == [];
  }

  lemma {:induction false} MissingIsInvalid(b: seq<byte>, p: seq<int>)
    ensures var r := Poll(b, p); r.missing ==> r.result == Err(InvalidMessage)
    decreases |b|
  {
    hide Inspect, Decode;
    if Inspect(b).Complete? && KindOf(b[1]).None? {
      MissingIsInvalid(b[Inspect(b).total..], p);
    }
  }
}
