/** The client side of the D-Bus SASL handshake. */
module DbusAuth {
  import opened Bytes
  import opened DbusNames
  import opened Utf8

  datatype State = Start | AwaitExternal | AwaitAnonymous | SendBegin | Finished

  datatype Session = Session(state: State, pending: seq<byte>, rx: seq<byte>, uid: nat)

  datatype Poll = Write(bytes: seq<byte>) | Read | Done

  const NEWLINE: byte := 10
  const RETURN: byte := 13

  function Ascii(s: string): (b: seq<byte>)
    ensures |b| == |s|
  {
    seq(|s|, i requires 0 <= i < |s| => s[i] as int % 256)
  }

  const ANONYMOUS := Ascii("AUTH ANONYMOUS\r\n")
  const BEGIN := Ascii("BEGIN\r\n")
  const OK := Ascii("OK")
  const REJECTED := Ascii("REJECTED")

  function Decimal(n: nat): (s: seq<byte>)
    ensures |s| > 0 && forall k :: 0 <= k < |s| ==> IsDigit(s[k])
  {
    if n < 10 then [48 + n] else Decimal(n / 10) + [48 + n % 10]
  }

  function HexDigit(n: nat): byte
    requires n < 16
  {
    if n < 10 then 48 + n else 87 + n
  }

  function Hex(s: seq<byte>): seq<byte> {
    if s == [] then [] else Hex(s[..|s| - 1]) + [HexDigit(s[|s| - 1] / 16), HexDigit(s[|s| - 1] % 16)]
  }

  function External(uid: nat): seq<byte> { [0] + Ascii("AUTH EXTERNAL ") + Hex(Decimal(uid)) + Ascii("\r\n") }

  // ----- Polling -----

  datatype Polled = Polled(s: Session, poll: Poll)

  function PollOnce(s: Session): Polled {
    if s.pending != [] then
      Polled(s.(state := if s.state.SendBegin? then Finished else s.state, pending := []), Write(s.pending))
    else
      match s.state
      case Start => Polled(s.(state := AwaitExternal), Write(External(s.uid)))
      case AwaitExternal => Polled(s, Read)
      case AwaitAnonymous => Polled(s, Read)
      case SendBegin => Polled(s.(state := Finished), Write(BEGIN))
      case Finished => Polled(s, Done)
  }

  // ----- Feeding -----

  predicate IsOk(line: seq<byte>) { line == OK || OK + [32] <= line }

  predicate IsRejected(line: seq<byte>) { !IsOk(line) && REJECTED <= line }

  datatype Fed = Fed(s: Session, ok: bool)

  function Handle(s: Session, line: seq<byte>): Fed {
    if IsOk(line) then Fed(s.(state := SendBegin, pending := BEGIN), true)
    else if IsRejected(line) && s.state.AwaitExternal? then Fed(s.(state := AwaitAnonymous, pending := ANONYMOUS), true)
    else Fed(s, false)
  }

  /** Handles lines up to the first one that is refused. */
  function HandleAll(s: Session, lines: seq<seq<byte>>): Fed
    decreases |lines|
  {
    if lines == [] then Fed(s, true)
    else var f := Handle(s, lines[0]); if f.ok then HandleAll(f.s, lines[1..]) else f
  }

  /** The first newline, or the length. */
  function LineEnd(rx: seq<byte>): (i: nat)
    ensures i <= |rx| && (i < |rx| ==> rx[i] == NEWLINE)
  {
    if rx == [] || rx[0] == NEWLINE then 0 else 1 + LineEnd(rx[1..])
  }

  /** Only a full `\r\n` is stripped. */
  function Trim(line: seq<byte>): seq<byte> {
    var n := |line|;
    if n >= 2 && line[n - 1] == NEWLINE && line[n - 2] == RETURN then line[..n - 2] else line
  }

  datatype Lines = Lines(lines: seq<seq<byte>>, rest: seq<byte>)

  function SplitLines(rx: seq<byte>): Option<Lines>
    decreases |rx|
  {
    var i := LineEnd(rx);
    if i == |rx| then Some(Lines([], rx))
    else if !IsUtf8(rx[..i + 1]) then None
    else
      match SplitLines(rx[i + 1..])
      case None => None
      case Some(l) =>
        var t := Trim(rx[..i + 1]);
        Some(Lines(if t == [] then l.lines else [t] + l.lines, l.rest))
  }

  /** Data is accepted only while an answer is awaited; a failure loses the buffered bytes. */
  function FeedData(s: Session, data: seq<byte>): Fed {
    if data == [] then Fed(s, true)
    else if !s.state.AwaitExternal? && !s.state.AwaitAnonymous? then Fed(s, false)
    else
      match SplitLines(s.rx + data)
      case None => Fed(s.(rx := []), false)
      case Some(l) =>
        var f := HandleAll(s.(rx := []), l.lines);
        if f.ok then Fed(f.s.(rx := l.rest), true) else f
  }

  // ----- Runs -----

  datatype Event = Polls | Feeds(data: seq<byte>)

  /** A session with its history: what it asked to write, the lines it acted on, and whether it
      reported the end of the handshake. */
  datatype History = History(s: Session, writes: seq<seq<byte>>, heard: seq<seq<byte>>, done: bool)

  /** The lines acted upon, up to the refused one. */
  function Acted(s: Session, lines: seq<seq<byte>>): seq<seq<byte>>
    decreases |lines|
  {
    if lines == [] then []
    else var f := Handle(s, lines[0]); if f.ok then [lines[0]] + Acted(f.s, lines[1..]) else []
  }

  function HeardIn(s: Session, data: seq<byte>): seq<seq<byte>> {
    if data == [] || (!s.state.AwaitExternal? && !s.state.AwaitAnonymous?) then []
    else
      match SplitLines(s.rx + data)
      case None => []
      case Some(l) => Acted(s.(rx := []), l.lines)
  }

  function Step(h: History, e: Event): History {
    match e
    case Polls =>
      var p := PollOnce(h.s);
      h.(s := p.s, writes := h.writes + (if p.poll.Write? then [p.poll.bytes] else []), done := h.done || p.poll.Done?)
    case Feeds(data) => h.(s := FeedData(h.s, data).s, heard := h.heard + HeardIn(h.s, data))
  }

  function Run(h: History, es: seq<Event>): History
    decreases |es|
  {
    if es == [] then h else Run(Step(h, es[0]), es[1..])
  }

  function Fresh(uid: nat): History { History(Session(Start, [], [], uid), [], [], false) }

  predicate HeardOk(heard: seq<seq<byte>>) { exists k :: 0 <= k < |heard| && IsOk(heard[k]) }

  predicate HeardRejected(heard: seq<seq<byte>>) { exists k :: 0 <= k < |heard| && IsRejected(heard[k]) }

  /** What holds of a session that wrote `writes` and acted on `heard`. */
  predicate Fits(s: Session, writes: seq<seq<byte>>, heard: seq<seq<byte>>) {
    var e := External(s.uid);
    match s.state
    case Start => writes == [] && s.pending == []
    case AwaitExternal => writes == [e] && s.pending == []
    case AwaitAnonymous =>
      HeardRejected(heard) && ((writes == [e] && s.pending == ANONYMOUS)
        || (writes == [e, ANONYMOUS] && s.pending == []))
    case SendBegin =>
      HeardOk(heard) && s.pending == BEGIN && (writes == [e] || (writes == [e, ANONYMOUS] && HeardRejected(heard)))
    case Finished =>
      HeardOk(heard) && s.pending == [] && (writes == [e, BEGIN]
        || (writes == [e, ANONYMOUS, BEGIN] && HeardRejected(heard)))
  }

  lemma HeardMore(heard: seq<seq<byte>>, more: seq<seq<byte>>)
    ensures HeardOk(heard) ==> HeardOk(heard + more)
    ensures HeardRejected(heard) ==> HeardRejected(heard + more)
  {
    if HeardOk(heard) {
      var k :| 0 <= k < |heard| && IsOk(heard[k]);
      assert IsOk((heard + more)[k]);
    }
    if HeardRejected(heard) {
      var k :| 0 <= k < |heard| && IsRejected(heard[k]);
      assert IsRejected((heard + more)[k]);
    }
  }

  lemma HeardLine(heard: seq<seq<byte>>, line: seq<byte>)
    ensures IsOk(line) ==> HeardOk(heard + [line])
    ensures IsRejected(line) ==> HeardRejected(heard + [line])
  {
    assert (heard + [line])[|heard|] == line;
  }

  predicate Listening(s: Session) { s.state.AwaitExternal? || s.state.AwaitAnonymous? || s.state.SendBegin? }

  lemma HandleFits(s: Session, line: seq<byte>, writes: seq<seq<byte>>, heard: seq<seq<byte>>)
    requires Listening(s) && Fits(s, writes, heard) && Handle(s, line).ok
    ensures Listening(Handle(s, line).s) && Fits(Handle(s, line).s, writes, heard + [line])
  {
    HeardMore(heard, [line]);
    HeardLine(heard, line);
    hide HeardOk, HeardRejected, IsOk, IsRejected, External;
  }

  lemma {:induction false} HandleAllFits(s: Session, lines: seq<seq<byte>>, writes: seq<seq<byte>>,
      heard: seq<seq<byte>>)
    requires Listening(s) && Fits(s, writes, heard)
    ensures var f := HandleAll(s, lines); Listening(f.s) && Fits(f.s, writes, heard + Acted(s, lines))
    decreases |lines|
  {
    hide Fits, Handle, Listening;
    if lines == [] {
      assert heard + Acted(s, lines) == heard;
    } else {
      var f := Handle(s, lines[0]);
      if f.ok {
        HandleFits(s, lines[0], writes, heard);
        HandleAllFits(f.s, lines[1..], writes, heard + [lines[0]]);
        assert heard + Acted(s, lines) == (heard + [lines[0]]) + Acted(f.s, lines[1..]);
      } else {
        assert heard + Acted(s, lines) == heard;
        RefusedIsUnchanged(s, lines[0]);
      }
    }
  }

  lemma RefusedIsUnchanged(s: Session, line: seq<byte>)
    requires !Handle(s, line).ok
    ensures Handle(s, line).s == s
  {
  }

  lemma FitsAnyRx(s: Session, rx: seq<byte>, writes: seq<seq<byte>>, heard: seq<seq<byte>>)
    ensures Fits(s.(rx := rx), writes, heard) == Fits(s, writes, heard)
  {
  }

  lemma FeedFits(s: Session, data: seq<byte>, writes: seq<seq<byte>>, heard: seq<seq<byte>>)
    requires Fits(s, writes, heard)
    ensures Fits(FeedData(s, data).s, writes, heard + HeardIn(s, data))
  {
    hide Fits, SplitLines, HandleAll, Acted;
    if HeardIn(s, data) == [] {
      assert heard + HeardIn(s, data) == heard;
    }
    if data != [] && (s.state.AwaitExternal? || s.state.AwaitAnonymous?) {
      FitsAnyRx(s, [], writes, heard);
      var l := SplitLines(s.rx + data);
      if l.Some? {
        HandleAllFits(s.(rx := []), l.value.lines, writes, heard);
        FitsAnyRx(HandleAll(s.(rx := []), l.value.lines).s, l.value.rest, writes, heard + HeardIn(s, data));
      }
    }
  }

  lemma PollFits(s: Session, writes: seq<seq<byte>>, heard: seq<seq<byte>>)
    requires Fits(s, writes, heard)
    ensures var p := PollOnce(s); Fits(p.s, writes + (if p.poll.Write? then [p.poll.bytes] else []), heard)
    ensures PollOnce(s).poll.Done? ==> s.state.Finished?
  {
    hide HeardOk, HeardRejected, External;
    assert BEGIN != [] && ANONYMOUS != [];
  }

  /** The invariant of a history; the end is reported only once BEGIN was handed out. */
  predicate Legal(h: History) { Fits(h.s, h.writes, h.heard) && (h.done ==> h.s.state.Finished?) }

  lemma StepLegal(h: History, e: Event)
    requires Legal(h)
    ensures Legal(Step(h, e))
  {
    match e
    case Polls =>
      PollFits(h.s, h.writes, h.heard);
      FinishedStays(h.s, []);
    case Feeds(data) =>
      FeedFits(h.s, data, h.writes, h.heard);
      FinishedStays(h.s, data);
  }

  lemma FinishedStays(s: Session, data: seq<byte>)
    ensures s.state.Finished? ==> PollOnce(s).s.state.Finished? && FeedData(s, data).s.state.Finished?
  {
  }

  lemma {:induction false} RunLegal(h: History, es: seq<Event>)
    requires Legal(h)
    ensures Legal(Run(h, es))
    decreases |es|
  {
    hide Legal, Step;
    if es != [] {
      StepLegal(h, es[0]);
      RunLegal(Step(h, es[0]), es[1..]);
    }
  }

  /** Whatever the server sends and however polls and feeds interleave: the client writes
      EXTERNAL first, ANONYMOUS at most once and only after a rejection, BEGIN at most once, last
      and only after an OK line, and reports the end only after BEGIN. */
  lemma EveryRunIsAHandshake(uid: nat, es: seq<Event>)
    ensures var h := Run(Fresh(uid), es);
      && (h.writes <= [External(uid), BEGIN] || h.writes <= [External(uid), ANONYMOUS, BEGIN])
      && (ANONYMOUS in h.writes ==> HeardRejected(h.heard))
      && (BEGIN in h.writes ==> HeardOk(h.heard))
      && (h.done ==> BEGIN in h.writes)
  {
    RunLegal(Fresh(uid), es);
    SameUid(Fresh(uid), es);
    hide HeardOk, HeardRejected, Run;
    var h := Run(Fresh(uid), es);
    assert External(uid)[0] == 0 && ANONYMOUS[0] == 65 && BEGIN[0] == 66;
    if h.s.state.Finished? {
      assert BEGIN in h.writes by { assert h.writes[|h.writes| - 1] == BEGIN; }
    }
  }

  lemma {:induction false} SameUid(h: History, es: seq<Event>)
    ensures Run(h, es).s.uid == h.s.uid
    decreases |es|
  {
    hide SplitLines;
    if es != [] {
      SameUid(Step(h, es[0]), es[1..]);
      if es[0].Feeds? {
        FeedSameUid(h.s, es[0].data);
      }
    }
  }

  lemma FeedSameUid(s: Session, data: seq<byte>)
    ensures FeedData(s, data).s.uid == s.uid
  {
    var l := SplitLines(s.rx + data);
    if l.Some? {
      HandleSameUid(s.(rx := []), l.value.lines);
    }
  }

  lemma {:induction false} HandleSameUid(s: Session, lines: seq<seq<byte>>)
    ensures HandleAll(s, lines).s.uid == s.uid
    decreases |lines|
  {
    if lines != [] {
      HandleSameUid(Handle(s, lines[0]).s, lines[1..]);
    }
  }

  // ----- The session object -----

  method PushHex(out: seq<byte>, s: seq<byte>) returns (r: seq<byte>)
    ensures r == out + Hex(s)
  {
    r := out;
    var i := 0;
    while i < |s|
      invariant 0 <= i <= |s| && r == out + Hex(s[..i])
    {
      assert s[..i + 1][..i] == s[..i];
      r := r + [HexDigit(s[i] / 16)];
      r := r + [HexDigit(s[i] % 16)];
      i := i + 1;
    }
    assert s[..i] == s;
  }

  class AuthSession {
    var state: State
    var pending: seq<byte>
    var rx: seq<byte>
    const uid: nat

    constructor (uid: nat)
      ensures Now() == Session(Start, [], [], uid)
    {
      state, pending, rx := Start, [], [];
      this.uid := uid;
    }

    ghost function Now(): Session
      reads this
    {
      Session(state, pending, rx, uid)
    }

    method Poll() returns (p: Poll)
      modifies this
      ensures Polled(Now(), p) == PollOnce(old(Now()))
    {
      if pending != [] {
        if state.SendBegin? {
          state := Finished;
        }
        p, pending := Write(pending), [];
        return;
      }
      match state
      case Start =>
        var request := [0] + Ascii("AUTH EXTERNAL ");
        request := PushHex(request, Decimal(uid));
        state := AwaitExternal;
        p := Write(request + Ascii("\r\n"));
      case AwaitExternal => p := Read;
      case AwaitAnonymous => p := Read;
      case SendBegin =>
        state := Finished;
        p := Write(BEGIN);
      case Finished => p := Done;
    }

    method Feed(data: seq<byte>) returns (ok: bool)
      modifies this
      ensures Fed(Now(), ok) == FeedData(old(Now()), data)
    {
      if data == [] {
        return true;
      }
      if !state.AwaitExternal? && !state.AwaitAnonymous? {
        return false;
      }
      var buffer := rx + data;
      rx := [];
      var split := TakeLines(buffer);
      if split.None? {
        return false;
      }
      var lines := split.value.lines;
      ghost var before := Now();
      var i := 0;
      while i < |lines|
        invariant 0 <= i <= |lines| && rx == []
        invariant HandleAll(before, lines) == HandleAll(Now(), lines[i..])
      {
        assert lines[i..][0] == lines[i] && lines[i..][1..] == lines[i + 1..];
        ok := HandleLine(lines[i]);
        if !ok {
          return;
        }
        i := i + 1;
      }
      rx := split.value.rest;
      ok := true;
    }

    method HandleLine(line: seq<byte>) returns (ok: bool)
      modifies this
      ensures Fed(Now(), ok) == Handle(old(Now()), line)
    {
      if OK + [32] <= line || line == OK {
        state := SendBegin;
        pending := BEGIN;
        return true;
      }
      if REJECTED <= line && state.AwaitExternal? {
        state := AwaitAnonymous;
        pending := ANONYMOUS;
        return true;
      }
      ok := false;
    }
  }

  method FindNewline(rx: seq<byte>) returns (i: nat)
    ensures i == LineEnd(rx)
  {
    i := 0;
    while i < |rx| && rx[i] != NEWLINE
      invariant i <= |rx| && LineEnd(rx) == i + LineEnd(rx[i..])
    {
      assert rx[i..][1..] == rx[i + 1..];
      i := i + 1;
    }
  }

  /** Cuts complete lines off the front of the buffer. */
  method TakeLines(buffer: seq<byte>) returns (r: Option<Lines>)
    ensures r == SplitLines(buffer)
  {
    hide IsUtf8;
    var rx, lines := buffer, [];
    BeforeNothing(SplitLines(rx));
    while true
      invariant SplitLines(buffer) == Before(lines, SplitLines(rx))
      decreases |rx|
    {
      var i := FindNewline(rx);
      if i == |rx| {
        assert lines + [] == lines;
        return Some(Lines(lines, rx));
      }
      var line := rx[..i + 1];
      if !IsUtf8(line) {
        return None;
      }
      var trimmed := Trim(line);
      rx := rx[i + 1..];
      if trimmed != [] {
        BeforeMore(lines, trimmed, SplitLines(rx));
        lines := lines + [trimmed];
      }
    }
  }

  function Before(front: seq<seq<byte>>, l: Option<Lines>): Option<Lines> {
    if l.None? then None else Some(Lines(front + l.value.lines, l.value.rest))
  }

  lemma BeforeNothing(l: Option<Lines>)
    ensures Before([], l) == l
  {
    assert l.Some? ==> [] + l.value.lines == l.value.lines;
  }

  lemma BeforeMore(front: seq<seq<byte>>, line: seq<byte>, l: Option<Lines>)
    ensures Before(front + [line], l) == Before(front, Before([line], l))
  {
    assert l.Some? ==> front + ([line] + l.value.lines) == front + [line] + l.value.lines;
  }
}
