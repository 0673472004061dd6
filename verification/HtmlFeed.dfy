/** Feeding the parser bytes: characters that chunks cut in two. */
module HtmlFeed {
  import opened Bytes
  import opened HtmlTokens
  import opened HtmlTokenizer
  import opened HtmlRepair
  import opened HtmlParser
  import opened Utf8

  datatype FeedError = InputTooLarge(size: nat, max: nat) | InvalidUtf8(offset: nat) | EmptyInput

  /** The parser, the bytes of a character that is not whole yet, and the counts of bytes seen and
      of bytes processed. */
  datatype Feeder = Feeder(p: Parser, carry: seq<byte>, total: nat, offset: nat)

  predicate Continuation(b: byte) { 0x80 <= b <= 0xBF }

  /** The length of the beginning of a character at the start of `tail`, as far as the code sees it. */
  function IncompletePrefix(tail: seq<byte>): Option<nat> {
    if tail == [] then None
    else if 0xC2 <= tail[0] <= 0xDF then
      if |tail| == 1 then Some(1) else if Continuation(tail[1]) then Some(2) else None
    else if 0xE0 <= tail[0] <= 0xEF then
      if |tail| == 1 || !SecondFits(tail[0], tail[1]) then None
      else if |tail| == 2 then Some(2)
      else if Continuation(tail[2]) then Some(3) else None
    else if 0xF0 <= tail[0] <= 0xF4 then
      if |tail| == 1 || !SecondFits(tail[0], tail[1]) then None
      else if |tail| == 2 || !Continuation(tail[2]) then None
      else if |tail| == 3 then Some(3)
      else if Continuation(tail[3]) then Some(4) else None
    else None
  }

  /** The second byte of a character of three or four bytes. */
  predicate SecondFits(first: byte, second: byte) {
    && Continuation(second)
    && (first == 0xE0 ==> second >= 0xA0) && (first == 0xED ==> second <= 0x9F)
    && (first == 0xF0 ==> second >= 0x90) && (first == 0xF4 ==> second <= 0x8F)
  }

  function Feed(lex: Lexicon, max: nat, f: Feeder, chunk: seq<byte>): (r: Result<Feeder, FeedError>)
    requires Shape(f.p)
    ensures r.Ok? ==> Shape(r.value.p)
  {
    var total := f.total + |chunk|;
    if total > max then Err(InputTooLarge(total, max))
    else
      var data := f.carry + chunk;
      var valid := ValidUpTo(data);
      var tail := data[valid..];
      ValidIsUtf8(data);
      if tail != [] && IncompletePrefix(tail) != Some(|tail|) then Err(InvalidUtf8(f.offset + valid))
      else Ok(Feeder(Process(lex, f.p, Text(data[..valid])), tail, total, f.offset + valid))
  }

  function FeedAll(lex: Lexicon, max: nat, f: Feeder, cs: seq<seq<byte>>): (r: Result<Feeder, FeedError>)
    requires Shape(f.p)
    ensures r.Ok? ==> Shape(r.value.p)
    decreases |cs|
  {
    if cs == [] then Ok(f)
    else
      match Feed(lex, max, f, cs[0])
      case Err(e) => Err(e)
      case Ok(g) => FeedAll(lex, max, g, cs[1..])
  }

  function End(lex: Lexicon, f: Feeder): Result<seq<Token>, FeedError>
    requires Shape(f.p)
  {
    if f.carry != [] then Err(InvalidUtf8(f.offset))
    else
      match Finish(lex, f.p)
      case None => Err(EmptyInput)
      case Some(ts) => Ok(ts)
  }

  // ----- What the parser has seen -----

  const START := Feeder(INITIAL, [], 0, 0)

  /** The state after the bytes `d`, whatever chunks they came in. */
  function Seen(lex: Lexicon, d: seq<byte>): (f: Feeder)
    ensures Shape(f.p)
  {
    var v := ValidUpTo(d);
    ValidIsUtf8(d);
    Feeder(Process(lex, INITIAL, Text(d[..v])), d[v..], |d|, v)
  }

  /** One more byte would make it a whole character. */
  ghost predicate OneShort(tail: seq<byte>) { exists x: byte :: CharLength(tail + [x]) == |tail| + 1 }

  /** Whole characters, and at most all but the last byte of another. */
  ghost predicate EndsWell(d: seq<byte>) {
    var v := ValidUpTo(d);
    v == |d| || OneShort(d[v..])
  }

  /** The code keeps the beginning of a character exactly when a single byte of it is missing. */
  lemma OneShortIff(tail: seq<byte>)
    requires tail != [] && CharLength(tail) == 0
    ensures IncompletePrefix(tail) == Some(|tail|) <==> OneShort(tail)
  {
    if IncompletePrefix(tail) == Some(|tail|) {
      var x: byte := 0x80;
      assert CharLength(tail + [x]) == |tail| + 1;
    }
    if OneShort(tail) {
      var x: byte :| CharLength(tail + [x]) == |tail| + 1;
      var s := tail + [x];
      assert forall k :: 0 <= k < |tail| ==> s[k] == tail[k];
    }
  }

  lemma FeedSees(lex: Lexicon, max: nat, d: seq<byte>, c: seq<byte>)
    ensures Feed(lex, max, Seen(lex, d), c) ==
      if |d| + |c| > max then Err(InputTooLarge(|d| + |c|, max))
      else if EndsWell(d + c) then Ok(Seen(lex, d + c))
      else Err(InvalidUtf8(ValidUpTo(d + c)))
  {
    hide *;
    FeedGoesOn(lex, max, d, c);
    EndsWellIs(lex, d + c);
    SeenCounts(lex, d);
    SeenCounts(lex, d + c);
  }

  lemma FeedGoesOn(lex: Lexicon, max: nat, d: seq<byte>, c: seq<byte>)
    ensures var f, g := Seen(lex, d), Seen(lex, d + c);
      Feed(lex, max, f, c) ==
      if f.total + |c| > max then Err(InputTooLarge(f.total + |c|, max))
      else if g.carry != [] && IncompletePrefix(g.carry) != Some(|g.carry|) then Err(InvalidUtf8(g.offset))
      else Ok(g)
  {
    hide *;
    var f := Seen(lex, d);
    CarriesOn(lex, d, c);
    FeedIs(lex, max, f, c, f.carry + c);
  }

  lemma SeenCounts(lex: Lexicon, d: seq<byte>)
    ensures Seen(lex, d).total == |d| && Seen(lex, d).offset == ValidUpTo(d)
  {
    hide Process, ValidUpTo;
  }

  /** What the carried bytes and a chunk amount to is what all bytes so far amount to. */
  lemma CarriesOn(lex: Lexicon, d: seq<byte>, c: seq<byte>)
    ensures var f, g := Seen(lex, d), Seen(lex, d + c);
      var data := f.carry + c;
      var w := ValidUpTo(data);
      && IsUtf8(data[..w]) && g == Feeder(Process(lex, f.p, Text(data[..w])), data[w..], f.total + |c|, f.offset + w)
  {
    hide *;
    var v := ValidUpTo(d);
    var u, data := d[..v], d[v..] + c;
    var w := ValidUpTo(data);
    SeenIs(lex, d);
    SeenIs(lex, d + c);
    ValidIsUtf8(data);
    Regrouped(d, c, v, w);
    ValidAppend(u, data);
    TextInParts(lex, u, data[..w]);
  }

  lemma Regrouped(d: seq<byte>, c: seq<byte>, v: nat, w: nat)
    requires v <= |d| && w <= |d[v..] + c|
    ensures var data := d[v..] + c;
      d + c == d[..v] + data && (d + c)[v + w..] == data[w..] && (d + c)[..v + w] == d[..v] + data[..w]
  {
  }

  lemma TextInParts(lex: Lexicon, u: seq<byte>, x: seq<byte>)
    requires Shape(INITIAL) && IsUtf8(u) && IsUtf8(x)
    ensures IsUtf8(u + x) && Process(lex, INITIAL, Text(u + x)) == Process(lex, Process(lex, INITIAL, Text(u)), Text(x))
  {
    hide Process, IsUtf8, Text, Shape;
    TextAppend(u, x);
    ChunksDoNotMatter(lex, INITIAL, Text(u), Text(x));
  }

  lemma SeenIs(lex: Lexicon, d: seq<byte>)
    ensures var v := ValidUpTo(d);
      Shape(INITIAL) && IsUtf8(d[..v]) && Seen(lex, d) == Feeder(Process(lex, INITIAL, Text(d[..v])), d[v..], |d|, v)
  {
    hide Process, Text, IsUtf8, Shape, ValidUpTo;
    ValidIsUtf8(d);
    InitialShape();
  }

  lemma FeedIs(lex: Lexicon, max: nat, f: Feeder, c: seq<byte>, data: seq<byte>)
    requires Shape(f.p) && data == f.carry + c && IsUtf8(data[..ValidUpTo(data)])
    ensures var w := ValidUpTo(data);
      Feed(lex, max, f, c) ==
      if f.total + |c| > max then Err(InputTooLarge(f.total + |c|, max))
      else if data[w..] != [] && IncompletePrefix(data[w..]) != Some(|data[w..]|) then Err(InvalidUtf8(f.offset + w))
      else Ok(Feeder(Process(lex, f.p, Text(data[..w])), data[w..], f.total + |c|, f.offset + w))
  {
    hide Process, Text, IsUtf8, Shape, ValidUpTo, IncompletePrefix;
  }

  lemma EndsWellIs(lex: Lexicon, d: seq<byte>)
    ensures var tail := Seen(lex, d).carry; EndsWell(d) <==> tail == [] || IncompletePrefix(tail) == Some(|tail|)
  {
    hide IncompletePrefix, OneShort, ValidUpTo, CharLength, Seen, Process;
    SeenIs(lex, d);
    ValidIsUtf8(d);
    var tail := d[ValidUpTo(d)..];
    if tail != [] {
      OneShortIff(tail);
    }
  }

  lemma InitialShape()
    ensures Shape(INITIAL)
  {
  }

  // ----- Any chunks -----

  function Concat(cs: seq<seq<byte>>): seq<byte> { if cs == [] then [] else cs[0] + Concat(cs[1..]) }

  ghost predicate CutsWell(d: seq<byte>, cs: seq<seq<byte>>)
    decreases |cs|
  {
    cs == [] || (EndsWell(d + cs[0]) && CutsWell(d + cs[0], cs[1..]))
  }

  lemma {:induction false} FeedAllSees(lex: Lexicon, max: nat, d: seq<byte>, cs: seq<seq<byte>>)
    requires |d| <= max
    ensures var r := FeedAll(lex, max, Seen(lex, d), cs);
      && (r.Ok? <==> |d| + |Concat(cs)| <= max && CutsWell(d, cs))
      && (r.Ok? ==> r.value == Seen(lex, d + Concat(cs)))
    decreases |cs|
  {
    hide Feed, Seen, EndsWell;
    if cs == [] {
      assert d + [] == d;
    } else {
      FeedSees(lex, max, d, cs[0]);
      assert d + Concat(cs) == (d + cs[0]) + Concat(cs[1..]);
      if |d| + |cs[0]| <= max && EndsWell(d + cs[0]) {
        FeedAllSees(lex, max, d + cs[0], cs[1..]);
      }
    }
  }

  lemma {:induction false} CutsWellIff(d: seq<byte>, cs: seq<seq<byte>>)
    ensures CutsWell(d, cs) <==> forall i :: 1 <= i <= |cs| ==> EndsWell(d + Concat(cs[..i]))
    decreases |cs|
  {
    hide EndsWell;
    if cs != [] {
      var e, rest := d + cs[0], cs[1..];
      CutsWellIff(e, rest);
      assert cs[..1][1..] == [] && cs[0] + [] == cs[0];
      assert d + Concat(cs[..1]) == e;
      forall i | 0 <= i <= |rest| ensures d + Concat(cs[..i + 1]) == e + Concat(rest[..i]) {
        assert cs[..i + 1][1..] == rest[..i];
        assert d + (cs[0] + Concat(rest[..i])) == e + Concat(rest[..i]);
      }
      if forall i :: 1 <= i <= |cs| ==> EndsWell(d + Concat(cs[..i])) {
        forall i | 1 <= i <= |rest| ensures EndsWell(e + Concat(rest[..i])) {
          assert EndsWell(d + Concat(cs[..i + 1]));
        }
      }
      if CutsWell(d, cs) {
        forall i | 1 <= i <= |cs| ensures EndsWell(d + Concat(cs[..i])) {
          assert d + Concat(cs[..i - 1 + 1]) == e + Concat(rest[..i - 1]);
        }
      }
    }
  }

  // ----- Cuts of well-formed input -----

  /** A cut after `k` bytes lies between two characters or before the last byte of one. */
  predicate GoodCut(b: seq<byte>, k: nat)
    requires k <= |b|
  {
    var v := ValidUpTo(b[..k]);
    k == v || k == v + CharLength(b[v..]) - 1
  }

  /** The first byte of a character decides how many there are. */
  lemma LeadDecides(tail: seq<byte>, s: seq<byte>)
    requires tail != [] && tail <= s && CharLength(s) > |tail|
    ensures OneShort(tail) <==> CharLength(s) == |tail| + 1
  {
    if CharLength(s) == |tail| + 1 {
      CharStays(s, []);
      assert s[..|tail| + 1] == tail + [s[|tail|]];
    }
    if OneShort(tail) {
      var x: byte :| CharLength(tail + [x]) == |tail| + 1;
      assert (tail + [x])[0] == s[0];
    }
  }

  lemma ValidStarts(s: seq<byte>)
    ensures ValidUpTo(s) > 0 <==> CharLength(s) > 0
  {
    hide CharLength;
  }

  lemma GoodCutIff(b: seq<byte>, k: nat)
    requires IsUtf8(b) && k <= |b|
    ensures EndsWell(b[..k]) <==> GoodCut(b, k)
  {
    hide CharLength, OneShort, ValidUpTo, IsUtf8;
    var d := b[..k];
    var v := ValidUpTo(d);
    ValidIsUtf8(d);
    if v < k {
      var s, tail := b[v..], d[v..];
      assert b == d[..v] + s && s[..k - v] == tail;
      WholeIsUtf8(b);
      ValidAppend(d[..v], s);
      var n := CharLength(s);
      ValidStarts(s);
      if n <= k - v {
        CharStays(s, []);
        assert tail == s[..n] + tail[n..];
        CharStays(s[..n], tail[n..]);
        assert false;
      }
      LeadDecides(tail, s);
    }
  }

  lemma {:induction false} ConcatPrefix(cs: seq<seq<byte>>, i: nat)
    requires i <= |cs|
    ensures Concat(cs[..i]) <= Concat(cs)
    decreases |cs|
  {
    if i > 0 {
      ConcatPrefix(cs[1..], i - 1);
      assert cs[..i][1..] == cs[1..][..i - 1];
    }
  }

  /** Every chunk ends between two characters or before the last byte of one. */
  predicate GoodCuts(cs: seq<seq<byte>>) {
    var b := Concat(cs);
    forall i :: 0 <= i <= |cs| ==> |Concat(cs[..i])| <= |b| && GoodCut(b, |Concat(cs[..i])|)
  }

  lemma GoodCutsIff(cs: seq<seq<byte>>)
    requires IsUtf8(Concat(cs))
    ensures CutsWell([], cs) <==> GoodCuts(cs)
  {
    hide EndsWell, GoodCut, IsUtf8, CutsWell, Concat;
    var b := Concat(cs);
    CutsWellIff([], cs);
    forall i | 0 <= i <= |cs|
      ensures |Concat(cs[..i])| <= |b| && (GoodCut(b, |Concat(cs[..i])|) <==> EndsWell([] + Concat(cs[..i])))
    {
      ConcatPrefix(cs, i);
      var k := |Concat(cs[..i])|;
      assert b[..k] == Concat(cs[..i]) == [] + Concat(cs[..i]);
      GoodCutIff(b, k);
    }
    NothingEndsWell(cs);
  }

  lemma NothingEndsWell(cs: seq<seq<byte>>)
    ensures EndsWell([] + Concat(cs[..0]))
  {
    assert [] + Concat(cs[..0]) == [];
  }

  /** Whatever chunks the input comes in, a document comes out exactly when the input is within
      the limit, is UTF-8, is cut only between characters or before the last byte of one, and is
      not blank; and it is then the document of the whole text. */
  lemma FedIff(lex: Lexicon, max: nat, cs: seq<seq<byte>>)
    ensures var b, r := Concat(cs), FeedAll(lex, max, START, cs);
      && ((r.Ok? && End(lex, r.value).Ok?)
        <==> |b| <= max && IsUtf8(b) && GoodCuts(cs) && Finish(lex, Process(lex, INITIAL, Text(b))).Some?)
      && (r.Ok? && End(lex, r.value).Ok?
        ==> End(lex, r.value).value == Finish(lex, Process(lex, INITIAL, Text(b))).value)
  {
    hide Process, Finish, Seen, FeedAll, Shape, GoodCuts, CutsWell, Concat, IsUtf8;
    var b := Concat(cs);
    SeenNothing(lex);
    FeedAllSees(lex, max, [], cs);
    assert [] + b == b;
    WholeIsUtf8(b);
    SeenAll(lex, b);
    if IsUtf8(b) {
      GoodCutsIff(cs);
    }
  }

  lemma SeenNothing(lex: Lexicon)
    ensures Seen(lex, []) == START && Shape(START.p)
  {
    assert Text([]) == [];
  }

  lemma SeenAll(lex: Lexicon, b: seq<byte>)
    ensures Seen(lex, b).carry == [] <==> ValidUpTo(b) == |b|
    ensures IsUtf8(b) ==> Seen(lex, b).p == Process(lex, INITIAL, Text(b))
  {
    WholeIsUtf8(b);
    assert b[..|b|] == b;
    hide Process;
  }

  // ----- A cut the documentation allows and the code refuses -----

  /** The euro sign. */
  const EURO: seq<byte> := [0xE2, 0x82, 0xAC]

  /** Fed whole, or with two bytes first, the sign is accepted; with one byte first it is not. */
  lemma EuroCutEarly(lex: Lexicon)
    ensures FeedAll(lex, 3, START, [EURO[..1], EURO[1..]]) == Err(InvalidUtf8(0))
    ensures FeedAll(lex, 3, START, [EURO[..2], EURO[2..]]).Ok? && FeedAll(lex, 3, START, [EURO]).Ok?
  {
    hide Process, Shape, Feed, FeedAll, Seen, EndsWell, Concat, CutsWell;
    SeenNothing(lex);
    EuroCuts();
    FeedAllSees(lex, 3, [], [EURO[..2], EURO[2..]]);
    FeedAllSees(lex, 3, [], [EURO]);
    EuroCutAfterOne(lex);
  }

  lemma EuroCuts()
    ensures CutsWell([], [EURO[..2], EURO[2..]]) && CutsWell([], [EURO])
    ensures |Concat([EURO[..2], EURO[2..]])| == |Concat([EURO])| == 3
  {
    assert CharLength(EURO) == 3 && CharLength(EURO[..2]) == 0;
    assert EURO[..2] + [EURO[2]] == EURO;
    assert ([] + EURO[..2]) + EURO[2..] == EURO && [] + EURO[..2] == EURO[..2] && [] + EURO == EURO;
    assert EndsWell(EURO) && EndsWell(EURO[..2]) by {
      assert EURO[3..] == [] && ValidUpTo(EURO[3..]) == 0;
      assert EURO[..2][0..] == EURO[..2];
      assert OneShort(EURO[..2]);
    }
  }

  lemma EuroCutAfterOne(lex: Lexicon)
    requires Shape(START.p)
    ensures FeedAll(lex, 3, START, [EURO[..1], EURO[1..]]) == Err(InvalidUtf8(0))
  {
    hide Process, Shape;
    var c := EURO[..1];
    assert [] + c == c && CharLength(c) == 0 && c[0..] == c && IncompletePrefix(c) == None;
  }

  // ----- The parser's input as an object -----

  lemma GoodHasShape(lex: Lexicon, p: Parser)
    requires Good(lex, p)
    ensures Shape(p)
  {
  }

  class HtmlInput {
    const parser: HtmlParser
    const max: nat
    var carry: seq<byte>
    var total: nat
    var offset: nat

    constructor (lex: Lexicon, max: nat)
      ensures this.max == max && parser.lex == lex && Now() == START && Good(lex, parser.Now())
      ensures fresh(parser) && fresh(parser.builder)
    {
      parser := new HtmlParser(lex);
      this.max, carry, total, offset := max, [], 0, 0;
      new;
      InitialGood(lex);
    }

    ghost function Now(): Feeder
      reads this, parser, parser.builder
    {
      Feeder(parser.Now(), carry, total, offset)
    }

    /** Processes the whole characters and keeps the beginning of the next. */
    method FeedBytes(chunk: seq<byte>) returns (err: Option<FeedError>)
      requires Good(parser.lex, parser.Now())
      modifies this, parser, parser.builder
      ensures Good(parser.lex, parser.Now())
      ensures match Feed(parser.lex, max, old(Now()), chunk)
        case Ok(f) => err == None && Now() == f
        case Err(e) =>
          err == Some(e) && parser.Now() == old(parser.Now()) && carry == old(carry) && offset == old(offset)
    {
      hide Process, Text, IsUtf8, Good, Shape, ValidUpTo, IncompletePrefix, Feed;
      GoodHasShape(parser.lex, parser.Now());
      var newTotal := total + |chunk|;
      ghost var whole := carry + chunk;
      ValidIsUtf8(whole);
      FeedIs(parser.lex, max, Now(), chunk, whole);
      if newTotal > max {
        return Some(InputTooLarge(newTotal, max));
      }
      total := newTotal;
      var data := carry + chunk;
      var valid := ValidUpTo(data);
      var tail := data[valid..];
      if tail != [] && IncompletePrefix(tail) != Some(|tail|) {
        return Some(InvalidUtf8(offset + valid));
      }
      parser.ProcessText(Text(data[..valid]));
      carry, offset := tail, offset + valid;
      err := None;
    }

    /** Ends the input; a character still cut in two is an error. */
    method Finished() returns (r: Result<seq<Token>, FeedError>)
      requires Good(parser.lex, parser.Now())
      modifies this, parser, parser.builder
      ensures r == End(parser.lex, old(Now())) && (r.Ok? ==> Repaired(r.value))
    {
      if carry != [] {
        return Err(InvalidUtf8(offset));
      }
      var document := parser.Done();
      r := match document case None => Err(EmptyInput) case Some(ts) => Ok(ts);
    }
  }
}
