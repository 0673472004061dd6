/** Which inputs become XML, as far as the characters they hold decide it. */
module HtmlXmlInput {
  import opened Bytes
  import opened HtmlTokens
  import opened HtmlTree
  import opened HtmlTokenizer
  import opened HtmlRepair
  import opened HtmlFaithful
  import opened HtmlGrowth
  import opened HtmlExact
  import opened HtmlXml
  import opened HtmlAlphabet

  // ----- What the characters of an input can bring about -----

  /** The numbers that stand for wide space; 0x85 stands for something else in a reference. */
  predicate WideCode(n: nat) { 0x9F < n < 0xD800 && WideSpace(n as char) }

  /** White space, not all of it known to XML. */
  predicate WideBlank(s: string) {
    (forall k :: 0 <= k < |s| ==> XmlSpace(s[k]) || WideSpace(s[k])) && exists k :: 0 <= k < |s| && WideSpace(s[k])
  }

  ghost predicate NamesWide(lex: Lexicon, cs: set<char>) {
    exists w :: CanName(lex, cs, w) && WideBlank(Emitted(lex.Full(w).value.e))
  }

  ghost predicate NumbersWide(cs: set<char>) { exists hex, n :: CanNumber(cs, hex, n) && WideCode(n) }

  /** Wide space can be written: as itself, by a named reference or by a number. */
  ghost predicate CanWide(lex: Lexicon, cs: set<char>) {
    (exists c :: c in cs && WideSpace(c)) || NamesWide(lex, cs) || NumbersWide(cs)
  }

  /** Instructions are named by XML names. */
  predicate NamesWell(lex: Lexicon, cs: set<char>) {
    && (forall c :: c in cs && lex.Begins(c) ==> NameStart(c))
    && ((exists c :: c in cs && lex.Begins(c)) ==> forall c :: c in cs && lex.Follows(c) ==> NameChar(c))
  }

  /** No input over these characters can leave wide space beside an element or misname an instruction. */
  ghost predicate Harmless(lex: Lexicon, cs: set<char>) {
    (CanTag(cs) ==> !CanWide(lex, cs)) && (CanInstruct(cs) ==> NamesWell(lex, cs))
  }

  // ----- Wide space at the top level -----

  lemma TextTop(t: Tree, c: char)
    requires Inv(t)
    ensures TopWide(EmitText(t, c).out) <==> TopWide(t.out) || (t.stack == [] && WideSpace(c))
  {
    hide Nest, Scoped, AllWellFormed, WideSpace, IsSpace, ForeignRoots, Roots, TopText;
    var k := Chr(XmlSafe(c));
    WideIsXml(c);
    SnocTop(t.out, k);
    assert Names(t.stack) == [] <==> t.stack == [];
  }

  lemma WideIsXml(c: char)
    ensures WideSpace(XmlSafe(c)) <==> WideSpace(c)
  {
  }

  lemma SnocTop(ts: seq<Token>, k: Token)
    ensures TopWide(ts + [k]) <==> TopWide(ts) || (Nest(ts) == Some([]) && k.Chr? && WideSpace(k.c))
  {
    hide Nest, WideSpace;
    var u := ts + [k];
    forall i | 0 <= i < |ts| ensures AtTop(u, i) <==> AtTop(ts, i) { assert u[..i] == ts[..i]; }
    assert u[..|ts|] == ts && u[|ts|] == k;
    if TopWide(ts) {
      var i :| 0 <= i < |ts| && AtTop(ts, i) && ts[i].Chr? && WideSpace(ts[i].c);
      assert AtTop(u, i) && u[i] == ts[i];
    }
    if Nest(ts) == Some([]) && k.Chr? && WideSpace(k.c) {
      assert AtTop(u, |ts|);
    }
  }

  predicate AnyWide(s: string) { exists k :: 0 <= k < |s| && WideSpace(s[k]) }

  predicate AnyInk(s: string) { exists k :: 0 <= k < |s| && !XmlSpace(s[k]) && !WideSpace(s[k]) }

  lemma InkIsText(c: char)
    ensures !IsSpace(XmlSafe(c)) <==> !XmlSpace(c) && !WideSpace(c)
  {
    SpaceKinds(c);
  }

  lemma {:induction false} StringTop(t: Tree, s: string)
    requires Inv(t)
    ensures var u := EmitString(t, s);
      && (TopWide(u.out) <==> TopWide(t.out) || (t.stack == [] && AnyWide(s)))
      && (u.topText <==> t.topText || (t.stack == [] && AnyInk(s)))
    decreases |s|
  {
    hide Inv, TopWide, WideSpace, XmlSpace, IsSpace, XmlSafe;
    if s != [] {
      var init, c := s[..|s| - 1], s[|s| - 1];
      var u := EmitString(t, init);
      StringTop(t, init);
      StringKeeps(t, init);
      StringStack(t, init);
      TextTop(u, c);
      InkIsText(c);
      AnySnoc(s);
    }
  }

  lemma AnySnoc(s: string)
    requires s != []
    ensures AnyWide(s) <==> AnyWide(s[..|s| - 1]) || WideSpace(s[|s| - 1])
    ensures AnyInk(s) <==> AnyInk(s[..|s| - 1]) || (!XmlSpace(s[|s| - 1]) && !WideSpace(s[|s| - 1]))
  {
    hide WideSpace, XmlSpace;
    var init := s[..|s| - 1];
    if AnyWide(s) {
      var k :| 0 <= k < |s| && WideSpace(s[k]);
      assert k < |init| ==> init[k] == s[k];
    }
    if AnyInk(s) {
      var k :| 0 <= k < |s| && !XmlSpace(s[k]) && !WideSpace(s[k]);
      assert k < |init| ==> init[k] == s[k];
    }
    if AnyWide(init) {
      var k :| 0 <= k < |init| && WideSpace(init[k]);
      assert s[k] == init[k];
    }
    if AnyInk(init) {
      var k :| 0 <= k < |init| && !XmlSpace(init[k]) && !WideSpace(init[k]);
      assert s[k] == init[k];
    }
  }

  /** Tags and instructions add no text. */
  lemma {:induction false} TopMore(a: seq<Token>, b: seq<Token>)
    requires a <= b && forall k :: |a| <= k < |b| ==> !b[k].Chr?
    ensures TopWide(b) <==> TopWide(a)
    decreases |b|
  {
    hide TopWide;
    if |b| == |a| {
      assert a == b;
    } else {
      var init := b[..|b| - 1];
      assert b == init + [b[|b| - 1]];
      assert a <= init;
      TopMore(a, init);
      SnocTop(init, b[|b| - 1]);
    }
  }

  // ----- Text that can be written -----

  lemma SayableWide(lex: Lexicon, cs: set<char>, s: string)
    requires Sayable(lex, cs, s) && WideBlank(s)
    ensures CanWide(lex, cs)
  {
    hide NumberFits, Emitted, NumericChar, Over, WideSpace, CanNumber, XmlSpace, WideCode;
    if Bland(cs, s) {
      var k :| 0 <= k < |s| && WideSpace(s[k]);
      NarrowLiterals(s[k]);
    } else if FromName(lex, cs, s) {
      var w :| CanName(lex, cs, w) && s == Emitted(lex.Full(w).value.e);
      assert NamesWide(lex, cs);
    } else {
      var r: Ref :| NumberFits(cs, r) && '&' in cs && '#' in cs && s == [NumericChar(r)];
      var k :| 0 <= k < |s| && WideSpace(s[k]);
      WideNumber(cs, r);
      assert NumbersWide(cs);
    }
  }

  lemma NarrowLiterals(c: char)
    ensures c as int < 128 || c == REPLACEMENT ==> !WideSpace(c)
  {
  }

  lemma WideNumber(cs: set<char>, r: Ref)
    requires NumberFits(cs, r) && '&' in cs && '#' in cs && WideSpace(NumericChar(r))
    ensures CanNumber(cs, r.hex.Some?, r.num) && WideCode(r.num)
  {
    hide Spells;
    if 0x80 <= r.num <= 0x9F {
      NarrowC1(r.num);
    }
  }

  lemma NarrowC1(n: nat)
    requires 0x80 <= n <= 0x9F
    ensures !WideSpace(C1[n - 0x80])
  {
  }

  // ----- Three properties of the tree -----

  predicate NotWide(t: Tree) { Inv(t) && (t.topText || !TopWide(t.out)) }

  predicate NoElement(t: Tree) { t.rootCount == 0 }

  predicate Named(t: Tree) { TargetsNamed(t.out) }

  lemma MoreNotWide(t: Tree, u: Tree)
    requires NotWide(t) && Inv(u) && t.out <= u.out && forall k :: |t.out| <= k < |u.out| ==> !u.out[k].Chr?
    ensures NotWide(u)
  {
    hide TopWide, Nest, Scoped, AllWellFormed, TopText, Roots;
    TopMore(t.out, u.out);
    assert u.out[..|t.out|] == t.out;
    if t.topText {
      TopTextStays(u.out, |t.out|);
    }
  }

  lemma SaidNotWide(lex: Lexicon, cs: set<char>, t: Tree, s: string)
    requires !CanWide(lex, cs) && NotWide(t) && Sayable(lex, cs, s)
    ensures NotWide(EmitString(t, s))
  {
    hide Inv, TopWide, Sayable, CanWide, EmitString, WideSpace, XmlSpace;
    StringTop(t, s);
    StringKeeps(t, s);
    if WideBlank(s) {
      SayableWide(lex, cs, s);
    }
  }

  lemma NotWideRespects(lex: Lexicon, cs: set<char>)
    requires !CanWide(lex, cs)
    ensures Respects(lex, cs, t => NotWide(t))
  {
    hide NotWide, EmitString, EmitPi, StartTag, EndTag, Tidy, PiOk, Sayable, CanWide, Over;
    forall t, s | NotWide(t) && Sayable(lex, cs, s) ensures NotWide(EmitString(t, s)) { SaidNotWide(lex, cs, t, s); }
    forall t, target, data | NotWide(t) && PiOk(lex, target, data)
      ensures NotWide(EmitPi(t, target, data)) { PiNotWide(lex, t, target, data); }
    forall t, raw, attrs, sc | NotWide(t) && Tidy(attrs)
      ensures NotWide(StartTag(t, raw, attrs, sc).t) { StartNotWide(t, raw, attrs, sc); }
    forall t, raw | NotWide(t) ensures NotWide(EndTag(t, raw)) { EndNotWide(t, raw); }
  }

  lemma PiNotWide(lex: Lexicon, t: Tree, target: string, data: string)
    requires NotWide(t) && PiOk(lex, target, data)
    ensures NotWide(EmitPi(t, target, data))
  {
    hide Inv, TopWide, SafeAll, SameName;
    PiKeeps(t, target, data);
    MoreNotWide(t, EmitPi(t, target, data));
  }

  lemma StartNotWide(t: Tree, raw: string, attrs: seq<Attr>, selfClosing: bool)
    requires NotWide(t) && Tidy(attrs)
    ensures NotWide(StartTag(t, raw, attrs, selfClosing).t)
  {
    hide Inv, TopWide, StartTag, Before, Dropped, Normalize, StartName, IsVoid, IsForeignName;
    TidyIs(attrs);
    StartTagKeeps(t, raw, attrs, selfClosing);
    StartAdds(t, raw, attrs, selfClosing);
    MoreNotWide(t, StartTag(t, raw, attrs, selfClosing).t);
  }

  lemma EndNotWide(t: Tree, raw: string)
    requires NotWide(t)
    ensures NotWide(EndTag(t, raw))
  {
    hide Inv, TopWide, EndTag, Left, Normalize, AnyOf;
    EndTagKeeps(t, raw);
    EndAdds(t, raw);
    MoreNotWide(t, EndTag(t, raw));
  }

  lemma NoElementRespects(lex: Lexicon, cs: set<char>)
    requires !CanTag(cs)
    ensures Respects(lex, cs, t => NoElement(t))
  {
    hide EmitString, StartTag, EndTag, Tidy, PiOk, Sayable, CanTag, Over, SameName;
    forall t, s | NoElement(t) ensures NoElement(EmitString(t, s)) { EmitDepth(t, s); }
  }

  lemma NamedRespects(lex: Lexicon, cs: set<char>)
    requires CanInstruct(cs) ==> NamesWell(lex, cs)
    ensures Respects(lex, cs, t => Named(t))
  {
    hide Named, EmitString, EmitPi, StartTag, EndTag, Tidy, PiOk, Sayable, CanInstruct, CanTag, NamesWell, Over;
    forall t, s | Named(t) ensures Named(EmitString(t, s)) { SaidNamed(t, s); }
    forall t, target, data | Named(t) && NamesWell(lex, cs) && Over(cs, target) && PiOk(lex, target, data)
      ensures Named(EmitPi(t, target, data)) {
      PiNamed(lex, cs, t, target, data);
    }
    forall t, raw, attrs, sc | Named(t) ensures Named(StartTag(t, raw, attrs, sc).t) { StartNamed(t, raw, attrs, sc); }
    forall t, raw | Named(t) ensures Named(EndTag(t, raw)) { EndNamed(t, raw); }
  }

  lemma MoreNamed(t: Tree, u: Tree)
    requires Named(t) && t.out <= u.out
    requires forall k :: |t.out| <= k < |u.out| && u.out[k].Pi? ==> IsName(u.out[k].target)
    ensures Named(u)
  {
    hide IsName;
    forall k | 0 <= k < |u.out| && u.out[k].Pi? ensures IsName(u.out[k].target) {
      if k < |t.out| {
        assert u.out[k] == t.out[k];
      }
    }
  }

  lemma {:induction false} SaidNamed(t: Tree, s: string)
    requires Named(t)
    ensures Named(EmitString(t, s))
    decreases |s|
  {
    hide IsName, XmlSafe, IsSpace;
    if s != [] {
      SaidNamed(t, s[..|s| - 1]);
      MoreNamed(EmitString(t, s[..|s| - 1]), EmitString(t, s));
    }
  }

  lemma PiNamed(lex: Lexicon, cs: set<char>, t: Tree, target: string, data: string)
    requires Named(t) && NamesWell(lex, cs) && Over(cs, target) && PiOk(lex, target, data)
    ensures Named(EmitPi(t, target, data))
  {
    hide SafeAll, SameName, NameStart, NameChar, lex.Begins, lex.Follows, DataOk;
    StartIsName(target[0]);
    assert target[0] in cs && lex.Begins(target[0]);
    assert IsName(target) by {
      forall k | 0 <= k < |target| ensures NameChar(target[k]) {
        if k > 0 {
          assert target[k] in cs && lex.Follows(target[k]);
        }
      }
    }
    hide IsName;
    MoreNamed(t, EmitPi(t, target, data));
  }

  lemma StartNamed(t: Tree, raw: string, attrs: seq<Attr>, selfClosing: bool)
    requires Named(t)
    ensures Named(StartTag(t, raw, attrs, selfClosing).t)
  {
    hide StartTag, Before, Dropped, Normalize, StartName, IsVoid, IsForeignName, Named;
    StartAdds(t, raw, attrs, selfClosing);
    MoreNamed(t, StartTag(t, raw, attrs, selfClosing).t);
  }

  lemma EndNamed(t: Tree, raw: string)
    requires Named(t)
    ensures Named(EndTag(t, raw))
  {
    hide EndTag, Left, Normalize, AnyOf, Named;
    EndAdds(t, raw);
    MoreNamed(t, EndTag(t, raw));
  }

  // ----- Harmless input becomes XML -----

  lemma ClosingKeeps(u: Tree)
    ensures var t := PopTo(u, 0); t.rootCount == u.rootCount && t.topText == u.topText && (Named(u) ==> Named(t))
    ensures Inv(u) ==> (TopWide(PopTo(u, 0).out) <==> TopWide(u.out))
  {
    hide Named, TopWide, Inv;
    PopToCloses(u, 0);
    PopToCounts(u, 0);
    if Named(u) {
      MoreNamed(u, PopTo(u, 0));
    }
    TopMore(u.out, PopTo(u, 0).out);
  }

  lemma {:induction false} PopToCounts(t: Tree, n: nat)
    ensures PopTo(t, n).rootCount == t.rootCount && PopTo(t, n).topText == t.topText
    decreases |t.stack|
  {
    if |t.stack| > n {
      PopToCounts(Pop(t), n);
    }
  }

  /** Whatever comes out of an input over harmless characters is an XML document. */
  lemma HarmlessIsXml(lex: Lexicon, a: set<char>, input: string)
    requires Harmless(lex, Seen(a)) && Over(a, input)
    ensures var r := Finish(lex, Process(lex, INITIAL, input)); r.Some? ==> XmlDocument(r.value)
  {
    hide Process, Settle, EndOfInput, PopTo, Named, NotWide, CanWide, CanTag, CanInstruct, NamesWell, XmlDocument, Over,
      Respects, TopWide, Finish;
    var cs, p := Seen(a), Process(lex, INITIAL, input);
    XmlIff(lex, input);
    var u := EndOfInput(Settle(lex, p));
    NothingWrong();
    NamedRespects(lex, cs);
    RunKept(lex, a, t => Named(t), input);
    ClosingKeeps(u);
    if CanTag(cs) {
      NotWideRespects(lex, cs);
      RunKept(lex, a, t => NotWide(t), input);
      NotWideIs(u);
    } else {
      NoElementRespects(lex, cs);
      RunKept(lex, a, t => NoElement(t), input);
    }
    NamedIs(PopTo(u, 0));
  }

  lemma NothingWrong()
    ensures Named(EMPTY_TREE) && NotWide(EMPTY_TREE)
  {
    assert Names([]) == [];
  }

  lemma NotWideIs(t: Tree)
    requires NotWide(t)
    ensures Inv(t) && (t.topText || !TopWide(t.out))
  {
  }

  lemma NamedIs(t: Tree)
    requires Named(t)
    ensures TargetsNamed(t.out)
  {
  }

  // ----- Harmful characters have an input that does not -----

  /** Reference names are letters and digits, those that need no semicolon can have one, and a
      newline is no letter. */
  ghost predicate RegularNames(lex: Lexicon) {
    && (forall n :: n in lex.entities ==> n != [] && Letters(n))
    && (forall n :: n in lex.legacy ==> n in lex.entities)
    && '\n' !in lex.alphabetic
  }

  /** A character that one state hands to another is as good as handed in there. */
  lemma Handed(lex: Lexicon, p: Parser, r: Parser, c: char, rest: string)
    requires Ready(p) && Ready(r) && c != '\r' && Look(lex, p, c) == Next(r, true)
    ensures Process(lex, p, [c] + rest) == Process(lex, r, [c] + rest)
  {
    hide Look, Shape;
    var s := [c] + rest;
    assert s[0] == c && s[1..] == rest;
    LookSettles(lex, p, c);
    assert p.(started := true).(prevCr := false) == p && r.(started := true).(prevCr := false) == r;
    assert StepState(lex, p, c) == StepState(lex, r, c);
    hide StepState;
    assert Step(lex, p, c) == Step(lex, r, c);
  }

  /** So is a character that is given back. */
  lemma Replayed(lex: Lexicon, p: Parser, q: Parser, c: char, rest: string)
    requires Ready(p) && Ready(q) && c != '\r' && Look(lex, p, c) == Next(q.(pushback := [c]), false)
    ensures Process(lex, p, [c] + rest) == Process(lex, q, [c] + rest)
  {
    hide Look, Shape;
    var s, given := [c] + rest, q.(pushback := [c]);
    assert s[0] == c && s[1..] == rest && [c][1..] == [];
    assert p.(started := true).(prevCr := false) == p;
    assert StepState(lex, p, c) == given;
    LookSettles(lex, p, c);
    hide StepState;
    assert Step(lex, p, c) == given && Popped(given) == q;
    hide Step;
    assert Process(lex, p, s) == Process(lex, given, rest);
  }

  lemma LetterOpens(t: Tree, x: char)
    requires IsAlpha(x) && t.stack == [] && t.foreignDepth == 0
    ensures StartTag(t, [x], [], false) == Started(Push(t, [x], [], false), Normal)
  {
    LetterName(x);
    LetterCloses(t, x);
    hide AutoClose, IsVoid, ModeOf, IsForeignName, SameName, IsName;
    StartsPlainly(t, [x], []);
  }

  lemma LetterName(x: char)
    requires IsAlpha(x)
    ensures IsName([x]) && !IsVoid([x]) && ModeOf([x], false) == Normal && !IsForeignName([x])
      && !SameName([x], "image")
  {
    assert |LowerAll([x])| == 1;
  }

  lemma LetterCloses(t: Tree, x: char)
    requires t.stack == []
    ensures AutoClose(t, [x]) == t
  {
    hide AnyOf;
  }

  lemma TopWideIsNoXml(ts: seq<Token>)
    requires TopWide(ts)
    ensures !XmlDocument(ts)
  {
    hide AtTop, Repaired, TargetsNamed;
    var k :| 0 <= k < |ts| && AtTop(ts, k) && ts[k].Chr? && WideSpace(ts[k].c);
    SpaceKinds(ts[k].c);
  }

  predicate Pure(t: Tree) { t.stack == [] && t.foreignDepth == 0 && t.rootCount == 0 && !t.topText }

  /** Wide space on its own, then an element. */
  lemma BesideElement(lex: Lexicon, q: Parser, t: Tree, x: char)
    requires Stands(q, Data, t, q.tag) && IsAlpha(x) && Pure(t) && TopWide(t.out)
    ensures var r := Finish(lex, Process(lex, q, ['<', x, '>'])); r.Some? && !XmlDocument(r.value)
  {
    hide Process, StartTag, Finish, TopWide, XmlDocument, InTag, Stands;
    ShapeOf(q, Data, t, q.tag);
    TagBegins(lex, q, t, q.tag, x);
    var q1 := Process(lex, q, ['<', x]);
    NamedTag(q1, t, [x]);
    TagEnds(lex, q1, t, [x], []);
    LetterOpens(t, x);
    ChunksDoNotMatter(lex, q, ['<', x], ">");
    assert ['<', x] + ">" == ['<', x, '>'];
    ElementFinishes(lex, Process(lex, q1, ">"), t, x);
  }

  lemma ElementFinishes(lex: Lexicon, q: Parser, t: Tree, x: char)
    requires Pure(t) && TopWide(t.out) && Stands(q, Data, Push(t, [x], [], false), q.tag)
    ensures Finish(lex, q).Some? && !XmlDocument(Finish(lex, q).value)
  {
    hide XmlDocument, TopWide, Render;
    assert Settle(lex, q) == q;
    var u := PopTo(q.tree, 0);
    var out := t.out + [Open([x], [])] + [Close([x])];
    var e := OpenElement([x], false);
    assert q.tree.stack == [e] && [e][..0] == [];
    assert u == PopTo(Pop(q.tree), 0) == Pop(q.tree);
    assert u.out == out && u.rootCount == 1 && !u.topText;
    TopMore(t.out, out);
    BlankIff(out);
    assert Shows(out[|t.out|]);
    TopWideIsNoXml(out);
  }

  /** Text of wide space, then an element: no XML. */
  lemma WideThenElement(lex: Lexicon, input: string, q: Parser, s: string, x: char)
    requires WideBlank(s) && IsAlpha(x) && Stands(q, Data, EmitString(EMPTY_TREE, s), q.tag)
    requires input != [] && input[0] != BOM
      && Process(lex, STARTED, input + ['<', x, '>']) == Process(lex, q, ['<', x, '>'])
    ensures var r := Finish(lex, Process(lex, INITIAL, input + ['<', x, '>'])); r.Some? && !XmlDocument(r.value)
  {
    hide Process, Finish, TopWide, XmlDocument, EmitString, WideSpace, XmlSpace;
    var t := EmitString(EMPTY_TREE, s);
    NothingWrong();
    NotWideIs(EMPTY_TREE);
    StringTop(EMPTY_TREE, s);
    StringStack(EMPTY_TREE, s);
    EmitDepth(EMPTY_TREE, s);
    BesideElement(lex, q, t, x);
    assert (input + ['<', x, '>'])[0] == input[0];
    StartedAlready(lex, INITIAL, input + ['<', x, '>']);
  }

  lemma WideItself(lex: Lexicon, c: char, x: char)
    requires WideSpace(c) && IsAlpha(x)
    ensures var r := Finish(lex, Process(lex, INITIAL, [c] + ['<', x, '>'])); r.Some? && !XmlDocument(r.value)
  {
    hide Process, Finish, XmlDocument;
    StandsAtFirst();
    StartedShape();
    PlainChar(lex, STARTED, Data, c, EMPTY_TREE, NO_TAG);
    SayOne(EMPTY_TREE, c);
    hide EmitString;
    ChunksDoNotMatter(lex, STARTED, [c], ['<', x, '>']);
    WideThenElement(lex, [c], Process(lex, STARTED, [c]), [c], x);
  }

  // ----- By a named reference -----

  lemma {:induction false} NamePrefix(lex: Lexicon, p: Parser, name: string, m: nat)
    requires m <= |name| && InName(p, Data, EMPTY_TREE, NO_TAG, []) && name in lex.entities && Letters(name)
    ensures InName(Process(lex, p, name[..m]), Data, EMPTY_TREE, NO_TAG, name[..m])
    decreases m
  {
    hide InName, Letters, Process, Shape;
    ReadyIn(p, Data, EMPTY_TREE, NO_TAG, []);
    if m == 0 {
      ProcessNothing(lex, p);
      assert name[..0] == [];
    } else {
      var init := name[..m - 1];
      NamePrefix(lex, p, name, m - 1);
      NameLetter(lex, Process(lex, p, init), Data, EMPTY_TREE, NO_TAG, init, name);
      ChunksDoNotMatter(lex, p, init, [name[m - 1]]);
      assert init + [name[m - 1]] == name[..m];
    }
  }

  /** The last letter of a name finds what the name stands for. */
  lemma NameFound(lex: Lexicon, p: Parser, name: string)
    requires name != [] && name in lex.entities && Letters(name) && lex.Full(name).Some?
    requires InName(p, Data, EMPTY_TREE, NO_TAG, name[..|name| - 1])
    ensures var q := Process(lex, p, [name[|name| - 1]]);
      InName(q, Data, EMPTY_TREE, NO_TAG, name) && q.ref.found == lex.Full(name)
  {
    var c := name[|name| - 1];
    assert IsAlnum(c);
    var q := NamedBuffer(lex, p, c);
    var r := q.(state := CharRefNamed);
    assert name[..|name| - 1] + [c] == name;
    assert SamePlace(p, r) && Shape(r) && q.ref.found == lex.Full(name);
    hide Look, NamedBuffer, Process, lex.Full;
    assert lex.CanExtend(name);
    LookNamed(lex, p, c);
    Used(lex, p, c, r);
  }

  /** What ends a name with a match: a semicolon that belongs to it, or a character that does not. */
  lemma ResolveMatch(p: Parser, m: Match)
    requires Shape(p) && p.pushback == [] && p.ref.found == Some(m) && m.len <= |p.ref.buf| && p.ref.ret == Data
    ensures var q := ResolveNamed(p);
      && q.pushback == p.ref.buf[m.len..] && q.state == Data && q.started == p.started && q.prevCr == p.prevCr
        && Shape(q)
      && q.tree == EmitString(p.tree, Emitted(m.e)) && q.tag == p.tag
  {
    hide EmitString, CodePoint;
    assert p.ref.buf[m.len..] + [] == p.ref.buf[m.len..];
  }

  lemma SemicolonEnds(lex: Lexicon, p: Parser, name: string)
    requires name != [] && Letters(name) && name in lex.entities && InName(p, Data, EMPTY_TREE, NO_TAG, name)
    ensures lex.Full(name + ";") == Some(Match(|name| + 1, lex.entities[name]))
    ensures Stands(Process(lex, p, ";"), Data, EmitString(EMPTY_TREE, Emitted(lex.entities[name])), NO_TAG)
  {
    var w := name + ";";
    assert w[..|name|] == name && w[|name|] == ';';
    var q := NamedBuffer(lex, p, ';');
    assert q.ref.buf == w && q.ref.found == lex.Full(w) && SamePlace(p, q) && !lex.CanExtend(w);
    assert lex.Full(w) == Some(Match(|name| + 1, lex.entities[name]));
    hide Look, NamedBuffer, Process, ResolveNamed, Emitted, EmitString, lex.Full, lex.CanExtend;
    ResolveMatch(q, lex.Full(w).value);
    assert w[|w|..] == [];
    LookNamed(lex, p, ';');
    Used(lex, p, ';', ResolveNamed(q));
  }

  lemma NamedEnds(lex: Lexicon, p: Parser, name: string, rest: string) returns (q: Parser)
    requires RegularNames(lex) && name != [] && name in lex.legacy && InName(p, Data, EMPTY_TREE, NO_TAG, name)
      && p.ref.found == Some(Match(|name|, lex.legacy[name]))
    ensures Stands(q, Data, EmitString(EMPTY_TREE, Emitted(lex.legacy[name])), NO_TAG)
    ensures Process(lex, p, ['<'] + rest) == Process(lex, q, ['<'] + rest)
  {
    var w := name + "<";
    LessEndsName(lex, name);
    var b := NamedBuffer(lex, p, '<');
    assert b.ref.buf == w && b.ref.found == p.ref.found && SamePlace(p, b);
    hide Look, NamedBuffer, Process, ResolveNamed, Emitted, EmitString, lex.CanExtend, RegularNames;
    ResolveMatch(b, p.ref.found.value);
    assert w[|name|..] == ['<'];
    LookNamed(lex, p, '<');
    var given := ResolveNamed(b);
    q := given.(pushback := []);
    assert q.(pushback := ['<']) == given;
    Replayed(lex, p, q, '<', rest);
  }

  lemma LessEndsName(lex: Lexicon, name: string)
    requires RegularNames(lex)
    ensures lex.Full(name + "<").None? && !lex.CanExtend(name + "<")
  {
    var w := name + "<";
    assert w[|name|] == '<' && '<' in w;
    forall k | k in lex.entities ensures !(w <= k) && k != w { NoLess(k); }
  }

  lemma NoLess(name: string)
    requires Letters(name)
    ensures forall w: string :: '<' in w ==> !(w <= name)
  {
    assert '<' !in name;
    forall w: string | w <= name ensures '<' !in w {
      assert forall k :: 0 <= k < |w| ==> w[k] == name[k];
    }
  }

  /** A reference that names wide space. */
  lemma WideName(lex: Lexicon, w: string, x: char)
    requires RegularNames(lex) && lex.Full(w).Some? && WideBlank(Emitted(lex.Full(w).value.e)) && IsAlpha(x)
    ensures var r := Finish(lex, Process(lex, INITIAL, ("&" + w) + ['<', x, '>'])); r.Some? && !XmlDocument(r.value)
    ensures Letters(w) || (w != [] && Letters(w[..|w| - 1]) && w[|w| - 1] == ';')
  {
    hide Process, Finish, XmlDocument, EmitString, Emitted, WideBlank, InName;
    StandsAtFirst();
    StartedShape();
    Ampersand(lex, STARTED, Data, EMPTY_TREE, NO_TAG);
    var p := Process(lex, STARTED, "&");
    ReadyIn(p, Data, EMPTY_TREE, NO_TAG, []);
    var tag, s := ['<', x, '>'], Emitted(lex.Full(w).value.e);
    ChunksDoNotMatter(lex, STARTED, "&", w);
    ChunksDoNotMatter(lex, STARTED, "&" + w, tag);
    var q;
    if w != [] && w[|w| - 1] == ';' {
      var name := w[..|w| - 1];
      assert w == name + ";" && name[..|name|] == name;
      NamePrefix(lex, p, name, |name|);
      SemicolonEnds(lex, Process(lex, p, name), name);
      ChunksDoNotMatter(lex, p, name, ";");
      q := Process(lex, p, w);
    } else {
      NamePrefix(lex, p, w, |w| - 1);
      var p' := Process(lex, p, w[..|w| - 1]);
      NameFound(lex, p', w);
      assert w == w[..|w| - 1] + [w[|w| - 1]];
      ChunksDoNotMatter(lex, p, w[..|w| - 1], [w[|w| - 1]]);
      assert tag == ['<'] + [x, '>'];
      q := NamedEnds(lex, Process(lex, p, w), w, [x, '>']);
    }
    assert q.tag == NO_TAG;
    WideThenElement(lex, "&" + w, q, s, x);
  }

  // ----- By a number -----

  /** In a numeric reference whose number so far is `n`. */
  predicate InNumber(p: Parser, hex: bool, n: nat, seen: bool) {
    && Ready(p) && p.tree == EMPTY_TREE && p.tag == NO_TAG && p.ref.ret == Data && p.ref.hex.Some? == hex
      && p.ref.num == n && !p.ref.tooBig
    && p.ref.seenDigit == seen && (p.state.CharRefNum? || (p.state.CharRefNumStart? && !hex && !seen && n == 0))
  }

  lemma HashBegins(lex: Lexicon, p: Parser)
    requires InName(p, Data, EMPTY_TREE, NO_TAG, [])
    ensures var q := Process(lex, p, "#"); InNumber(q, false, 0, false) && q.state.CharRefNumStart?
  {
    hide Look, Process, RefSay, NamedStep, NumericStep;
    LookRef(lex, p, '#');
    Used(lex, p, '#', p.(ref := p.ref.(num := 0, tooBig := false, seenDigit := false, hex := None),
      state := CharRefNumStart));
  }

  lemma HexBegins(lex: Lexicon, p: Parser, c: char)
    requires InNumber(p, false, 0, false) && p.state.CharRefNumStart? && (c == 'x' || c == 'X')
    ensures InNumber(Process(lex, p, [c]), true, 0, false)
  {
    hide Look, Process, RefSay, NamedStep;
    LookRef(lex, p, c);
    Used(lex, p, c, p.(ref := p.ref.(hex := Some(c)), state := CharRefNum));
  }

  lemma DigitRead(lex: Lexicon, p: Parser, hex: bool, n: nat, seen: bool, c: char)
    requires InNumber(p, hex, n, seen) && DigitIn(hex, c).Some? && n * BaseOf(hex) <= 0x10_FFFF
    ensures InNumber(Process(lex, p, [c]), hex, n * BaseOf(hex) + DigitIn(hex, c).value, true)
  {
    hide Look, Process, AddDigit, DigitIn, BaseOf;
    var d := DigitIn(hex, c).value;
    var q := p.(ref := AddDigit(p.ref, d), state := CharRefNum);
    DigitIsRead(lex, p, hex, c);
    DigitAdds(p, hex, n, seen, c);
    if p.state.CharRefNumStart? {
      UsedNext(lex, p, c, p.(state := CharRefNum), q);
    } else {
      Used(lex, p, c, q);
    }
  }

  lemma DigitAdds(p: Parser, hex: bool, n: nat, seen: bool, c: char)
    requires InNumber(p, hex, n, seen) && DigitIn(hex, c).Some? && n * BaseOf(hex) <= 0x10_FFFF
    ensures var d := DigitIn(hex, c).value; InNumber(p.(ref := AddDigit(p.ref, d), state := CharRefNum), hex,
      n * BaseOf(hex) + d, true)
  {
  }

  lemma DigitIsRead(lex: Lexicon, p: Parser, hex: bool, c: char)
    requires Shape(p) && IsRef(p.state) && p.ref.hex.Some? == hex && DigitIn(hex, c).Some?
    ensures c != '\r'
    ensures p.state.CharRefNum?
      ==> Look(lex, p, c) == Next(p.(ref := AddDigit(p.ref, DigitIn(hex, c).value), state := CharRefNum), false)
    ensures p.state.CharRefNumStart? && !hex ==> var r := p.(state := CharRefNum);
      Look(lex, p, c) == Next(r, true)
        && Look(lex, r, c) == Next(r.(ref := AddDigit(p.ref, DigitIn(hex, c).value)), false)
  {
    hide Look, RefSay, NamedStep, AddDigit, NumericChar, NoDigits;
    LookRef(lex, p, c);
    LookRef(lex, p.(state := CharRefNum), c);
  }

  /** Digits that spell a number, read one after the other. */
  lemma {:induction false} DigitsRead(lex: Lexicon, cs: set<char>, p: Parser, hex: bool, n: nat) returns (ds: string)
    requires InNumber(p, hex, 0, false) && Spells(cs, hex, n) && n <= 0x10_FFFF
    ensures Over(cs, ds) && (forall k :: 0 <= k < |ds| ==> IsAlnum(ds[k]))
      && InNumber(Process(lex, p, ds), hex, n, n > 0)
    decreases n
  {
    NumberIsReady(p, hex, 0, false);
    SplitsOff(n, hex);
    hide InNumber, Process, Shape, DigitIn, BaseOf;
    if n == 0 {
      ds := [];
      ProcessNothing(lex, p);
    } else {
      var c :| c in cs && DigitIn(hex, c) == Some(n % BaseOf(hex));
      var init := DigitsRead(lex, cs, p, hex, n / BaseOf(hex));
      ds := init + [c];
      DigitRead(lex, Process(lex, p, init), hex, n / BaseOf(hex), n / BaseOf(hex) > 0, c);
      ChunksDoNotMatter(lex, p, init, [c]);
      DigitIsAlnum(hex, c);
    }
  }

  lemma SplitsOff(n: nat, hex: bool)
    ensures n == n / BaseOf(hex) * BaseOf(hex) + n % BaseOf(hex) && (n > 0 ==> n / BaseOf(hex) < n)
  {
  }

  lemma DigitIsAlnum(hex: bool, c: char)
    ensures DigitIn(hex, c).Some? ==> IsAlnum(c)
  {
  }

  lemma NumberIsReady(p: Parser, hex: bool, n: nat, seen: bool)
    requires InNumber(p, hex, n, seen)
    ensures Shape(p) && p.pushback == []
  {
  }

  lemma NumberEnds(lex: Lexicon, p: Parser, hex: bool, n: nat, rest: string) returns (q: Parser)
    requires InNumber(p, hex, n, true) && WideCode(n)
    ensures Stands(q, Data, EmitString(EMPTY_TREE, [n as char]), NO_TAG)
    ensures Process(lex, p, ['<'] + rest) == Process(lex, q, ['<'] + rest)
  {
    hide Look, Process, NamedStep, EmitString, WideSpace, AddDigit;
    LookRef(lex, p, '<');
    q := RefSay(p, [n as char]).(state := Data);
    assert NumericChar(p.ref) == n as char;
    assert Look(lex, p, '<') == Next(q, true);
    Handed(lex, p, q, '<', rest);
  }

  /** A number that stands for wide space. */
  lemma WideNumeral(lex: Lexicon, cs: set<char>, hex: bool, n: nat, x: char) returns (s: string)
    requires CanNumber(cs, hex, n) && WideCode(n) && IsAlpha(x)
    ensures s != [] && Over(cs, s) && '\n' !in s
    ensures var r := Finish(lex, Process(lex, INITIAL, s + ['<', x, '>'])); r.Some? && !XmlDocument(r.value)
  {
    hide Process, Finish, XmlDocument, EmitString, InName, InNumber, Spells, WideSpace, Shape;
    StandsAtFirst();
    StartedShape();
    Ampersand(lex, STARTED, Data, EMPTY_TREE, NO_TAG);
    var p0 := Process(lex, STARTED, "&");
    ReadyIn(p0, Data, EMPTY_TREE, NO_TAG, []);
    HashBegins(lex, p0);
    ChunksDoNotMatter(lex, STARTED, "&", "#");
    s := "&" + "#";
    if hex {
      var c := if 'x' in cs then 'x' else 'X';
      HexBegins(lex, Process(lex, p0, "#"), c);
      ChunksDoNotMatter(lex, STARTED, s, [c]);
      s := s + [c];
    }
    var p1 := Process(lex, STARTED, s);
    var ds := DigitsRead(lex, cs, p1, hex, n);
    ChunksDoNotMatter(lex, STARTED, s, ds);
    s := s + ds;
    var tag := ['<', x, '>'];
    assert tag == ['<'] + [x, '>'];
    var q := NumberEnds(lex, Process(lex, STARTED, s), hex, n, [x, '>']);
    ChunksDoNotMatter(lex, STARTED, s, tag);
    assert s[0] == '&' && q.tag == NO_TAG;
    OneWide(n);
    WideThenElement(lex, s, q, [n as char], x);
  }

  lemma OneWide(n: nat)
    requires WideCode(n)
    ensures WideBlank([n as char])
  {
    hide WideSpace;
    assert WideSpace([n as char][0]);
  }

  // ----- The exact condition -----

  /** Whatever comes out of an input over these characters is an XML document. */
  ghost predicate AlwaysXml(lex: Lexicon, a: set<char>) {
    forall input :: Over(a, input) ==> var r := Finish(lex, Process(lex, INITIAL, input));
      r.Some? ==> XmlDocument(r.value)
  }

  lemma SeenIsRead(a: set<char>, c: char)
    ensures c in Seen(a) && c != '\n' ==> c in a
  {
  }

  lemma SeenAreRead(a: set<char>, s: string)
    requires Over(Seen(a), s) && '\n' !in s
    ensures Over(a, s)
  {
    hide Seen;
    forall k | 0 <= k < |s| ensures s[k] in a { SeenIsRead(a, s[k]); }
  }

  lemma WideIsHarmful(lex: Lexicon, a: set<char>)
    requires RegularNames(lex) && CanTag(Seen(a)) && CanWide(lex, Seen(a))
    ensures !AlwaysXml(lex, a)
  {
    hide Process, Finish, XmlDocument, Seen, RegularNames, WideSpace, WideCode, CanNumber, WideBlank, Emitted;
    var cs := Seen(a);
    var x :| x in cs && IsAlpha(x);
    var tag := ['<', x, '>'];
    var s: string;
    if NamesWide(lex, cs) {
      var w :| CanName(lex, cs, w) && WideBlank(Emitted(lex.Full(w).value.e));
      WideName(lex, w, x);
      s := "&" + w;
      NameHasNoNewline(w);
    } else if NumbersWide(cs) {
      var hex, n :| CanNumber(cs, hex, n) && WideCode(n);
      s := WideNumeral(lex, cs, hex, n, x);
    } else {
      var c :| c in cs && WideSpace(c);
      WideItself(lex, c, x);
      s := [c];
      WideIsNoNewline(c);
    }
    SeenAreRead(a, s + tag);
  }

  lemma NameHasNoNewline(w: string)
    requires Letters(w) || (w != [] && Letters(w[..|w| - 1]) && w[|w| - 1] == ';')
    ensures '\n' !in w
  {
    forall k | 0 <= k < |w| ensures w[k] != '\n' {
      if !Letters(w) && k < |w| - 1 {
        assert w[..|w| - 1][k] == w[k];
      }
    }
  }

  lemma WideIsNoNewline(c: char)
    ensures WideSpace(c) ==> c != '\n'
  {
  }

  /** An instruction with a misnamed target. */
  lemma MisnamedIsHarmful(lex: Lexicon, a: set<char>)
    requires RegularNames(lex) && CanInstruct(Seen(a)) && !NamesWell(lex, Seen(a))
    ensures !AlwaysXml(lex, a)
  {
    hide Process, Finish, XmlDocument, Seen, Wrap, RenderToken, NameStart, NameChar, TargetOk, SameName;
    var cs := Seen(a);
    var target: string;
    if b :| b in cs && lex.Begins(b) && !NameStart(b) {
      target := [b];
      OneLetterTarget(lex, b);
    } else {
      var b :| b in cs && lex.Begins(b);
      var f :| f in cs && lex.Follows(f) && !NameChar(f);
      target := [b, f];
      BadSecondLetter(lex, b, f);
    }
    InstructionAlone(lex, target);
    AloneText(target);
    var input := "<?" + target + "?>";
    assert Over(cs, input) && '\n' !in input;
    SeenAreRead(a, input);
    MisnamedIsNoXml(target);
  }

  lemma BadSecondLetter(lex: Lexicon, b: char, f: char)
    requires lex.Begins(b) && lex.Follows(f) && !NameChar(f)
    ensures var s := [b, f]; TargetOk(lex, s) && !SameName(s, "xml") && !IsName(s)
  {
    var s := [b, f];
    assert s[1] == f;
    hide lex.Begins, lex.Follows, NameStart, NameChar;
  }

  lemma MisnamedIsNoXml(target: string)
    requires !IsName(target)
    ensures !XmlDocument(Wrap([Pi(target, [])]))
  {
    hide Repaired, TopIsXml, TargetsNamed, Wrap, IsName;
    if TargetsNamed(Wrap([Pi(target, [])])) {
      WrappedTarget(target);
    }
  }

  /** Every input over some characters becomes XML exactly when they are harmless. */
  lemma AlwaysXmlIff(lex: Lexicon, a: set<char>)
    requires RegularNames(lex)
    ensures AlwaysXml(lex, a) <==> Harmless(lex, Seen(a))
  {
    hide Process, Finish, XmlDocument, Seen, RegularNames, CanTag, CanWide, CanInstruct, NamesWell, Over;
    if Harmless(lex, Seen(a)) {
      forall input | Over(a, input) ensures var r := Finish(lex, Process(lex, INITIAL, input));
        r.Some? ==> XmlDocument(r.value) {
        HarmlessIsXml(lex, a, input);
      }
    } else if CanTag(Seen(a)) && CanWide(lex, Seen(a)) {
      WideIsHarmful(lex, a);
    } else {
      MisnamedIsHarmful(lex, a);
    }
  }

  // ----- Plain input -----

  /** An input without `&`, without wide space, and without `?` or with letters that XML takes for
      letters, becomes XML. */
  lemma PlainInputIsXml(lex: Lexicon, input: string)
    requires '&' !in input && forall c :: c in input ==> !WideSpace(c)
    requires '?' !in input
      || forall c :: c in input ==> (lex.Begins(c) ==> NameStart(c)) && (lex.Follows(c) ==> NameChar(c))
    requires '\n' !in lex.alphabetic
    ensures var r := Finish(lex, Process(lex, INITIAL, input)); r.Some? ==> XmlDocument(r.value)
  {
    hide Process, Finish, XmlDocument, WideSpace, NameStart, NameChar;
    var a := set c | c in input;
    assert Over(a, input);
    var cs := Seen(a);
    assert forall c :: c in cs ==> c in input || c == '\n';
    WideIsNoNewline('\n');
    assert '&' !in cs;
    HarmlessIsXml(lex, a, input);
  }
}
