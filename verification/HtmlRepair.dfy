/** Whole documents: every input is consumed, and what comes out is balanced under one root. */
module HtmlRepair {
  import opened Bytes
  import opened HtmlTokens
  import opened HtmlTree
  import opened HtmlTokenizer

  // ----- What every transition keeps -----

  predicate Tidy(attrs: seq<Attr>) { Distinct(attrs) && NamedWell(attrs) }

  predicate TargetOk(lex: Lexicon, s: string) {
    s != [] && lex.Begins(s[0]) && forall k :: 1 <= k < |s| ==> lex.Follows(s[k])
  }

  predicate DataOk(s: string) { '>' !in s && '\r' !in s && (s != [] ==> !IsBlank(s[0])) }

  predicate PiOk(lex: Lexicon, target: string, data: string) {
    TargetOk(lex, target) && !SameName(target, "xml") && DataOk(data)
  }

  /** A property of the tree that text, processing instructions and tags keep. */
  ghost predicate Stable(lex: Lexicon, j: Tree -> bool) {
    && (forall t, s {:trigger EmitString(t, s)} :: j(t) ==> j(EmitString(t, s)))
    && (forall t, target, data {:trigger EmitPi(t, target, data)} ::
          j(t) && PiOk(lex, target, data) ==> j(EmitPi(t, target, data)))
    && (forall t, raw, attrs, sc {:trigger StartTag(t, raw, attrs, sc)} ::
          j(t) && Tidy(attrs) ==> j(StartTag(t, raw, attrs, sc).t))
    && (forall t, raw {:trigger EndTag(t, raw)} :: j(t) ==> j(EndTag(t, raw)))
  }

  /** The tree has the property, and the attributes collected so far are distinct XML names. */
  ghost predicate Sane(j: Tree -> bool, p: Parser) { j(p.tree) && Tidy(p.tag.attrs) }

  /** What a state holds of a processing instruction before it looks at `c`. */
  predicate PiFits(lex: Lexicon, p: Parser, c: char) {
    && (p.state.PiStart? ==> p.piTarget == [] && p.piData == [])
    && (p.state.PiTarget? ==> TargetOk(lex, p.piTarget) && p.piData == [])
    && (p.state.PiAfterTarget? ==> PiOk(lex, p.piTarget, p.piData) && p.piData == [])
    && (p.state.PiData? ==> PiOk(lex, p.piTarget, p.piData) && (p.piData == [] ==> !IsBlank(c)))
    && (p.state.PiQuestion? ==> PiOk(lex, p.piTarget, p.piData))
  }

  /** The same between two characters. */
  predicate PiRests(lex: Lexicon, p: Parser) { PiFits(lex, p, ' ') }

  ghost predicate Holds(lex: Lexicon, j: Tree -> bool, p: Parser) { Shape(p) && Sane(j, p) && PiRests(lex, p) }

  lemma TidyIs(attrs: seq<Attr>)
    ensures Tidy(attrs) <==> Distinct(attrs) && NamedWell(attrs)
  {
  }

  lemma FinishAttrKeeps(t: Tag)
    requires Tidy(t.attrs)
    ensures Tidy(FinishAttr(t).attrs)
  {
    NormalizeIsName(t.attrName);
    hide IsName, Normalize, SameName;
  }

  lemma EmitTagSane(lex: Lexicon, j: Tree -> bool, p: Parser)
    requires Stable(lex, j) && Sane(j, p)
    ensures Sane(j, EmitTag(p).p)
  {
    hide FinishAttr, StartTag, EndTag, EmitTag, Tidy;
    NoAttrs();
    FinishAttrKeeps(p.tag);
  }

  lemma NoAttrs()
    ensures Tidy([])
  {
  }

  lemma TextStepSane(lex: Lexicon, j: Tree -> bool, p: Parser, c: char)
    requires Stable(lex, j) && Shape(p) && InText(p.state) && Sane(j, p)
    ensures var r := TextStep(p, c); Sane(j, r.p) && !InPi(r.p.state)
  {
    hide Goto, Say, EmitString, Tidy;
  }

  lemma TagStepSane(lex: Lexicon, j: Tree -> bool, p: Parser, c: char)
    requires Shape(p) && (p.state.TagOpen? || p.state.EndTagOpen? || p.state.TagName? || p.state.SelfClosingStartTag?)
    requires Stable(lex, j) && Sane(j, p)
    ensures var r := TagStep(p, c); Sane(j, r.p) && PiRests(lex, r.p)
  {
    hide Goto, Retry, Say, EmitString, NewTag, EmitTag, FinishAttr, StartTag, EndTag, Tidy, PiOk, IsBlank, IsAlpha;
    NoAttrs();
    EmitTagSane(lex, j, p);
    EmitTagSane(lex, j, p.(tag := p.tag.(selfClosing := true)));
    GotoPi(p.(piTarget := [], piData := []), PiStart);
  }

  lemma GotoPi(p: Parser, s: State)
    ensures Goto(p, s).p.piTarget == p.piTarget && Goto(p, s).p.piData == p.piData
    ensures Retry(p, s).p.piTarget == p.piTarget && Retry(p, s).p.piData == p.piData
  {
  }

  lemma AttrStepSane(lex: Lexicon, j: Tree -> bool, p: Parser, c: char)
    requires Stable(lex, j) && Shape(p) && InAttribute(p.state) && Sane(j, p)
    ensures Sane(j, AttrStep(p, c).p)
  {
    hide Goto, Retry, CreateAttr, PushName, PushValue, EmitTag, FinishAttr, StartTag, EndTag, Tidy, Stable;
    EmitTagSane(lex, j, p);
    FinishAttrKeeps(p.tag);
  }

  lemma AttrStepHasNoPi(p: Parser, c: char)
    requires Shape(p) && InAttribute(p.state)
    ensures !InPi(AttrStep(p, c).p.state)
  {
    hide Goto, Retry, CreateAttr, PushName, PushValue, EmitTag, FinishAttr, StartTag, EndTag, IsBlank;
  }

  lemma DeclStepSane(j: Tree -> bool, p: Parser, c: char)
    requires Shape(p) && InDeclaration(p.state) && Sane(j, p)
    ensures var r := DeclStep(p, c); Sane(j, r.p) && !InPi(r.p.state)
  {
    hide Goto, Retry, Hold, Tidy, Lower;
  }

  lemma CdataStepSane(lex: Lexicon, j: Tree -> bool, p: Parser, c: char)
    requires Stable(lex, j) && Shape(p) && Sane(j, p)
    ensures var r := CdataStep(p, c); Sane(j, r.p) && !InPi(r.p.state)
  {
    hide Goto, Hold, Flush, EmitString, Tidy;
  }

  lemma PiTargetStepSane(lex: Lexicon, p: Parser, c: char)
    requires Shape(p) && (p.state.PiStart? || p.state.PiTarget?) && PiFits(lex, p, c) && c != '\r'
    ensures var r := PiStep(lex, p, c);
      PiFits(lex, r.p, if r.again then c else ' ') && r.p.tree == p.tree && r.p.tag == p.tag
  {
    hide FinishPi, SameName;
  }

  lemma PiDataStepSane(lex: Lexicon, p: Parser, c: char)
    requires Shape(p) && (p.state.PiAfterTarget? || p.state.PiData? || p.state.PiQuestion?) && PiFits(lex, p, c)
      && c != '\r'
    ensures PiOk(lex, p.piTarget, p.piData)
    ensures var r := PiStep(lex, p, c);
      && PiFits(lex, r.p, if r.again then c else ' ') && r.p.tag == p.tag
      && (r.p.tree == p.tree || r.p.tree == EmitPi(p.tree, p.piTarget, p.piData))
  {
    hide FinishPi, SameName, TargetOk, EmitPi;
  }

  lemma PiStepSane(lex: Lexicon, j: Tree -> bool, p: Parser, c: char)
    requires Stable(lex, j) && Shape(p) && InPi(p.state) && Sane(j, p) && PiFits(lex, p, c) && c != '\r'
    ensures var r := PiStep(lex, p, c); Sane(j, r.p) && PiFits(lex, r.p, if r.again then c else ' ')
  {
    hide FinishPi, EmitPi, SameName, Tidy, PiOk;
    if p.state.PiStart? || p.state.PiTarget? {
      PiTargetStepSane(lex, p, c);
    } else {
      PiDataStepSane(lex, p, c);
    }
  }

  lemma ResolveNamedSane(lex: Lexicon, j: Tree -> bool, p: Parser)
    requires Stable(lex, j) && Shape(p) && Sane(j, p)
    ensures Sane(j, ResolveNamed(p)) && !InPi(ResolveNamed(p).state)
  {
    hide RefSay, EmitString, CodePoint, LeftAlone, Tidy;
  }

  lemma RefStepSane(lex: Lexicon, j: Tree -> bool, p: Parser, c: char)
    requires Stable(lex, j) && Shape(p) && IsRef(p.state) && Sane(j, p)
    ensures var r := RefStep(lex, p, c); Sane(j, r.p) && !InPi(r.p.state)
  {
    hide Goto, Retry, RefSay, EmitString, NumericChar, AddDigit, DigitValue, NoDigits, NamedStep, Tidy;
    if p.state.CharRef? || p.state.CharRefNamed? {
      NamedStepSane(lex, j, p, c);
    }
  }

  lemma NamedStepSane(lex: Lexicon, j: Tree -> bool, p: Parser, c: char)
    requires Stable(lex, j) && Shape(p) && (p.state.CharRef? || p.state.CharRefNamed?) && Sane(j, p)
    ensures Sane(j, NamedStep(lex, p, c)) && !InPi(NamedStep(lex, p, c).state)
  {
    hide ResolveNamed, NamedBuffer, Tidy;
    ResolveNamedSane(lex, j, NamedBuffer(lex, p, c));
  }

  lemma RawStepSane(lex: Lexicon, j: Tree -> bool, p: Parser, c: char)
    requires Stable(lex, j) && Shape(p) && InRaw(p.state) && Sane(j, p)
    ensures var r := RawStep(p, c); Sane(j, r.p) && !InPi(r.p.state)
  {
    hide Goto, Retry, Say, EmitString, Hold, Flush, Discard, NewTag, EmitTag, FinishAttr, StartTag, EndTag, Appropriate,
      Tidy;
    NoAttrs();
    EmitTagSane(lex, j, Hold(p, []));
  }

  lemma EscapeStepSane(lex: Lexicon, j: Tree -> bool, p: Parser, c: char)
    requires Stable(lex, j) && Shape(p) && InEscape(p.state) && Sane(j, p)
    ensures var r := EscapeStep(p, c); Sane(j, r.p) && !InPi(r.p.state)
  {
    hide Goto, Retry, Say, EmitString, Hold, SameName, Tidy;
  }

  lemma LookSane(lex: Lexicon, j: Tree -> bool, p: Parser, c: char)
    requires Stable(lex, j) && Shape(p) && Sane(j, p) && PiFits(lex, p, c) && c != '\r'
    ensures var r := Look(lex, p, c); Sane(j, r.p) && PiFits(lex, r.p, if r.again then c else ' ')
  {
    hide TextStep, AttrStep, DeclStep, CdataStep, PiStep, RefStep, RawStep, EscapeStep, TagStep, Sane, PiFits, Stable;
    var r := Look(lex, p, c);
    NoPiFits(lex, r.p, c);
    NoPiFits(lex, r.p, ' ');
    if InText(p.state) {
      TextStepSane(lex, j, p, c);
    } else if InAttribute(p.state) {
      AttrStepSane(lex, j, p, c);
      AttrStepHasNoPi(p, c);
    } else if InDeclaration(p.state) {
      DeclStepSane(j, p, c);
    } else if InComment(p.state) {
      GotoSane(j, p, CommentNext(p.state, c));
    } else if InCdata(p.state) {
      CdataStepSane(lex, j, p, c);
    } else if InPi(p.state) {
      PiStepSane(lex, j, p, c);
    } else if IsRef(p.state) {
      RefStepSane(lex, j, p, c);
    } else if InRaw(p.state) {
      RawStepSane(lex, j, p, c);
    } else if InEscape(p.state) {
      EscapeStepSane(lex, j, p, c);
    } else {
      TagStepSane(lex, j, p, c);
      PiRestsFits(lex, r.p, c);
    }
  }

  lemma GotoSane(j: Tree -> bool, p: Parser, s: State)
    ensures Sane(j, p) ==> Sane(j, Goto(p, s).p)
  {
  }

  lemma NoPiFits(lex: Lexicon, p: Parser, c: char)
    ensures !InPi(p.state) ==> PiFits(lex, p, c)
  {
  }

  lemma PiRestsFits(lex: Lexicon, p: Parser, c: char)
    ensures PiRests(lex, p) ==> PiFits(lex, p, c)
  {
  }

  lemma {:induction false} StepStateHolds(lex: Lexicon, j: Tree -> bool, p: Parser, c: char)
    requires Stable(lex, j) && Shape(p) && Sane(j, p) && PiFits(lex, p, c) && c != '\r'
    ensures Holds(lex, j, StepState(lex, p, c))
    decreases Rank(p.state)
  {
    hide Look, Sane, Rank, Stable, PiFits;
    LookSettles(lex, p, c);
    LookSane(lex, j, p, c);
    var r := Look(lex, p, c);
    if r.again {
      StepStateHolds(lex, j, r.p, c);
    }
  }

  /** One character, in any state, keeps what its tags, text and instructions keep. */
  lemma StepHolds(lex: Lexicon, j: Tree -> bool, p: Parser, c: char)
    requires Stable(lex, j) && Holds(lex, j, p)
    ensures Holds(lex, j, Step(lex, p, c))
  {
    hide StepState, Stable;
    PiRestsFits(lex, p, '\n');
    PiRestsFits(lex, p, c);
    StepStateHolds(lex, j, p.(started := true, prevCr := true), '\n');
    if c != '\r' {
      StepStateHolds(lex, j, p.(started := true, prevCr := false), c);
    }
  }

  // ----- Consuming the input -----

  function Popped(p: Parser): Parser
    requires p.pushback != []
  {
    p.(pushback := p.pushback[1..])
  }

  function Pending(s: State): nat { if IsRef(s) then 1 else 0 }

  /** Each step brings the parser closer to the end of its input, also while a failed reference
      is replayed: what is left shrinks, or a reference ends, or it takes in a character. */
  lemma StepProgress(lex: Lexicon, p: Parser, c: char)
    requires Shape(p)
    ensures var q := Step(lex, p, c);
      Shape(q) && (Kept(q) < Kept(p) + 1 || (Kept(q) == Kept(p) + 1
        && (Pending(q.state) < Pending(p.state) || (Pending(q.state) == Pending(p.state)
          && |q.pushback| == |p.pushback|))))
  {
    hide Step;
    StepKeeps(lex, p, c);
  }

  /** Replayed characters first, then unread ones, until none is left. */
  function Process(lex: Lexicon, p: Parser, unread: string): (q: Parser)
    requires Shape(p)
    ensures Shape(q) && q.pushback == []
    decreases |unread| + Kept(p), Pending(p.state), |unread| + |p.pushback|
  {
    if p.pushback != [] then
      StepProgress(lex, Popped(p), p.pushback[0]);
      Process(lex, Step(lex, Popped(p), p.pushback[0]), unread)
    else if unread != [] then
      StepProgress(lex, p, unread[0]);
      Process(lex, Step(lex, p, unread[0]), unread[1..])
    else p
  }

  lemma {:induction false} ProcessHolds(lex: Lexicon, j: Tree -> bool, p: Parser, unread: string)
    requires Stable(lex, j) && Holds(lex, j, p)
    ensures Holds(lex, j, Process(lex, p, unread))
    decreases |unread| + Kept(p), Pending(p.state), |unread| + |p.pushback|
  {
    hide Step, Sane, Shape, Stable, PiRests;
    if p.pushback != [] {
      PoppedHolds(lex, j, p);
      StepProgress(lex, Popped(p), p.pushback[0]);
      StepHolds(lex, j, Popped(p), p.pushback[0]);
      ProcessHolds(lex, j, Step(lex, Popped(p), p.pushback[0]), unread);
    } else if unread != [] {
      StepProgress(lex, p, unread[0]);
      StepHolds(lex, j, p, unread[0]);
      ProcessHolds(lex, j, Step(lex, p, unread[0]), unread[1..]);
    }
  }

  lemma PoppedHolds(lex: Lexicon, j: Tree -> bool, p: Parser)
    requires Holds(lex, j, p) && p.pushback != []
    ensures Holds(lex, j, Popped(p))
  {
  }

  /** Text may be cut into chunks anywhere between characters. */
  lemma {:induction false} ChunksDoNotMatter(lex: Lexicon, p: Parser, a: string, b: string)
    requires Shape(p)
    ensures Process(lex, p, a + b) == Process(lex, Process(lex, p, a), b)
    decreases |a| + Kept(p), Pending(p.state), |a| + |p.pushback|
  {
    hide Step, Shape;
    if p.pushback != [] {
      PoppedShape(p);
      StepProgress(lex, Popped(p), p.pushback[0]);
      ChunksDoNotMatter(lex, Step(lex, Popped(p), p.pushback[0]), a, b);
    } else if a != [] {
      StepProgress(lex, p, a[0]);
      assert (a + b)[0] == a[0] && (a + b)[1..] == a[1..] + b;
      ChunksDoNotMatter(lex, Step(lex, p, a[0]), a[1..], b);
    } else {
      assert a + b == b;
    }
  }

  lemma PoppedShape(p: Parser)
    requires Shape(p) && p.pushback != []
    ensures Shape(Popped(p))
  {
  }

  // ----- The end of the input -----

  function ResolveAtEnd(p: Parser): Parser
    requires IsRef(p.state)
  {
    if p.state.CharRef? then RefSay(p, "&").(state := p.ref.ret)
    else if p.state.CharRefNamed? then ResolveNamed(p)
    else if p.state.CharRefNumStart? then RefSay(p, "&#").(state := p.ref.ret)
    else RefSay(p, if p.ref.seenDigit then [NumericChar(p.ref)] else NoDigits(p.ref)).(state := p.ref.ret)
  }

  lemma ResolveAtEndEnds(p: Parser)
    requires Shape(p) && IsRef(p.state)
    ensures var q := ResolveAtEnd(p); Shape(q) && Kept(q) <= Kept(p) && !IsRef(q.state)
  {
    hide ResolveAtEnd, ResolveNamed;
    if p.state.CharRefNamed? {
      NamedAtEnd(p);
      ResolveNamedReplays(p);
    } else {
      OtherAtEnd(p);
    }
  }

  lemma NamedAtEnd(p: Parser)
    requires p.state.CharRefNamed?
    ensures ResolveAtEnd(p) == ResolveNamed(p)
  {
    hide RefSay, ResolveNamed, NumericChar, NoDigits;
  }

  lemma OtherAtEnd(p: Parser)
    requires IsRef(p.state) && !p.state.CharRefNamed?
    ensures SameInput(p, ResolveAtEnd(p)) && ResolveAtEnd(p).state == p.ref.ret
  {
    hide RefSay, EmitString, NumericChar, NoDigits;
  }

  lemma ResolveAtEndHolds(lex: Lexicon, j: Tree -> bool, p: Parser)
    requires Stable(lex, j) && Holds(lex, j, p) && IsRef(p.state)
    ensures Holds(lex, j, ResolveAtEnd(p))
  {
    hide RefSay, ResolveNamed, EmitString, NumericChar, NoDigits, Tidy, PiFits;
    ResolveAtEndEnds(p);
    ResolveNamedSane(lex, j, p);
    NoPiFits(lex, ResolveAtEnd(p), ' ');
  }

  /** Ends pending references, replaying what they give back. */
  function Settle(lex: Lexicon, p: Parser): (q: Parser)
    requires Shape(p)
    ensures Shape(q) && q.pushback == [] && !IsRef(q.state)
    decreases Kept(p), Pending(p.state), |p.pushback|
  {
    if p.pushback != [] then
      StepProgress(lex, Popped(p), p.pushback[0]);
      Settle(lex, Step(lex, Popped(p), p.pushback[0]))
    else if IsRef(p.state) then
      ResolveAtEndEnds(p);
      Settle(lex, ResolveAtEnd(p))
    else p
  }

  lemma {:induction false} SettleHolds(lex: Lexicon, j: Tree -> bool, p: Parser)
    requires Stable(lex, j) && Holds(lex, j, p)
    ensures Holds(lex, j, Settle(lex, p))
    decreases Kept(p), Pending(p.state), |p.pushback|
  {
    hide Step, Sane, Shape, ResolveAtEnd, Stable, PiRests;
    if p.pushback != [] {
      PoppedHolds(lex, j, p);
      StepProgress(lex, Popped(p), p.pushback[0]);
      StepHolds(lex, j, Popped(p), p.pushback[0]);
      SettleHolds(lex, j, Step(lex, Popped(p), p.pushback[0]));
    } else if IsRef(p.state) {
      ResolveAtEndEnds(p);
      ResolveAtEndHolds(lex, j, p);
      SettleHolds(lex, j, ResolveAtEnd(p));
    }
  }

  /** What an unfinished tag or raw text leaves behind. */
  function EndOfInput(p: Parser): Tree {
    if p.state.TagOpen? then EmitString(p.tree, "<")
    else if p.state.EndTagOpen? || p.state.RawEndTagOpen? then EmitString(p.tree, "</")
    else if p.state.RawLt? then (if p.state.kind.DoubleEscapedKind? then p.tree else EmitString(p.tree, "<"))
    else if p.state.RawEndTagName? then EmitString(EmitString(p.tree, "</"), p.temp)
    else if InCdata(p.state) then EmitString(p.tree, p.temp)
    else p.tree
  }

  /** The tree once everything is closed. */
  function Closed(lex: Lexicon, p: Parser): Tree
    requires Shape(p)
  {
    PopTo(EndOfInput(Settle(lex, p)), 0)
  }

  const ROOT := "root"

  function Wrap(ts: seq<Token>): seq<Token> { [Open(ROOT, [])] + ts + [Close(ROOT)] }

  predicate AllSpace(s: string) { forall k :: 0 <= k < |s| ==> IsSpace(s[k]) }

  /** The repaired document, or nothing when the input has no content. */
  function Finish(lex: Lexicon, p: Parser): Option<seq<Token>>
    requires Shape(p)
  {
    var t := Closed(lex, p);
    if AllSpace(Render(t.out)) then None
    else if t.rootCount == 1 && !t.topText then Some(t.out)
    else Some(Wrap(t.out))
  }

  lemma EndOfInputHolds(lex: Lexicon, j: Tree -> bool, p: Parser)
    requires Stable(lex, j) && j(p.tree)
    ensures j(EndOfInput(p))
  {
    hide EmitString;
  }

  /** So does a whole run, up to the elements that are left to close. */
  lemma RunHolds(lex: Lexicon, j: Tree -> bool, p: Parser)
    requires Stable(lex, j) && Holds(lex, j, p)
    ensures j(EndOfInput(Settle(lex, p)))
  {
    hide Settle, EndOfInput, Stable, Shape, PiRests;
    SettleHolds(lex, j, p);
    EndOfInputHolds(lex, j, Settle(lex, p));
  }

  // ----- The output nests -----

  function Nesting(): Tree -> bool { t => Inv(t) }

  /** A parser whose output nests. */
  ghost predicate Good(lex: Lexicon, p: Parser) { Holds(lex, Nesting(), p) }

  lemma NestingIsStable(lex: Lexicon)
    ensures Stable(lex, Nesting())
  {
    hide Inv, EmitString, EmitPi, StartTag, EndTag, Tidy;
    forall t, s | Inv(t) ensures Inv(EmitString(t, s)) { StringKeeps(t, s); }
    forall t, target, data | Inv(t) && PiOk(lex, target, data)
      ensures Inv(EmitPi(t, target, data)) { PiKeeps(t, target, data); }
    forall t, raw, attrs, sc | Inv(t) && Tidy(attrs)
      ensures Inv(StartTag(t, raw, attrs, sc).t) { TidyIs(attrs); StartTagKeeps(t, raw, attrs, sc); }
    forall t, raw | Inv(t) ensures Inv(EndTag(t, raw)) { EndTagKeeps(t, raw); }
  }

  lemma ClosedInv(lex: Lexicon, p: Parser)
    requires Good(lex, p)
    ensures Inv(Closed(lex, p)) && Closed(lex, p).stack == []
  {
    hide Settle, EndOfInput, PopTo, Inv, Stable, Sane, Shape, PiRests;
    NestingIsStable(lex);
    RunHolds(lex, Nesting(), p);
    PopToKeeps(EndOfInput(Settle(lex, p)), 0);
  }

  // ----- Wrapping -----

  lemma {:induction false} InsideRoot(ts: seq<Token>)
    requires Nest(ts).Some?
    ensures var w := [Open(ROOT, [])] + ts;
      Nest(w) == Some([ROOT] + Nest(ts).value) && Roots(w) == 1 && !TopText(w)
    decreases |ts|
  {
    var w := [Open(ROOT, [])] + ts;
    if ts == [] {
      NestSnoc([], Open(ROOT, []));
      assert w == [] + [Open(ROOT, [])];
      assert [] + [ROOT] == [ROOT] + [];
    } else {
      var init, t := ts[..|ts| - 1], ts[|ts| - 1];
      assert ts == init + [t] && w == ([Open(ROOT, [])] + init) + [t];
      hide Nest, Roots, TopText;
      NestSnoc(init, t);
      InsideRoot(init);
      NestSnoc([Open(ROOT, [])] + init, t);
      NestInside(Nest(init).value, t);
    }
  }

  lemma NestInside(open: seq<string>, t: Token)
    requires NestOne(Some(open), t).Some?
    ensures NestOne(Some([ROOT] + open), t) == Some([ROOT] + NestOne(Some(open), t).value)
  {
    match t
    case Open(n, _) => assert [ROOT] + open + [n] == [ROOT] + (open + [n]);
    case Close(n) => assert ([ROOT] + open)[..|open|] == [ROOT] + open[..|open| - 1];
    case _ =>
  }

  predicate Repaired(ts: seq<Token>) { Nest(ts) == Some([]) && Roots(ts) == 1 && !TopText(ts) && AllWellFormed(ts) }

  lemma WrapIsRepaired(ts: seq<Token>)
    requires Nest(ts) == Some([]) && AllWellFormed(ts)
    ensures Repaired(Wrap(ts))
  {
    RootIsName();
    NoAttrs();
    var w := [Open(ROOT, [])] + ts;
    assert AllWellFormed(w);
    assert [ROOT][..0] == [];
    hide Nest, Roots, TopText, AllWellFormed, IsName;
    InsideRoot(ts);
    NestSnoc(w, Close(ROOT));
  }

  lemma RootIsName()
    ensures IsName(ROOT)
  {
  }

  // ----- The theorems -----

  lemma InitialGood(lex: Lexicon)
    ensures Good(lex, INITIAL)
  {
    assert Names([]) == [];
    NoAttrs();
  }

  /** At every point of every run the unclosed tags of the output are the stack and the counters
      are right. */
  lemma EveryRunNests(lex: Lexicon, input: string)
    ensures Good(lex, Process(lex, INITIAL, input))
  {
    hide Process, Holds, Stable;
    InitialGood(lex);
    NestingIsStable(lex);
    ProcessHolds(lex, Nesting(), INITIAL, input);
  }

  lemma FinishIsRepaired(lex: Lexicon, p: Parser)
    requires Good(lex, p)
    ensures Finish(lex, p).Some? ==> Repaired(Finish(lex, p).value)
  {
    hide Closed, Render, Nest, Roots, TopText, AllWellFormed, Wrap;
    ClosedInv(lex, p);
    var t := Closed(lex, p);
    assert Names(t.stack) == [];
    WrapIsRepaired(t.out);
  }

  /** Whatever the input, a finished document is balanced with matching names, has exactly one
      top-level element and no other top-level text than white space, every tag has an XML name
      and distinct attributes, and every processing instruction is sound. */
  lemma EveryDocumentIsRepaired(lex: Lexicon, input: string)
    ensures var r := Finish(lex, Process(lex, INITIAL, input)); r.Some? ==> Repaired(r.value)
  {
    hide Process, Finish, Good, Repaired;
    EveryRunNests(lex, input);
    FinishIsRepaired(lex, Process(lex, INITIAL, input));
  }

  /** So it is the serialisation of a forest. */
  lemma EveryDocumentIsAForest(lex: Lexicon, input: string) returns (forest: seq<Node>)
    requires Finish(lex, Process(lex, INITIAL, input)).Some?
    ensures FlattenAll(forest) == Finish(lex, Process(lex, INITIAL, input)).value
  {
    hide Process, Finish, FlattenAll, Nest, Roots, TopText, AllWellFormed;
    EveryDocumentIsRepaired(lex, input);
    forest := BalancedIsForest(Finish(lex, Process(lex, INITIAL, input)).value);
  }

  predicate Shows(t: Token) { !t.Chr? || IsInk(t) }

  lemma TokenShows(t: Token)
    ensures AllSpace(RenderToken(t)) <==> !Shows(t)
  {
    assert !t.Chr? ==> RenderToken(t)[0] == '<';
    assert t.Chr? ==> RenderToken(t)[0] == t.c || RenderToken(t)[0] == '&';
  }

  lemma {:induction false} BlankIff(ts: seq<Token>)
    ensures AllSpace(Render(ts)) <==> forall k :: 0 <= k < |ts| ==> !Shows(ts[k])
    decreases |ts|
  {
    hide RenderToken, IsSpace, Shows;
    if ts != [] {
      var init, k := ts[..|ts| - 1], ts[|ts| - 1];
      BlankIff(init);
      TokenShows(k);
      SpaceParts(Render(init), RenderToken(k));
      assert forall i :: 0 <= i < |init| ==> init[i] == ts[i];
    }
  }

  lemma SpaceParts(a: string, b: string)
    ensures AllSpace(a + b) <==> AllSpace(a) && AllSpace(b)
  {
    hide IsSpace;
    if AllSpace(a + b) {
      forall k | 0 <= k < |a| ensures IsSpace(a[k]) { assert (a + b)[k] == a[k]; }
      forall k | 0 <= k < |b| ensures IsSpace(b[k]) { assert (a + b)[|a| + k] == b[k]; }
    }
  }

  /** Input is refused as empty exactly when it produced nothing but white space. */
  lemma EmptyIffBlank(lex: Lexicon, input: string)
    ensures var p := Process(lex, INITIAL, input);
      Finish(lex, p).None? <==> forall k :: 0 <= k < |Closed(lex, p).out| ==> !Shows(Closed(lex, p).out[k])
  {
    hide Process, Closed, Render, Shows, AllSpace;
    BlankIff(Closed(lex, Process(lex, INITIAL, input)).out);
  }
}
