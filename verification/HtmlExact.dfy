/** Exactly which documents come out unchanged. */
module HtmlExact {
  import opened Bytes
  import opened HtmlTokens
  import opened HtmlTree
  import opened HtmlTokenizer
  import opened HtmlRepair
  import opened HtmlGrowth
  import opened HtmlFaithful

  // ----- A difference that stays -----

  /** The whole run after part of the document, from a parser that has started. */
  const STARTED := INITIAL.(started := true)

  lemma RunIsGood(lex: Lexicon, s: string)
    ensures Good(lex, Process(lex, STARTED, s))
  {
    hide Process, Stable;
    NestingIsStable(lex);
    NoAttrs();
    assert Names([]) == [];
    ProcessHolds(lex, Nesting(), STARTED, s);
  }

  /** What is written stays written up to the end. */
  lemma OutputStays(lex: Lexicon, s: string, rest: string)
    ensures Beyond(Process(lex, STARTED, s).tree, Closed(lex, Process(lex, STARTED, s + rest)))
  {
    hide Process, Settle, EndOfInput, PopTo, Stable, Beyond, Shape, Tidy, PiRests;
    StartedShape();
    RunIsGood(lex, s);
    var q := Process(lex, STARTED, s);
    var base := q.tree;
    BeyondItself(base);
    GrewIsStable(lex, base);
    ProcessHolds(lex, Grew(base), q, rest);
    ChunksDoNotMatter(lex, STARTED, s, rest);
    var p := Process(lex, STARTED, s + rest);
    RunHolds(lex, Grew(base), p);
    var u := EndOfInput(Settle(lex, p));
    PopToCloses(u, 0);
    BeyondCloses(base, u, PopTo(u, 0));
  }

  lemma StartedShape()
    ensures Shape(STARTED)
  {
  }

  lemma BeyondItself(t: Tree)
    ensures Beyond(t, t)
  {
  }

  predicate AllRoots(ts: seq<Token>, k: nat)
    requires k < |ts|
  {
    forall i :: 0 <= i <= k ==> ts[i] == Open(ROOT, [])
  }

  lemma {:induction false} ShiftedRoots(ts: seq<Token>, out: seq<Token>, k: nat)
    requires ts == Wrap(out) && k < |ts| && k <= |out| && ts[..k] == out[..k]
    ensures AllRoots(ts, k)
    decreases k
  {
    if k > 0 {
      assert ts[..k - 1] == ts[..k][..k - 1] && out[..k - 1] == out[..k][..k - 1];
      ShiftedRoots(ts, out, k - 1);
      assert ts[k] == out[k - 1] == out[..k][k - 1] == ts[..k][k - 1] == ts[k - 1];
    }
  }

  /** An output that differs from the document in place `j`, or stops before it, is not the
      document, wrapped or not. */
  lemma Different(lex: Lexicon, ts: seq<Token>, p: Parser, k: nat, j: nat)
    requires Shape(p) && k <= j < |ts| && !AllRoots(ts, k)
    requires var out := Closed(lex, p).out; ts[..k] <= out && (j < |out| ==> out[j] != ts[j])
    ensures Finish(lex, p) != Some(ts)
  {
    hide Closed, Render, AllSpace, AllRoots;
    var out := Closed(lex, p).out;
    if ts == Wrap(out) {
      assert ts[..k] == out[..k];
      ShiftedRoots(ts, out, k);
    }
  }

  /** The first output that differs decides. */
  lemma Lost(lex: Lexicon, ts: seq<Token>, s: string, k: nat, j: nat)
    requires s <= Render(ts) && k <= j < |ts| && !AllRoots(ts, k)
    requires var out := Process(lex, STARTED, s).tree.out; ts[..k] <= out && j < |out| && out[j] != ts[j]
    ensures Finish(lex, Process(lex, STARTED, Render(ts))) != Some(ts)
  {
    hide Process, Closed, Render, Finish, AllRoots, Shape, Reopens;
    var rest := Render(ts)[|s|..];
    assert Render(ts) == s + rest;
    StartedShape();
    OutputStays(lex, s, rest);
    var p := Process(lex, STARTED, Render(ts));
    Different(lex, ts, p, k, j);
  }

  /** So does a container tag that is dropped. */
  lemma LostContainer(lex: Lexicon, ts: seq<Token>, s: string, k: nat)
    requires s <= Render(ts) && k < |ts| && !AllRoots(ts, k)
    requires var t := Process(lex, STARTED, s).tree; t.out == ts[..k] && Reopens(t, ts[k])
    ensures Finish(lex, Process(lex, STARTED, Render(ts))) != Some(ts)
  {
    hide Process, Closed, Render, Finish, AllRoots, Shape, Reopens;
    var rest := Render(ts)[|s|..];
    assert Render(ts) == s + rest;
    StartedShape();
    OutputStays(lex, s, rest);
    Different(lex, ts, Process(lex, STARTED, Render(ts)), k, k);
  }

  // ----- Places in a document -----

  lemma {:induction false} RenderPrefix(ts: seq<Token>, m: nat)
    requires m <= |ts|
    ensures Render(ts[..m]) <= Render(ts)
    decreases |ts| - m
  {
    if m == |ts| {
      assert ts[..m] == ts;
    } else {
      assert ts[..m + 1][..m] == ts[..m];
      RenderPrefix(ts, m + 1);
    }
  }

  lemma RenderThrough(ts: seq<Token>, k: nat)
    requires k < |ts|
    ensures Render(ts[..k]) + RenderToken(ts[k]) <= Render(ts)
  {
    hide RenderToken;
    RenderPrefix(ts, k + 1);
    var front := ts[..k + 1];
    assert front[..|front| - 1] == ts[..k] && front[|front| - 1] == ts[k];
  }

  /** The text up to and including a part of token `k`. */
  lemma RenderPart(ts: seq<Token>, k: nat, part: string)
    requires k < |ts| && part <= RenderToken(ts[k])
    ensures Render(ts[..k]) + part <= Render(ts)
  {
    hide *;
    RenderThrough(ts, k);
    PrefixPart(Render(ts[..k]), RenderToken(ts[k]), part, Render(ts));
  }

  lemma PrefixPart(a: string, b: string, part: string, whole: string)
    requires a + b <= whole && part <= b
    ensures a + part <= whole
  {
    assert part == b[..|part|];
    assert a + part == (a + b)[..|a| + |part|];
    assert (a + b)[..|a| + |part|] == whole[..|a| + |part|];
  }

  lemma {:induction false} NestPrefix(ts: seq<Token>, m: nat)
    requires m <= |ts| && Nest(ts).Some?
    ensures Nest(ts[..m]).Some?
    decreases |ts|
  {
    if m < |ts| {
      var init := ts[..|ts| - 1];
      NestPrefix(init, m);
      assert init[..m] == ts[..m];
    } else {
      assert ts[..m] == ts;
    }
  }

  /** Where the parser stands before token `k` of a document accepted so far. */
  predicate Reached(lex: Lexicon, ts: seq<Token>, k: nat, t: Tree) {
    && k < |ts| && Repaired(ts) && t.out == ts[..k] && Sound(t)
    && var q := Process(lex, STARTED, Render(ts[..k])); Stands(q, StateFor(Mode(t)), t, q.tag)
  }

  lemma Reaches(lex: Lexicon, ts: seq<Token>, k: nat)
    requires k < |ts| && Repaired(ts) && Standard(lex) && Orderly(lex, ts[..k])
    ensures Reached(lex, ts, k, Built(ts[..k]))
  {
    hide Process, Orderly, Built, Sound, Render, WellFormed, Nest, Roots, TopText, Mode, StateFor, Stands;
    assert AllWellFormed(ts[..k]);
    assert Stands(STARTED, Data, EMPTY_TREE, NO_TAG) by { StandsAtFirst(); }
    DocumentPasses(lex, STARTED, NO_TAG, ts[..k]);
    BuiltIs(lex, ts[..k]);
  }

  lemma StandsAtFirst()
    ensures Stands(STARTED, Data, EMPTY_TREE, NO_TAG)
  {
  }

  /** A part of token `k` brings the parser from where it stands to `q`. */
  lemma PartRuns(lex: Lexicon, ts: seq<Token>, k: nat, t: Tree, part: string)
    requires Reached(lex, ts, k, t)
    ensures Process(lex, STARTED, Render(ts[..k]) + part) == Process(lex, Process(lex, STARTED, Render(ts[..k])), part)
  {
    hide Process;
    StartedShape();
    ChunksDoNotMatter(lex, STARTED, Render(ts[..k]), part);
  }

  // ----- Carriage returns -----

  lemma ReturnEmits(lex: Lexicon, p: Parser, s: State, t: Tree, g: Tag)
    requires Stands(p, s, t, g) && TextPlace(s)
    ensures Process(lex, p, "\r").tree == EmitText(t, '\n')
  {
    hide Look, Process, EmitText, TextStep;
    var q := p.(prevCr := true);
    EmitsIs(q, '\n');
    EmitsInText(s, '\n');
    LookText(lex, q, '\n');
    ReturnIs(lex, p, q.(tree := EmitText(t, '\n')));
  }

  lemma LostReturn(lex: Lexicon, ts: seq<Token>, k: nat, t: Tree)
    requires Reached(lex, ts, k, t) && ts[k] == Chr('\r') && !AllRoots(ts, k)
    ensures Finish(lex, Process(lex, STARTED, Render(ts))) != Some(ts)
  {
    hide Process, Render, Finish, Repaired, Sound, AllRoots, Shape, ModeAt;
    StartedShape();
    var q := Process(lex, STARTED, Render(ts[..k]));
    ReturnEmits(lex, q, StateFor(Mode(t)), t, q.tag);
    PartRuns(lex, ts, k, t, "\r");
    RenderPart(ts, k, "\r");
    NewlineIsXml();
    Lost(lex, ts, Render(ts[..k]) + "\r", k, k);
  }

  // ----- Tags and instructions read as text -----

  lemma LessEmits(t: Tree)
    ensures EmitString(t, "<").out == t.out + [Chr('<')]
  {
    SayOne(t, '<');
  }

  /** What a state has said before it hands a character on is in the output afterwards. */
  lemma SaidStays(lex: Lexicon, p: Parser, r: Parser, c: char)
    requires Good(lex, p) && Ready(p) && c != '\r' && Look(lex, p, c) == Next(r, true)
    ensures r.tree.out <= Process(lex, p, [c]).tree.out
  {
    hide Look, Stable, Process, Inv, Tidy;
    LookSettles(lex, p, c);
    NestingIsStable(lex);
    PiRestsFits(lex, p, c);
    LookSane(lex, Nesting(), p, c);
    BeyondItself(r.tree);
    GrewIsStable(lex, r.tree);
    StepStateHolds(lex, Grew(r.tree), r, c);
    assert StepState(lex, p, c) == StepState(lex, r, c);
    StepsOn(lex, p, c);
    hide StepState, PiFits, PiRests;
    var q := StepState(lex, p, c);
    GrewIsStable(lex, r.tree);
    ProcessHolds(lex, Grew(r.tree), q, []);
  }

  lemma StepsOn(lex: Lexicon, p: Parser, c: char)
    requires Ready(p) && c != '\r'
    ensures var q := StepState(lex, p, c); Shape(q) && Process(lex, p, [c]) == Process(lex, q, [])
  {
    StepKeeps(lex, p, c);
    assert p.(started := true) == p && p.(prevCr := false) == p;
    assert [c][1..] == [];
    hide StepState;
  }

  /** After a `<` that begins no tag, the `<` is in the output. */
  lemma RawMarkup(lex: Lexicon, p: Parser, k: RawKind, t: Tree, g: Tag, c: char)
    requires Stands(p, RawState(k), t, g) && RawPlace(k) && Good(lex, p) && c != '/' && c != '!' && c != '\r'
    ensures t.out + [Chr('<')] <= Process(lex, p, ['<', c]).tree.out
  {
    hide Process, Shape, Look, Inv, Tidy, PiRests, Stable, RawState;
    ShapeOf(p, RawState(k), t, g);
    RawLess(lex, p, k, t, g);
    var q := Process(lex, p, "<");
    NestingIsStable(lex);
    ProcessHolds(lex, Nesting(), p, "<");
    ShapeOf(q, RawLt(k), t, g);
    var r := Retry(Say(q, "<"), RawState(k)).p;
    RawOther(lex, q, k, t, g, c);
    SaidStays(lex, q, r, c);
    LessEmits(t);
    ChunksDoNotMatter(lex, p, "<", [c]);
    assert "<" + [c] == ['<', c];
  }

  lemma RawOther(lex: Lexicon, p: Parser, k: RawKind, t: Tree, g: Tag, c: char)
    requires Stands(p, RawLt(k), t, g) && RawPlace(k) && c != '/' && c != '!'
    ensures Look(lex, p, c) == Retry(Say(p, "<"), RawState(k)) && Say(p, "<").tree == EmitString(t, "<")
  {
    hide Look, EmitString, RawState, RawEndOpenStep, RawEndNameStep;
    LookRaw(lex, p, c);
  }

  lemma DataMarkup(lex: Lexicon, p: Parser, t: Tree, g: Tag, c: char)
    requires Stands(p, Data, t, g) && Good(lex, p) && !IsAlpha(c) && c != '/' && c != '!' && c != '?' && c != '\r'
    ensures t.out + [Chr('<')] <= Process(lex, p, ['<', c]).tree.out
  {
    hide Process, Shape, Look, Inv, Tidy, PiRests, Stable, IsAlpha;
    ShapeOf(p, Data, t, g);
    LessThan(lex, p, t, g);
    var q := Process(lex, p, "<");
    NestingIsStable(lex);
    ProcessHolds(lex, Nesting(), p, "<");
    ShapeOf(q, TagOpen, t, g);
    var r := Retry(Say(q, "<"), Data).p;
    DataOther(lex, q, t, g, c);
    SaidStays(lex, q, r, c);
    LessEmits(t);
    ChunksDoNotMatter(lex, p, "<", [c]);
    assert "<" + [c] == ['<', c];
  }

  lemma DataOther(lex: Lexicon, p: Parser, t: Tree, g: Tag, c: char)
    requires Stands(p, TagOpen, t, g) && !IsAlpha(c) && c != '/' && c != '!' && c != '?'
    ensures Look(lex, p, c) == Retry(Say(p, "<"), Data) && Say(p, "<").tree == EmitString(t, "<")
  {
    hide Look, EmitString, IsAlpha;
    LookTag(lex, p, c);
  }

  /** The first two characters of a tag or an instruction that is no end tag. */
  lemma OpeningText(k: Token)
    requires WellFormed(k) && (IsElement(k) || k.Pi?)
    ensures |RenderToken(k)| >= 2 && RenderToken(k)[0] == '<'
    ensures var c := RenderToken(k)[1];
      c != '/' && c != '!' && c != '\r' && (IsElement(k) ==> c == k.name[0] && c != '?')
  {
    hide RenderAttrs;
  }

  /** A tag or an instruction that is read as text. */
  lemma LostMarkup(lex: Lexicon, ts: seq<Token>, k: nat, t: Tree)
    requires Reached(lex, ts, k, t) && (IsElement(ts[k]) || ts[k].Pi?) && !AllRoots(ts, k)
    requires Mode(t) == Normal ==> IsElement(ts[k]) && !IsAlpha(ts[k].name[0])
    ensures Finish(lex, Process(lex, STARTED, Render(ts))) != Some(ts)
  {
    hide Process, Render, Finish, Nest, Roots, TopText, Regular, AllRoots, Shape, ModeAt, WellFormed, RenderToken,
      IsAlpha, Good;
    StartedShape();
    var q, x := Process(lex, STARTED, Render(ts[..k])), ts[k];
    RunIsGood(lex, Render(ts[..k]));
    OpeningText(x);
    var c := RenderToken(x)[1];
    if Mode(t) == Normal {
      DataMarkup(lex, q, t, q.tag, c);
    } else {
      RawMarkup(lex, q, KindOf(Mode(t)), t, q.tag, c);
    }
    PartRuns(lex, ts, k, t, ['<', c]);
    assert ['<', c] <= RenderToken(x);
    RenderPart(ts, k, ['<', c]);
    var out := Process(lex, STARTED, Render(ts[..k]) + ['<', c]).tree.out;
    assert (t.out + [Chr('<')])[k] == Chr('<') && out[k] == Chr('<') && ts[..k] <= out;
    Lost(lex, ts, Render(ts[..k]) + ['<', c], k, k);
  }

  // ----- Tags the tree builder changes -----

  function TagToken(n: string, attrs: seq<Attr>, empty: bool): Token {
    if empty then Empty(n, attrs) else Open(n, attrs)
  }

  lemma ImageNames(n: string)
    ensures SameName(n, "image") ==>
      !AnyOf(StartName(n), HTML_CONTAINERS) && Normalize(StartName(n)) == "img" && n != "img"
  {
    if SameName(n, "image") {
      assert IsName("img");
      NormalizeIsName("img");
      assert AnyOf("img", HTML_CONTAINERS) ==> |"img"| == 4;
    }
  }

  /** Tags are added behind what is there; only a container that is open already adds nothing. */
  lemma TagAdds(t: Tree, n: string, attrs: seq<Attr>, empty: bool)
    ensures var r := StartTag(t, n, attrs, empty).t;
      t.out <= r.out && (|r.out| == |t.out| ==> r.out == t.out && Reopens(t, TagToken(n, attrs, empty)))
  {
    hide StartTag, Normalize, IsVoid, IsForeignName, SameName, AnyOf, OnStack, BreakOut, AutoClose, IsBreakout;
    StartAdds(t, n, attrs, empty);
    ImageNames(n);
    var r := StartTag(t, n, attrs, empty).t;
    if |r.out| == |t.out| {
      assert r.out == t.out;
    }
  }

  /** A tag that comes out as it went in was read without change and touched by no rule. */
  lemma TagSurvives(t: Tree, n: string, attrs: seq<Attr>, empty: bool)
    requires Regular(t) && IsName(n) && Tidy(attrs)
    requires var r := StartTag(t, n, ReadAttrs(attrs), empty).t;
      |r.out| > |t.out| && r.out[|t.out|] == TagToken(n, attrs, empty)
    ensures PlainAttrs(attrs) && Untouched(t, n, attrs) && (t.foreignDepth > 0 || (IsVoid(n) <==> empty))
  {
    hide StartTag, Normalize, IsVoid, IsForeignName, SameName, AnyOf, OnStack, BreakOut, AutoClose, IsBreakout, Scoped,
      Proper,
      Nest, Roots, TopText, AllWellFormed, IsName, ReadAttrs, Tidy, PlainAttrs;
    var b, name := ReadAttrs(attrs), StartName(n);
    StartAdds(t, n, b, empty);
    ImageNames(n);
    NormalizeIsName(n);
    ReadAttrsTidy(attrs);
    ForeignIsOpen(t);
    BreakingShows(t, name, b);
    var u := Before(t, name, b);
    var r := StartTag(t, n, b, empty).t;
    assert u.out == t.out && u == t;
    assert !Dropped(t, name, b);
    assert r.out[|t.out|].attrs == b && r.out[|t.out|].name == Normalize(name);
    assert b == attrs && name == n;
  }

  lemma BreakingShows(t: Tree, name: string, attrs: seq<Attr>)
    requires t.foreignDepth > 0 ==> t.stack != []
    ensures t.foreignDepth > 0 && IsBreakout(name, attrs) ==> Before(t, name, attrs).out != t.out
  {
    hide BreakOut, AutoClose, IsBreakout, AnyOf, OnStack;
    BreakOutCloses(t);
    AutoCloseCloses(BreakOut(t), name);
  }

  lemma ForeignIsOpen(t: Tree)
    requires Nests(t)
    ensures t.foreignDepth > 0 ==> t.stack != []
  {
  }

  /** A start tag that is not accepted, in ordinary content. */
  lemma LostTag(lex: Lexicon, ts: seq<Token>, k: nat, t: Tree, n: string, attrs: seq<Attr>, empty: bool)
    requires Reached(lex, ts, k, t) && Standard(lex) && Mode(t) == Normal && ts[k] == TagToken(n, attrs, empty)
      && PlainName(n) && Tidy(attrs)
    requires !(PlainAttrs(attrs) && Untouched(t, n, attrs) && (t.foreignDepth > 0 || (IsVoid(n) <==> empty)))
      && !AllRoots(ts, k)
    ensures Finish(lex, Process(lex, STARTED, Render(ts))) != Some(ts)
  {
    hide Process, Render, Finish, Repaired, Regular, AllRoots, Shape, ModeAt, RenderToken, IsName, IsAlpha, StartTag,
      ReadAttrs, PlainAttrs,
      Untouched, IsVoid, Tidy, Standard, Reopens;
    StartedShape();
    var q, x := Process(lex, STARTED, Render(ts[..k])), RenderToken(ts[k]);
    StartPasses(lex, q, t, q.tag, n, attrs, empty);
    PartRuns(lex, ts, k, t, x);
    RenderPart(ts, k, x);
    var r := StartTag(t, n, ReadAttrs(attrs), empty).t;
    TagAdds(t, n, ReadAttrs(attrs), empty);
    if |r.out| == |t.out| {
      SameReopens(t, n, attrs, ReadAttrs(attrs), empty);
      TagAddsNothing(t, n, ReadAttrs(attrs), empty);
      LostContainer(lex, ts, Render(ts[..k]) + x, k);
    } else {
      if r.out[k] == ts[k] {
        TagSurvives(t, n, attrs, empty);
      }
      Lost(lex, ts, Render(ts[..k]) + x, k, k);
    }
  }

  lemma TagAddsNothing(t: Tree, n: string, attrs: seq<Attr>, empty: bool)
    requires var r := StartTag(t, n, attrs, empty).t; |r.out| == |t.out|
    ensures StartTag(t, n, attrs, empty).t == t
  {
    hide StartTag, Normalize, IsVoid, IsForeignName, SameName, AnyOf, OnStack, BreakOut, AutoClose, IsBreakout, Before;
    StartAdds(t, n, attrs, empty);
  }

  lemma SameReopens(t: Tree, n: string, attrs: seq<Attr>, attrs': seq<Attr>, empty: bool)
    ensures Reopens(t, TagToken(n, attrs, empty)) == Reopens(t, TagToken(n, attrs', empty))
  {
  }

  // ----- Text of raw elements -----

  lemma {:induction false} RawText(lex: Lexicon, p: Parser, s: State, w: string, t: Tree, g: Tag)
    requires Stands(p, s, t, g) && forall i :: 0 <= i < |w| ==> Emits(s, w[i]) && w[i] != '\r'
    ensures Stands(Process(lex, p, w), s, EmitString(t, w), g)
    decreases |w|
  {
    hide Process, Shape, Emits, EmitText;
    if w == [] {
      ProcessNothing(lex, p);
    } else {
      var init, c := w[..|w| - 1], w[|w| - 1];
      assert w == init + [c];
      RawText(lex, p, s, init, t, g);
      PlainChar(lex, Process(lex, p, init), s, c, EmitString(t, init), g);
      ChunksDoNotMatter(lex, p, init, [c]);
    }
  }

  lemma {:induction false} EmitOut(t: Tree, w: string, i: nat)
    requires i < |w|
    ensures var u := EmitString(t, w);
      t.out <= u.out && |u.out| == |t.out| + |w| && u.out[|t.out| + i] == Chr(XmlSafe(w[i]))
    decreases |w|
  {
    hide XmlSafe, IsSpace;
    var init := w[..|w| - 1];
    if init != [] {
      EmitOut(t, init, if i < |init| then i else 0);
    }
  }

  predicate IsRun(ts: seq<Token>) { forall i :: 0 <= i < |ts| ==> ts[i].Chr? && ts[i].c != '\r' }

  /** Text renders to at least as many characters, to more if it holds markup characters, none of them `<`. */
  lemma {:induction false} RunText(ts: seq<Token>)
    requires IsRun(ts)
    ensures var w := Render(ts); |w| >= |ts| && (forall i :: 0 <= i < |w| ==> w[i] != '<' && w[i] != '\r')
    ensures ts != [] && IsMarkup(ts[0].c) ==> |Render(ts)| > |ts|
    decreases |ts|
  {
    if ts != [] {
      RunText(ts[..|ts| - 1]);
    }
  }

  lemma {:induction false} RenderSplit(ts: seq<Token>, k: nat, j: nat)
    requires k <= j <= |ts|
    ensures Render(ts[..j]) == Render(ts[..k]) + Render(ts[k..j])
    decreases j
  {
    hide RenderToken;
    if k == j {
      assert ts[k..j] == [];
    } else {
      RenderSplit(ts, k, j - 1);
      assert ts[..j][..j - 1] == ts[..j - 1] && ts[k..j][..j - k - 1] == ts[k..j - 1];
    }
  }

  lemma {:induction false} TextKeepsNest(ts: seq<Token>, k: nat)
    requires k <= |ts| && forall i :: k <= i < |ts| ==> ts[i].Chr?
    ensures Nest(ts) == Nest(ts[..k])
    decreases |ts|
  {
    if k < |ts| {
      var init := ts[..|ts| - 1];
      TextKeepsNest(init, k);
      assert init[..k] == ts[..k];
      hide NestOne;
      TextNests(Nest(init), ts[|ts| - 1]);
    } else {
      assert ts[..k] == ts;
    }
  }

  lemma TextNests(open: Option<seq<string>>, t: Token)
    requires t.Chr?
    ensures NestOne(open, t) == open
  {
  }

  /** Text inside an element ends before the document does. */
  lemma {:induction false} FirstBreak(ts: seq<Token>, k: nat, from: nat) returns (j: nat)
    requires from <= k <= |ts| && IsRun(ts[from..k]) && Nest(ts) == Some([]) && Nest(ts[..from]) != Some([])
    ensures k <= j < |ts| && IsRun(ts[from..j]) && !(ts[j].Chr? && ts[j].c != '\r')
    decreases |ts| - k
  {
    hide Nest;
    if k == |ts| {
      forall i | from <= i < |ts| ensures ts[i].Chr? { assert ts[from..k][i - from] == ts[i]; }
      TextKeepsNest(ts, from);
      assert false;
    } else if ts[k].Chr? && ts[k].c != '\r' {
      assert ts[from..k + 1] == ts[from..k] + [ts[k]];
      j := FirstBreak(ts, k + 1, from);
    } else {
      j := k;
    }
  }

  lemma OpenHere(t: Tree)
    requires Nests(t) && t.stack != []
    ensures Nest(t.out) != Some([])
  {
  }

  /** Markup characters in raw text come out escaped twice. */
  lemma LostRawText(lex: Lexicon, ts: seq<Token>, k: nat, t: Tree)
    requires Reached(lex, ts, k, t) && (Mode(t).Raw? || Mode(t).Script?) && ts[k].Chr? && IsMarkup(ts[k].c)
      && !AllRoots(ts, k)
    ensures Finish(lex, Process(lex, STARTED, Render(ts))) != Some(ts)
  {
    hide Process, Render, Finish, Nest, Roots, TopText, AllWellFormed, AllRoots, Shape, Scoped, Proper, ModeOf, XmlSafe,
      Emits;
    StartedShape();
    var q, s := Process(lex, STARTED, Render(ts[..k])), StateFor(Mode(t));
    OpenHere(t);
    assert IsRun(ts[k..k]);
    var j := FirstBreak(ts, k, k);
    var run := ts[k..j];
    var w := Render(run);
    RunText(run);
    assert run[0] == ts[k];
    RawEmits(s, w);
    RawText(lex, q, s, w, t, q.tag);
    PartRuns(lex, ts, k, t, w);
    RenderSplit(ts, k, j);
    RenderPrefix(ts, j);
    EmitOut(t, w, j - k);
    NewlineIsXml();
    Lost(lex, ts, Render(ts[..j]), k, j);
  }

  lemma RawEmits(s: State, w: string)
    requires (s.Rawtext? || s.ScriptData? || s.Plaintext?) && forall i :: 0 <= i < |w| ==> w[i] != '<' && w[i] != '\r'
    ensures forall i :: 0 <= i < |w| ==> Emits(s, w[i]) && w[i] != '\r'
  {
  }

  // ----- Plain text to the end -----

  /** In plain text the first character of anything is text. */
  lemma PlaintextGoesOn(lex: Lexicon, p: Parser, t: Tree, g: Tag, w: string, c: char)
    requires Stands(p, Plaintext, t, g) && (c == '<' || c == '\r')
    requires forall i :: 0 <= i < |w| ==> w[i] != '<' && w[i] != '\r'
    ensures Process(lex, p, w + [c]).tree == EmitString(t, w + [if c == '\r' then '\n' else c])
  {
    hide Process, Shape, EmitText, Emits;
    RawEmits(Plaintext, w);
    RawText(lex, p, Plaintext, w, t, g);
    var q, u := Process(lex, p, w), EmitString(t, w);
    ChunksDoNotMatter(lex, p, w, [c]);
    assert (w + ['<'])[..|w|] == w && (w + ['\n'])[..|w|] == w;
    if c == '\r' {
      ReturnEmits(lex, q, Plaintext, u, g);
    } else {
      PlaintextEmits();
      PlainChar(lex, q, Plaintext, c, u, g);
    }
  }

  lemma PlaintextEmits()
    ensures Emits(Plaintext, '<')
  {
  }

  predicate OpensPlaintext(t: Tree, n: string, attrs: seq<Attr>) {
    && PlainName(n) && PlainAttrs(attrs) && Untouched(t, n, attrs) && (t.foreignDepth > 0 || !IsVoid(n))
    && ModeOf(n, t.foreignDepth > 0) == Plain
  }

  /** A plaintext element swallows its own end tag. */
  lemma LostPlaintext(lex: Lexicon, ts: seq<Token>, k: nat, t: Tree, n: string, attrs: seq<Attr>)
    requires Reached(lex, ts, k, t) && Standard(lex) && ts[k] == Open(n, attrs) && Mode(t) == Normal && !AllRoots(ts, k)
    requires OpensPlaintext(t, n, attrs)
    ensures Finish(lex, Process(lex, STARTED, Render(ts))) != Some(ts)
  {
    hide Process, Render, Finish, Nest, Roots, TopText, AllWellFormed, AllRoots, Shape, Regular, ModeOf, ModeAt,
      XmlSafe, RenderToken, StartTag, IsName,
      Untouched, IsVoid, PlainAttrs, IsAlpha, Standard, IsForeignName, ReadAttrs, EmitString;
    StartedShape();
    var q := Process(lex, STARTED, Render(ts[..k]));
    PlainAttrsTidy(attrs);
    StartPasses(lex, q, t, q.tag, n, attrs, false);
    StartsPlainly(t, n, attrs);
    var u := StartTag(t, n, attrs, false).t;
    PartRuns(lex, ts, k, t, RenderToken(ts[k]));
    assert ts[..k + 1] == ts[..k] + [ts[k]];
    RenderSnoc(ts[..k], ts[k]);
    NestPrefix(ts, k);
    OpensElement(ts[..k], ts[k]);
    assert IsRun(ts[k + 1..k + 1]);
    var j := FirstBreak(ts, k + 1, k + 1);
    PlaintextEnds(lex, ts, k, j, u);
  }

  lemma PlainAttrsTidy(attrs: seq<Attr>)
    requires PlainAttrs(attrs)
    ensures Tidy(attrs) && ReadAttrs(attrs) == attrs
  {
    TidyIs(attrs);
    hide Tidy, ReadAttrs;
    ReadAttrsTidy(attrs);
  }

  lemma OpensElement(ts: seq<Token>, t: Token)
    requires t.Open? && Nest(ts).Some?
    ensures Nest(ts + [t]) != Some([])
  {
    NestSnoc(ts, t);
  }

  lemma PlaintextEnds(lex: Lexicon, ts: seq<Token>, k: nat, j: nat, u: Tree)
    requires k < j < |ts| && IsRun(ts[k + 1..j]) && !(ts[j].Chr? && ts[j].c != '\r') && !AllRoots(ts, k)
      && u.out == ts[..k + 1]
    requires var q := Process(lex, STARTED, Render(ts[..k + 1])); Stands(q, Plaintext, u, q.tag)
    ensures Finish(lex, Process(lex, STARTED, Render(ts))) != Some(ts)
  {
    hide Process, Render, Finish, AllRoots, Shape, XmlSafe, RenderToken, EmitString;
    StartedShape();
    var q, w, c := Process(lex, STARTED, Render(ts[..k + 1])), Render(ts[k + 1..j]), if ts[j].Chr? then '\r' else '<';
    RunText(ts[k + 1..j]);
    PlaintextGoesOn(lex, q, u, q.tag, w, c);
    ChunksDoNotMatter(lex, STARTED, Render(ts[..k + 1]), w + [c]);
    RenderSplit(ts, k + 1, j);
    FirstOf(ts[j]);
    RenderPart(ts, j, [c]);
    var s := Render(ts[..j]) + [c];
    assert s == Render(ts[..k + 1]) + (w + [c]);
    var x := w + [if c == '\r' then '\n' else c];
    EmitOut(u, x, j - k - 1);
    NewlineIsXml();
    assert ts[..k] <= ts[..k + 1];
    Lost(lex, ts, s, k, j);
  }

  lemma FirstOf(t: Token)
    requires !(t.Chr? && t.c != '\r')
    ensures [if t.Chr? then '\r' else '<'] <= RenderToken(t)
  {
    hide RenderAttrs;
  }

  // ----- The theorem -----

  lemma {:induction false} FirstRefused(lex: Lexicon, ts: seq<Token>) returns (k: nat)
    requires !Orderly(lex, ts)
    ensures k < |ts| && Orderly(lex, ts[..k]) && !Accepts(lex, Built(ts[..k]), ts[k])
    decreases |ts|
  {
    hide Accepts, Built;
    var init := ts[..|ts| - 1];
    if Orderly(lex, init) {
      k := |ts| - 1;
    } else {
      k := FirstRefused(lex, init);
      assert init[..k] == ts[..k] && init[k] == ts[k];
    }
  }

  /** The synthetic root is never touched in ordinary content. */
  lemma RootIsAccepted(lex: Lexicon, t: Tree)
    requires Mode(t) == Normal
    ensures Accepts(lex, t, Open(ROOT, []))
  {
    RootIsName();
    RootIsOrdinary(t);
    hide ModeAt, AutoClose, OnStack, IsVoid, IsName, SameName, AnyOf, IsBreakout, ModeOf;
  }

  lemma OtherName(a: string, b: string)
    requires a != [] && b != [] && Lower(a[0]) != Lower(b[0])
    ensures !SameName(a, b)
  {
  }

  lemma RootWord()
    ensures LowerShort(ROOT, 10) == Some("root") && LowerShort(ROOT, 11) == Some("root")
  {
    assert LowerAll(ROOT) == "root";
  }

  lemma RootNames()
    ensures !SameName(ROOT, "image") && !SameName(ROOT, "font") && !AnyOf(ROOT, HTML_CONTAINERS)
  {
    OtherName(ROOT, "html");
    OtherName(ROOT, "head");
    OtherName(ROOT, "body");
    OtherName(ROOT, "font");
    OtherName(ROOT, "image");
    hide SameName;
  }

  lemma RootIsNoBreakout()
    ensures !IsBreakoutElement(ROOT)
  {
    FourLetters(ROOT);
  }

  lemma FourLetters(n: string)
    requires |n| == 4 && Lower(n[0]) == 'r' && Lower(n[1]) == 'o'
    ensures !IsBreakoutElement(n)
  {
    var w := LowerAll(n);
    assert |w| == 4 && w[0] == 'r' && w[1] == 'o';
  }

  lemma RootIsOrdinary(t: Tree)
    ensures !SameName(ROOT, "image") && !IsBreakout(ROOT, []) && !AnyOf(ROOT, HTML_CONTAINERS)
      && AutoClose(t, ROOT) == t
    ensures !IsVoid(ROOT) && ModeOf(ROOT, true) == Normal && ModeOf(ROOT, false) == Normal
  {
    hide CloseThrough, PopIf, LowerShort, SameName, AnyOf, IsBreakoutElement;
    RootWord();
    RootNames();
    RootIsNoBreakout();
    var w := "root";
    assert w[0] == 'r';
    assert w != "area" && w != "base" && w != "link" && w != "meta";
  }

  lemma {:induction false} RootsOnly(ts: seq<Token>)
    requires forall i :: 0 <= i < |ts| ==> ts[i] == Open(ROOT, [])
    ensures Nest(ts).Some? && forall i :: 0 <= i < |Nest(ts).value| ==> Nest(ts).value[i] == ROOT
    decreases |ts|
  {
    if ts != [] {
      RootsOnly(ts[..|ts| - 1]);
    }
  }

  /** A refused token is never one of a row of synthetic roots. */
  lemma RefusedIsNoRoot(lex: Lexicon, ts: seq<Token>, k: nat, t: Tree)
    requires Reached(lex, ts, k, t) && !Accepts(lex, t, ts[k])
    ensures !AllRoots(ts, k)
  {
    hide Process, Render, Accepts, Repaired, Stands, Proper, Scoped, ModeOf, Roots, TopText, AllWellFormed, Nest;
    if AllRoots(ts, k) {
      RootsOnly(ts[..k]);
      RootIsOrdinary(t);
      if t.stack != [] {
        assert Names(t.stack)[|t.stack| - 1] == ROOT;
      }
      RootIsAccepted(lex, t);
    }
  }

  /** A token refused in its place never leaves the document as it was. */
  lemma RefusedIsLost(lex: Lexicon, ts: seq<Token>, k: nat, t: Tree)
    requires Reached(lex, ts, k, t) && Standard(lex) && !Accepts(lex, t, ts[k]) && PisOk(lex, ts)
    ensures Finish(lex, Process(lex, STARTED, Render(ts))) != Some(ts)
  {
    hide Process, Render, Finish, Nest, Roots, TopText, AllRoots, Shape, Regular, ModeAt, Reached, Untouched, IsVoid,
      ModeOf, Standard,
      RenderToken, PiOk, PlainAttrs, AllWellFormed, Stands, IsName, IsAlpha;
    RefusedIsNoRoot(lex, ts, k, t);
    PlaceFacts(lex, ts, k, t);
    match ts[k]
    case Chr(c) =>
      if c == '\r' {
        LostReturn(lex, ts, k, t);
      } else {
        LostRawText(lex, ts, k, t);
      }
    case Open(n, attrs) =>
      RefusedTag(lex, ts, k, t, n, attrs, false);
    case Empty(n, attrs) =>
      RefusedTag(lex, ts, k, t, n, attrs, true);
    case Close(n) =>
      EndIsAccepted(lex, ts, k, t);
    case Pi(target, data) =>
      PlainData(lex, target, data);
      LostMarkup(lex, ts, k, t);
  }

  lemma PlaceFacts(lex: Lexicon, ts: seq<Token>, k: nat, t: Tree)
    requires Reached(lex, ts, k, t)
    ensures k < |ts| && WellFormed(ts[k]) && Mode(t) != Plain
  {
    hide Process, Render, Stands;
  }

  lemma PlainData(lex: Lexicon, target: string, data: string)
    requires SoundPi(target, data) && PiOk(lex, target, data)
    ensures PlainText(data)
  {
    hide TargetOk, IsXml, SameName;
  }

  lemma RefusedTag(lex: Lexicon, ts: seq<Token>, k: nat, t: Tree, n: string, attrs: seq<Attr>, empty: bool)
    requires Reached(lex, ts, k, t) && Standard(lex) && ts[k] == TagToken(n, attrs, empty) && !Accepts(lex, t, ts[k])
      && !AllRoots(ts, k)
    ensures Finish(lex, Process(lex, STARTED, Render(ts))) != Some(ts)
  {
    hide Process, Render, Finish, AllRoots, ModeAt, Reached, Untouched, IsVoid, ModeOf, Standard, RenderToken,
      PlainAttrs, IsName, IsAlpha,
      Distinct, NamedWell;
    PlaceFacts(lex, ts, k, t);
    TidyIs(attrs);
    NameIsNotEmpty(n);
    if Mode(t) != Normal || !IsAlpha(n[0]) {
      LostMarkup(lex, ts, k, t);
    } else if PlainAttrs(attrs) && Untouched(t, n, attrs) && (t.foreignDepth > 0 || (IsVoid(n) <==> empty)) {
      LostPlaintext(lex, ts, k, t, n, attrs);
    } else {
      LostTag(lex, ts, k, t, n, attrs, empty);
    }
  }

  lemma NameIsNotEmpty(n: string)
    ensures IsName(n) ==> n != []
  {
  }

  lemma EndIsAccepted(lex: Lexicon, ts: seq<Token>, k: nat, t: Tree)
    requires Reached(lex, ts, k, t) && ts[k].Close?
    ensures Accepts(lex, t, ts[k])
  {
    hide Process, Render, Stands, Roots, TopText, AllWellFormed, ModeOf, Scoped, Nest, PlainName, ForeignRoots;
    NestPrefix(ts, k + 1);
    assert ts[..k + 1] == ts[..k] + [ts[k]];
    NestSnoc(ts[..k], ts[k]);
  }

  /** Any sequence of tokens comes out as it went in exactly when it is a repaired document every
      token of which is accepted in its place. */
  lemma UnchangedIff(lex: Lexicon, ts: seq<Token>)
    requires Standard(lex)
    ensures Finish(lex, Process(lex, INITIAL, Render(ts))) == Some(ts) <==> Repaired(ts) && Orderly(lex, ts)
  {
    hide Process, Render, Finish, Repaired, Orderly, Accepts, Built, Standard, PisOk, Reached;
    EveryDocumentIsRepaired(lex, Render(ts));
    EveryInstructionIsOk(lex, Render(ts));
    if Repaired(ts) {
      if Orderly(lex, ts) {
        OrderlyPassesThrough(lex, ts);
      } else if PisOk(lex, ts) {
        var k := FirstRefused(lex, ts);
        Reaches(lex, ts, k);
        RefusedIsLost(lex, ts, k, Built(ts[..k]));
        SameRun(lex, ts);
      }
    }
  }

  lemma SameRun(lex: Lexicon, ts: seq<Token>)
    requires Repaired(ts)
    ensures Process(lex, INITIAL, Render(ts)) == Process(lex, STARTED, Render(ts))
  {
    hide Process, Render, Nest, TopText, AllWellFormed;
    NotEmptyDocument(ts);
    FirstCharacter(ts);
    StartedAlready(lex, INITIAL, Render(ts));
  }

  // ----- One element and its text -----

  function Chars(text: string): (r: seq<Token>)
    ensures |r| == |text| && forall i :: 0 <= i < |text| ==> r[i] == Chr(text[i])
  {
    seq(|text|, i requires 0 <= i < |text| => Chr(text[i]))
  }

  function Around(n: string, text: string): seq<Token> { [Open(n, [])] + Chars(text) + [Close(n)] }

  /** Whether an element of a kind hands its text on. */
  predicate KeepsText(mode: TextMode, text: string) {
    mode != Plain && forall i :: 0 <= i < |text| ==> KeepsChar(mode, text[i])
  }

  predicate PlainElement(n: string) { PlainName(n) && !SameName(n, "image") && !IsVoid(n) }

  lemma NothingToClose(n: string)
    ensures AutoClose(EMPTY_TREE, n) == EMPTY_TREE && !OnStack(EMPTY_TREE, n)
  {
    hide LowerShort;
  }

  lemma ElementOpens(lex: Lexicon, n: string)
    requires PlainElement(n)
    ensures var ts := [Open(n, [])];
      && Built(ts).stack == [OpenElement(n, IsForeignName(n))] && Mode(Built(ts)) == ModeOf(n, false)
      && (Orderly(lex, ts) <==> ModeOf(n, false) != Plain)
  {
    hide ModeOf, IsVoid, AutoClose, IsForeignName, SameName, OnStack, AnyOf, PlainName;
    var ts := [Open(n, [])];
    NothingToClose(n);
    ForeignNameIsNormal(n, true);
    ForeignNameIsNormal(n, false);
    assert ts[..0] == [];
    assert Built([]) == EMPTY_TREE;
    assert Built(ts).stack == [] + [OpenElement(n, IsForeignName(n))];
    NamesSnoc([], OpenElement(n, IsForeignName(n)));
    assert PlainAttrs([]);
  }

  /** An element that is still open, with its text so far. */
  function Opened(n: string, text: string): seq<Token> { [Open(n, [])] + Chars(text) }

  lemma OpenedSnoc(n: string, text: string)
    requires text != []
    ensures Opened(n, text) == Opened(n, text[..|text| - 1]) + [Chr(text[|text| - 1])]
  {
  }

  lemma {:induction false} ElementSoFar(lex: Lexicon, n: string, text: string)
    requires PlainElement(n) && PlainText(text)
    ensures var ts := Opened(n, text);
      && Built(ts).stack == [OpenElement(n, IsForeignName(n))] && Mode(Built(ts)) == ModeOf(n, false)
      && (Orderly(lex, ts) <==> KeepsText(ModeOf(n, false), text))
  {
    hide Built, Orderly, Mode, ModeOf, IsForeignName, IsXml, PlainElement, KeepsChar, Opened;
    if text == [] {
      OpenedNothing(n);
      ElementOpens(lex, n);
    } else {
      var init, c := text[..|text| - 1], text[|text| - 1];
      ElementSoFar(lex, n, init);
      OpenedSnoc(n, text);
      CharAdds(lex, Opened(n, init), c);
      assert init + [c] == text;
      KeepsMore(ModeOf(n, false), init, c);
    }
  }

  lemma OpenedNothing(n: string)
    ensures Opened(n, []) == [Open(n, [])]
  {
  }

  lemma CharAdds(lex: Lexicon, ts: seq<Token>, c: char)
    ensures var u := ts + [Chr(c)];
      && Built(u) == EmitText(Built(ts), c) && Mode(Built(u)) == Mode(Built(ts))
      && (Orderly(lex, u) <==> Orderly(lex, ts) && IsXml(c) && c != '\r' && KeepsChar(Mode(Built(ts)), c))
  {
    hide ModeAt, IsXml, KeepsChar;
    var u := ts + [Chr(c)];
    assert u[..|ts|] == ts && u[|ts|] == Chr(c);
  }

  lemma KeepsMore(mode: TextMode, text: string, c: char)
    ensures KeepsText(mode, text + [c]) <==> KeepsText(mode, text) && KeepsChar(mode, c)
  {
    hide KeepsChar;
    var s := text + [c];
    assert s[|text|] == c && forall i :: 0 <= i < |text| ==> s[i] == text[i];
  }

  lemma {:induction false} ElementNests(n: string, text: string)
    requires IsName(n) && PlainText(text)
    ensures var ts := Opened(n, text); Nest(ts) == Some([n]) && Roots(ts) == 1 && !TopText(ts) && AllWellFormed(ts)
  {
    hide Nest, Roots, TopText, AllWellFormed, IsXml, IsName, Opened;
    if text == [] {
      OpenedNothing(n);
      assert [Open(n, [])] == [] + [Open(n, [])] && [] + [n] == [n];
      NestSnoc([], Open(n, []));
      NothingNests();
      NoAttrs();
    } else {
      var init := text[..|text| - 1];
      ElementNests(n, init);
      OpenedSnoc(n, text);
      NestSnoc(Opened(n, init), Chr(text[|text| - 1]));
    }
  }

  lemma NothingNests()
    ensures Nest([]) == Some([]) && Roots([]) == 0 && !TopText([]) && AllWellFormed([])
  {
  }

  lemma ElementIsRepaired(n: string, text: string)
    requires PlainElement(n) && PlainText(text)
    ensures Repaired(Around(n, text))
  {
    hide SameName, IsVoid, IsXml, NameChar, NameStart, Nest, Roots, TopText, AllWellFormed;
    ElementNests(n, text);
    assert Around(n, text) == Opened(n, text) + [Close(n)];
    NestSnoc(Opened(n, text), Close(n));
    assert [n][..0] == [];
  }

  /** An element with text passes exactly when its kind hands the text on: always in ordinary and
      in escapable raw text, without `&`, `<` and `>` in raw text and scripts, never in plain text. */
  lemma ElementTextIff(lex: Lexicon, n: string, text: string)
    requires Standard(lex) && PlainElement(n) && PlainText(text)
    ensures Finish(lex, Process(lex, INITIAL, Render(Around(n, text)))) == Some(Around(n, text))
      <==> KeepsText(ModeOf(n, false), text)
  {
    hide Process, Finish, Render, Repaired, Built, ModeOf, IsVoid, SameName, PlainName, KeepsText, ModeAt;
    ElementIsRepaired(n, text);
    ElementSoFar(lex, n, text);
    UnchangedIff(lex, Around(n, text));
    var ts := Around(n, text);
    assert ts[..|ts| - 1] == Opened(n, text) && ts[|ts| - 1] == Close(n);
  }

  // ----- Raw text is escaped once more -----

  lemma RenderAround(n: string, text: string)
    ensures Render(Around(n, text)) == ("<" + n + ">") + Render(Chars(text)) + ("</" + n + ">")
  {
    hide RenderToken, Render;
    var ts := Around(n, text);
    var k := |text| + 1;
    assert ts[..k + 1] == ts && ts[k..k + 1] == [] + [Close(n)] && ts[..k][..k] == ts[..k];
    assert ts[..1] == [] + [Open(n, [])] && ts[1..k] == Chars(text);
    RenderSplit(ts, k, k + 1);
    RenderSplit(ts, 1, k);
    RenderSnoc([], Open(n, []));
    RenderSnoc([], Close(n));
    RenderNothing();
    BareTags(n);
  }

  lemma BareTags(n: string)
    ensures RenderToken(Open(n, [])) == "<" + n + ">" && RenderToken(Close(n)) == "</" + n + ">"
  {
    assert RenderAttrs([]) == [] && "<" + n + [] == "<" + n;
  }

  predicate RawElement(n: string) { PlainElement(n) && (ModeOf(n, false) == Raw || ModeOf(n, false) == Script) }

  /** The tree of a raw-text element with some text in it. */
  function RawTree(n: string, w: string): Tree { EmitString(Push(EMPTY_TREE, n, [], false), w) }

  lemma RawOpens(n: string)
    requires RawElement(n)
    ensures StartTag(EMPTY_TREE, n, [], false) == Started(Push(EMPTY_TREE, n, [], false), ModeOf(n, false))
      && PlainName(n)
    ensures n != [] && forall i :: 0 <= i < |n| ==> IsAlpha(n[i])
  {
    hide AutoClose, OnStack, IsVoid, ModeOf, IsForeignName, SameName, AnyOf, Push;
    RawNames(n, false);
    NothingToClose(n);
    ForeignNameIsNormal(n, false);
    StartsPlainly(EMPTY_TREE, n, []);
  }

  lemma RawTreeIs(n: string, w: string)
    requires IsName(n) && forall i :: 0 <= i < |w| ==> IsXml(w[i])
    ensures var t := RawTree(n, w);
      && t.out == [Open(n, [])] + Chars(w) && t.stack == [OpenElement(n, false)] && t.rootCount == 1 && !t.topText
        && t.foreignDepth == 0
      && EndTag(t, n) == Pop(t)
  {
    hide IsName, IsXml, Normalize, Unmatched;
    var t1, t := Push(EMPTY_TREE, n, [], false), RawTree(n, w);
    assert t1.out == [Open(n, [])] && t1.stack == [OpenElement(n, false)];
    hide EmitString;
    StringStack(t1, w);
    EmitDepth(t1, w);
    EmitAll(t1, w);
    NormalizeIsName(n);
    assert SameName(n, n) && LastNamed(t.stack, 1, n) == Some(0);
    assert Pop(t).stack == [] && PopTo(t, 0) == PopTo(Pop(t), 0) == Pop(t);
  }

  lemma EmitAll(t: Tree, w: string)
    requires forall i :: 0 <= i < |w| ==> IsXml(w[i])
    ensures EmitString(t, w).out == t.out + Chars(w)
  {
    hide IsXml;
    var u := EmitString(t, w);
    if w == [] {
      assert t.out + Chars(w) == t.out;
    } else {
      EmitOut(t, w, 0);
      forall i: nat | i < |w| ensures u.out[|t.out| + i] == Chars(w)[i] { EmitOut(t, w, i); }
    }
  }

  lemma RawRuns(lex: Lexicon, n: string, w: string)
    requires Standard(lex) && RawElement(n) && forall i :: 0 <= i < |w| ==> w[i] != '<' && w[i] != '\r' && IsXml(w[i])
    ensures var q := Process(lex, STARTED, ("<" + n + ">") + w + ("</" + n + ">")); Stands(q, Data, Pop(RawTree(n, w)),
      q.tag)
  {
    hide Process, Standard, Pop, Push, StartTag, EmitString, EndTag, PlainElement, ModeOf, IsXml, IsAlpha, IsName;
    var open, close, mode := "<" + n + ">", "</" + n + ">", ModeOf(n, false);
    StandsAtFirst();
    StartedShape();
    NoAttrs();
    RawOpens(n);
    BareTags(n);
    StartPasses(lex, STARTED, EMPTY_TREE, NO_TAG, n, [], false);
    assert ReadAttrs([]) == [];
    var p1 := Process(lex, STARTED, open);
    RawEmits(StateFor(mode), w);
    RawText(lex, p1, StateFor(mode), w, Push(EMPTY_TREE, n, [], false), p1.tag);
    RawTreeIs(n, w);
    RawClosePasses(lex, Process(lex, p1, w), KindOf(mode), RawTree(n, w), p1.tag, n);
    ChunksDoNotMatter(lex, STARTED, open, w);
    ChunksDoNotMatter(lex, STARTED, open + w, close);
  }

  lemma RawFinishes(lex: Lexicon, q: Parser, n: string, w: string)
    requires IsName(n) && (forall i :: 0 <= i < |w| ==> IsXml(w[i])) && Stands(q, Data, Pop(RawTree(n, w)), q.tag)
    ensures Finish(lex, q) == Some(Around(n, w))
  {
    hide RenderToken, Render, IsName, IsXml, RawTree, EndTag;
    RawTreeIs(n, w);
    assert Settle(lex, q) == q;
    var t := q.tree;
    assert t.out == Around(n, w) && t.stack == [] && PopTo(t, 0) == t;
    hide Around;
    TagShows(Around(n, w));
  }

  lemma TagShows(ts: seq<Token>)
    requires ts != [] && !ts[0].Chr?
    ensures !AllSpace(Render(ts))
  {
    hide RenderToken, Render;
    RenderStarts(ts);
    TokenStart(ts[0]);
    assert Render(ts)[0] == '<' && !IsSpace('<');
  }

  lemma {:induction false} EscapedIsXml(text: string)
    requires PlainText(text)
    ensures forall i :: 0 <= i < |Render(Chars(text))| ==> IsXml(Render(Chars(text))[i])
  {
    if text != [] {
      var init := text[..|text| - 1];
      EscapedIsXml(init);
      assert Chars(text) == Chars(init) + [Chr(text[|text| - 1])];
      RenderSnoc(Chars(init), Chr(text[|text| - 1]));
    }
  }

  /** The escaped text of a raw-text element or a script is read as it stands and escaped once more. */
  lemma RawTextIsEscapedAgain(lex: Lexicon, n: string, text: string)
    requires Standard(lex) && RawElement(n) && PlainText(text)
    ensures Finish(lex, Process(lex, INITIAL, Render(Around(n, text)))) == Some(Around(n, Render(Chars(text))))
  {
    hide Process, Finish, Render, RawElement, IsXml, Standard;
    var w := Render(Chars(text));
    RenderAround(n, text);
    assert IsRun(Chars(text));
    RunText(Chars(text));
    EscapedIsXml(text);
    RawRuns(lex, n, w);
    RawIsName(n);
    var s := Render(Around(n, text));
    assert s[0] == '<';
    StartedAlready(lex, INITIAL, s);
    RawFinishes(lex, Process(lex, STARTED, s), n, w);
  }

  lemma RawIsName(n: string)
    requires RawElement(n)
    ensures IsName(n)
  {
  }

  const STYLE := "style"

  lemma StyleWord()
    ensures RawElement(STYLE)
  {
    assert LowerAll(STYLE) == "style";
    var w := "style";
    assert w[0] == 's' && w[1] == 't' && "embed"[0] == 'e' && "frame"[0] == 'f' && "input"[0] == 'i'
      && "param"[0] == 'p' && "track"[0] == 't';
    OtherName(STYLE, "image");
  }

  /** `<style>&amp;</style>` comes out as `<style>&amp;amp;</style>`. */
  lemma StyleIsChanged(lex: Lexicon)
    requires Standard(lex)
    ensures Render(Around(STYLE, "&")) == "<style>&amp;</style>"
    ensures Finish(lex, Process(lex, INITIAL, "<style>&amp;</style>")) == Some(Around(STYLE, "&amp;"))
  {
    hide Process, Finish, Render, RawElement;
    StyleWord();
    StyleSpelled();
    RawTextIsEscapedAgain(lex, STYLE, "&");
  }

  lemma StyleSpelled()
    ensures Render(Chars("&")) == "&amp;" && Render(Around(STYLE, "&")) == "<style>&amp;</style>"
  {
    hide Render;
    assert Chars("&") == [] + [Chr('&')];
    RenderSnoc([], Chr('&'));
    RenderNothing();
    assert [] + "&amp;" == "&amp;";
    RenderAround(STYLE, "&");
    assert "<" + STYLE + ">" == "<style>" && "</" + STYLE + ">" == "</style>";
    assert "<style>" + "&amp;" + "</style>" == "<style>&amp;</style>";
  }

  lemma RenderNothing()
    ensures Render([]) == []
  {
  }

  // ----- A document that passes -----

  const CLASS := [Attr("class", "x")]

  /** An HTML page with a head, a title, a body and a paragraph. */
  const PAGE := [Open("html", []), Open("head", []), Open("title", []), Chr('T'), Close("title"), Close("head"),
    Open("body", []),
    Open("p", CLASS), Chr('h'), Chr('i'), Close("p"), Close("body"), Close("html")]

  /** The first `m` tokens are accepted and leave the elements `names` open, outside foreign content. */
  predicate Stacked(lex: Lexicon, ts: seq<Token>, m: nat, names: seq<string>) {
    m <= |ts| && Orderly(lex, ts[..m]) && Names(Built(ts[..m]).stack) == names && Built(ts[..m]).foreignDepth == 0
    && ForeignRoots(Built(ts[..m]).stack) == 0 && Built(ts[..m]).rootCount == (if m == 0 then 0 else 1)
      && !Built(ts[..m]).topText
  }

  /** A start tag of an ordinary word among open elements it does not concern. */
  lemma OpenStep(lex: Lexicon, ts: seq<Token>, m: nat, names: seq<string>, n: string, attrs: seq<Attr>)
    requires Stacked(lex, ts, m, names) && m < |ts| && ts[m] == Open(n, attrs) && PlainElement(n) && PlainAttrs(attrs)
      && !IsForeignName(n)
    requires ModeOf(n, false) != Plain && (names != [] ==> ModeOf(names[|names| - 1], false) == Normal)
    requires (forall k :: 0 <= k < |names| ==> !SameName(names[k], n)) && AutoClose(Built(ts[..m]), n) == Built(ts[..m])
    requires names == [] <==> m == 0
    ensures Stacked(lex, ts, m + 1, names + [n])
  {
    hide ModeOf, IsVoid, AutoClose, IsForeignName, SameName, AnyOf, PlainName, PlainAttrs;
    var t := Built(ts[..m]);
    assert ts[..m + 1][..m] == ts[..m] && ts[..m + 1][m] == ts[m];
    NamesSnoc(t.stack, OpenElement(n, false));
  }

  lemma CharStep(lex: Lexicon, ts: seq<Token>, m: nat, names: seq<string>)
    requires Stacked(lex, ts, m, names) && 0 < m < |ts| && ts[m].Chr? && IsAlpha(ts[m].c)
    requires names != [] && (ModeOf(names[|names| - 1], false) == Normal
      || ModeOf(names[|names| - 1], false) == EscapableRaw)
    ensures Stacked(lex, ts, m + 1, names)
  {
    hide Orderly, Built, ModeOf, IsSpace, KeepsChar, IsXml;
    assert ts[..m + 1] == ts[..m] + [ts[m]];
    var t := Built(ts[..m]);
    assert ts[m] == Chr(ts[m].c) && |t.stack| == |names| && t.stack[|names| - 1].name == names[|names| - 1];
    CharAdds(lex, ts[..m], ts[m].c);
    LetterIsKept(Mode(t), ts[m].c);
    ModeIs(t);
    assert Built(ts[..m + 1]) == EmitText(t, ts[m].c) && Orderly(lex, ts[..m + 1]);
  }

  lemma ModeIs(t: Tree)
    requires t.stack != [] && ForeignRoots(t.stack) == 0
    ensures Mode(t) == ModeOf(t.stack[|t.stack| - 1].name, false)
  {
    hide ModeOf;
  }

  lemma LetterIsKept(mode: TextMode, c: char)
    requires IsAlpha(c)
    ensures IsXml(c) && c != '\r' && !IsSpace(XmlSafe(c)) && (mode == Normal || mode == EscapableRaw
      ==> KeepsChar(mode, c))
  {
  }

  lemma CloseStep(lex: Lexicon, ts: seq<Token>, m: nat, names: seq<string>)
    requires Stacked(lex, ts, m, names) && m < |ts| && names != [] && ts[m] == Close(names[|names| - 1])
      && PlainName(names[|names| - 1])
    ensures Stacked(lex, ts, m + 1, names[..|names| - 1])
  {
    hide ModeOf, PlainName;
    assert ts[..m + 1][..m] == ts[..m] && ts[..m + 1][m] == ts[m];
    var t := Built(ts[..m]);
    assert Names(Pop(t).stack) == names[..|names| - 1];
  }

  lemma PageWords()
    ensures PlainElement("html") && PlainElement("head") && PlainElement("title") && PlainElement("body")
      && PlainElement("p")
    ensures !IsForeignName("html") && !IsForeignName("head") && !IsForeignName("title") && !IsForeignName("body")
      && !IsForeignName("p")
  {
    OrdinaryWord("html");
    OrdinaryWord("head");
    OrdinaryWord("body");
    OrdinaryWord("title");
    OrdinaryWord("p");
  }

  lemma OrdinaryWord(n: string)
    requires n in {"html", "head", "title", "body", "p"}
    ensures PlainElement(n) && !IsForeignName(n)
  {
    hide IsVoid, SameName;
    NotVoid(n);
    NotForeign(n);
    assert IsName(n);
  }

  lemma NotVoid(n: string)
    requires n in {"html", "head", "title", "body", "p"}
    ensures !IsVoid(n)
  {
    assert LowerAll(n) == n;
    assert "area"[0] == 'a' && "base"[1] == 'a' && "link"[0] == 'l' && "meta"[0] == 'm' && "embed"[0] == 'e'
      && "frame"[0] == 'f'
      && "input"[0] == 'i' && "param"[0] == 'p' && "track"[1] == 'r';
    assert "html"[0] == 'h' && "head"[0] == 'h' && "title"[0] == 't' && "title"[1] == 'i' && "body"[0] == 'b'
      && "body"[1] == 'o';
  }

  lemma NotForeign(n: string)
    requires n in {"html", "head", "title", "body", "p"}
    ensures !SameName(n, "image") && !IsForeignName(n)
  {
    if n == "title" {
      OtherName(n, "image");
    }
    if |n| == 4 {
      OtherName(n, "math");
    }
  }

  lemma PageModes()
    ensures ModeOf("html", false) == ModeOf("head", false) == ModeOf("body", false) == ModeOf("p", false) == Normal
    ensures ModeOf("title", false) == EscapableRaw
  {
    assert LowerAll("html") == "html" && LowerAll("head") == "head" && LowerAll("body") == "body"
      && LowerAll("p") == "p" && LowerAll("title") == "title";
    assert "title"[0] == 't' && "style"[0] == 's';
  }

  lemma PageNames()
    ensures !SameName("html", "head") && !SameName("html", "title") && !SameName("head", "title")
      && !SameName("html", "body")
    ensures !SameName("html", "p") && !SameName("body", "p")
  {
    assert "html"[1] == 't' && "head"[1] == 'e';
    OtherName("html", "body");
  }

  /** Words that close nothing, and a paragraph right inside the body. */
  lemma PageCloses(t: Tree)
    ensures AutoClose(t, "html") == t && AutoClose(t, "head") == t && AutoClose(t, "title") == t
      && AutoClose(t, "body") == t
    ensures Names(t.stack) == ["html", "body"] ==> AutoClose(t, "p") == t
  {
    hide PopIf;
    assert LowerAll("html") == "html" && LowerAll("head") == "head" && LowerAll("body") == "body"
      && LowerAll("p") == "p" && LowerAll("title") == "title";
    assert "tbody"[1] == 'b' && "thead"[1] == 'h' && "tfoot"[1] == 'f' && "title"[1] == 'i';
    if Names(t.stack) == ["html", "body"] {
      assert t.stack[0].name == "html" && t.stack[1].name == "body";
      NoParagraph(t.stack);
    }
  }

  lemma NoParagraph(stack: seq<OpenElement>)
    requires |stack| == 2 && stack[0].name == "html" && stack[1].name == "body"
    ensures Find(stack, 2, ["p"], SCOPE_STOP) == None
  {
    assert !AnyOf("body", ["p"]) && !AnyOf("html", ["p"]);
    assert SameName("html", SCOPE_STOP[2]);
    assert AnyOf("html", SCOPE_STOP);
    hide AnyOf;
  }

  lemma PageTitle(lex: Lexicon)
    ensures Stacked(lex, PAGE, 3, ["html", "head", "title"])
  {
    hide Orderly, Built, PlainElement, ModeOf, IsForeignName, SameName, AutoClose, PlainName, Stacked, PlainAttrs;
    PageWords();
    PageModes();
    PageNames();
    PageAttrs();
    PageStarts(lex);
    var none: seq<string> := [];
    assert none + ["html"] == ["html"] && ["html"] + ["head"] == ["html", "head"]
      && ["html", "head"] + ["title"] == ["html", "head", "title"];
    PageCloses(Built(PAGE[..0]));
    OpenStep(lex, PAGE, 0, none, "html", []);
    PageCloses(Built(PAGE[..1]));
    OpenStep(lex, PAGE, 1, ["html"], "head", []);
    PageCloses(Built(PAGE[..2]));
    OpenStep(lex, PAGE, 2, ["html", "head"], "title", []);
  }

  lemma PageHead(lex: Lexicon)
    ensures Stacked(lex, PAGE, 6, ["html"])
  {
    hide Orderly, Built, PlainElement, ModeOf, IsForeignName, SameName, AutoClose, PlainName, Stacked, PlainAttrs;
    PageWords();
    PageModes();
    PageTitle(lex);
    assert ["html"] + ["head"] == ["html", "head"] && ["html", "head"] + ["title"] == ["html", "head", "title"];
    CharStep(lex, PAGE, 3, ["html", "head", "title"]);
    PageEnds(lex, 4, ["html", "head"], "title");
    PageEnds(lex, 5, ["html"], "head");
  }

  lemma PageBody(lex: Lexicon)
    requires Stacked(lex, PAGE, 6, ["html"])
    ensures Stacked(lex, PAGE, 10, ["html", "body", "p"])
  {
    hide Orderly, Built, PlainElement, ModeOf, IsForeignName, SameName, AutoClose, PlainName, Stacked, PlainAttrs;
    PageWords();
    PageModes();
    PageNames();
    PageAttrs();
    assert ["html"] + ["body"] == ["html", "body"];
    PageCloses(Built(PAGE[..6]));
    OpenStep(lex, PAGE, 6, ["html"], "body", []);
    PageParagraph(lex);
    CharStep(lex, PAGE, 8, ["html", "body", "p"]);
    CharStep(lex, PAGE, 9, ["html", "body", "p"]);
  }

  lemma PageIsOrderly(lex: Lexicon)
    ensures Stacked(lex, PAGE, 13, [])
  {
    hide Orderly, Built, PlainElement, ModeOf, IsForeignName, SameName, AutoClose, PlainName, Stacked, PlainAttrs;
    PageWords();
    PageHead(lex);
    PageBody(lex);
    var none: seq<string> := [];
    assert none + ["html"] == ["html"] && ["html"] + ["body"] == ["html", "body"]
      && ["html", "body"] + ["p"] == ["html", "body", "p"];
    PageEnds(lex, 10, ["html", "body"], "p");
    PageEnds(lex, 11, ["html"], "body");
    PageEnds(lex, 12, none, "html");
  }

  lemma PageStarts(lex: Lexicon)
    ensures Stacked(lex, PAGE, 0, [])
  {
    assert PAGE[..0] == [];
    assert Names([]) == [];
  }

  lemma PageAttrs()
    ensures PlainAttrs([]) && PlainAttrs(CLASS)
  {
    assert IsName("class");
  }

  lemma PageEnds(lex: Lexicon, m: nat, names: seq<string>, n: string)
    requires m < |PAGE| && Stacked(lex, PAGE, m, names + [n]) && PAGE[m] == Close(n) && PlainElement(n)
    ensures Stacked(lex, PAGE, m + 1, names)
  {
    assert (names + [n])[..|names|] == names;
    hide Stacked;
    CloseStep(lex, PAGE, m, names + [n]);
  }

  lemma PageParagraph(lex: Lexicon)
    requires Stacked(lex, PAGE, 7, ["html", "body"])
    ensures Stacked(lex, PAGE, 8, ["html", "body", "p"])
  {
    hide Orderly, Built, PlainElement, ModeOf, IsForeignName, SameName, AutoClose, PlainAttrs;
    PageWords();
    PageModes();
    PageNames();
    PageAttrs();
    PageCloses(Built(PAGE[..7]));
    OpenStep(lex, PAGE, 7, ["html", "body"], "p", CLASS);
    assert ["html", "body"] + ["p"] == ["html", "body", "p"];
  }

  lemma PageIsWellFormed()
    ensures AllWellFormed(PAGE)
  {
    hide IsVoid, SameName, IsForeignName, NameChar, NameStart, IsAlpha;
    PageWords();
    PageAttrs();
    NoAttrs();
    assert WellFormed(PAGE[0]) && WellFormed(PAGE[1]) && WellFormed(PAGE[2]) && WellFormed(PAGE[3])
      && WellFormed(PAGE[4]);
    assert WellFormed(PAGE[5]) && WellFormed(PAGE[6]) && WellFormed(PAGE[7]) && WellFormed(PAGE[8])
      && WellFormed(PAGE[9]);
    assert WellFormed(PAGE[10]) && WellFormed(PAGE[11]) && WellFormed(PAGE[12]);
  }

  /** The page comes out exactly as it went in. */
  lemma PagePasses(lex: Lexicon)
    requires Standard(lex)
    ensures Finish(lex, Process(lex, INITIAL, Render(PAGE))) == Some(PAGE)
  {
    hide Process, Finish, Render, Standard, Orderly, Built, Roots, TopText, AllWellFormed, Nest, Scoped, Proper, ModeAt;
    assert PAGE[..13] == PAGE;
    PageIsOrderly(lex);
    PageIsWellFormed();
    BuiltIs(lex, PAGE);
    UnchangedIff(lex, PAGE);
  }
}
