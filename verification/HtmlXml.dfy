/** How far the repaired output is XML, and two kinds of input for which it is not. */
module HtmlXml {
  import opened Bytes
  import opened HtmlTokens
  import opened HtmlTree
  import opened HtmlTokenizer
  import opened HtmlRepair
  import opened HtmlGrowth
  import opened HtmlFaithful
  import opened HtmlExact

  /** The white space XML allows outside the root element. */
  predicate XmlSpace(c: char) { c == ' ' || c == '\t' || c == '\n' || c == '\r' }

  /** Other white space of Unicode. */
  predicate WideSpace(c: char) {
    var n := c as int;
    n == 0x85 || n == 0xA0 || n == 0x1680 || 0x2000 <= n <= 0x200A || n == 0x2028 || n == 0x2029 || n == 0x202F
      || n == 0x205F || n == 0x3000
  }

  predicate AtTop(ts: seq<Token>, k: nat)
    requires k <= |ts|
  {
    Nest(ts[..k]) == Some([])
  }

  /** Whether white space that XML does not know stands outside the elements. */
  predicate TopWide(ts: seq<Token>) { exists k :: 0 <= k < |ts| && AtTop(ts, k) && ts[k].Chr? && WideSpace(ts[k].c) }

  predicate TargetsNamed(ts: seq<Token>) { forall k :: 0 <= k < |ts| && ts[k].Pi? ==> IsName(ts[k].target) }

  predicate TopIsXml(ts: seq<Token>) { forall k :: 0 <= k < |ts| && AtTop(ts, k) && ts[k].Chr? ==> XmlSpace(ts[k].c) }

  /** A well-formed XML document: one root, nothing but XML white space and instructions beside it,
      names where XML wants names, and no instruction ended by its own data. */
  predicate XmlDocument(ts: seq<Token>) { Repaired(ts) && TopIsXml(ts) && TargetsNamed(ts) }

  lemma SpaceKinds(c: char)
    ensures IsXml(c) && IsSpace(c) <==> XmlSpace(c) || WideSpace(c)
    ensures !(XmlSpace(c) && WideSpace(c))
  {
  }

  lemma {:induction false} NoTopInk(ts: seq<Token>, k: nat)
    requires !TopText(ts) && k < |ts| && AtTop(ts, k) && ts[k].Chr?
    ensures IsSpace(ts[k].c)
    decreases |ts|
  {
    hide IsSpace;
    var init := ts[..|ts| - 1];
    if k < |init| {
      assert init[..k] == ts[..k] && init[k] == ts[k];
      NoTopInk(init, k);
    }
  }

  /** At the top level of a repaired document every character is white space, of XML or not. */
  lemma TopIsXmlIff(ts: seq<Token>)
    requires Repaired(ts)
    ensures TopIsXml(ts) <==> !TopWide(ts)
  {
    hide Nest, Roots, TopText, WideSpace, XmlSpace, IsSpace, IsXml, AtTop;
    forall k | 0 <= k < |ts| && AtTop(ts, k) && ts[k].Chr? ensures XmlSpace(ts[k].c) <==> !WideSpace(ts[k].c) {
      NoTopInk(ts, k);
      SpaceKinds(ts[k].c);
    }
  }

  lemma WrapHasNoTop(ts: seq<Token>, k: nat)
    requires Nest(ts) == Some([]) && k < |Wrap(ts)| && AtTop(Wrap(ts), k)
    ensures !Wrap(ts)[k].Chr?
  {
    hide Nest, Roots, TopText;
    var w := Wrap(ts);
    if 0 < k <= |ts| {
      var part := ts[..k - 1];
      assert w[..k] == [Open(ROOT, [])] + part;
      NestPrefix(ts, k - 1);
      InsideRoot(part);
    }
  }

  lemma WrapTargets(ts: seq<Token>)
    ensures TargetsNamed(Wrap(ts)) <==> TargetsNamed(ts)
  {
    hide IsName;
    var w := Wrap(ts);
    if TargetsNamed(w) {
      forall k | 0 <= k < |ts| && ts[k].Pi? ensures IsName(ts[k].target) { assert w[k + 1] == ts[k]; }
    }
  }

  /** Whatever the input, what comes out is an XML document exactly when its instructions have names
      for targets and either it was wrapped or no wide space stands beside its root. */
  lemma XmlIff(lex: Lexicon, input: string)
    ensures var p := Process(lex, INITIAL, input); var r, t := Finish(lex, p), Closed(lex, p);
      r.Some? ==>
        (XmlDocument(r.value) <==> TargetsNamed(t.out) && (t.rootCount == 1 && !t.topText ==> !TopWide(t.out)))
  {
    hide Process, Closed, Nest, Roots, TopText, AllWellFormed, Render, AllSpace, TopWide, TargetsNamed, WideSpace, Wrap,
      Good;
    EveryRunNests(lex, input);
    var p := Process(lex, INITIAL, input);
    FinishIsRepaired(lex, p);
    ClosedInv(lex, p);
    var r, t := Finish(lex, p), Closed(lex, p);
    assert Names(t.stack) == [];
    if r.Some? {
      if t.rootCount == 1 && !t.topText {
        TopIsXmlIff(t.out);
      } else {
        WrapTargets(t.out);
        forall k | 0 <= k < |Wrap(t.out)| && AtTop(Wrap(t.out), k)
          ensures !Wrap(t.out)[k].Chr? { WrapHasNoTop(t.out, k); }
      }
    }
  }

  // ----- Targets -----

  /** The classes the parser reads targets with lie within those of XML names. */
  ghost predicate NamingClasses(lex: Lexicon) {
    (forall c :: lex.Begins(c) ==> NameStart(c)) && (forall c :: lex.Follows(c) ==> NameChar(c))
  }

  lemma TargetIsName(lex: Lexicon, s: string)
    requires NamingClasses(lex) && TargetOk(lex, s)
    ensures IsName(s)
  {
    hide NameStart, NameChar, lex.Begins, lex.Follows;
    StartIsName(s[0]);
  }

  /** An instruction on its own comes out wrapped. */
  lemma InstructionAlone(lex: Lexicon, target: string)
    requires TargetOk(lex, target) && !SameName(target, "xml")
    ensures Finish(lex, Process(lex, INITIAL, RenderToken(Pi(target, [])))) == Some(Wrap([Pi(target, [])]))
  {
    hide Process, TargetOk, SameName;
    StandsAtFirst();
    StartedShape();
    var s := RenderToken(Pi(target, []));
    assert s[0] == '<';
    StartedAlready(lex, INITIAL, s);
    PiPasses(lex, STARTED, EMPTY_TREE, NO_TAG, target, []);
    InstructionFinishes(lex, Process(lex, STARTED, s), target);
  }

  lemma InstructionFinishes(lex: Lexicon, q: Parser, target: string)
    requires Stands(q, Data, EmitPi(EMPTY_TREE, target, []), q.tag) && !SameName(target, "xml")
    ensures Finish(lex, q) == Some(Wrap([Pi(target, [])]))
  {
    hide SameName, Render, RenderToken;
    assert Settle(lex, q) == q && PopTo(q.tree, 0) == q.tree;
    var ts := [Pi(target, [])];
    assert SafeAll([]) == [] && q.tree.out == [] + ts && [] + ts == ts;
    TagShows(ts);
    assert Closed(lex, q) == q.tree && q.tree.rootCount == 0;
    hide AllSpace, Wrap;
  }

  lemma WrappedTarget(target: string)
    requires TargetsNamed(Wrap([Pi(target, [])]))
    ensures IsName(target)
  {
    hide IsName;
    WrapTargets([Pi(target, [])]);
    assert [Pi(target, [])][0].Pi?;
  }

  lemma OneLetterTarget(lex: Lexicon, c: char)
    requires lex.Begins(c)
    ensures TargetOk(lex, [c]) && !SameName([c], "xml") && (IsName([c]) ==> NameStart(c))
  {
    hide lex.Begins, NameStart;
  }

  lemma TwoLetterTarget(lex: Lexicon, c: char)
    requires lex.Follows(c)
    ensures var s := ['_', c]; TargetOk(lex, s) && !SameName(s, "xml") && (IsName(s) ==> NameChar(c))
  {
    var s := ['_', c];
    assert s[1] == c;
    hide lex.Follows, NameStart, NameChar;
  }

  ghost predicate AlwaysNamed(lex: Lexicon) {
    forall input :: var r := Finish(lex, Process(lex, INITIAL, input)); r.Some? ==> TargetsNamed(r.value)
  }

  /** Every instruction of every output has a name for a target exactly when the classes agree. */
  lemma TargetsAreNamesIff(lex: Lexicon)
    ensures AlwaysNamed(lex) <==> NamingClasses(lex)
  {
    hide Process, Finish, Render, TargetsNamed, Wrap, lex.Begins, lex.Follows, NameStart, NameChar;
    if NamingClasses(lex) {
      forall input ensures var r := Finish(lex, Process(lex, INITIAL, input)); r.Some? ==> TargetsNamed(r.value) {
        NamedIn(lex, input);
      }
    }
    if AlwaysNamed(lex) {
      forall c | lex.Begins(c) ensures NameStart(c) {
        OneLetterTarget(lex, c);
        NamedAlone(lex, [c]);
      }
      forall c | lex.Follows(c) ensures NameChar(c) {
        TwoLetterTarget(lex, c);
        NamedAlone(lex, ['_', c]);
      }
    }
  }

  lemma NamedIn(lex: Lexicon, input: string)
    requires NamingClasses(lex)
    ensures var r := Finish(lex, Process(lex, INITIAL, input)); r.Some? ==> TargetsNamed(r.value)
  {
    hide Process, Finish, NamingClasses, IsName, TargetOk;
    EveryInstructionIsOk(lex, input);
    var r := Finish(lex, Process(lex, INITIAL, input));
    if r.Some? {
      forall k | 0 <= k < |r.value| && r.value[k].Pi? ensures IsName(r.value[k].target) {
        TargetIsName(lex, r.value[k].target);
      }
    }
  }

  lemma NamedAlone(lex: Lexicon, target: string)
    requires AlwaysNamed(lex) && TargetOk(lex, target) && !SameName(target, "xml")
    ensures IsName(target)
  {
    hide Process, Finish, TargetsNamed, Wrap, TargetOk, SameName, IsName, RenderToken;
    var input := RenderToken(Pi(target, []));
    InstructionAlone(lex, target);
    var r := Finish(lex, Process(lex, INITIAL, input));
    assert r.Some? ==> TargetsNamed(r.value);
    WrappedTarget(target);
  }

  // ----- Two inputs that do not become XML -----

  const FEMININE: char := '\U{00AA}'
  const NBSP: char := '\U{00A0}'

  /** The feminine ordinal is a letter to Unicode and no name character to XML. */
  lemma OrdinalTarget(lex: Lexicon)
    requires FEMININE in lex.alphabetic
    ensures var r := Finish(lex, Process(lex, INITIAL, "<?" + [FEMININE] + "?>"));
      r == Some(Wrap([Pi([FEMININE], [])])) && !XmlDocument(r.value)
  {
    hide Process, Finish, Wrap, Repaired, TopIsXml, TargetsNamed, RenderToken;
    assert lex.Begins(FEMININE) && !NameStart(FEMININE);
    OneLetterTarget(lex, FEMININE);
    InstructionAlone(lex, [FEMININE]);
    AloneText([FEMININE]);
    if TargetsNamed(Wrap([Pi([FEMININE], [])])) {
      WrappedTarget([FEMININE]);
    }
  }

  lemma AloneText(target: string)
    ensures RenderToken(Pi(target, [])) == "<?" + target + "?>"
  {
    assert "<?" + target + [] == "<?" + target;
  }

  const WIDE := [Chr(NBSP), Open("b", []), Close("b")]

  lemma BoldIsOrdinary(t: Tree)
    ensures PlainName("b") && PlainAttrs([]) && !IsVoid("b") && AutoClose(t, "b") == t && !SameName("b", "image")
      && !AnyOf("b", HTML_CONTAINERS)
    ensures ModeOf("b", false) == Normal && !IsForeignName("b")
  {
    assert LowerAll("b") == "b";
    assert AnyOf("b", HTML_CONTAINERS) ==> |"b"| == 4;
    hide CloseThrough, PopIf;
  }

  lemma WideParts()
    ensures WIDE == ([Chr(NBSP)] + [Open("b", [])]) + [Close("b")] && [Chr(NBSP)] == [] + [Chr(NBSP)]
    ensures WIDE[..2] == [Chr(NBSP)] + [Open("b", [])] && WIDE[..2][..1] == [Chr(NBSP)] && [Chr(NBSP)][..0] == []
      && WIDE[..0] == []
  {
  }

  lemma WideIsRepaired()
    ensures Repaired(WIDE) && TopWide(WIDE)
  {
    WideParts();
    BoldIsOrdinary(EMPTY_TREE);
    var a, b := [Chr(NBSP)], [Chr(NBSP)] + [Open("b", [])];
    NestSnoc([], Chr(NBSP));
    NestSnoc(a, Open("b", []));
    NestSnoc(b, Close("b"));
    assert [] + ["b"] == ["b"] && ["b"][..0] == [];
    assert AtTop(WIDE, 0);
  }

  lemma WideIsOrderly(lex: Lexicon)
    ensures Orderly(lex, WIDE)
  {
    WideParts();
    var t1 := EmitText(EMPTY_TREE, NBSP);
    var t2 := Push(t1, "b", [], false);
    BoldIsOrdinary(t1);
    hide IsVoid, AutoClose, SameName, ModeOf, PlainName, IsForeignName;
    assert Built([]) == EMPTY_TREE;
    assert Built([Chr(NBSP)]) == t1;
    assert Mode(t1) == Normal;
    assert Built(WIDE[..2]) == t2;
    assert Orderly(lex, [Chr(NBSP)]);
    assert Orderly(lex, WIDE[..2]);
  }

  /** A no-break space before the root is kept, and XML does not allow it there. */
  lemma WideSpaceStays(lex: Lexicon)
    requires Standard(lex)
    ensures var r := Finish(lex, Process(lex, INITIAL, [NBSP] + "<b></b>")); r == Some(WIDE) && !XmlDocument(r.value)
  {
    hide Process, Finish, Repaired, Orderly, TopWide, TopIsXml;
    WideIsOrderly(lex);
    WideIsRepaired();
    UnchangedIff(lex, WIDE);
    TopIsXmlIff(WIDE);
    WideText();
  }

  lemma WideText()
    ensures Render(WIDE) == [NBSP] + "<b></b>"
  {
    WideParts();
    assert Render([Chr(NBSP)]) == [NBSP];
    assert Render(WIDE[..2]) == [NBSP] + "<b>";
    assert Render(WIDE) == ([NBSP] + "<b>") + "</b>";
  }
}
