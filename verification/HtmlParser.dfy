/** The parser object: the loops of the tree builder, of the tokenizer and of its input. */
module HtmlParser {
  import opened Bytes
  import opened HtmlTokens
  import opened HtmlTree
  import opened HtmlTokenizer
  import opened HtmlRepair

  /** Open elements and output, changed in place. */
  class TreeBuilder {
    var t: Tree

    constructor ()
      ensures t == EMPTY_TREE
    {
      t := EMPTY_TREE;
    }

    method Emit(s: string)
      modifies this
      ensures t == EmitString(old(t), s)
    {
      var i := 0;
      while i < |s|
        invariant 0 <= i <= |s| && t == EmitString(old(t), s[..i])
      {
        assert s[..i + 1][..i] == s[..i];
        var c := XmlSafe(s[i]);
        if t.stack == [] && !IsSpace(c) {
          t := t.(topText := true);
        }
        t := t.(out := t.out + [Chr(c)]);
        i := i + 1;
      }
      assert s[..i] == s;
    }

    method PopOpen()
      modifies this
      ensures t == Pop(old(t))
    {
      if t.stack != [] {
        var e := t.stack[|t.stack| - 1];
        t := t.(stack := t.stack[..|t.stack| - 1]);
        if e.foreignRoot && t.foreignDepth > 0 {
          t := t.(foreignDepth := t.foreignDepth - 1);
        }
        t := t.(out := t.out + [Close(e.name)]);
      }
    }

    method PopUntil(n: nat)
      modifies this
      ensures t == PopTo(old(t), n)
    {
      while |t.stack| > n
        invariant PopTo(t, n) == PopTo(old(t), n)
        decreases |t.stack|
      {
        PopOpen();
      }
    }

    method LeaveForeign()
      requires Inv(t)
      modifies this
      ensures t == BreakOut(old(t))
    {
      while t.foreignDepth > 0
        invariant Inv(t) && BreakOut(t) == BreakOut(old(t))
        decreases |t.stack|
      {
        PopKeeps(t);
        PopOpen();
      }
    }

    /** Closes through the nearest target, unless a boundary is nearer. */
    method CloseNearest(targets: seq<string>, stops: seq<string>)
      modifies this
      ensures t == CloseThrough(old(t), targets, stops)
    {
      hide AnyOf;
      var i, found := |t.stack|, false;
      while i > 0 && !found
        invariant 0 <= i <= |t.stack| && t == old(t)
        invariant !found ==> Find(t.stack, |t.stack|, targets, stops) == Find(t.stack, i, targets, stops)
        invariant found ==> Find(t.stack, |t.stack|, targets, stops) == Some(i)
        decreases i, !found
      {
        i := i - 1;
        if AnyOf(t.stack[i].name, targets) {
          found := true;
        } else if AnyOf(t.stack[i].name, stops) {
          break;
        }
      }
      if found {
        PopUntil(i);
      }
    }

    method PopWhenTop(names: seq<string>)
      modifies this
      ensures t == PopIf(old(t), names)
    {
      if t.stack != [] && AnyOf(t.stack[|t.stack| - 1].name, names) {
        PopOpen();
      }
    }

    method AutoCloseFor(name: string)
      modifies this
      ensures t == AutoClose(old(t), name)
    {
      hide CloseThrough, PopIf, LowerShort;
      var low := LowerShort(name, 10);
      if low.None? {
        return;
      }
      var n := low.value;
      if n == "p" {
        CloseNearest(["p"], SCOPE_STOP);
      } else if n == "li" {
        CloseNearest(["li"], LI_SCOPE);
      } else if n in {"dd", "dt"} {
        CloseNearest(["dd", "dt"], DL_SCOPE);
      } else if n in {"rp", "rt"} {
        CloseNearest(["rp", "rt"], RUBY_SCOPE);
      } else if n == "a" {
        CloseNearest(["a"], SCOPE_STOP);
      } else if n in {"h1", "h2", "h3", "h4", "h5", "h6"} {
        PopWhenTop(HEADINGS);
      } else if n in {"td", "th"} {
        CloseNearest(["td", "th"], CELL_SCOPE);
      } else if n == "tr" {
        CloseNearest(["tr"], ROW_SCOPE);
      } else if n in {"thead", "tbody", "tfoot", "colgroup"} {
        CloseNearest([name], TABLE_SCOPE);
      } else if n == "option" {
        PopWhenTop(["option"]);
      } else if n == "optgroup" {
        PopWhenTop(["option"]);
        PopWhenTop(["optgroup"]);
      }
    }

    method TreeStart(raw: string, attrs: seq<Attr>, selfClosing: bool) returns (mode: TextMode)
      requires Inv(t)
      modifies this
      ensures Started(t, mode) == StartTag(old(t), raw, attrs, selfClosing)
    {
      hide AutoClose, IsVoid, IsBreakout, BreakOut, Normalize, OnStack, AnyOf, SameName, ModeOf, Inv;
      var name := StartName(raw);
      if t.foreignDepth > 0 && IsBreakout(name, attrs) {
        LeaveForeign();
      }
      var foreign := t.foreignDepth > 0;
      if !foreign && AnyOf(name, HTML_CONTAINERS) && OnStack(t, name) {
        return Normal;
      }
      if !foreign {
        AutoCloseFor(name);
      }
      var norm := NormalizeName(name);
      var foreignRoot := !foreign && IsForeignName(name);
      var roots := if t.stack == [] then t.rootCount + 1 else t.rootCount;
      if (!foreign && IsVoid(name)) || (foreign && selfClosing) {
        t := t.(out := t.out + [Empty(norm, attrs)], rootCount := roots);
        return Normal;
      }
      t := t.(out := t.out + [Open(norm, attrs)], rootCount := roots);
      t := t.(stack := t.stack + [OpenElement(norm, foreignRoot)]);
      if foreignRoot {
        t := t.(foreignDepth := t.foreignDepth + 1);
      }
      mode := ModeOf(name, foreign);
    }

    method TreeEnd(raw: string)
      requires Inv(t)
      modifies this
      ensures t == EndTag(old(t), raw)
    {
      hide BreakOut, Normalize, AnyOf, SameName, Inv;
      if t.foreignDepth > 0 && (SameName(raw, "br") || SameName(raw, "p")) {
        LeaveForeign();
      }
      var norm := NormalizeName(raw);
      var i, found := |t.stack|, false;
      ghost var before := t;
      while i > 0 && !found
        invariant 0 <= i <= |t.stack| && t == before
        invariant LastNamed(t.stack, |t.stack|, norm) == if found then Some(i) else LastNamed(t.stack, i, norm)
        decreases i, !found
      {
        i := i - 1;
        found := SameName(t.stack[i].name, norm);
      }
      if found {
        PopUntil(i);
        return;
      }
      var roots := if t.stack == [] then t.rootCount + 1 else t.rootCount;
      if t.foreignDepth == 0 {
        if AnyOf(raw, PAIRED_END_TAGS) {
          t := t.(out := t.out + [Open(norm, [])], rootCount := roots);
          t := t.(out := t.out + [Close(norm)]);
          assert (t.stack + [OpenElement(norm, false)])[..|t.stack|] == t.stack;
        } else if SameName(raw, "br") {
          t := t.(out := t.out + [Empty("br", [])], rootCount := roots);
        }
      }
    }
  }

  /** Where a `>` ends a tag. */
  predicate EndsTag(p: Parser, c: char) {
    && c == '>'
    && (p.state.TagName? || p.state.SelfClosingStartTag? || p.state.BeforeAttributeName? || p.state.AttributeName?
      || p.state.AfterAttributeName? || p.state.BeforeAttributeValue? || p.state.AttrValueUq?
        || p.state.AfterAttrValueQuoted?
      || (p.state.RawEndTagName? && Appropriate(p)))
  }

  /** The parser that emits the tag: a slash before the `>` or the name of a raw-text end tag is noted first. */
  function Noted(p: Parser): Parser {
    if p.state.SelfClosingStartTag? then p.(tag := p.tag.(selfClosing := true))
    else if p.state.RawEndTagName? then Hold(p, [])
    else p
  }

  lemma EndsTagIs(lex: Lexicon, p: Parser, c: char)
    requires Shape(p) && EndsTag(p, c)
    ensures Look(lex, p, c) == EmitTag(Noted(p))
  {
    hide Look, AttrStep, RawStep, TagStep, EmitTag, Noted, Appropriate;
    if p.state.TagName? || p.state.SelfClosingStartTag? {
      LookTag(lex, p, c);
      TagEndsIn(p);
    } else if p.state.RawEndTagName? {
      LookRaw(lex, p, c);
      RawTagEndsIn(p);
    } else {
      LookAttr(lex, p, c);
      AttributesEndIn(p);
    }
  }

  lemma TagEndsIn(p: Parser)
    requires Shape(p) && (p.state.TagName? || p.state.SelfClosingStartTag?)
    ensures TagStep(p, '>') == EmitTag(Noted(p))
  {
    hide Goto, Retry, Say, NewTag, EmitTag, Hold;
  }

  lemma AttributesEndIn(p: Parser)
    requires Shape(p) && InAttribute(p.state) && !p.state.AttrValueDq? && !p.state.AttrValueSq?
    ensures AttrStep(p, '>') == EmitTag(Noted(p))
  {
    hide Goto, Retry, CreateAttr, PushName, PushValue, EmitTag, FinishAttr, Hold;
  }

  lemma RawTagEndsIn(p: Parser)
    requires Shape(p) && p.state.RawEndTagName? && Appropriate(p)
    ensures RawStep(p, '>') == EmitTag(Noted(p))
  {
    hide Goto, Retry, Say, EmitTag, Discard, Flush, Hold, Appropriate, RawLtStep, RawEndOpenStep;
  }

  /** Where a character is text. */
  predicate IsText(p: Parser, c: char) {
    (p.state.Data? || p.state.Rcdata? || p.state.Rawtext? || p.state.Plaintext?) && c != '<' && c != '&'
  }

  lemma IsTextIs(lex: Lexicon, p: Parser, c: char)
    requires Shape(p) && IsText(p, c)
    ensures Look(lex, p, c) == Next(p.(tree := EmitString(p.tree, [c])), false)
  {
    hide EmitString, Look;
    LookText(lex, p, c);
  }

  class HtmlParser {
    const lex: Lexicon
    const builder: TreeBuilder
    var p: Parser

    constructor (lex: Lexicon)
      ensures this.lex == lex && Now() == INITIAL && fresh(builder)
    {
      this.lex, p := lex, INITIAL;
      builder := new TreeBuilder();
    }

    /** The whole state: the tree is the builder's. */
    ghost function Now(): Parser
      reads this, builder
    {
      p.(tree := builder.t)
    }

    /** Hands the finished tag to the tree builder and enters the text mode it asks for. */
    method EmitCurrentTag()
      requires Inv(builder.t) && Tidy(p.tag.attrs)
      modifies this, builder
      ensures Now() == EmitTag(old(Now())).p
    {
      hide FinishAttr, StartTag, EndTag, Inv, Tidy;
      var tag := FinishAttr(p.tag);
      p := p.(tag := tag.(name := [], attrs := [], selfClosing := false));
      if tag.isEnd {
        builder.TreeEnd(tag.name);
        p := p.(state := Data);
      } else {
        var mode := builder.TreeStart(tag.name, tag.attrs, tag.selfClosing);
        p := p.(state := StateFor(mode));
      }
    }

    /** One state looks at the character; tags and text go through the tree builder. */
    method LookOnce(c: char) returns (again: bool)
      requires Shape(Now()) && Sane(Nesting(), Now())
      modifies this, builder
      ensures Next(Now(), again) == Look(lex, old(Now()), c)
    {
      hide Look, EmitTag, Inv, Tidy, EmitString, PiRests, Appropriate;
      ghost var was := Now();
      var now := p.(tree := builder.t);
      if EndsTag(now, c) {
        EndsTagIs(lex, was, c);
        p := Noted(now);
        EmitCurrentTag();
        return false;
      }
      if IsText(now, c) {
        IsTextIs(lex, was, c);
        builder.Emit([c]);
        return false;
      }
      var r := Look(lex, now, c);
      p, builder.t, again := r.p, r.p.tree, r.again;
    }

    /** Lets states look at the character until one uses it. */
    method StepOne(c: char)
      requires Shape(Now()) && Sane(Nesting(), Now()) && PiFits(lex, Now(), c) && c != '\r'
      modifies this, builder
      ensures Now() == StepState(lex, old(Now()), c) && Good(lex, Now())
    {
      hide Look, Rank, Inv, Tidy, PiFits, Stable;
      NestingIsStable(lex);
      ghost var was := Now();
      StepStateHolds(lex, Nesting(), was, c);
      var again := true;
      while again
        invariant again ==> Shape(Now()) && Sane(Nesting(), Now()) && PiFits(lex, Now(), c)
        invariant again ==> StepState(lex, Now(), c) == StepState(lex, was, c)
        invariant !again ==> Now() == StepState(lex, was, c)
        decreases again, Rank(p.state)
      {
        LookSettles(lex, Now(), c);
        LookSane(lex, Nesting(), Now(), c);
        again := LookOnce(c);
      }
    }

    /** Strips a byte order mark and normalises carriage returns. */
    method Feed(c: char)
      requires Good(lex, Now())
      modifies this, builder
      ensures Now() == Step(lex, old(Now()), c) && Good(lex, Now())
    {
      hide StepState, Inv, Tidy, PiFits, Stable;
      NestingIsStable(lex);
      StepHolds(lex, Nesting(), Now(), c);
      PiRestsFits(lex, Now(), c);
      PiRestsFits(lex, Now(), '\n');
      SameFits(lex, Now(), c);
      var first := !p.started;
      p := p.(started := true);
      if first && c == '\U{FEFF}' {
        return;
      }
      var d := c;
      if c == '\r' {
        p := p.(prevCr := true);
        d := '\n';
      } else if p.prevCr {
        p := p.(prevCr := false);
        if c == '\n' {
          return;
        }
      }
      StepOne(d);
    }

    method ProcessText(s: string)
      requires Good(lex, Now())
      modifies this, builder
      ensures Now() == Process(lex, old(Now()), s) && Good(lex, Now())
    {
      hide Step, Sane, PiRests, Stable;
      ghost var was := Now();
      var i := 0;
      while p.pushback != [] || i < |s|
        invariant 0 <= i <= |s| && Good(lex, Now())
        invariant Process(lex, Now(), s[i..]) == Process(lex, was, s)
        decreases |s| - i + Kept(p), Pending(p.state), |s| - i + |p.pushback|
      {
        SameMeasure(Now(), p);
        if p.pushback != [] {
          var c := p.pushback[0];
          PoppedHolds(lex, Nesting(), Now());
          p := p.(pushback := p.pushback[1..]);
          StepProgress(lex, Now(), c);
          Feed(c);
        } else {
          assert s[i..][0] == s[i] && s[i..][1..] == s[i + 1..];
          StepProgress(lex, Now(), s[i]);
          Feed(s[i]);
          i := i + 1;
        }
        SameMeasure(Now(), p);
      }
    }

    /** Ends references and replays what they give back, closes everything and wraps when needed. */
    method Done() returns (r: Option<seq<Token>>)
      requires Good(lex, Now())
      modifies this, builder
      ensures r == Finish(lex, old(Now())) && (r.Some? ==> Repaired(r.value))
    {
      hide Step, Shape, Sane, PiRests, Stable, ResolveAtEnd, Render, PopTo, EndOfInput, Repaired;
      NestingIsStable(lex);
      ghost var start := Now();
      while p.pushback != [] || IsRef(p.state)
        invariant Good(lex, Now()) && Settle(lex, Now()) == Settle(lex, start)
        decreases Kept(p), Pending(p.state), |p.pushback|
      {
        if p.pushback != [] {
          var c := p.pushback[0];
          PoppedHolds(lex, Nesting(), Now());
          p := p.(pushback := p.pushback[1..]);
          StepProgress(lex, Now(), c);
          Feed(c);
        } else {
          ResolveAtEndEnds(Now());
          ResolveAtEndHolds(lex, Nesting(), Now());
          p := ResolveAtEnd(p.(tree := builder.t));
          builder.t := p.tree;
        }
      }
      builder.t := EndOfInput(p.(tree := builder.t));
      builder.PopUntil(0);
      FinishIsRepaired(lex, start);
      var t := builder.t;
      if AllSpace(Render(t.out)) {
        return None;
      }
      if t.rootCount == 1 && !t.topText {
        return Some(t.out);
      }
      r := Some(Wrap(t.out));
    }
  }

  lemma SameFits(lex: Lexicon, p: Parser, c: char)
    ensures forall s, r :: PiFits(lex, p.(started := s, prevCr := r), c) == PiFits(lex, p, c)
    ensures forall s, r :: PiFits(lex, p.(started := s, prevCr := r), '\n') == PiFits(lex, p, '\n')
  {
  }

  lemma SameMeasure(p: Parser, q: Parser)
    requires p == q.(tree := p.tree)
    ensures Kept(p) == Kept(q) && p.state == q.state && p.pushback == q.pushback
  {
  }

  /** A whole document in one call. */
  method ParseHtml(lex: Lexicon, input: string) returns (r: Option<seq<Token>>)
    ensures r == Finish(lex, Process(lex, INITIAL, input)) && (r.Some? ==> Repaired(r.value))
  {
    InitialGood(lex);
    var parser := new HtmlParser(lex);
    hide Process, Good;
    parser.ProcessText(input);
    r := parser.Done();
  }
}
