/** Output only grows: what the tree builder adds, and what every later output keeps. */
module HtmlGrowth {
  import opened HtmlTokens
  import opened HtmlTree
  import opened HtmlTokenizer
  import opened HtmlRepair

  // ----- What the tree builder adds -----

  /** `u` is `t` with some elements closed. */
  predicate Closes(t: Tree, u: Tree) {
    && t.out <= u.out && (forall i :: |t.out| <= i < |u.out| ==> u.out[i].Close?) && (u.out == t.out ==> u == t)
    && u.foreignDepth <= t.foreignDepth
  }

  lemma ClosesTwice(t: Tree, u: Tree, v: Tree)
    requires Closes(t, u) && Closes(u, v)
    ensures Closes(t, v)
  {
  }

  lemma {:induction false} PopToCloses(t: Tree, n: nat)
    ensures Closes(t, PopTo(t, n))
    decreases |t.stack|
  {
    if |t.stack| > n {
      PopToCloses(Pop(t), n);
      ClosesTwice(t, Pop(t), PopTo(Pop(t), n));
    }
  }

  lemma {:induction false} BreakOutCloses(t: Tree)
    ensures Closes(t, BreakOut(t)) && (t.foreignDepth > 0 && t.stack != [] ==> BreakOut(t) != t)
    decreases |t.stack|
  {
    if t.foreignDepth > 0 && t.stack != [] {
      BreakOutCloses(Pop(t));
      ClosesTwice(t, Pop(t), BreakOut(Pop(t)));
    }
  }

  lemma CloseThroughCloses(t: Tree, targets: seq<string>, stops: seq<string>)
    ensures Closes(t, CloseThrough(t, targets, stops))
  {
    hide AnyOf, PopTo, Closes;
    Unclosed(t);
    match Find(t.stack, |t.stack|, targets, stops)
    case None =>
    case Some(i) => PopToCloses(t, i);
  }

  lemma Unclosed(t: Tree)
    ensures Closes(t, t)
  {
  }

  lemma PopIfCloses(t: Tree, names: seq<string>)
    ensures Closes(t, PopIf(t, names))
  {
    hide AnyOf;
  }

  lemma AutoCloseCloses(t: Tree, name: string)
    ensures Closes(t, AutoClose(t, name))
  {
    hide CloseThrough, PopIf, LowerShort, Closes;
    Unclosed(t);
    CloseThroughCloses(t, ["p"], SCOPE_STOP);
    CloseThroughCloses(t, ["li"], LI_SCOPE);
    CloseThroughCloses(t, ["dd", "dt"], DL_SCOPE);
    CloseThroughCloses(t, ["rp", "rt"], RUBY_SCOPE);
    CloseThroughCloses(t, ["a"], SCOPE_STOP);
    PopIfCloses(t, HEADINGS);
    CloseThroughCloses(t, ["td", "th"], CELL_SCOPE);
    CloseThroughCloses(t, ["tr"], ROW_SCOPE);
    CloseThroughCloses(t, [name], TABLE_SCOPE);
    PopIfCloses(t, ["option"]);
    PopIfCloses(PopIf(t, ["option"]), ["optgroup"]);
    ClosesTwice(t, PopIf(t, ["option"]), PopIf(PopIf(t, ["option"]), ["optgroup"]));
  }

  /** The tree a start tag opens its element in. */
  function Before(t: Tree, name: string, attrs: seq<Attr>): Tree {
    var u := if t.foreignDepth > 0 && IsBreakout(name, attrs) then BreakOut(t) else t;
    if u.foreignDepth > 0 || (AnyOf(name, HTML_CONTAINERS) && OnStack(u, name)) then u else AutoClose(u, name)
  }

  /** Whether a start tag is dropped. */
  predicate Dropped(t: Tree, name: string, attrs: seq<Attr>) {
    var u := if t.foreignDepth > 0 && IsBreakout(name, attrs) then BreakOut(t) else t;
    u.foreignDepth == 0 && AnyOf(name, HTML_CONTAINERS) && OnStack(u, name)
  }

  /** A start tag closes elements, then adds at most one token. */
  lemma StartAdds(t: Tree, raw: string, attrs: seq<Attr>, selfClosing: bool)
    ensures var name, r := StartName(raw), StartTag(t, raw, attrs, selfClosing).t; var u := Before(t, name, attrs);
      && Closes(t, u)
      && (Dropped(t, name, attrs) ==> r == u)
      && (!Dropped(t, name, attrs) ==>
        r == if (u.foreignDepth == 0 && IsVoid(name)) || (u.foreignDepth > 0
          && selfClosing) then WriteEmpty(u, Normalize(name), attrs)
             else Push(u, Normalize(name), attrs, u.foreignDepth == 0 && IsForeignName(name)))
  {
    hide AutoClose, BreakOut, IsVoid, IsBreakout, Normalize, OnStack, AnyOf, SameName, ModeOf, Closes, IsForeignName;
    var name := StartName(raw);
    BreakOutCloses(t);
    Unclosed(t);
    var v := if t.foreignDepth > 0 && IsBreakout(name, attrs) then BreakOut(t) else t;
    AutoCloseCloses(v, name);
    ClosesTwice(t, v, AutoClose(v, name));
    ClosesDepth(v, AutoClose(v, name));
  }

  lemma ClosesDepth(t: Tree, u: Tree)
    requires Closes(t, u)
    ensures u.foreignDepth <= t.foreignDepth
  {
  }

  /** The tree an end tag finds its element in. */
  function Left(t: Tree, raw: string): Tree {
    if t.foreignDepth > 0 && (SameName(raw, "br") || SameName(raw, "p")) then BreakOut(t) else t
  }

  /** An end tag closes elements, or writes an empty pair or a line break. */
  lemma EndAdds(t: Tree, raw: string)
    ensures var r, u, n := EndTag(t, raw), Left(t, raw), Normalize(raw);
      && Closes(t, u)
      && (Closes(t, r) || (AnyOf(raw, PAIRED_END_TAGS) && r.out == u.out + [Open(n, []), Close(n)])
        || r == WriteEmpty(u, "br", []))
  {
    hide BreakOut, PopTo, SameName, Normalize, AnyOf, Closes;
    BreakOutCloses(t);
    Unclosed(t);
    var u := Left(t, raw);
    match LastNamed(u.stack, |u.stack|, Normalize(raw))
    case Some(i) =>
      PopToCloses(u, i);
      ClosesTwice(t, u, PopTo(u, i));
    case None =>
      assert (u.out + [Open(Normalize(raw), [])]) + [Close(Normalize(raw))] == u.out + [Open(Normalize(raw), []),
        Close(Normalize(raw))];
  }

  // ----- What stays once it is written -----

  /** A container tag the tree builder would drop. */
  predicate Reopens(base: Tree, k: Token) {
    base.foreignDepth == 0 && IsElement(k) && AnyOf(k.name, HTML_CONTAINERS) && OnStack(base, k.name)
  }

  /** The output of `t` goes on from that of `base`, and not with a container that is open there. */
  predicate Beyond(base: Tree, t: Tree) {
    && base.out <= t.out && (t.out == base.out ==> t.stack == base.stack && t.foreignDepth == base.foreignDepth)
    && (|t.out| > |base.out| ==> !Reopens(base, t.out[|base.out|]))
  }

  function Grew(base: Tree): Tree -> bool { t => Beyond(base, t) }

  lemma BeyondMore(base: Tree, t: Tree, u: Tree)
    requires Beyond(base, t) && t.out <= u.out
    requires |u.out| == |t.out| ==> u.stack == t.stack && u.foreignDepth == t.foreignDepth
    requires |t.out| == |base.out| && |u.out| > |t.out| ==> !Reopens(base, u.out[|t.out|])
    ensures Beyond(base, u)
  {
    hide Reopens;
    if |t.out| > |base.out| {
      assert u.out[|base.out|] == t.out[|base.out|];
    }
  }

  lemma BeyondCloses(base: Tree, t: Tree, u: Tree)
    requires Beyond(base, t) && Closes(t, u)
    ensures Beyond(base, u)
  {
    hide AnyOf, OnStack;
    if |u.out| == |t.out| {
      assert u.out == t.out;
    }
    BeyondMore(base, t, u);
  }

  lemma {:induction false} BeyondText(base: Tree, t: Tree, s: string)
    requires Beyond(base, t)
    ensures Beyond(base, EmitString(t, s))
    decreases |s|
  {
    hide AnyOf, OnStack, XmlSafe, IsSpace;
    if s != [] {
      BeyondText(base, t, s[..|s| - 1]);
      var u := EmitString(t, s[..|s| - 1]);
      BeyondMore(base, u, EmitText(u, s[|s| - 1]));
    }
  }

  lemma BeyondPi(base: Tree, t: Tree, target: string, data: string)
    requires Beyond(base, t)
    ensures Beyond(base, EmitPi(t, target, data))
  {
    hide AnyOf, OnStack, SafeAll, SameName;
    BeyondMore(base, t, EmitPi(t, target, data));
  }

  /** A name repaired into a container's is that container's. */
  lemma ContainerNames(name: string, other: string)
    ensures AnyOf(Normalize(name), HTML_CONTAINERS) ==> AnyOf(name, HTML_CONTAINERS) && !IsVoid(name)
    ensures AnyOf(Normalize(name), HTML_CONTAINERS) && SameName(other, Normalize(name)) ==> SameName(other, name)
    ensures !AnyOf("br", HTML_CONTAINERS)
  {
    hide Normalize;
    var n := Normalize(name);
    if AnyOf(n, HTML_CONTAINERS) {
      var k :| 0 <= k < |HTML_CONTAINERS| && SameName(n, HTML_CONTAINERS[k]);
      var w := HTML_CONTAINERS[k];
      NormalizedWord(name, w);
      assert LowerAll(name) == w && LowerAll(w) == w;
      assert SameName(name, w) by {
        forall i | 0 <= i < |name| ensures Lower(name[i]) == Lower(w[i]) { assert LowerAll(name)[i] == w[i]
          && LowerAll(w)[i] == w[i]; }
      }
    }
  }

  lemma ReopensIs(base: Tree, name: string, k: Token)
    requires IsElement(k) && k.name == Normalize(name) && Reopens(base, k)
    ensures base.foreignDepth == 0 && AnyOf(name, HTML_CONTAINERS) && OnStack(base, name)
  {
    hide Normalize, SameName, AnyOf, IsVoid;
    var i :| 0 <= i < |base.stack| && SameName(base.stack[i].name, k.name);
    ContainerNames(name, base.stack[i].name);
  }

  lemma NotReopened(base: Tree, u: Tree, name: string, k: Token)
    requires u.out == base.out ==> u.stack == base.stack && u.foreignDepth == base.foreignDepth
    requires !(u.foreignDepth == 0 && AnyOf(name, HTML_CONTAINERS) && OnStack(u, name))
    requires IsElement(k) && k.name == Normalize(name)
    ensures u.out == base.out ==> !Reopens(base, k)
  {
    hide Normalize, SameName, AnyOf, Reopens;
    if Reopens(base, k) {
      ReopensIs(base, name, k);
    }
  }

  lemma BeyondStart(base: Tree, t: Tree, raw: string, attrs: seq<Attr>, selfClosing: bool)
    requires Beyond(base, t)
    ensures Beyond(base, StartTag(t, raw, attrs, selfClosing).t)
  {
    hide StartTag, Before, Closes, Normalize, Reopens, StartName, AnyOf, OnStack, IsVoid, IsBreakout, IsForeignName,
      BreakOut, AutoClose;
    StartAdds(t, raw, attrs, selfClosing);
    var name, r := StartName(raw), StartTag(t, raw, attrs, selfClosing).t;
    var u := Before(t, name, attrs);
    BeyondCloses(base, t, u);
    if !Dropped(t, name, attrs) {
      StartIsFresh(t, name, attrs);
      if |u.out| == |base.out| {
        assert u.out == base.out;
      }
      NotReopened(base, u, name, Empty(Normalize(name), attrs));
      NotReopened(base, u, name, Open(Normalize(name), attrs));
      BeyondMore(base, u, r);
    }
  }

  /** A start tag that is not dropped finds no open container of its name. */
  lemma StartIsFresh(t: Tree, name: string, attrs: seq<Attr>)
    requires !Dropped(t, name, attrs)
    ensures var u := Before(t, name, attrs); !(u.foreignDepth == 0 && AnyOf(name, HTML_CONTAINERS) && OnStack(u, name))
  {
    hide AutoClose, BreakOut, IsBreakout, AnyOf, SameName;
    var v := if t.foreignDepth > 0 && IsBreakout(name, attrs) then BreakOut(t) else t;
    ContainersCloseNothing(v, name);
  }

  lemma ContainersCloseNothing(t: Tree, name: string)
    ensures AnyOf(name, HTML_CONTAINERS) ==> AutoClose(t, name) == t
  {
    hide CloseThrough, PopIf;
    if AnyOf(name, HTML_CONTAINERS) {
      var k :| 0 <= k < |HTML_CONTAINERS| && SameName(name, HTML_CONTAINERS[k]);
      var w := HTML_CONTAINERS[k];
      assert |name| == |w| && |w| == 4;
      assert LowerAll(name) == w by {
        forall i | 0 <= i < |name| ensures LowerAll(name)[i] == w[i] { assert Lower(name[i]) == Lower(w[i]); }
      }
    }
  }

  lemma BeyondEnd(base: Tree, t: Tree, raw: string)
    requires Beyond(base, t)
    ensures Beyond(base, EndTag(t, raw))
  {
    hide EndTag, Closes, Left, Normalize, AnyOf, OnStack, SameName;
    EndAdds(t, raw);
    var r, u := EndTag(t, raw), Left(t, raw);
    BeyondCloses(base, t, u);
    if Closes(t, r) {
      BeyondCloses(base, t, r);
    } else {
      ContainerNames(raw, raw);
      PairedAreNot(raw);
      assert |r.out| > |u.out| && r.out[..|u.out|] == u.out;
      BeyondMore(base, u, r);
    }
  }

  lemma PairedAreNot(raw: string)
    ensures AnyOf(raw, PAIRED_END_TAGS) ==> !AnyOf(Normalize(raw), HTML_CONTAINERS)
  {
    hide Normalize, IsVoid;
    ContainerNames(raw, raw);
    assert AnyOf(raw, PAIRED_END_TAGS) ==> |raw| <= 2;
    assert AnyOf(raw, HTML_CONTAINERS) ==> |raw| == 4;
  }

  lemma GrewIsStable(lex: Lexicon, base: Tree)
    ensures Stable(lex, Grew(base))
  {
    hide Beyond, EmitString, EmitPi, StartTag, EndTag, Tidy, PiOk;
    forall t, s | Beyond(base, t) ensures Beyond(base, EmitString(t, s)) { BeyondText(base, t, s); }
    forall t, target, data | Beyond(base, t)
      ensures Beyond(base, EmitPi(t, target, data)) { BeyondPi(base, t, target, data); }
    forall t, raw, attrs, sc | Beyond(base, t)
      ensures Beyond(base, StartTag(t, raw, attrs, sc).t) { BeyondStart(base, t, raw, attrs, sc); }
    forall t, raw | Beyond(base, t) ensures Beyond(base, EndTag(t, raw)) { BeyondEnd(base, t, raw); }
  }

  // ----- Processing instructions in the output -----

  predicate PisOk(lex: Lexicon, ts: seq<Token>) {
    forall k :: 0 <= k < |ts| && ts[k].Pi? ==> PiOk(lex, ts[k].target, ts[k].data)
  }

  function Instructed(lex: Lexicon): Tree -> bool { (t: Tree) => PisOk(lex, t.out) }

  lemma PisMore(lex: Lexicon, a: seq<Token>, b: seq<Token>)
    requires PisOk(lex, a) && a <= b && forall k :: |a| <= k < |b| ==> !b[k].Pi?
    ensures PisOk(lex, b)
  {
    hide PiOk;
    forall k | 0 <= k < |b| && b[k].Pi? ensures PiOk(lex, b[k].target, b[k].data) {
      assert b[k] == a[k];
    }
  }

  lemma {:induction false} PisText(lex: Lexicon, t: Tree, s: string)
    requires PisOk(lex, t.out)
    ensures PisOk(lex, EmitString(t, s).out)
    decreases |s|
  {
    hide PiOk, XmlSafe, IsSpace;
    if s != [] {
      PisText(lex, t, s[..|s| - 1]);
    }
  }

  lemma PisPi(lex: Lexicon, t: Tree, target: string, data: string)
    requires PisOk(lex, t.out) && PiOk(lex, target, data)
    ensures PisOk(lex, EmitPi(t, target, data).out)
  {
    hide TargetOk, SameName;
    SafeAt(data);
    SafeData(data);
  }

  lemma SafeData(data: string)
    ensures DataOk(data) ==> DataOk(SafeAll(data))
  {
    SafeAt(data);
    hide SafeAll;
  }

  lemma PisStart(lex: Lexicon, t: Tree, raw: string, attrs: seq<Attr>, selfClosing: bool)
    requires PisOk(lex, t.out)
    ensures PisOk(lex, StartTag(t, raw, attrs, selfClosing).t.out)
  {
    hide StartTag, Before, Dropped, Normalize, StartName, IsVoid, IsForeignName, PisOk;
    StartAdds(t, raw, attrs, selfClosing);
    PisMore(lex, t.out, StartTag(t, raw, attrs, selfClosing).t.out);
  }

  lemma PisEnd(lex: Lexicon, t: Tree, raw: string)
    requires PisOk(lex, t.out)
    ensures PisOk(lex, EndTag(t, raw).out)
  {
    hide EndTag, Left, Normalize, AnyOf, PisOk;
    EndAdds(t, raw);
    PisMore(lex, t.out, EndTag(t, raw).out);
  }

  lemma InstructedIsStable(lex: Lexicon)
    ensures Stable(lex, Instructed(lex))
  {
    hide PisOk, EmitString, EmitPi, StartTag, EndTag, Tidy, PiOk;
    forall t: Tree, s | PisOk(lex, t.out) ensures PisOk(lex, EmitString(t, s).out) { PisText(lex, t, s); }
    forall t: Tree, target, data | PisOk(lex, t.out) && PiOk(lex, target, data)
      ensures PisOk(lex, EmitPi(t, target, data).out) { PisPi(lex, t, target, data); }
    forall t: Tree, raw, attrs, sc | PisOk(lex, t.out)
      ensures PisOk(lex, StartTag(t, raw, attrs, sc).t.out) { PisStart(lex, t, raw, attrs, sc); }
    forall t: Tree, raw | PisOk(lex, t.out) ensures PisOk(lex, EndTag(t, raw).out) { PisEnd(lex, t, raw); }
  }

  /** Every processing instruction that comes out has a target of the classes the parser reads and
      data without `>`, carriage returns or leading blanks. */
  lemma EveryInstructionIsOk(lex: Lexicon, input: string)
    ensures var r := Finish(lex, Process(lex, INITIAL, input)); r.Some? ==> PisOk(lex, r.value)
  {
    hide Process, Settle, EndOfInput, PopTo, Stable, PisOk, Render, AllSpace, PiRests;
    NothingYet(lex);
    InstructedIsStable(lex);
    ProcessHolds(lex, Instructed(lex), INITIAL, input);
    var p := Process(lex, INITIAL, input);
    RunHolds(lex, Instructed(lex), p);
    var u := EndOfInput(Settle(lex, p));
    PopToCloses(u, 0);
    PisMore(lex, u.out, PopTo(u, 0).out);
    WrapPis(lex, PopTo(u, 0).out);
  }

  lemma NothingYet(lex: Lexicon)
    ensures Holds(lex, Instructed(lex), INITIAL)
  {
    NoAttrs();
  }

  lemma WrapPis(lex: Lexicon, ts: seq<Token>)
    requires PisOk(lex, ts)
    ensures PisOk(lex, Wrap(ts))
  {
    hide PiOk;
  }
}
