/** Documents that no rule of the parser touches come out as they went in. */
module HtmlFaithful {
  import opened Bytes
  import opened HtmlTokens
  import opened HtmlTree
  import opened HtmlTokenizer
  import opened HtmlRepair

  // ----- Documents the tree builder has nothing to repair in -----

  const BOM: char := '\U{FEFF}'

  predicate PlainText(s: string) { forall k :: 0 <= k < |s| ==> IsXml(s[k]) && s[k] != '\r' }

  predicate PlainName(n: string) { IsName(n) && IsAlpha(n[0]) }

  predicate PlainAttrs(attrs: seq<Attr>) {
    Distinct(attrs) && NamedWell(attrs) && forall k :: 0 <= k < |attrs| ==> PlainText(attrs[k].value)
  }

  /** The kind of text the innermost open element holds. */
  function ModeAt(stack: seq<OpenElement>): TextMode {
    if stack == [] then Normal else ModeOf(stack[|stack| - 1].name, ForeignRoots(stack) > 0)
  }

  function Mode(t: Tree): TextMode { ModeAt(t.stack) }

  /** A start tag that no rule of the tree builder renames, drops or moves. */
  predicate Untouched(t: Tree, n: string, attrs: seq<Attr>) {
    && !SameName(n, "image")
    && if t.foreignDepth > 0 then !IsBreakout(n, attrs)
       else !(AnyOf(n, HTML_CONTAINERS) && OnStack(t, n)) && AutoClose(t, n) == t
  }

  predicate IsMarkup(c: char) { c == '&' || c == '<' || c == '>' }

  /** Raw text is not unescaped. */
  predicate KeepsChar(mode: TextMode, c: char) { !mode.Plain? && (mode.Script? || mode.Raw? ==> !IsMarkup(c)) }

  /** A token that is read back as itself when the tree is `t`. */
  predicate Accepts(lex: Lexicon, t: Tree, k: Token) {
    match k
    case Chr(c) => IsXml(c) && c != '\r' && KeepsChar(Mode(t), c)
    case Open(n, attrs) =>
      && Mode(t) == Normal && PlainName(n) && PlainAttrs(attrs) && Untouched(t, n, attrs)
      && (t.foreignDepth > 0 || !IsVoid(n)) && ModeOf(n, t.foreignDepth > 0) != Plain
    case Empty(n, attrs) =>
      Mode(t) == Normal && PlainName(n) && PlainAttrs(attrs) && Untouched(t, n, attrs)
        && (t.foreignDepth > 0 || IsVoid(n))
    case Close(n) => PlainName(n) && t.stack != [] && t.stack[|t.stack| - 1].name == n
    case Pi(target, data) => Mode(t) == Normal && PiOk(lex, target, data) && PlainText(data)
  }

  function Apply(t: Tree, k: Token): Tree {
    match k
    case Chr(c) => EmitText(t, c)
    case Open(n, attrs) => Push(t, n, attrs, t.foreignDepth == 0 && IsForeignName(n))
    case Empty(n, attrs) => WriteEmpty(t, n, attrs)
    case Close(_) => Pop(t)
    case Pi(target, data) => EmitPi(t, target, data)
  }

  function Built(ts: seq<Token>): Tree {
    if ts == [] then EMPTY_TREE else Apply(Built(ts[..|ts| - 1]), ts[|ts| - 1])
  }

  predicate Orderly(lex: Lexicon, ts: seq<Token>) {
    ts == [] || (Orderly(lex, ts[..|ts| - 1]) && Accepts(lex, Built(ts[..|ts| - 1]), ts[|ts| - 1]))
  }

  // ----- Where the parser stands -----

  predicate Ready(p: Parser) { Shape(p) && p.started && !p.prevCr && p.pushback == [] }

  /** Ready, in a given state, with a given tree and tag. */
  predicate Stands(p: Parser, s: State, t: Tree, g: Tag) { Ready(p) && p.state == s && p.tree == t && p.tag == g }

  lemma OneChar(lex: Lexicon, p: Parser, c: char)
    requires Ready(p) && c != '\r' && StepState(lex, p, c).pushback == []
    ensures Process(lex, p, [c]) == StepState(lex, p, c)
  {
    hide StepState;
    assert p.(started := true) == p && p.(prevCr := false) == p;
    assert Step(lex, p, c) == StepState(lex, p, c);
    StepKeeps(lex, p, c);
    hide Step;
    var q := Step(lex, p, c);
    assert [c][1..] == [];
    assert Process(lex, q, []) == q;
  }

  lemma ProcessNothing(lex: Lexicon, p: Parser)
    requires Shape(p) && p.pushback == []
    ensures Process(lex, p, []) == p
  {
  }

  /** One character that a state uses up without looking again. */
  lemma Used(lex: Lexicon, p: Parser, c: char, q: Parser)
    requires Ready(p) && c != '\r' && Look(lex, p, c) == Next(q, false) && SamePlace(p, q) && Shape(q)
    ensures Process(lex, p, [c]) == q && Ready(q)
  {
    hide Look;
    assert StepState(lex, p, c) == q;
    OneChar(lex, p, c);
  }

  /** One character that a second state uses up. */
  lemma UsedNext(lex: Lexicon, p: Parser, c: char, r: Parser, q: Parser)
    requires Ready(p) && c != '\r' && Look(lex, p, c) == Next(r, true)
    requires Shape(r) && Look(lex, r, c) == Next(q, false) && SamePlace(p, q) && Shape(q)
    ensures Process(lex, p, [c]) == q && Ready(q)
  {
    hide Look;
    LookSettles(lex, p, c);
    assert StepState(lex, r, c) == q;
    assert StepState(lex, p, c) == q;
    OneChar(lex, p, c);
  }

  predicate SamePlace(p: Parser, q: Parser) {
    q.pushback == p.pushback && q.started == p.started && q.prevCr == p.prevCr
  }

  // ----- Text -----

  lemma SayOne(t: Tree, c: char)
    ensures EmitString(t, [c]) == EmitText(t, c)
  {
    assert [c][..0] == [];
  }

  predicate TextPlace(s: State) { s.Data? || s.Rcdata? || s.Rawtext? || s.ScriptData? || s.Plaintext? }

  predicate RefPlace(s: State) { s.Data? || s.Rcdata? || s.AttrValueDq? }

  /** Whether a text state emits `c` as it stands. */
  predicate Emits(s: State, c: char) { TextPlace(s) && (s.Plaintext? || c != '<') && (RefPlace(s) ==> c != '&') }

  lemma EmitsIs(p: Parser, c: char)
    requires Shape(p) && Emits(p.state, c)
    ensures TextStep(p, c) == Next(p.(tree := EmitText(p.tree, c)), false)
  {
    SayOne(p.tree, c);
    hide EmitString, EmitText;
  }

  lemma PlainChar(lex: Lexicon, p: Parser, s: State, c: char, t: Tree, g: Tag)
    requires Stands(p, s, t, g) && Emits(s, c) && c != '\r'
    ensures Stands(Process(lex, p, [c]), s, EmitText(t, c), g)
  {
    hide EmitText, Look, Process, Emits, TextStep;
    EmitsIs(p, c);
    EmitsInText(p.state, c);
    LookText(lex, p, c);
    Used(lex, p, c, p.(tree := EmitText(p.tree, c)));
  }

  lemma EmitsInText(s: State, c: char)
    ensures Emits(s, c) ==> InText(s)
  {
  }

  // ----- References to the four escaped characters -----

  predicate Knows(lex: Lexicon, name: string, c: char) {
    name in lex.entities && lex.entities[name] == Entity(c as int, 0)
  }

  /** The references the output is written with. */
  predicate Standard(lex: Lexicon) {
    Knows(lex, "amp", '&') && Knows(lex, "lt", '<') && Knows(lex, "gt", '>') && Knows(lex, "quot", '"')
  }

  predicate Letters(s: string) { forall k :: 0 <= k < |s| ==> IsAlnum(s[k]) }

  /** In a reference whose name so far is `buf`. */
  predicate InName(p: Parser, s: State, t: Tree, g: Tag, buf: string) {
    && Ready(p) && p.tree == t && p.tag == g && p.ref.ret == s && RefPlace(s)
    && (if buf == [] then p.state.CharRef? else p.state.CharRefNamed? && p.ref.buf == buf)
  }

  lemma Ampersand(lex: Lexicon, p: Parser, s: State, t: Tree, g: Tag)
    requires Stands(p, s, t, g) && RefPlace(s)
    ensures InName(Process(lex, p, "&"), s, t, g, [])
  {
    hide Look, Process, Say, EmitTag, CreateAttr;
    if s.AttrValueDq? {
      LookAttr(lex, p, '&');
    } else {
      LookText(lex, p, '&');
    }
    Used(lex, p, '&', BeginRef(p).p);
  }

  lemma LookNamed(lex: Lexicon, p: Parser, c: char)
    requires Shape(p) && (p.state.CharRefNamed? || (p.state.CharRef? && IsAlnum(c)))
    ensures Look(lex, p, c) == Next(NamedStep(lex, p, c), false)
  {
    hide NamedStep, TagStep, AttrStep, TextStep, DeclStep, CdataStep, PiStep, RawStep, EscapeStep, NumericStep;
  }

  lemma NameLetter(lex: Lexicon, p: Parser, s: State, t: Tree, g: Tag, buf: string, name: string)
    requires InName(p, s, t, g, buf) && name in lex.entities && Letters(name) && |buf| < |name| && buf == name[..|buf|]
    ensures InName(Process(lex, p, [name[|buf|]]), s, t, g, name[..|buf| + 1])
  {
    var c := name[|buf|];
    assert IsAlnum(c);
    var q := NamedBuffer(lex, p, c);
    var r := q.(state := CharRefNamed);
    assert SamePlace(p, r) && Shape(r);
    hide Look, NamedBuffer, Process;
    assert q.ref.buf == name[..|buf| + 1];
    assert lex.CanExtend(q.ref.buf);
    LookNamed(lex, p, c);
    Used(lex, p, c, r);
  }

  lemma {:induction false} NameLetters(lex: Lexicon, p: Parser, s: State, t: Tree, g: Tag, k: nat, name: string)
    requires k <= |name| && InName(p, s, t, g, name[..k]) && name in lex.entities && Letters(name)
    ensures InName(Process(lex, p, name[k..]), s, t, g, name)
    decreases |name| - k
  {
    hide InName, Letters, Process, Shape;
    ReadyIn(p, s, t, g, name[..k]);
    if k == |name| {
      ProcessNothing(lex, p);
      assert name[k..] == [] && name[..k] == name;
    } else {
      NameLetter(lex, p, s, t, g, name[..k], name);
      var q := Process(lex, p, [name[k]]);
      NameLetters(lex, q, s, t, g, k + 1, name);
      assert name[k..] == [name[k]] + name[k + 1..];
      ChunksDoNotMatter(lex, p, [name[k]], name[k + 1..]);
    }
  }

  lemma ReadyIn(p: Parser, s: State, t: Tree, g: Tag, buf: string)
    requires InName(p, s, t, g, buf)
    ensures Shape(p) && p.pushback == []
  {
  }

  /** What a resolved reference leaves behind. */
  function Resolved(s: State, t: Tree, c: char): Tree { if s.AttrValueDq? then t else EmitText(t, c) }

  function ResolvedTag(s: State, g: Tag, c: char): Tag {
    if s.AttrValueDq? then g.(attrValue := g.attrValue + [c]) else g
  }

  lemma FullMatch(lex: Lexicon, name: string, c: char)
    requires name != [] && Knows(lex, name, c)
    ensures var full := name + ";"; lex.Full(full) == Some(Match(|full|, Entity(c as int, 0))) && !lex.CanExtend(full)
  {
    var full := name + ";";
    assert full[..|name|] == name && full[|name|] == ';';
  }

  /** A reference found in full is replaced, and nothing is given back. */
  lemma ResolveFound(p: Parser, c: char)
    requires Shape(p) && p.pushback == [] && p.ref.buf != [] && p.ref.buf[|p.ref.buf| - 1] == ';'
    requires p.ref.found == Some(Match(|p.ref.buf|, Entity(c as int, 0))) && RefPlace(p.ref.ret)
    ensures var q := ResolveNamed(p);
      && q.pushback == [] && q.state == p.ref.ret && q.ref.ret == p.ref.ret && q.started == p.started
        && q.prevCr == p.prevCr
      && q.tree == Resolved(p.ref.ret, p.tree, c) && q.tag == ResolvedTag(p.ref.ret, p.tag, c)
  {
    hide EmitString, EmitText;
    assert p.ref.buf[|p.ref.buf|..] == [] && [] + p.pushback == p.pushback;
    assert CodePoint(c as int) + [] == [c];
    SayOne(p.tree, c);
  }

  lemma Semicolon(lex: Lexicon, p: Parser, s: State, t: Tree, g: Tag, name: string, c: char)
    requires InName(p, s, t, g, name) && name != [] && Letters(name) && Knows(lex, name, c)
    ensures Stands(Process(lex, p, ";"), s, Resolved(s, t, c), ResolvedTag(s, g, c))
  {
    var q := NamedBuffer(lex, p, ';');
    FullMatch(lex, name, c);
    assert q.ref.buf == name + ";" && q.ref.found == Some(Match(|q.ref.buf|, Entity(c as int, 0)));
    assert q.started == p.started && q.prevCr == p.prevCr;
    hide Look, NamedBuffer, Process, ResolveNamed, Resolved, ResolvedTag;
    ResolveFound(q, c);
    LookNamed(lex, p, ';');
    Used(lex, p, ';', ResolveNamed(q));
  }

  lemma Reference(lex: Lexicon, p: Parser, s: State, t: Tree, g: Tag, name: string, c: char)
    requires Stands(p, s, t, g) && RefPlace(s) && name != [] && Letters(name) && Knows(lex, name, c)
    ensures Stands(Process(lex, p, "&" + name + ";"), s, Resolved(s, t, c), ResolvedTag(s, g, c))
  {
    hide InName, Letters, Resolved, ResolvedTag, Knows;
    ShapeOf(p, s, t, g);
    NameKnown(lex, name, c);
    Ampersand(lex, p, s, t, g);
    var q := Process(lex, p, "&");
    assert name[..0] == [] && name[0..] == name;
    NameLetters(lex, q, s, t, g, 0, name);
    var r := Process(lex, q, name);
    Semicolon(lex, r, s, t, g, name, c);
    ChunksDoNotMatter(lex, p, "&", name);
    ChunksDoNotMatter(lex, p, "&" + name, ";");
  }

  lemma NameKnown(lex: Lexicon, name: string, c: char)
    requires Knows(lex, name, c)
    ensures name in lex.entities
  {
  }

  lemma ShapeOf(p: Parser, s: State, t: Tree, g: Tag)
    requires Stands(p, s, t, g)
    ensures Shape(p) && p.pushback == []
  {
  }

  /** Text passes where references are read, and elsewhere when it holds no markup characters. */
  lemma TextPasses(lex: Lexicon, p: Parser, s: State, c: char, t: Tree, g: Tag)
    requires Stands(p, s, t, g) && (s.Data? || s.Rcdata? || ((s.Rawtext? || s.ScriptData?) && !IsMarkup(c)))
    requires c != '\r' && Standard(lex)
    ensures Stands(Process(lex, p, Escape(c)), s, EmitText(t, c), g)
  {
    hide Stands, EmitText, Process;
    assert "&" + "amp" + ";" == "&amp;" && "&" + "lt" + ";" == "&lt;" && "&" + "gt" + ";" == "&gt;";
    if c == '&' {
      Reference(lex, p, s, t, g, "amp", c);
    } else if c == '<' {
      Reference(lex, p, s, t, g, "lt", c);
    } else if c == '>' {
      Reference(lex, p, s, t, g, "gt", c);
    } else {
      PlainChar(lex, p, s, c, t, g);
    }
  }

  // ----- Names and attributes -----

  lemma NameCharFacts(c: char)
    ensures NameChar(c) ==> !IsBlank(c) && c != '/' && c != '>' && c != '=' && c != '\r' && c != '"'
  {
  }

  lemma TagNameChar(lex: Lexicon, p: Parser, c: char, t: Tree, g: Tag)
    requires Stands(p, TagName, t, g) && NameChar(c)
    ensures Stands(Process(lex, p, [c]), TagName, t, g.(name := g.name + [c]))
  {
    NameCharFacts(c);
    hide NameChar, Look, Process, EmitTag;
    LookTag(lex, p, c);
    Used(lex, p, c, Goto(p.(tag := p.tag.(name := p.tag.name + [c])), TagName).p);
  }

  predicate NameChars(s: string) { forall k :: 0 <= k < |s| ==> NameChar(s[k]) }

  lemma {:induction false} TagNameChars(lex: Lexicon, p: Parser, s: string, t: Tree, g: Tag)
    requires Stands(p, TagName, t, g) && NameChars(s)
    ensures Stands(Process(lex, p, s), TagName, t, g.(name := g.name + s))
    decreases |s|
  {
    hide NameChar, Stands, Process, Shape;
    ShapeOf(p, TagName, t, g);
    if s == [] {
      ProcessNothing(lex, p);
      assert g.(name := g.name + []) == g;
    } else {
      TagNameChar(lex, p, s[0], t, g);
      TagNameChars(lex, Process(lex, p, [s[0]]), s[1..], t, g.(name := g.name + [s[0]]));
      assert s == [s[0]] + s[1..];
      ChunksDoNotMatter(lex, p, [s[0]], s[1..]);
      assert (g.name + [s[0]]) + s[1..] == g.name + s;
    }
  }

  lemma AttrNameChar(lex: Lexicon, p: Parser, c: char, t: Tree, g: Tag)
    requires Stands(p, AttributeName, t, g) && NameChar(c)
    ensures Stands(Process(lex, p, [c]), AttributeName, t, g.(attrName := g.attrName + [c]))
  {
    NameCharFacts(c);
    hide NameChar, Look, Process, EmitTag, CreateAttr;
    LookAttr(lex, p, c);
    Used(lex, p, c, PushName(p, c).p);
  }

  lemma {:induction false} AttrNameChars(lex: Lexicon, p: Parser, s: string, t: Tree, g: Tag)
    requires Stands(p, AttributeName, t, g) && NameChars(s)
    ensures Stands(Process(lex, p, s), AttributeName, t, g.(attrName := g.attrName + s))
    decreases |s|
  {
    hide NameChar, Stands, Process, Shape;
    ShapeOf(p, AttributeName, t, g);
    if s == [] {
      ProcessNothing(lex, p);
      assert g.(attrName := g.attrName + []) == g;
    } else {
      AttrNameChar(lex, p, s[0], t, g);
      AttrNameChars(lex, Process(lex, p, [s[0]]), s[1..], t, g.(attrName := g.attrName + [s[0]]));
      assert s == [s[0]] + s[1..];
      ChunksDoNotMatter(lex, p, [s[0]], s[1..]);
      assert (g.attrName + [s[0]]) + s[1..] == g.attrName + s;
    }
  }

  lemma PlainValueChar(lex: Lexicon, p: Parser, c: char, t: Tree, g: Tag)
    requires Stands(p, AttrValueDq, t, g) && c != '\r' && c != '&' && c != '"'
    ensures Stands(Process(lex, p, [c]), AttrValueDq, t, g.(attrValue := g.attrValue + [c]))
  {
    hide Look, Process, EmitTag, CreateAttr;
    LookAttr(lex, p, c);
    Used(lex, p, c, PushValue(p, c).p);
  }

  lemma ValueChar(lex: Lexicon, p: Parser, c: char, t: Tree, g: Tag)
    requires Stands(p, AttrValueDq, t, g) && c != '\r' && Standard(lex)
    ensures Stands(Process(lex, p, EscapeValue(c)), AttrValueDq, t, g.(attrValue := g.attrValue + [c]))
  {
    hide Stands, Process, EmitText;
    if c == '&' || c == '<' || c == '>' || c == '"' {
      assert "&" + "amp" + ";" == "&amp;" && "&" + "lt" + ";" == "&lt;" && "&" + "gt" + ";" == "&gt;"
        && "&" + "quot" + ";" == "&quot;";
      Reference(lex, p, AttrValueDq, t, g,
        if c == '&' then "amp" else if c == '<' then "lt" else if c == '>' then "gt" else "quot", c);
    } else {
      PlainValueChar(lex, p, c, t, g);
    }
  }

  /** What a value reads back as: characters XML does not allow are replaced and line ends normalised. */
  function ReadBack(v: string): string {
    if v == [] then []
    else
      var r, c := ReadBack(v[..|v| - 1]), XmlSafe(v[|v| - 1]);
      if c == '\r' then r + "\n" else if c == '\n' && EndsCr(v[..|v| - 1]) then r else r + [c]
  }

  predicate EndsCr(v: string) { v != [] && v[|v| - 1] == '\r' }

  lemma {:induction false} ReadBackIsPlain(v: string)
    ensures PlainText(ReadBack(v)) && (PlainText(v) ==> ReadBack(v) == v)
    decreases |v|
  {
    hide IsXml;
    NewlineIsXml();
    if v != [] {
      ReadBackIsPlain(v[..|v| - 1]);
      assert v == v[..|v| - 1] + [v[|v| - 1]];
    }
  }

  lemma NewlineIsXml()
    ensures IsXml('\n') && XmlSafe('\r') == '\r' && forall c :: XmlSafe(c) == '\r' ==> c == '\r'
  {
  }

  /** Inside a quoted value, right behind a carriage return or not. */
  predicate InQuotes(p: Parser, t: Tree, g: Tag, cr: bool) {
    p.prevCr == cr && Stands(p.(prevCr := false), AttrValueDq, t, g)
  }

  /** A carriage return is forgotten at the next character unless that is a newline. */
  lemma AfterCr(lex: Lexicon, p: Parser, s: string)
    requires Shape(p) && p.pushback == [] && p.started && s != [] && s[0] != '\r' && (p.prevCr ==> s[0] != '\n')
    ensures Process(lex, p, s) == Process(lex, p.(prevCr := false), s)
  {
    hide StepState;
    var q := p.(prevCr := false);
    assert p.(started := true, prevCr := false) == q == q.(started := true, prevCr := false);
  }

  lemma ReturnInQuotes(lex: Lexicon, p: Parser, t: Tree, g: Tag, cr: bool)
    requires InQuotes(p, t, g, cr)
    ensures InQuotes(Process(lex, p, "\r"), t, g.(attrValue := g.attrValue + "\n"), true)
  {
    hide Look, Process, EmitTag, CreateAttr;
    var q := p.(started := true, prevCr := true);
    LookAttr(lex, q, '\n');
    ReturnIs(lex, p, PushValue(q, '\n').p);
  }

  /** A carriage return is a newline to the state that sees it. */
  lemma ReturnIs(lex: Lexicon, p: Parser, q: Parser)
    requires Shape(p) && p.started && p.pushback == [] && Shape(q) && q.pushback == []
    requires Look(lex, p.(prevCr := true), '\n') == Next(q, false)
    ensures Process(lex, p, "\r") == q
  {
    hide Look;
    assert p.(started := true, prevCr := true) == p.(prevCr := true);
    assert StepState(lex, p.(prevCr := true), '\n') == q;
    assert Step(lex, p, '\r') == q;
    hide Step, StepState;
    StepKeeps(lex, p, '\r');
    assert "\r"[1..] == [];
    assert Process(lex, q, []) == q;
  }

  lemma NewlineSkipped(lex: Lexicon, p: Parser)
    requires Shape(p) && p.started && p.prevCr && p.pushback == []
    ensures Process(lex, p, "\n") == p.(prevCr := false)
  {
    var q := p.(prevCr := false);
    assert Step(lex, p, '\n') == q;
    StepKeeps(lex, p, '\n');
    hide Step;
    assert "\n"[1..] == [];
    assert Process(lex, q, []) == q;
  }

  lemma ValueStep(lex: Lexicon, p: Parser, c: char, t: Tree, g: Tag, v: string)
    requires InQuotes(p, t, g, EndsCr(v)) && IsXml(c) && Standard(lex)
    ensures var r := if c == '\r' then "\n" else if c == '\n' && EndsCr(v) then [] else [c];
      InQuotes(Process(lex, p, EscapeValue(c)), t, g.(attrValue := g.attrValue + r), c == '\r')
  {
    hide Process, Standard;
    if c == '\r' {
      ReturnInQuotes(lex, p, t, g, EndsCr(v));
    } else if c == '\n' && EndsCr(v) {
      NewlineSkipped(lex, p);
      assert g.attrValue + [] == g.attrValue;
    } else {
      AfterCr(lex, p, EscapeValue(c));
      ValueChar(lex, p.(prevCr := false), c, t, g);
    }
  }

  lemma {:induction false} ValueChars(lex: Lexicon, p: Parser, v: string, t: Tree, g: Tag)
    requires Stands(p, AttrValueDq, t, g) && Standard(lex)
    ensures InQuotes(Process(lex, p, EscapeAll(v)), t, g.(attrValue := g.attrValue + ReadBack(v)), EndsCr(v))
    decreases |v|
  {
    hide EscapeValue, Standard, Process, XmlSafe;
    if v == [] {
      ProcessNothing(lex, p);
      assert g.(attrValue := g.attrValue + []) == g;
    } else {
      var init, c := v[..|v| - 1], XmlSafe(v[|v| - 1]);
      NewlineIsXml();
      ValueChars(lex, p, init, t, g);
      var q := Process(lex, p, EscapeAll(init));
      ValueStep(lex, q, c, t, g.(attrValue := g.attrValue + ReadBack(init)), init);
      ChunksDoNotMatter(lex, p, EscapeAll(init), EscapeValue(c));
      var r := if c == '\r' then "\n" else if c == '\n' && EndsCr(init) then [] else [c];
      assert (g.attrValue + ReadBack(init)) + r == g.attrValue + ReadBack(v);
    }
  }

  /** Ready for an attribute or for the end of a start tag, with the attributes read so far. */
  predicate InTag(p: Parser, t: Tree, n: string, attrs: seq<Attr>) {
    && Ready(p) && (p.state.TagName? || p.state.AfterAttrValueQuoted?) && p.tree == t
    && p.tag.name == n && !p.tag.isEnd && !p.tag.selfClosing && FinishAttr(p.tag).attrs == attrs
  }

  lemma SpaceBefore(lex: Lexicon, p: Parser, t: Tree, n: string, attrs: seq<Attr>)
    requires InTag(p, t, n, attrs)
    ensures Process(lex, p, " ") == Goto(p, BeforeAttributeName).p && Ready(Goto(p, BeforeAttributeName).p)
  {
    hide Look, Process, EmitTag, CreateAttr, FinishAttr;
    if p.state.TagName? {
      LookTag(lex, p, ' ');
    } else {
      LookAttr(lex, p, ' ');
    }
    Used(lex, p, ' ', Goto(p, BeforeAttributeName).p);
  }

  lemma FirstLetter(lex: Lexicon, q: Parser, t: Tree, n: string, attrs: seq<Attr>, c: char)
    requires Ready(q) && q.state == BeforeAttributeName && q.tree == t && NameStart(c)
    requires q.tag.name == n && !q.tag.isEnd && !q.tag.selfClosing && FinishAttr(q.tag).attrs == attrs
    ensures Stands(Process(lex, q, [c]), AttributeName, t, Tag(false, n, attrs, [c], [], false))
  {
    StartIsName(c);
    NameCharFacts(c);
    hide NameStart, NameChar, Normalize, HasAttr, Look, Process, EmitTag;
    LookAttr(lex, q, c);
    Used(lex, q, c, CreateAttr(q, c).p);
  }

  lemma AttrBegins(lex: Lexicon, p: Parser, t: Tree, n: string, attrs: seq<Attr>, c: char)
    requires InTag(p, t, n, attrs) && NameStart(c)
    ensures Stands(Process(lex, p, [' ', c]), AttributeName, t, Tag(false, n, attrs, [c], [], false))
  {
    hide Process, FinishAttr, NameStart;
    SpaceBefore(lex, p, t, n, attrs);
    FirstLetter(lex, Goto(p, BeforeAttributeName).p, t, n, attrs, c);
    ChunksDoNotMatter(lex, p, " ", [c]);
    assert " " + [c] == [' ', c];
  }

  lemma ValueBegins(lex: Lexicon, p: Parser, t: Tree, g: Tag)
    requires Stands(p, AttributeName, t, g)
    ensures Stands(Process(lex, p, "=\""), AttrValueDq, t, g)
  {
    hide Look, Process, EmitTag, CreateAttr, PushName;
    var q := Goto(p, BeforeAttributeValue).p;
    LookAttr(lex, p, '=');
    Used(lex, p, '=', q);
    LookAttr(lex, q, '"');
    Used(lex, q, '"', Goto(q, AttrValueDq).p);
    ChunksDoNotMatter(lex, p, "=", "\"");
    assert "=" + "\"" == "=\"";
  }

  lemma ValueEnds(lex: Lexicon, p: Parser, t: Tree, g: Tag, cr: bool)
    requires InQuotes(p, t, g, cr)
    ensures Stands(Process(lex, p, "\""), AfterAttrValueQuoted, t, g)
  {
    hide Look, Process, EmitTag, CreateAttr, PushValue;
    var q := p.(prevCr := false);
    AfterCr(lex, p, "\"");
    LookAttr(lex, q, '"');
    Used(lex, q, '"', Goto(q, AfterAttrValueQuoted).p);
  }

  function AttrText(a: Attr): string { " " + a.name + "=\"" + EscapeAll(a.value) + "\"" }

  lemma AttrTextIs(a: Attr)
    requires a.name != []
    ensures AttrText(a) == [' ', a.name[0]] + (a.name[1..] + ("=\"" + (EscapeAll(a.value) + "\"")))
  {
    hide EscapeAll;
    assert a.name == [a.name[0]] + a.name[1..];
  }

  /** Its name, an equals sign and its quoted value. */
  lemma AttrPasses(lex: Lexicon, p: Parser, t: Tree, n: string, attrs: seq<Attr>, a: Attr)
    requires InTag(p, t, n, attrs) && IsName(a.name) && Standard(lex)
    ensures Stands(Process(lex, p, AttrText(a)), AfterAttrValueQuoted, t,
      Tag(false, n, attrs, a.name, ReadBack(a.value), false))
  {
    hide Process, Stands, NameChar, NameStart, EscapeAll, Standard, Shape, ReadBack, EndsCr, InQuotes;
    ShapeInTag(p, t, n, attrs);
    var c, rest := a.name[0], a.name[1..];
    AttrTextIs(a);
    AttrBegins(lex, p, t, n, attrs, c);
    var p1 := Process(lex, p, [' ', c]);
    var g1 := Tag(false, n, attrs, [c], [], false);
    AttrNameChars(lex, p1, rest, t, g1);
    var p2 := Process(lex, p1, rest);
    var g2 := Tag(false, n, attrs, a.name, [], false);
    assert [c] + rest == a.name;
    ValueBegins(lex, p2, t, g2);
    var p3 := Process(lex, p2, "=\"");
    ValueChars(lex, p3, a.value, t, g2);
    var p4 := Process(lex, p3, EscapeAll(a.value));
    assert [] + ReadBack(a.value) == ReadBack(a.value);
    ValueEnds(lex, p4, t, Tag(false, n, attrs, a.name, ReadBack(a.value), false), EndsCr(a.value));
    Shapes(p1, AttributeName, t, g1, p2, AttributeName, g2, p3, AttrValueDq);
    ChunksDoNotMatter(lex, p3, EscapeAll(a.value), "\"");
    ChunksDoNotMatter(lex, p2, "=\"", EscapeAll(a.value) + "\"");
    ChunksDoNotMatter(lex, p1, rest, "=\"" + (EscapeAll(a.value) + "\""));
    ChunksDoNotMatter(lex, p, [' ', c], rest + ("=\"" + (EscapeAll(a.value) + "\"")));
  }

  lemma ShapeInTag(p: Parser, t: Tree, n: string, attrs: seq<Attr>)
    requires InTag(p, t, n, attrs)
    ensures Shape(p) && p.pushback == []
  {
  }

  lemma Shapes(p1: Parser, s1: State, t: Tree, g1: Tag, p2: Parser, s2: State, g2: Tag, p3: Parser, s3: State)
    requires Stands(p1, s1, t, g1) && Stands(p2, s2, t, g2) && Stands(p3, s3, t, g2)
    ensures Shape(p1) && Shape(p2) && Shape(p3)
  {
  }

  lemma FinishNew(n: string, attrs: seq<Attr>, a: Attr)
    requires IsName(a.name) && Distinct(attrs + [a])
    ensures FinishAttr(Tag(false, n, attrs, a.name, a.value, false)).attrs == attrs + [a]
  {
    NormalizeIsName(a.name);
    hide Normalize, SameName, NameStart, NameChar;
    forall k | 0 <= k < |attrs|
      ensures !SameName(attrs[k].name, a.name)
    {
      assert (attrs + [a])[k] == attrs[k] && (attrs + [a])[|attrs|] == a;
    }
  }

  /** The attributes as they are read back. */
  function ReadAttrs(attrs: seq<Attr>): (r: seq<Attr>)
    ensures |r| == |attrs| && forall k :: 0 <= k < |attrs| ==> r[k] == Attr(attrs[k].name, ReadBack(attrs[k].value))
  {
    if attrs == [] then [] else ReadAttrs(attrs[..|attrs| - 1]) + [Attr(attrs[|attrs| - 1].name,
      ReadBack(attrs[|attrs| - 1].value))]
  }

  lemma ReadAttrsTidy(attrs: seq<Attr>)
    requires Tidy(attrs)
    ensures Tidy(ReadAttrs(attrs)) && (PlainAttrs(attrs) <==> ReadAttrs(attrs) == attrs)
  {
    hide IsName, SameName, ReadBack, PlainText;
    forall k | 0 <= k < |attrs| ensures PlainText(ReadBack(attrs[k].value))
      && (PlainText(attrs[k].value) ==> ReadBack(attrs[k].value) == attrs[k].value) {
      ReadBackIsPlain(attrs[k].value);
    }
  }

  lemma {:induction false} AttrsPass(lex: Lexicon, p: Parser, t: Tree, n: string, attrs: seq<Attr>)
    requires InTag(p, t, n, []) && Tidy(attrs) && Standard(lex)
    ensures InTag(Process(lex, p, RenderAttrs(attrs)), t, n, ReadAttrs(attrs))
    decreases |attrs|
  {
    hide Process, InTag, IsName, ReadBack, Standard, EscapeAll, Shape;
    ShapeInTag(p, t, n, []);
    if attrs == [] {
      ProcessNothing(lex, p);
    } else {
      var init, a := attrs[..|attrs| - 1], attrs[|attrs| - 1];
      assert attrs == init + [a];
      AttrsPass(lex, p, t, n, init);
      var q := Process(lex, p, RenderAttrs(init));
      AttrPasses(lex, q, t, n, ReadAttrs(init), a);
      ReadAttrsTidy(attrs);
      var b := Attr(a.name, ReadBack(a.value));
      assert ReadAttrs(attrs) == ReadAttrs(init) + [b];
      FinishNew(n, ReadAttrs(init), b);
      ChunksDoNotMatter(lex, p, RenderAttrs(init), AttrText(a));
      Collected(Process(lex, q, AttrText(a)), t, n, ReadAttrs(init), b);
    }
  }

  lemma Collected(p: Parser, t: Tree, n: string, init: seq<Attr>, a: Attr)
    requires Stands(p, AfterAttrValueQuoted, t, Tag(false, n, init, a.name, a.value, false))
    requires FinishAttr(Tag(false, n, init, a.name, a.value, false)).attrs == init + [a]
    ensures InTag(p, t, n, init + [a])
  {
  }

  // ----- Whole tags -----

  lemma LessThan(lex: Lexicon, p: Parser, t: Tree, g: Tag)
    requires Stands(p, Data, t, g)
    ensures Stands(Process(lex, p, "<"), TagOpen, t, g)
  {
    hide Look, Process, Say;
    LookText(lex, p, '<');
    Used(lex, p, '<', Goto(p, TagOpen).p);
  }

  lemma TagLetter(lex: Lexicon, p: Parser, t: Tree, g: Tag, c: char)
    requires Stands(p, TagOpen, t, g) && IsAlpha(c)
    ensures Stands(Process(lex, p, [c]), TagName, t, Tag(false, [c], [], [], [], false))
  {
    hide Look, Process, Say;
    LookTag(lex, p, c);
    Used(lex, p, c, Goto(NewTag(p, false, c), TagName).p);
  }

  lemma TagBegins(lex: Lexicon, p: Parser, t: Tree, g: Tag, c: char)
    requires Stands(p, Data, t, g) && IsAlpha(c)
    ensures Stands(Process(lex, p, ['<', c]), TagName, t, Tag(false, [c], [], [], [], false))
  {
    hide Process;
    LessThan(lex, p, t, g);
    TagLetter(lex, Process(lex, p, "<"), t, g, c);
    ChunksDoNotMatter(lex, p, "<", [c]);
    assert "<" + [c] == ['<', c];
  }

  lemma EndTagBegins(lex: Lexicon, p: Parser, t: Tree, g: Tag, c: char)
    requires Stands(p, Data, t, g) && IsAlpha(c)
    ensures Stands(Process(lex, p, ['<', '/', c]), TagName, t, Tag(true, [c], [], [], [], false))
  {
    hide Process;
    LessThan(lex, p, t, g);
    EndTagLetter(lex, Process(lex, p, "<"), t, c);
    ChunksDoNotMatter(lex, p, "<", ['/', c]);
    assert "<" + ['/', c] == ['<', '/', c];
  }

  lemma LookSlash(lex: Lexicon, p: Parser)
    requires Shape(p)
    ensures p.state.TagOpen? ==> Look(lex, p, '/') == Goto(p, EndTagOpen)
    ensures p.state.TagName? || p.state.AfterAttrValueQuoted? ==> Look(lex, p, '/') == Goto(p, SelfClosingStartTag)
  {
    hide Look, Goto, EmitTag, CreateAttr, FinishAttr, StartTag, EndTag;
    if p.state.TagOpen? || p.state.TagName? {
      LookTag(lex, p, '/');
    } else if p.state.AfterAttrValueQuoted? {
      LookAttr(lex, p, '/');
    }
  }

  lemma LookEndLetter(lex: Lexicon, p: Parser, c: char)
    requires Shape(p) && p.state.EndTagOpen? && IsAlpha(c)
    ensures Look(lex, p, c) == Goto(NewTag(p, true, c), TagName)
  {
    hide Look, Goto, NewTag;
    LookTag(lex, p, c);
  }

  lemma LookGreater(lex: Lexicon, p: Parser)
    requires Shape(p) && (p.state.TagName? || p.state.AfterAttrValueQuoted?)
    ensures Look(lex, p, '>') == EmitTag(p)
  {
    hide Look, Goto, EmitTag, CreateAttr, FinishAttr, StartTag, EndTag;
    if p.state.TagName? {
      LookTag(lex, p, '>');
    } else {
      LookAttr(lex, p, '>');
    }
  }

  lemma EndTagLetter(lex: Lexicon, q: Parser, t: Tree, c: char)
    requires Ready(q) && q.state == TagOpen && q.tree == t && IsAlpha(c)
    ensures Stands(Process(lex, q, ['/', c]), TagName, t, Tag(true, [c], [], [], [], false))
  {
    hide Look, Process;
    LookSlash(lex, q);
    var r := Goto(q, EndTagOpen).p;
    Used(lex, q, '/', r);
    LookEndLetter(lex, r, c);
    Used(lex, r, c, Goto(NewTag(r, true, c), TagName).p);
    ChunksDoNotMatter(lex, q, "/", [c]);
    assert "/" + [c] == ['/', c];
  }

  lemma NoPending(n: string, isEnd: bool)
    ensures FinishAttr(Tag(isEnd, n, [], [], [], false)) == Tag(isEnd, n, [], [], [], false)
  {
  }

  lemma TagWithAttrs(lex: Lexicon, p: Parser, t: Tree, g: Tag, n: string, attrs: seq<Attr>)
    requires Stands(p, Data, t, g) && PlainName(n) && Tidy(attrs) && Standard(lex)
    ensures InTag(Process(lex, p, "<" + n + RenderAttrs(attrs)), t, n, ReadAttrs(attrs))
  {
    hide Process, Stands, InTag, Tidy, PlainName, NameChars, IsAlpha, Standard, RenderAttrs, Shape;
    PlainNameParts(n);
    var c, rest := n[0], n[1..];
    ShapeOf(p, Data, t, g);
    TagBegins(lex, p, t, g, c);
    var p1, g1 := Process(lex, p, ['<', c]), Tag(false, [c], [], [], [], false);
    ShapeOf(p1, TagName, t, g1);
    TagNameChars(lex, p1, rest, t, g1);
    var p2 := Process(lex, p1, rest);
    NamedTag(p2, t, n);
    AttrsPass(lex, p2, t, n, attrs);
    ChunksDoNotMatter(lex, p1, rest, RenderAttrs(attrs));
    ChunksDoNotMatter(lex, p, ['<', c], rest + RenderAttrs(attrs));
    assert "<" + n + RenderAttrs(attrs) == ['<', c] + (rest + RenderAttrs(attrs));
  }

  lemma NamedTag(p: Parser, t: Tree, n: string)
    requires Stands(p, TagName, t, Tag(false, n, [], [], [], false))
    ensures InTag(p, t, n, [])
  {
    NoPending(n, false);
  }

  /** At the end of a start tag the tree builder takes over. */
  lemma TagEnds(lex: Lexicon, p: Parser, t: Tree, n: string, attrs: seq<Attr>)
    requires InTag(p, t, n, attrs)
    ensures var q, r := Process(lex, p, ">"), StartTag(t, n, attrs, false); Stands(q, StateFor(r.mode), r.t, q.tag)
  {
    hide StartTag, FinishAttr, Look, Process;
    FinishKeepsRest(p.tag);
    LookGreater(lex, p);
    Used(lex, p, '>', EmitTag(p).p);
  }

  lemma FinishKeepsRest(g: Tag)
    ensures FinishAttr(g).name == g.name && FinishAttr(g).isEnd == g.isEnd && FinishAttr(g).selfClosing == g.selfClosing
  {
  }

  lemma EmptyTagEnds(lex: Lexicon, p: Parser, t: Tree, n: string, attrs: seq<Attr>)
    requires InTag(p, t, n, attrs)
    ensures var q, r := Process(lex, p, "/>"), StartTag(t, n, attrs, true); Stands(q, StateFor(r.mode), r.t, q.tag)
  {
    hide Look, Process, StartTag, FinishAttr;
    LookSlash(lex, p);
    var p1 := Goto(p, SelfClosingStartTag).p;
    Used(lex, p, '/', p1);
    SelfCloses(lex, p1, t, n, attrs);
    ChunksDoNotMatter(lex, p, "/", ">");
    assert "/" + ">" == "/>";
  }

  lemma SelfCloses(lex: Lexicon, p: Parser, t: Tree, n: string, attrs: seq<Attr>)
    requires Ready(p) && p.state == SelfClosingStartTag && p.tree == t && p.tag.name == n && !p.tag.isEnd
    requires FinishAttr(p.tag).attrs == attrs
    ensures var q, r := Process(lex, p, ">"), StartTag(t, n, attrs, true); Stands(q, StateFor(r.mode), r.t, q.tag)
  {
    hide StartTag, FinishAttr, Look, Process;
    var p1 := p.(tag := p.tag.(selfClosing := true));
    SelfClosingAttrs(p.tag);
    FinishKeepsRest(p1.tag);
    LookTag(lex, p, '>');
    Used(lex, p, '>', EmitTag(p1).p);
  }

  lemma SelfClosingAttrs(g: Tag)
    ensures FinishAttr(g.(selfClosing := true)).attrs == FinishAttr(g).attrs
  {
  }

  /** A whole start tag or empty-element tag, whatever the tree builder makes of it. */
  lemma StartPasses(lex: Lexicon, p: Parser, t: Tree, g: Tag, n: string, attrs: seq<Attr>, empty: bool)
    requires Stands(p, Data, t, g) && PlainName(n) && Tidy(attrs) && Standard(lex)
    ensures var q, r := Process(lex, p, RenderToken(if empty then Empty(n, attrs) else Open(n, attrs))),
      StartTag(t, n, ReadAttrs(attrs), empty);
      Stands(q, StateFor(r.mode), r.t, q.tag)
  {
    hide Process, Stands, Tidy, Standard, RenderAttrs, Shape, StartTag, StateFor, InTag, PlainName;
    ShapeOf(p, Data, t, g);
    TagWithAttrs(lex, p, t, g, n, attrs);
    var front := "<" + n + RenderAttrs(attrs);
    var q := Process(lex, p, front);
    if empty {
      EmptyTagEnds(lex, q, t, n, ReadAttrs(attrs));
      ChunksDoNotMatter(lex, p, front, "/>");
    } else {
      TagEnds(lex, q, t, n, ReadAttrs(attrs));
      ChunksDoNotMatter(lex, p, front, ">");
    }
  }

  lemma PlainNameParts(n: string)
    requires PlainName(n)
    ensures n != [] && IsAlpha(n[0]) && NameChars(n[1..]) && n == [n[0]] + n[1..]
  {
  }

  // ----- What the tree builder leaves alone -----

  lemma StartsPlainly(t: Tree, n: string, attrs: seq<Attr>)
    requires IsName(n) && Untouched(t, n, attrs) && (t.foreignDepth > 0 || !IsVoid(n))
    ensures StartTag(t, n, attrs, false)
      == Started(Push(t, n, attrs, t.foreignDepth == 0 && IsForeignName(n)), ModeOf(n, t.foreignDepth > 0))
  {
    NormalizeIsName(n);
    hide AutoClose, IsVoid, IsBreakout, Normalize, OnStack, AnyOf, SameName, ModeOf, IsName, Push;
  }

  lemma EmptyPlainly(t: Tree, n: string, attrs: seq<Attr>)
    requires IsName(n) && Untouched(t, n, attrs) && (t.foreignDepth > 0 || IsVoid(n))
    ensures StartTag(t, n, attrs, true) == Started(WriteEmpty(t, n, attrs), Normal)
  {
    NormalizeIsName(n);
    hide AutoClose, IsVoid, IsBreakout, Normalize, OnStack, AnyOf, SameName, ModeOf, IsName, WriteEmpty;
  }

  /** Only elements with ordinary content enclose others, no paragraph or line break is open in
      foreign content, and every name begins with a letter. */
  predicate Proper(stack: seq<OpenElement>) {
    && (forall k :: 0 <= k < |stack| ==> PlainName(stack[k].name))
    && (forall k :: 0 <= k < |stack| ==> ModeAt(stack[..k]) == Normal)
    && (forall k :: 0 <= k < |stack| && ForeignRoots(stack[..k + 1]) > 0 ==>
          !SameName(stack[k].name, "p") && !SameName(stack[k].name, "br"))
  }

  predicate Regular(t: Tree) { Inv(t) && Proper(t.stack) }

  lemma ClosesPlainly(t: Tree, n: string)
    requires Regular(t) && IsName(n) && t.stack != [] && t.stack[|t.stack| - 1].name == n
    ensures EndTag(t, n) == Pop(t)
  {
    hide Normalize, IsName, Unmatched, Scoped, AllWellFormed, Nest, Roots, TopText;
    NormalizeIsName(n);
    var k := |t.stack| - 1;
    assert t.stack[..k + 1] == t.stack;
    assert SameName(t.stack[k].name, n);
    assert LastNamed(t.stack, |t.stack|, n) == Some(k);
    assert |Pop(t).stack| == k && PopTo(Pop(t), k) == Pop(t);
    assert PopTo(t, k) == PopTo(Pop(t), k);
  }

  lemma ForeignNameIsNormal(n: string, foreign: bool)
    ensures IsForeignName(n) ==> ModeOf(n, foreign) == Normal && !SameName(n, "p") && !SameName(n, "br")
  {
    if IsForeignName(n) && LowerShort(n, 10).Some? {
      var w := LowerAll(n);
      assert w[0] == Lower(n[0]) && w[1] == Lower(n[1]) && w[2] == Lower(n[2]);
    }
  }

  lemma ProperSnoc(stack: seq<OpenElement>, e: OpenElement)
    requires Proper(stack) && ModeAt(stack) == Normal && PlainName(e.name)
    requires ForeignRoots(stack + [e]) > 0 ==> !SameName(e.name, "p") && !SameName(e.name, "br")
    ensures Proper(stack + [e])
  {
    hide ModeAt, ForeignRoots, SameName, PlainName;
    var b := stack + [e];
    assert b[..|stack|] == stack && b[..|b|] == b;
    forall k | 0 <= k < |b| ensures ModeAt(b[..k]) == Normal {
      assert b[..k] == stack[..k];
    }
    forall k | 0 <= k < |b| && ForeignRoots(b[..k + 1]) > 0 ensures !SameName(b[k].name, "p")
      && !SameName(b[k].name, "br") {
      if k < |stack| {
        assert b[..k + 1] == stack[..k + 1];
      }
    }
  }

  lemma PushProper(t: Tree, n: string, attrs: seq<Attr>)
    requires Regular(t) && Mode(t) == Normal && Untouched(t, n, attrs) && PlainName(n)
    ensures var u := Push(t, n, attrs, t.foreignDepth == 0 && IsForeignName(n));
      Proper(u.stack) && Mode(u) == ModeOf(n, t.foreignDepth > 0)
  {
    hide ModeOf, AutoClose, OnStack, AnyOf, IsVoid, SameName, Nest, Roots, TopText, AllWellFormed, Scoped,
      IsBreakoutElement,
      Proper, ForeignRoots, IsForeignName, PlainName;
    ForeignNameIsNormal(n, true);
    ForeignNameIsNormal(n, false);
    BreakoutWords(n);
    var e := OpenElement(n, t.foreignDepth == 0 && IsForeignName(n));
    NamesSnoc(t.stack, e);
    ProperSnoc(t.stack, e);
  }

  lemma BreakoutWords(n: string)
    ensures SameName(n, "p") || SameName(n, "br") ==> IsBreakoutElement(n)
  {
    if SameName(n, "p") {
      assert LowerAll(n) == "p";
    }
    if SameName(n, "br") {
      assert LowerAll(n) == "br";
    }
  }

  lemma PopProper(t: Tree)
    requires Regular(t) && t.stack != []
    ensures Proper(Pop(t).stack) && Mode(Pop(t)) == Normal
  {
    hide ModeAt, SameName, Inv, PlainName;
    var a := Pop(t).stack;
    assert forall k {:trigger a[..k]} :: 0 <= k <= |a| ==> a[..k] == t.stack[..k];
  }

  // ----- End tags -----

  lemma ClosePasses(lex: Lexicon, p: Parser, t: Tree, g: Tag, n: string)
    requires Stands(p, Data, t, g) && PlainName(n) && EndTag(t, n) == Pop(t)
    ensures var q := Process(lex, p, "</" + n + ">"); Stands(q, Data, Pop(t), q.tag)
  {
    hide Process, Stands, PlainName, NameChars, IsAlpha, Shape, EndTag, Pop;
    PlainNameParts(n);
    var c, rest := n[0], n[1..];
    ShapeOf(p, Data, t, g);
    EndTagBegins(lex, p, t, g, c);
    var p1, g1 := Process(lex, p, ['<', '/', c]), Tag(true, [c], [], [], [], false);
    ShapeOf(p1, TagName, t, g1);
    TagNameChars(lex, p1, rest, t, g1);
    CloseEnds(lex, Process(lex, p1, rest), t, n);
    ChunksDoNotMatter(lex, p1, rest, ">");
    ChunksDoNotMatter(lex, p, ['<', '/', c], rest + ">");
    assert "</" + n + ">" == ['<', '/', c] + (rest + ">");
  }

  lemma CloseEnds(lex: Lexicon, p: Parser, t: Tree, n: string)
    requires Stands(p, TagName, t, Tag(true, n, [], [], [], false)) && EndTag(t, n) == Pop(t)
    ensures var q := Process(lex, p, ">"); Stands(q, Data, Pop(t), q.tag)
  {
    NoPending(n, true);
    hide EndTag, FinishAttr, Pop, Look, Process;
    LookGreater(lex, p);
    Used(lex, p, '>', EmitTag(p).p);
  }

  // ----- End tags of raw text -----

  predicate RawPlace(k: RawKind) { k.RcdataKind? || k.RawtextKind? || k.ScriptKind? }

  lemma RawLess(lex: Lexicon, p: Parser, k: RawKind, t: Tree, g: Tag)
    requires Stands(p, RawState(k), t, g) && RawPlace(k)
    ensures Stands(Process(lex, p, "<"), RawLt(k), t, g)
  {
    hide Look, Process, Say;
    LookText(lex, p, '<');
    Used(lex, p, '<', Goto(p, RawLt(k)).p);
  }

  lemma RawSlash(lex: Lexicon, p: Parser, k: RawKind, t: Tree, g: Tag)
    requires Stands(p, RawLt(k), t, g) && RawPlace(k)
    ensures var q := Process(lex, p, "/"); Stands(q, RawEndTagOpen(k), t, g) && q.temp == []
  {
    hide Look, Process, Say, RawEndOpenStep, RawEndNameStep;
    LookRaw(lex, p, '/');
    Used(lex, p, '/', Goto(Hold(p, []), RawEndTagOpen(k)).p);
  }

  /** In the name of an end tag of raw text. */
  predicate InRawName(p: Parser, k: RawKind, t: Tree, n: string) {
    Stands(p, RawEndTagName(k), t, Tag(true, n, [], [], [], false)) && p.temp == n
  }

  lemma RawFirst(lex: Lexicon, p: Parser, k: RawKind, t: Tree, g: Tag, c: char)
    requires Stands(p, RawEndTagOpen(k), t, g) && p.temp == [] && IsAlpha(c)
    ensures InRawName(Process(lex, p, [c]), k, t, [c])
  {
    hide Look, Process, Say, RawLtStep, RawEndNameStep;
    LookRaw(lex, p, c);
    assert p.temp + [c] == [c];
    Used(lex, p, c, Goto(Hold(NewTag(p, true, c), p.temp + [c]), RawEndTagName(k)).p);
  }

  lemma AlphaFacts(c: char)
    requires IsAlpha(c)
    ensures !IsBlank(c) && c != '/' && c != '>' && c != '\r' && c != '!' && c != '?'
  {
  }

  lemma RawLetter(lex: Lexicon, p: Parser, k: RawKind, t: Tree, n: string, c: char)
    requires InRawName(p, k, t, n) && IsAlpha(c)
    ensures InRawName(Process(lex, p, [c]), k, t, n + [c])
  {
    hide Look, Process, Say, RawLtStep, RawEndOpenStep, Appropriate, EmitTag, IsAlpha, IsBlank, Flush, Discard;
    AlphaFacts(c);
    LookRaw(lex, p, c);
    Used(lex, p, c, Goto(p.(tag := p.tag.(name := p.tag.name + [c]), temp := p.temp + [c]), RawEndTagName(k)).p);
  }

  lemma {:induction false} RawLetters(lex: Lexicon, p: Parser, k: RawKind, t: Tree, n: string, s: string)
    requires InRawName(p, k, t, n) && forall i :: 0 <= i < |s| ==> IsAlpha(s[i])
    ensures InRawName(Process(lex, p, s), k, t, n + s)
    decreases |s|
  {
    hide Stands, Process, IsAlpha, Shape;
    ShapeOf(p, RawEndTagName(k), t, Tag(true, n, [], [], [], false));
    if s == [] {
      ProcessNothing(lex, p);
      assert n + [] == n;
    } else {
      RawLetter(lex, p, k, t, n, s[0]);
      RawLetters(lex, Process(lex, p, [s[0]]), k, t, n + [s[0]], s[1..]);
      assert s == [s[0]] + s[1..] && (n + [s[0]]) + s[1..] == n + s;
      ChunksDoNotMatter(lex, p, [s[0]], s[1..]);
    }
  }

  lemma RawEnds(lex: Lexicon, p: Parser, k: RawKind, t: Tree, n: string)
    requires InRawName(p, k, t, n) && t.stack != [] && t.stack[|t.stack| - 1].name == n && EndTag(t, n) == Pop(t)
    ensures var q := Process(lex, p, ">"); Stands(q, Data, Pop(t), q.tag)
  {
    NoPending(n, true);
    hide EndTag, FinishAttr, Pop, Look, Process, RawLtStep, RawEndOpenStep, Say, Flush, Discard;
    LookRaw(lex, p, '>');
    Used(lex, p, '>', EmitTag(Hold(p, [])).p);
  }

  lemma RawClosePasses(lex: Lexicon, p: Parser, k: RawKind, t: Tree, g: Tag, n: string)
    requires Stands(p, RawState(k), t, g) && RawPlace(k) && n != [] && (forall i :: 0 <= i < |n| ==> IsAlpha(n[i]))
    requires t.stack != [] && t.stack[|t.stack| - 1].name == n && EndTag(t, n) == Pop(t)
    ensures var q := Process(lex, p, "</" + n + ">"); Stands(q, Data, Pop(t), q.tag)
  {
    hide Process, Stands, IsAlpha, Shape, EndTag, Pop, RawState;
    var c, rest := n[0], n[1..];
    ShapeOf(p, RawState(k), t, g);
    RawLess(lex, p, k, t, g);
    var p1 := Process(lex, p, "<");
    ShapeOf(p1, RawLt(k), t, g);
    RawSlash(lex, p1, k, t, g);
    var p2 := Process(lex, p1, "/");
    ShapeOf(p2, RawEndTagOpen(k), t, g);
    RawFirst(lex, p2, k, t, g, c);
    var p3 := Process(lex, p2, [c]);
    ShapeOf(p3, RawEndTagName(k), t, Tag(true, [c], [], [], [], false));
    RawLetters(lex, p3, k, t, [c], rest);
    assert [c] + rest == n;
    RawEnds(lex, Process(lex, p3, rest), k, t, n);
    ChunksDoNotMatter(lex, p3, rest, ">");
    ChunksDoNotMatter(lex, p2, [c], rest + ">");
    ChunksDoNotMatter(lex, p1, "/", [c] + (rest + ">"));
    ChunksDoNotMatter(lex, p, "<", "/" + ([c] + (rest + ">")));
    assert "</" + n + ">" == "<" + ("/" + ([c] + (rest + ">")));
  }

  /** The names of raw-text elements are plain words. */
  lemma RawNames(n: string, foreign: bool)
    requires ModeOf(n, foreign) != Normal
    ensures n != [] && forall i :: 0 <= i < |n| ==> IsAlpha(n[i])
  {
    var w := LowerAll(n);
    assert w in {"script", "title", "textarea", "style", "noframes", "plaintext", "xmp", "iframe", "noembed"};
    SmallLetters(w);
    forall i | 0 <= i < |n| ensures IsAlpha(n[i]) {
      assert w[i] == Lower(n[i]) && 'a' <= w[i] <= 'z';
    }
  }

  lemma SmallLetters(w: string)
    requires w in {"script", "title", "textarea", "style", "noframes", "plaintext", "xmp", "iframe", "noembed"}
    ensures w != [] && forall i :: 0 <= i < |w| ==> 'a' <= w[i] <= 'z'
  {
  }

  function KindOf(mode: TextMode): RawKind {
    match mode
    case EscapableRaw => RcdataKind
    case Script => ScriptKind
    case _ => RawtextKind
  }

  // ----- Processing instructions -----

  /** In the target of a processing instruction. */
  predicate InTarget(p: Parser, t: Tree, g: Tag, target: string) {
    Stands(p, PiTarget, t, g) && p.piTarget == target && p.piData == []
  }

  /** Behind the target and the part `v` of the data; a question mark is held back. */
  predicate InData(p: Parser, t: Tree, g: Tag, target: string, v: string) {
    && Ready(p) && p.tree == t && p.tag == g && p.piTarget == target
    && if v == [] then p.state.PiAfterTarget? && p.piData == []
       else if v[|v| - 1] == '?' then p.state.PiQuestion? && p.piData == v[..|v| - 1]
       else p.state.PiData? && p.piData == v
  }

  lemma TargetBegins(lex: Lexicon, p: Parser, t: Tree, g: Tag, c: char)
    requires Stands(p, Data, t, g) && lex.Begins(c)
    ensures InTarget(Process(lex, p, ['<', '?', c]), t, g, [c])
  {
    hide Process;
    LessThan(lex, p, t, g);
    var p1 := Process(lex, p, "<");
    QuestionOpens(lex, p1, t, g);
    var p2 := Process(lex, p1, "?");
    FirstOfTarget(lex, p2, t, g, c);
    ChunksDoNotMatter(lex, p, "<", "?");
    ChunksDoNotMatter(lex, p, "<?", [c]);
    assert "<" + "?" == "<?" && "<?" + [c] == ['<', '?', c];
  }

  lemma QuestionOpens(lex: Lexicon, p: Parser, t: Tree, g: Tag)
    requires Stands(p, TagOpen, t, g)
    ensures var q := Process(lex, p, "?"); Stands(q, PiStart, t, g) && q.piTarget == [] && q.piData == []
  {
    hide Look, Process, Say, NewTag;
    LookTag(lex, p, '?');
    Used(lex, p, '?', Goto(p.(piTarget := [], piData := []), PiStart).p);
  }

  lemma FirstOfTarget(lex: Lexicon, p: Parser, t: Tree, g: Tag, c: char)
    requires Stands(p, PiStart, t, g) && p.piTarget == [] && p.piData == [] && lex.Begins(c)
    ensures InTarget(Process(lex, p, [c]), t, g, [c])
  {
    hide Look, Process, FinishPi;
    LookPi(lex, p, c);
    assert p.piTarget + [c] == [c];
    Used(lex, p, c, Goto(p.(piTarget := p.piTarget + [c]), PiTarget).p);
  }

  lemma NextOfTarget(lex: Lexicon, p: Parser, t: Tree, g: Tag, target: string, c: char)
    requires InTarget(p, t, g, target) && lex.Follows(c)
    ensures InTarget(Process(lex, p, [c]), t, g, target + [c])
  {
    hide Look, Process, FinishPi, IsBlank;
    LookPi(lex, p, c);
    Used(lex, p, c, Goto(p.(piTarget := p.piTarget + [c]), PiTarget).p);
  }

  lemma {:induction false} RestOfTarget(lex: Lexicon, p: Parser, t: Tree, g: Tag, target: string, s: string)
    requires InTarget(p, t, g, target) && forall k :: 0 <= k < |s| ==> lex.Follows(s[k])
    ensures InTarget(Process(lex, p, s), t, g, target + s)
    decreases |s|
  {
    hide Stands, Process, Shape;
    ShapeOf(p, PiTarget, t, g);
    if s == [] {
      ProcessNothing(lex, p);
      assert target + [] == target;
    } else {
      NextOfTarget(lex, p, t, g, target, s[0]);
      RestOfTarget(lex, Process(lex, p, [s[0]]), t, g, target + [s[0]], s[1..]);
      assert s == [s[0]] + s[1..] && (target + [s[0]]) + s[1..] == target + s;
      ChunksDoNotMatter(lex, p, [s[0]], s[1..]);
    }
  }

  lemma TargetEnds(lex: Lexicon, p: Parser, t: Tree, g: Tag, target: string)
    requires InTarget(p, t, g, target) && !SameName(target, "xml")
    ensures InData(Process(lex, p, " "), t, g, target, [])
  {
    hide Look, Process, FinishPi, SameName;
    var r := Retry(p, PiAfterTarget).p;
    LookPi(lex, p, ' ');
    LookPi(lex, r, ' ');
    UsedNext(lex, p, ' ', r, Goto(r, PiAfterTarget).p);
  }

  /** A processing instruction without data goes straight to its question mark. */
  lemma TargetAlone(lex: Lexicon, p: Parser, t: Tree, g: Tag, target: string)
    requires InTarget(p, t, g, target) && !SameName(target, "xml")
    ensures InData(Process(lex, p, "?"), t, g, target, "?")
  {
    hide Look, Process, FinishPi, SameName;
    var r := Retry(p, PiAfterTarget).p;
    var r2 := Retry(r, PiData).p;
    var q := Goto(r2, PiQuestion).p;
    LookPi(lex, p, '?');
    LookPi(lex, r, '?');
    LookPi(lex, r2, '?');
    LookSettles(lex, p, '?');
    LookSettles(lex, r, '?');
    hide PiStep;
    assert StepState(lex, r2, '?') == q;
    assert StepState(lex, r, '?') == q;
    assert StepState(lex, p, '?') == q;
    OneChar(lex, p, '?');
    assert "?"[..0] == [];
  }

  /** From the data state a character is kept, or held back if it is a question mark. */
  lemma DataLook(lex: Lexicon, p: Parser, v: string, c: char)
    requires Shape(p) && p.state.PiData? && p.piData == v && c != '>'
    ensures var r := PiStep(lex, p, c);
      && !r.again && SamePlace(p, r.p) && Shape(r.p) && r.p.tree == p.tree && r.p.tag == p.tag
        && r.p.piTarget == p.piTarget
      && if c == '?' then r.p.state.PiQuestion? && r.p.piData == v else r.p.state.PiData? && r.p.piData == v + [c]
  {
    hide FinishPi, SameName;
  }

  /** Any other place hands the character to the data state, giving back what it held. */
  lemma DataRetry(lex: Lexicon, p: Parser, t: Tree, g: Tag, target: string, v: string, c: char)
    requires InData(p, t, g, target, v) && !p.state.PiData? && c != '>' && (v == [] ==> !IsBlank(c))
    ensures var r := PiStep(lex, p, c);
      && r.again && r.p.state.PiData? && r.p.piData == v && SamePlace(p, r.p) && Shape(r.p)
      && r.p.tree == p.tree && r.p.tag == p.tag && r.p.piTarget == p.piTarget
  {
    hide FinishPi, SameName, IsBlank;
    if v != [] {
      assert v == v[..|v| - 1] + [v[|v| - 1]];
    }
  }

  lemma DataChar(lex: Lexicon, p: Parser, t: Tree, g: Tag, target: string, v: string, c: char)
    requires InData(p, t, g, target, v) && c != '>' && c != '\r' && (v == [] ==> !IsBlank(c))
    ensures InData(Process(lex, p, [c]), t, g, target, v + [c])
  {
    hide Look, Process, PiStep, IsBlank;
    assert (v + [c])[..|v|] == v;
    LookPi(lex, p, c);
    if p.state.PiData? {
      DataLook(lex, p, v, c);
      Used(lex, p, c, PiStep(lex, p, c).p);
    } else {
      DataRetry(lex, p, t, g, target, v, c);
      var r := PiStep(lex, p, c).p;
      LookPi(lex, r, c);
      DataLook(lex, r, v, c);
      UsedNext(lex, p, c, r, PiStep(lex, r, c).p);
    }
  }

  lemma {:induction false} DataChars(lex: Lexicon, p: Parser, t: Tree, g: Tag, target: string, s: string)
    requires InData(p, t, g, target, []) && DataOk(s)
    ensures InData(Process(lex, p, s), t, g, target, s)
    decreases |s|
  {
    hide InData, Process, Shape, IsBlank;
    ShapeInData(p, t, g, target, []);
    if s == [] {
      ProcessNothing(lex, p);
    } else {
      var init, c := s[..|s| - 1], s[|s| - 1];
      assert s == init + [c];
      DataChars(lex, p, t, g, target, init);
      DataChar(lex, Process(lex, p, init), t, g, target, init, c);
      ChunksDoNotMatter(lex, p, init, [c]);
    }
  }

  lemma ShapeInData(p: Parser, t: Tree, g: Tag, target: string, v: string)
    requires InData(p, t, g, target, v)
    ensures Shape(p) && p.pushback == []
  {
  }

  lemma DataEnds(lex: Lexicon, p: Parser, t: Tree, g: Tag, target: string, data: string)
    requires InData(p, t, g, target, data + "?")
    ensures Stands(Process(lex, p, ">"), Data, EmitPi(t, target, data), g)
  {
    hide Look, Process, EmitPi;
    assert (data + "?")[..|data|] == data;
    LookPi(lex, p, '>');
    Used(lex, p, '>', FinishPi(p).p);
  }

  lemma PiText(target: string, data: string)
    requires target != []
    ensures RenderToken(Pi(target, data))
      == ['<', '?', target[0]] + (target[1..] + ((if data == [] then [] else " " + data) + "?>"))
  {
    assert target == [target[0]] + target[1..];
  }

  /** A sound processing instruction passes. */
  lemma PiPasses(lex: Lexicon, p: Parser, t: Tree, g: Tag, target: string, data: string)
    requires Stands(p, Data, t, g) && PiOk(lex, target, data)
    ensures Stands(Process(lex, p, RenderToken(Pi(target, data))), Data, EmitPi(t, target, data), g)
  {
    hide Process, Stands, Shape, SameName, EmitPi, DataOk, RenderToken, lex.Begins, lex.Follows;
    var c, rest := target[0], target[1..];
    ShapeOf(p, Data, t, g);
    TargetBegins(lex, p, t, g, c);
    var p1 := Process(lex, p, ['<', '?', c]);
    ShapeOf(p1, PiTarget, t, g);
    RestOfTarget(lex, p1, t, g, [c], rest);
    assert [c] + rest == target;
    var p2 := Process(lex, p1, rest);
    PiTail(lex, p2, t, g, target, data);
    PiText(target, data);
    var tail := (if data == [] then [] else " " + data) + "?>";
    ChunksDoNotMatter(lex, p1, rest, tail);
    ChunksDoNotMatter(lex, p, ['<', '?', c], rest + tail);
  }

  lemma PiTail(lex: Lexicon, p: Parser, t: Tree, g: Tag, target: string, data: string)
    requires InTarget(p, t, g, target) && PiOk(lex, target, data)
    ensures Stands(Process(lex, p, (if data == [] then [] else " " + data) + "?>"), Data, EmitPi(t, target, data), g)
  {
    hide Process, Shape, SameName, EmitPi, IsBlank, InData, TargetOk;
    if data == [] {
      TargetAlone(lex, p, t, g, target);
      assert [] + "?" == "?";
      var q := Process(lex, p, "?");
      ShapeInData(q, t, g, target, "?");
      DataEnds(lex, q, t, g, target, data);
      ChunksDoNotMatter(lex, p, "?", ">");
      assert [] + "?>" == "?" + ">";
    } else {
      TargetEnds(lex, p, t, g, target);
      var p1 := Process(lex, p, " ");
      ShapeInData(p1, t, g, target, []);
      DataAndEnd(lex, p1, t, g, target, data);
      ChunksDoNotMatter(lex, p, " ", data + "?>");
      assert (" " + data) + "?>" == " " + (data + "?>");
    }
  }

  lemma DataAndEnd(lex: Lexicon, p: Parser, t: Tree, g: Tag, target: string, data: string)
    requires InData(p, t, g, target, []) && DataOk(data) && data != []
    ensures Stands(Process(lex, p, data + "?>"), Data, EmitPi(t, target, data), g)
  {
    hide Process, Shape, EmitPi, IsBlank, InData, Stands;
    ShapeInData(p, t, g, target, []);
    DataChars(lex, p, t, g, target, data);
    var p1 := Process(lex, p, data);
    ShapeInData(p1, t, g, target, data);
    DataChar(lex, p1, t, g, target, data, '?');
    var p2 := Process(lex, p1, "?");
    ShapeInData(p2, t, g, target, data + "?");
    DataEnds(lex, p2, t, g, target, data);
    ChunksDoNotMatter(lex, p1, "?", ">");
    ChunksDoNotMatter(lex, p, data, "?>");
    assert "?" + ">" == "?>";
  }

  // ----- One token -----

  /** Every token that is accepted passes through as itself. */
  lemma TokenPasses(lex: Lexicon, p: Parser, t: Tree, g: Tag, k: Token)
    requires Stands(p, StateFor(Mode(t)), t, g) && Sound(t) && Accepts(lex, t, k) && Standard(lex) && WellFormed(k)
    ensures var q, u := Process(lex, p, RenderToken(k)), Apply(t, k); Stands(q, StateFor(Mode(u)), u, q.tag)
  {
    hide Process, Stands, Standard, RenderAttrs, Shape, IsVoid, PlainName, Untouched, Regular, Mode, EmitText, Push,
      WriteEmpty, Pop, EmitPi,
      PiOk, RenderToken, IsName, Distinct, NamedWell, ModeOf;
    match k
    case Chr(c) =>
      CharPasses(lex, p, t, g, c);
    case Open(n, attrs) =>
      OpenPasses(lex, p, t, g, n, attrs);
    case Empty(n, attrs) =>
      EmptyPasses(lex, p, t, g, n, attrs);
    case Close(n) =>
      EndPasses(lex, p, t, g, n);
    case Pi(target, data) =>
      InstructionPasses(lex, p, t, g, target, data);
  }

  lemma InstructionPasses(lex: Lexicon, p: Parser, t: Tree, g: Tag, target: string, data: string)
    requires Stands(p, Data, t, g) && Mode(t) == Normal && PiOk(lex, target, data)
    ensures var q, u := Process(lex, p, RenderToken(Pi(target, data))),
      EmitPi(t, target, data); Stands(q, StateFor(Mode(u)), u, q.tag)
  {
    hide Process, SafeAll, PiOk, SameName, Shape, ModeAt, RenderToken;
    PiPasses(lex, p, t, g, target, data);
  }

  lemma CharPasses(lex: Lexicon, p: Parser, t: Tree, g: Tag, c: char)
    requires Stands(p, StateFor(Mode(t)), t, g) && Accepts(lex, t, Chr(c)) && Standard(lex)
    ensures var q, u := Process(lex, p, RenderToken(Chr(c))), EmitText(t, c); Stands(q, StateFor(Mode(u)), u, q.tag)
  {
    hide Process, Shape, ModeAt, Standard, IsXml, XmlSafe, IsSpace;
    TextPasses(lex, p, StateFor(Mode(t)), c, t, g);
  }

  lemma OpenPasses(lex: Lexicon, p: Parser, t: Tree, g: Tag, n: string, attrs: seq<Attr>)
    requires Stands(p, Data, t, g) && Regular(t) && Accepts(lex, t, Open(n, attrs)) && Standard(lex)
    ensures var q, u := Process(lex, p, RenderToken(Open(n, attrs))),
      Apply(t, Open(n, attrs)); Stands(q, StateFor(Mode(u)), u, q.tag)
  {
    hide Process, Standard, Shape, IsVoid, Untouched, Regular, Mode, Push, RenderToken, IsName, ModeOf, IsAlpha,
      StateFor, StartTag, ReadAttrs;
    TidyIs(attrs);
    ReadAttrsTidy(attrs);
    StartPasses(lex, p, t, g, n, attrs, false);
    StartsPlainly(t, n, attrs);
    PushProper(t, n, attrs);
  }

  lemma EmptyPasses(lex: Lexicon, p: Parser, t: Tree, g: Tag, n: string, attrs: seq<Attr>)
    requires Stands(p, Data, t, g) && Accepts(lex, t, Empty(n, attrs)) && Standard(lex)
    ensures var q, u := Process(lex, p, RenderToken(Empty(n, attrs))),
      WriteEmpty(t, n, attrs); Stands(q, StateFor(Mode(u)), u, q.tag)
  {
    hide Process, Standard, Shape, IsVoid, Untouched, RenderToken, IsName, ModeOf, IsAlpha, StartTag, ReadAttrs;
    TidyIs(attrs);
    ReadAttrsTidy(attrs);
    StartPasses(lex, p, t, g, n, attrs, true);
    EmptyPlainly(t, n, attrs);
  }

  lemma EndPasses(lex: Lexicon, p: Parser, t: Tree, g: Tag, n: string)
    requires Stands(p, StateFor(Mode(t)), t, g) && Regular(t) && Accepts(lex, t, Close(n)) && Mode(t) != Plain
    ensures var q, u := Process(lex, p, RenderToken(Close(n))), Pop(t); Stands(q, StateFor(Mode(u)), u, q.tag)
  {
    hide Process, Shape, Regular, Pop, IsName, IsAlpha, EndTag, ModeOf, ForeignRoots;
    ClosesPlainly(t, n);
    PopProper(t);
    if Mode(t) == Normal {
      ClosePasses(lex, p, t, g, n);
    } else {
      RawNames(n, ForeignRoots(t.stack) > 0);
      RawClosePasses(lex, p, KindOf(Mode(t)), t, g, n);
    }
  }

  // ----- Whole documents -----

  lemma BuiltSnoc(lex: Lexicon, ts: seq<Token>)
    requires ts != []
    ensures Built(ts) == Apply(Built(ts[..|ts| - 1]), ts[|ts| - 1])
    ensures Orderly(lex, ts) ==> Orderly(lex, ts[..|ts| - 1]) && Accepts(lex, Built(ts[..|ts| - 1]), ts[|ts| - 1])
  {
    hide Apply, Accepts;
  }

  /** No element that swallows the rest of the document is ever open. */
  predicate Sound(t: Tree) { Regular(t) && Mode(t) != Plain }

  lemma ApplyKeeps(lex: Lexicon, t: Tree, k: Token)
    requires Sound(t) && Accepts(lex, t, k) && WellFormed(k)
    ensures Sound(Apply(t, k)) && Apply(t, k).out == t.out + [k]
  {
    hide Inv, Proper, Untouched, IsVoid, StartTag, ModeAt, ModeOf, PiOk, IsName, Distinct, NamedWell;
    match k
    case Chr(c) =>
      StringKeeps(t, [c]);
      SayOne(t, c);
    case Open(n, attrs) =>
      StartsPlainly(t, n, attrs);
      StartTagKeeps(t, n, attrs, false);
      PushProper(t, n, attrs);
    case Empty(n, attrs) =>
      EmptyPlainly(t, n, attrs);
      StartTagKeeps(t, n, attrs, true);
    case Close(n) =>
      PopKeeps(t);
      PopProper(t);
    case Pi(target, data) =>
      PiKeeps(t, target, data);
      SafeIsSame(data);
  }

  lemma {:induction false} SafeIsSame(s: string)
    requires PlainText(s)
    ensures SafeAll(s) == s
  {
    SafeAt(s);
  }

  /** The tree of an orderly document holds the document. */
  lemma {:induction false} BuiltIs(lex: Lexicon, ts: seq<Token>)
    requires Orderly(lex, ts) && AllWellFormed(ts)
    ensures Built(ts).out == ts && Sound(Built(ts))
    decreases |ts|
  {
    hide Built, Orderly, Sound, Accepts, Apply, WellFormed;
    if ts == [] {
      NothingBuiltYet();
    } else {
      BuiltSnoc(lex, ts);
      BuiltIs(lex, ts[..|ts| - 1]);
      ApplyKeeps(lex, Built(ts[..|ts| - 1]), ts[|ts| - 1]);
    }
  }

  lemma NothingBuiltYet()
    ensures Built([]) == EMPTY_TREE && Sound(EMPTY_TREE)
  {
    assert Names([]) == [];
  }

  lemma {:induction false} DocumentPasses(lex: Lexicon, p: Parser, g: Tag, ts: seq<Token>)
    requires Stands(p, Data, EMPTY_TREE, g) && Orderly(lex, ts) && AllWellFormed(ts) && Standard(lex)
    ensures var q, t := Process(lex, p, Render(ts)), Built(ts); Stands(q, StateFor(Mode(t)), t, q.tag)
    decreases |ts|
  {
    hide Process, Standard, Shape, Orderly, Built, Accepts, Apply, RenderToken, Mode, StateFor, WellFormed, Regular;
    if ts == [] {
      ProcessNothing(lex, p);
      NothingBuiltYet();
      NormalAtFirst();
    } else {
      var init, k := ts[..|ts| - 1], ts[|ts| - 1];
      BuiltSnoc(lex, ts);
      DocumentPasses(lex, p, g, init);
      BuiltIs(lex, init);
      var q := Process(lex, p, Render(init));
      TokenPasses(lex, q, Built(init), q.tag, k);
      ChunksDoNotMatter(lex, p, Render(init), RenderToken(k));
    }
  }

  lemma NormalAtFirst()
    ensures StateFor(Mode(EMPTY_TREE)) == Data
  {
  }

  lemma {:induction false} ElementShows(ts: seq<Token>)
    requires Roots(ts) > 0
    ensures !AllSpace(Render(ts))
    decreases |ts|
  {
    var init, k := ts[..|ts| - 1], ts[|ts| - 1];
    assert ts == init + [k];
    RenderSnoc(init, k);
    NestSnoc(init, k);
    var r := Render(init);
    if Roots(init) > 0 {
      ElementShows(init);
      assert Render(ts)[..|r|] == r;
      var i :| 0 <= i < |r| && !IsSpace(r[i]);
      assert Render(ts)[i] == r[i];
    } else {
      assert RenderToken(k)[0] == '<';
      assert Render(ts)[|r|] == '<';
    }
  }

  lemma {:induction false} TopTextStays(ts: seq<Token>, n: nat)
    requires n <= |ts| && TopText(ts[..n])
    ensures TopText(ts)
    decreases |ts| - n
  {
    if n == |ts| {
      assert ts[..n] == ts;
    } else {
      assert ts[..n + 1] == ts[..n] + [ts[n]];
      NestSnoc(ts[..n], ts[n]);
      TopTextStays(ts, n + 1);
    }
  }

  lemma {:induction false} RenderStarts(ts: seq<Token>)
    requires ts != []
    ensures RenderToken(ts[0]) <= Render(ts)
    decreases |ts|
  {
    var init, k := ts[..|ts| - 1], ts[|ts| - 1];
    if |ts| == 1 {
      assert Render(ts) == [] + RenderToken(k);
    } else {
      RenderStarts(init);
    }
  }

  lemma TokenStart(k: Token)
    ensures !k.Chr? ==> RenderToken(k) != [] && RenderToken(k)[0] == '<'
    ensures k.Chr? && IsSpace(k.c) ==> RenderToken(k) == [k.c] && k.c != BOM
  {
    hide RenderAttrs;
  }

  lemma TopInk(k: Token)
    ensures IsInk(k) ==> TopText([k])
  {
    NestSnoc([], k);
    assert [] + [k] == [k];
  }

  lemma FirstCharacter(ts: seq<Token>)
    requires Repaired(ts) && ts != []
    ensures Render(ts) != [] && Render(ts)[0] != BOM
  {
    hide Nest, Roots, TopText, AllWellFormed, RenderToken, Render, IsSpace;
    RenderStarts(ts);
    TokenStart(ts[0]);
    TopInk(ts[0]);
    assert ts[..1] == [ts[0]];
    if TopText(ts[..1]) {
      TopTextStays(ts, 1);
    }
  }

  lemma StartedAlready(lex: Lexicon, p: Parser, s: string)
    requires Shape(p) && p.pushback == [] && s != [] && s[0] != BOM
    ensures Process(lex, p, s) == Process(lex, p.(started := true), s)
  {
    hide StepState;
  }

  /** A document every token of which is accepted in its place comes out exactly as it went in. */
  lemma OrderlyPassesThrough(lex: Lexicon, ts: seq<Token>)
    requires Orderly(lex, ts) && Repaired(ts) && Standard(lex)
    ensures Finish(lex, Process(lex, INITIAL, Render(ts))) == Some(ts)
  {
    hide Process, Orderly, Render, Roots, TopText, Nest, AllWellFormed, Mode, Sound, Built;
    ElementShows(ts);
    NotEmptyDocument(ts);
    FirstCharacter(ts);
    var s := Render(ts);
    StartedAlready(lex, INITIAL, s);
    var p := INITIAL.(started := true);
    DocumentPasses(lex, p, NO_TAG, ts);
    BuiltIs(lex, ts);
    FinishesAs(lex, Process(lex, p, s), ts);
  }

  lemma NotEmptyDocument(ts: seq<Token>)
    requires Roots(ts) == 1
    ensures ts != []
  {
  }

  lemma FinishesAs(lex: Lexicon, q: Parser, ts: seq<Token>)
    requires var t := Built(ts); Stands(q, StateFor(Mode(t)), t, q.tag) && t.out == ts && Sound(t)
    requires Repaired(ts) && !AllSpace(Render(ts))
    ensures Finish(lex, q) == Some(ts)
  {
    hide Built, Render, Roots, TopText, AllWellFormed, Nest, Proper, Scoped, ModeOf;
    var t := Built(ts);
    assert Names(t.stack) == [] && t.stack == [];
    assert Settle(lex, q) == q;
  }
}
