/** What an input can bring about, by the characters it holds. */
module HtmlAlphabet {
  import opened Bytes
  import opened HtmlTokens
  import opened HtmlTree
  import opened HtmlTokenizer
  import opened HtmlRepair

  predicate Over(cs: set<char>, s: string) { forall k :: 0 <= k < |s| ==> s[k] in cs }

  // ----- What a set of characters can write -----

  predicate HasLetter(cs: set<char>) { exists c :: c in cs && IsAlpha(c) }

  predicate CanTag(cs: set<char>) { '<' in cs && '>' in cs && HasLetter(cs) }

  predicate CanInstruct(cs: set<char>) { '<' in cs && '?' in cs && '>' in cs }

  function DigitIn(hex: bool, c: char): Option<nat> {
    if hex then HexValue(c) else if IsDigit(c) then Some(c as int - '0' as int) else None
  }

  function BaseOf(hex: bool): nat { if hex then 16 else 10 }

  /** The digits of `n` are among the characters; none are needed for leading zeroes. */
  predicate Spells(cs: set<char>, hex: bool, n: nat) {
    n == 0 || ((exists c :: c in cs && DigitIn(hex, c) == Some(n % BaseOf(hex))) && Spells(cs, hex, n / BaseOf(hex)))
  }

  predicate CanNumber(cs: set<char>, hex: bool, n: nat) {
    '&' in cs && '#' in cs && (hex ==> 'x' in cs || 'X' in cs) && Spells(cs, hex, n)
  }

  /** The characters a named reference stands for. */
  function Emitted(e: Entity): string { CodePoint(e.c1) + if e.c2 != 0 then CodePoint(e.c2) else [] }

  predicate CanName(lex: Lexicon, cs: set<char>, w: string) { '&' in cs && Over(cs, w) && lex.Full(w).Some? }

  // ----- What the parser holds -----

  /** A numeric reference so far: its digits come from the input, unless it is too big already. */
  predicate NumberFits(cs: set<char>, r: Ref) {
    && (r.hex.Some? ==> (r.hex.value == 'x' || r.hex.value == 'X') && r.hex.value in cs)
    && (!r.tooBig ==> r.num <= 0x10_FFFF + 15 && Spells(cs, r.hex.Some?, r.num))
  }

  predicate InTagState(s: State) {
    s.TagName? || s.SelfClosingStartTag? || InAttribute(s)
  }

  /** Text that only an element leads to. */
  predicate InElementText(s: State) { (InText(s) && !s.Data?) || InRaw(s) || InEscape(s) }

  /** What must have been read for the parser to be in a state. */
  predicate Needs(cs: set<char>, s: State) {
    && (!s.Data? && !IsRef(s) ==> '<' in cs)
    && (InPi(s) ==> '?' in cs)
    && (InTagState(s) || InElementText(s) ==> HasLetter(cs))
    && (InElementText(s) ==> '>' in cs)
    && (IsRef(s) ==> '&' in cs)
    && (s.CharRefNumStart? || s.CharRefNum? ==> '#' in cs)
  }

  ghost predicate FoundIn(lex: Lexicon, cs: set<char>, found: Option<Match>) {
    found.Some? ==> exists w :: Over(cs, w) && lex.Full(w) == found
  }

  /** Everything the parser holds comes from the characters of the input. */
  ghost predicate From(lex: Lexicon, cs: set<char>, p: Parser) {
    && Over(cs, p.pushback) && Over(cs, p.temp) && Over(cs, p.piTarget) && Over(cs, p.ref.buf)
    && FoundIn(lex, cs, p.ref.found)
    && Needs(cs, p.state) && Needs(cs, p.ref.ret)
    && (p.state.CharRefNumStart? || p.state.CharRefNum? ==> NumberFits(cs, p.ref))
    && (p.state.CharRefNumStart? ==> p.ref.num == 0 && !p.ref.tooBig)
  }

  // ----- What the tree builder is given -----

  /** Characters of the input and those the parser writes itself. */
  predicate Bland(cs: set<char>, s: string) {
    forall k :: 0 <= k < |s| ==> s[k] in cs || s[k] as int < 128 || s[k] == REPLACEMENT
  }

  ghost predicate FromName(lex: Lexicon, cs: set<char>, s: string) {
    exists w :: CanName(lex, cs, w) && s == Emitted(lex.Full(w).value.e)
  }

  ghost predicate FromNumber(cs: set<char>, s: string) {
    exists r: Ref :: NumberFits(cs, r) && '&' in cs && '#' in cs && s == [NumericChar(r)]
  }

  ghost predicate Sayable(lex: Lexicon, cs: set<char>, s: string) {
    Bland(cs, s) || FromName(lex, cs, s) || FromNumber(cs, s)
  }

  /** A property of the tree kept by the text, instructions and tags that the characters can write. */
  ghost predicate Respects(lex: Lexicon, cs: set<char>, j: Tree -> bool) {
    && (forall t, s {:trigger EmitString(t, s)} :: j(t) && Sayable(lex, cs, s) ==> j(EmitString(t, s)))
    && (forall t, target, data {:trigger EmitPi(t, target, data)} ::
          j(t) && CanInstruct(cs) && Over(cs, target) && PiOk(lex, target, data) ==> j(EmitPi(t, target, data)))
    && (forall t, raw, attrs, sc {:trigger StartTag(t, raw, attrs, sc)} ::
          j(t) && CanTag(cs) && Tidy(attrs) ==> j(StartTag(t, raw, attrs, sc).t))
    && (forall t, raw {:trigger EndTag(t, raw)} :: j(t) && CanTag(cs) ==> j(EndTag(t, raw)))
  }

  /** Between two characters. */
  ghost predicate Stays(lex: Lexicon, cs: set<char>, j: Tree -> bool, p: Parser) {
    Good(lex, p) && From(lex, cs, p) && j(p.tree)
  }

  // ----- Every transition keeps it -----

  lemma BlandOne(cs: set<char>, c: char)
    requires c in cs
    ensures Bland(cs, [c]) && Over(cs, [c])
  {
  }

  lemma BlandWords(cs: set<char>)
    ensures Bland(cs, "<") && Bland(cs, "</") && Bland(cs, "-") && Bland(cs, "<!") && Bland(cs, "/") && Bland(cs, ">")
    ensures Bland(cs, "&") && Bland(cs, "&#") && Bland(cs, "&#x") && Bland(cs, "&#X")
  {
  }

  lemma OverBland(cs: set<char>, s: string)
    requires Over(cs, s)
    ensures Bland(cs, s)
  {
  }

  lemma OverSnoc(cs: set<char>, s: string, c: char)
    requires Over(cs, s) && c in cs
    ensures Over(cs, s + [c])
  {
  }

  lemma EmitTagKept(lex: Lexicon, cs: set<char>, j: Tree -> bool, p: Parser)
    requires Respects(lex, cs, j) && j(p.tree) && Tidy(p.tag.attrs) && From(lex, cs, p) && CanTag(cs)
    ensures var r := EmitTag(p); j(r.p.tree) && From(lex, cs, r.p)
  {
    hide FinishAttr, StartTag, EndTag, Tidy, Over, FoundIn, NumberFits, HasLetter;
    FinishAttrKeeps(p.tag);
  }

  /** Nothing of the input is given back and no reference is begun. */
  predicate Moves(cs: set<char>, p: Parser, q: Parser) {
    SameInput(p, q) && (q.temp == p.temp || Over(cs, q.temp)) && (q.piTarget == p.piTarget || Over(cs, q.piTarget))
      && !IsRef(q.state)
  }

  lemma FromMoves(lex: Lexicon, cs: set<char>, p: Parser, q: Parser)
    requires From(lex, cs, p) && Moves(cs, p, q) && Needs(cs, q.state)
    ensures From(lex, cs, q)
  {
    hide Over, FoundIn, Needs, NumberFits;
  }

  lemma BeginRefFrom(lex: Lexicon, cs: set<char>, p: Parser)
    requires From(lex, cs, p) && '&' in cs
    ensures From(lex, cs, BeginRef(p).p) && BeginRef(p).p.tree == p.tree
  {
    hide Over, FoundIn, HasLetter;
  }

  // What states need, from the least to the most.

  lemma NeedsLess(cs: set<char>, s: State)
    requires '<' in cs && (s.TagOpen? || s.EndTagOpen? || InDeclaration(s) || InComment(s) || InCdata(s))
    ensures Needs(cs, s)
  {
  }

  lemma NeedsTagState(cs: set<char>, s: State)
    requires InTagState(s)
    ensures Needs(cs, s) <==> '<' in cs && HasLetter(cs)
  {
    hide HasLetter;
  }

  lemma NeedsElement(cs: set<char>, s: State)
    ensures Needs(cs, s) && InElementText(s) ==> CanTag(cs)
    ensures CanTag(cs) && !IsRef(s) && !InPi(s) ==> Needs(cs, s)
  {
    hide HasLetter;
  }

  lemma DataStepStates(cs: set<char>, p: Parser, c: char)
    requires Shape(p) && p.state.Data?
    ensures var r := TextStep(p, c);
      if c == '&' then r == BeginRef(p) else Moves(cs, p, r.p) && r.p.state == if c == '<' then TagOpen else Data
  {
    hide Goto, Say, EmitString, BeginRef, Over;
  }

  lemma RawTextStepStates(cs: set<char>, p: Parser, c: char)
    requires Shape(p) && (p.state.Rcdata? || p.state.Rawtext? || p.state.ScriptData? || p.state.Plaintext?)
    ensures var r := TextStep(p, c);
      if c == '&' && p.state.Rcdata? then r == BeginRef(p) else Moves(cs, p, r.p) && !InPi(r.p.state)
  {
    hide Goto, Say, EmitString, BeginRef, Over;
  }

  lemma EscapedStepStates(cs: set<char>, p: Parser, c: char)
    requires Shape(p) && (p.state.ScriptEscaped? || p.state.ScriptDoubleEscaped?)
    ensures var r := TextStep(p, c); Moves(cs, p, r.p) && !InPi(r.p.state)
  {
    hide Goto, Say, EmitString, BeginRef, Over;
  }

  lemma TextStepMoves(lex: Lexicon, cs: set<char>, p: Parser, c: char)
    requires Shape(p) && InText(p.state) && From(lex, cs, p) && c in cs
    ensures From(lex, cs, TextStep(p, c).p)
  {
    hide TextStep, HasLetter, BeginRef, Needs, Over, From;
    FromNeeds(lex, cs, p);
    if p.state.Data? {
      DataStepStates(cs, p, c);
    } else if p.state.ScriptEscaped? || p.state.ScriptDoubleEscaped? {
      EscapedStepStates(cs, p, c);
    } else {
      RawTextStepStates(cs, p, c);
    }
    var q := TextStep(p, c).p;
    NeedsElement(cs, p.state);
    NeedsElement(cs, q.state);
    NeedsNothing(cs);
    if c == '<' {
      NeedsLess(cs, TagOpen);
    }
    if c == '&' && (p.state.Data? || p.state.Rcdata?) {
      BeginRefFrom(lex, cs, p);
    } else {
      FromMoves(lex, cs, p, q);
    }
  }

  lemma NeedsNothing(cs: set<char>)
    ensures Needs(cs, Data)
  {
  }

  lemma FromNeeds(lex: Lexicon, cs: set<char>, p: Parser)
    requires From(lex, cs, p)
    ensures Needs(cs, p.state) && Needs(cs, p.ref.ret)
  {
    hide Needs, Over, FoundIn, NumberFits;
  }

  lemma TextStepSays(p: Parser, c: char)
    requires Shape(p) && InText(p.state)
    ensures var t := TextStep(p, c).p.tree;
      t == p.tree || t == EmitString(p.tree, [c]) || t == EmitString(p.tree, "-") || t == EmitString(p.tree, "<")
  {
    hide EmitString;
  }

  lemma TextStepKept(lex: Lexicon, cs: set<char>, j: Tree -> bool, p: Parser, c: char)
    requires Respects(lex, cs, j) && Shape(p) && InText(p.state) && From(lex, cs, p) && j(p.tree) && c in cs
    ensures var r := TextStep(p, c); j(r.p.tree) && From(lex, cs, r.p)
  {
    hide TextStep, EmitString, Bland, FromName, FromNumber, From;
    BlandOne(cs, c);
    BlandWords(cs);
    TextStepSays(p, c);
    TextStepMoves(lex, cs, p, c);
  }

  lemma AttrStepStates(cs: set<char>, p: Parser, c: char)
    requires Shape(p) && InAttribute(p.state)
    ensures var r := AttrStep(p, c);
      || (c == '>' && r == EmitTag(p)) || (c == '&' && r == BeginRef(p))
      || (Moves(cs, p, r.p) && r.p.tree == p.tree && InTagState(r.p.state))
  {
    hide Goto, Retry, CreateAttr, PushName, PushValue, EmitTag, FinishAttr, StartTag, EndTag, BeginRef;
  }

  lemma AttrStepKept(lex: Lexicon, cs: set<char>, j: Tree -> bool, p: Parser, c: char)
    requires Respects(lex, cs, j) && Shape(p) && InAttribute(p.state) && From(lex, cs, p) && j(p.tree)
      && Tidy(p.tag.attrs) && c in cs
    ensures var r := AttrStep(p, c); j(r.p.tree) && From(lex, cs, r.p)
  {
    hide AttrStep, EmitTag, BeginRef, From, Respects, Needs, HasLetter, Tidy, Moves;
    FromNeeds(lex, cs, p);
    NeedsTagState(cs, p.state);
    AttrStepStates(cs, p, c);
    var r := AttrStep(p, c);
    if c == '>' && r == EmitTag(p) {
      EmitTagKept(lex, cs, j, p);
    } else if c == '&' && r == BeginRef(p) {
      BeginRefFrom(lex, cs, p);
    } else {
      NeedsTagState(cs, r.p.state);
      FromMoves(lex, cs, p, r.p);
    }
  }

  /** What the states before and after a tag name lead to. */
  lemma TagStepStates(cs: set<char>, p: Parser, c: char)
    requires Shape(p) && (p.state.TagOpen? || p.state.EndTagOpen? || p.state.TagName? || p.state.SelfClosingStartTag?)
    ensures var r, named := TagStep(p, c), InTagState(p.state);
      || (c == '>' && named && (r == EmitTag(p) || r == EmitTag(p.(tag := p.tag.(selfClosing := true)))))
      || (c == '?' && r.p.state.PiStart? && Moves(cs, p, r.p) && r.p.tree == p.tree)
      || ((named || IsAlpha(c)) && InTagState(r.p.state) && Moves(cs, p, r.p) && r.p.tree == p.tree)
      || ((r.p.state.MarkupDecl? || r.p.state.EndTagOpen? || r.p.state.BogusComment? || r.p.state.Data?)
        && Moves(cs, p, r.p)
          && (r.p.tree == p.tree || r.p.tree == EmitString(p.tree, "<")))
  {
    hide Goto, Retry, Say, EmitString, NewTag, EmitTag, FinishAttr, StartTag, EndTag;
    GotoPi(p.(piTarget := [], piData := []), PiStart);
  }

  lemma TagStepKept(lex: Lexicon, cs: set<char>, j: Tree -> bool, p: Parser, c: char)
    requires Shape(p) && (p.state.TagOpen? || p.state.EndTagOpen? || p.state.TagName? || p.state.SelfClosingStartTag?)
    requires Respects(lex, cs, j) && From(lex, cs, p) && j(p.tree) && Tidy(p.tag.attrs) && c in cs
    ensures var r := TagStep(p, c); j(r.p.tree) && From(lex, cs, r.p)
  {
    hide TagStep, EmitTag, From, Needs, HasLetter, Tidy, Moves, EmitString, EmitPi, StartTag, EndTag, Bland, FromName,
      FromNumber, CanInstruct;
    FromNeeds(lex, cs, p);
    NeedsMarkup(cs, p.state);
    TagStepStates(cs, p, c);
    BlandWords(cs);
    var r := TagStep(p, c);
    if InTagState(p.state) {
      NeedsTagState(cs, p.state);
      if c == '>' && (r == EmitTag(p) || r == EmitTag(p.(tag := p.tag.(selfClosing := true)))) {
        EmitTagKept(lex, cs, j, p);
        SelfClosingFrom(lex, cs, p);
        EmitTagKept(lex, cs, j, p.(tag := p.tag.(selfClosing := true)));
        return;
      }
    }
    NeedsNothing(cs);
    LetterThere(cs, c);
    if InTagState(r.p.state) {
      NeedsTagState(cs, r.p.state);
    } else if r.p.state.PiStart? {
      NeedsPi(cs, r.p.state);
    } else if !r.p.state.Data? {
      NeedsLess(cs, r.p.state);
    }
    FromMoves(lex, cs, p, r.p);
  }

  lemma NeedsMarkup(cs: set<char>, s: State)
    requires Needs(cs, s) && !s.Data? && !IsRef(s)
    ensures '<' in cs
  {
  }

  lemma NeedsPi(cs: set<char>, s: State)
    requires InPi(s)
    ensures Needs(cs, s) <==> '<' in cs && '?' in cs
  {
  }

  lemma LetterThere(cs: set<char>, c: char)
    ensures c in cs && IsAlpha(c) ==> HasLetter(cs)
  {
  }

  lemma SelfClosingFrom(lex: Lexicon, cs: set<char>, p: Parser)
    requires From(lex, cs, p)
    ensures From(lex, cs, p.(tag := p.tag.(selfClosing := true)))
  {
    hide Needs, Over, FoundIn, NumberFits;
  }

  lemma DeclStepKept(lex: Lexicon, cs: set<char>, p: Parser, c: char)
    requires Shape(p) && InDeclaration(p.state) && From(lex, cs, p)
    ensures var r := DeclStep(p, c); r.p.tree == p.tree && From(lex, cs, r.p)
  {
    hide DeclStep, From, Needs, Moves;
    FromNeeds(lex, cs, p);
    NeedsMarkup(cs, p.state);
    DeclStepStates(cs, p, c);
    NeedsNothing(cs);
    var q := DeclStep(p, c).p;
    if !q.state.Data? {
      NeedsLess(cs, q.state);
    }
    FromMoves(lex, cs, p, q);
  }

  lemma DeclStepStates(cs: set<char>, p: Parser, c: char)
    requires Shape(p) && InDeclaration(p.state)
    ensures var r := DeclStep(p, c);
      Moves(cs, p, r.p) && r.p.tree == p.tree && (InDeclaration(r.p.state) || InComment(r.p.state) || InCdata(r.p.state)
        || r.p.state.Data?)
  {
    hide Goto, Retry, Hold, Lower;
  }

  lemma CommentKept(lex: Lexicon, cs: set<char>, p: Parser, c: char)
    requires Shape(p) && InComment(p.state) && From(lex, cs, p)
    ensures var r := Goto(p, CommentNext(p.state, c)); r.p.tree == p.tree && From(lex, cs, r.p)
  {
    hide From, Needs, Goto, CommentNext;
    FromNeeds(lex, cs, p);
    NeedsMarkup(cs, p.state);
    NeedsNothing(cs);
    var r := Goto(p, CommentNext(p.state, c));
    if !r.p.state.Data? {
      NeedsLess(cs, r.p.state);
    }
    FromMoves(lex, cs, p, r.p);
  }

  lemma CdataStepStates(cs: set<char>, p: Parser, c: char)
    requires Shape(p) && InCdata(p.state) && Over(cs, p.temp) && c in cs
    ensures var r := CdataStep(p, c);
      && Moves(cs, p, r.p) && (InCdata(r.p.state) || r.p.state.Data?)
      && (r.p.tree == p.tree || (exists s :: Over(cs, s) && r.p.tree == EmitString(p.tree, s)))
  {
    hide Goto, Hold, Flush, EmitString;
    assert Over(cs, p.temp + [c]);
    var kept := if |p.temp| >= 2 then p.temp[..|p.temp| - 2] else p.temp;
    assert Over(cs, kept);
  }

  lemma CdataStepKept(lex: Lexicon, cs: set<char>, j: Tree -> bool, p: Parser, c: char)
    requires Respects(lex, cs, j) && Shape(p) && InCdata(p.state) && From(lex, cs, p) && j(p.tree) && c in cs
    ensures var r := CdataStep(p, c); j(r.p.tree) && From(lex, cs, r.p)
  {
    hide CdataStep, From, Needs, Moves, EmitString, Bland, FromName, FromNumber;
    FromNeeds(lex, cs, p);
    FromHolds(lex, cs, p);
    NeedsMarkup(cs, p.state);
    NeedsNothing(cs);
    CdataStepStates(cs, p, c);
    var q := CdataStep(p, c).p;
    if q.tree != p.tree {
      var s :| Over(cs, s) && q.tree == EmitString(p.tree, s);
      OverBland(cs, s);
    }
    if !q.state.Data? {
      NeedsLess(cs, q.state);
    }
    FromMoves(lex, cs, p, q);
  }

  lemma FromHolds(lex: Lexicon, cs: set<char>, p: Parser)
    requires From(lex, cs, p)
    ensures Over(cs, p.temp) && Over(cs, p.piTarget) && Over(cs, p.ref.buf) && Over(cs, p.pushback)
      && FoundIn(lex, cs, p.ref.found)
    ensures p.state.CharRefNumStart? || p.state.CharRefNum? ==> NumberFits(cs, p.ref)
    ensures p.state.CharRefNumStart? ==> p.ref.num == 0 && !p.ref.tooBig
  {
    hide Needs, Over, FoundIn, NumberFits;
  }

  lemma PiStepStates(lex: Lexicon, cs: set<char>, p: Parser, c: char)
    requires Shape(p) && InPi(p.state) && Over(cs, p.piTarget) && c in cs
    ensures var r := PiStep(lex, p, c);
      && Moves(cs, p, r.p) && (InPi(r.p.state) || r.p.state.BogusComment? || r.p.state.Data?)
      && (r.p.tree == p.tree || (c == '>' && r.p.tree == EmitPi(p.tree, p.piTarget, p.piData)))
  {
    hide Goto, Retry, FinishPi, EmitPi, SameName, IsBlank, Over;
    OverSnoc(cs, p.piTarget, c);
    NothingOver(cs);
  }

  lemma PiStepKept(lex: Lexicon, cs: set<char>, j: Tree -> bool, p: Parser, c: char)
    requires Respects(lex, cs, j) && Shape(p) && InPi(p.state) && From(lex, cs, p) && j(p.tree) && c in cs
      && PiFits(lex, p, c) && c != '\r'
    ensures var r := PiStep(lex, p, c); j(r.p.tree) && From(lex, cs, r.p)
  {
    hide PiStep, From, Needs, Moves, EmitPi, EmitString, StartTag, EndTag, PiFits, PiOk, Sayable;
    FromNeeds(lex, cs, p);
    FromHolds(lex, cs, p);
    NeedsPi(cs, p.state);
    NeedsNothing(cs);
    PiStepStates(lex, cs, p, c);
    PiWritten(lex, p, c);
    var q := PiStep(lex, p, c).p;
    if InPi(q.state) {
      NeedsPi(cs, q.state);
    } else if !q.state.Data? {
      NeedsLess(cs, q.state);
    }
    FromMoves(lex, cs, p, q);
  }

  lemma PiWritten(lex: Lexicon, p: Parser, c: char)
    requires Shape(p) && InPi(p.state) && PiFits(lex, p, c) && c != '\r'
    ensures var r := PiStep(lex, p, c); r.p.tree == p.tree || PiOk(lex, p.piTarget, p.piData)
  {
    hide PiOk, TargetOk, EmitPi, FinishPi, SameName;
  }

  lemma RawLtStepStates(cs: set<char>, p: Parser, c: char)
    requires Shape(p) && p.state.RawLt? && c in cs
    ensures var r := RawLtStep(p, c);
      Moves(cs, p, r.p) && !InPi(r.p.state) && (r.p.tree == p.tree || RawSays(cs, p, c, r.p.tree))
  {
    hide Goto, Retry, Say, EmitString, Hold, RawState, Over;
    BlandOne(cs, c);
    NothingOver(cs);
    RawStateIsText(p.state.kind);
  }

  lemma RawEndNameStepStates(cs: set<char>, p: Parser, k: RawKind, c: char)
    requires Shape(p) && Over(cs, p.temp) && c in cs
    ensures var r := RawEndNameStep(p, k, c);
      || (c == '>' && r == EmitTag(Hold(p, [])))
      || (Moves(cs, p, r.p) && !InPi(r.p.state) && (r.p.tree == p.tree || RawSays(cs, p, c, r.p.tree)))
  {
    hide Goto, Retry, Say, EmitString, Hold, Flush, Discard, EmitTag, FinishAttr, StartTag, EndTag, Appropriate,
      IsBlank, Over, IsAlpha, RawState, RawSays;
    OverSnoc(cs, p.temp, c);
    NothingOver(cs);
    RawStateIsText(k);
    HeldIsSaid(cs, p, c);
  }

  lemma RawStateIsText(k: RawKind)
    ensures !IsRef(RawState(k)) && !InPi(RawState(k))
  {
  }

  lemma HeldIsSaid(cs: set<char>, p: Parser, c: char)
    ensures RawSays(cs, p, c, EmitString(EmitString(p.tree, "</"), p.temp))
  {
    hide EmitString;
  }

  lemma NothingOver(cs: set<char>)
    ensures Over(cs, [])
  {
  }

  lemma RawStepStates(cs: set<char>, p: Parser, c: char)
    requires Shape(p) && InRaw(p.state) && Over(cs, p.temp) && c in cs
    ensures var r := RawStep(p, c);
      || (c == '>' && r == EmitTag(Hold(p, [])))
      || (Moves(cs, p, r.p) && !InPi(r.p.state) && (r.p.tree == p.tree || RawSays(cs, p, c, r.p.tree)))
  {
    hide Goto, Retry, Say, EmitString, Hold, NewTag, EmitTag, RawLtStep, RawEndNameStep, Over;
    OverSnoc(cs, p.temp, c);
    if p.state.RawLt? {
      RawLtStepStates(cs, p, c);
    } else if p.state.RawEndTagName? {
      RawEndNameStepStates(cs, p, p.state.kind, c);
    }
  }

  predicate RawSays(cs: set<char>, p: Parser, c: char, t: Tree) {
    || t == EmitString(p.tree, "/") || t == EmitString(p.tree, "<!") || t == EmitString(p.tree, "<")
      || t == EmitString(p.tree, "</")
    || t == EmitString(p.tree, ['<', c]) || t == EmitString(EmitString(p.tree, "</"), p.temp)
  }

  lemma RawStepKept(lex: Lexicon, cs: set<char>, j: Tree -> bool, p: Parser, c: char)
    requires Respects(lex, cs, j) && Shape(p) && InRaw(p.state) && From(lex, cs, p) && j(p.tree) && Tidy(p.tag.attrs)
      && c in cs
    ensures var r := RawStep(p, c); j(r.p.tree) && From(lex, cs, r.p)
  {
    hide RawStep, EmitTag, From, Needs, HasLetter, Tidy, EmitString, StartTag, EndTag, FromName, FromNumber, Over, Hold;
    FromNeeds(lex, cs, p);
    FromHolds(lex, cs, p);
    NeedsElement(cs, p.state);
    RawStepStates(cs, p, c);
    BlandWords(cs);
    OverBland(cs, p.temp);
    assert Bland(cs, ['<', c]);
    var r := RawStep(p, c);
    if c == '>' && r == EmitTag(Hold(p, [])) {
      NothingHeld(lex, cs, p);
      EmitTagKept(lex, cs, j, Hold(p, []));
    } else {
      NeedsElement(cs, r.p.state);
      FromMoves(lex, cs, p, r.p);
    }
  }

  lemma NothingHeld(lex: Lexicon, cs: set<char>, p: Parser)
    requires From(lex, cs, p)
    ensures From(lex, cs, Hold(p, []))
  {
    hide Needs, FoundIn, NumberFits;
  }

  predicate EscapeSays(p: Parser, c: char, t: Tree) {
    || t == p.tree || t == EmitString(p.tree, [c]) || t == EmitString(p.tree, "-") || t == EmitString(p.tree, "<")
      || t == EmitString(p.tree, ">")
  }

  lemma EscapeNameStates(cs: set<char>, p: Parser, c: char)
    requires Shape(p) && (p.state.EscapeStart? || p.state.EscapeStartDash? || p.state.DoubleEscapeEnd?)
      && Over(cs, p.temp) && c in cs
    ensures var r := EscapeStep(p, c); Moves(cs, p, r.p) && !InPi(r.p.state) && EscapeSays(p, c, r.p.tree)
  {
    hide Goto, Retry, Say, Hold, EmitString, SameName, IsBlank, Over;
    OverSnoc(cs, p.temp, c);
  }

  lemma EscapeDashStates(cs: set<char>, p: Parser, c: char)
    requires Shape(p) && (p.state.EscapedDash? || p.state.EscapedDashDash?)
    ensures var r := EscapeStep(p, c); Moves(cs, p, r.p) && !InPi(r.p.state) && EscapeSays(p, c, r.p.tree)
  {
    hide Goto, Retry, Say, Hold, EmitString, SameName, IsBlank, Over;
  }

  lemma EscapeStepKept(lex: Lexicon, cs: set<char>, j: Tree -> bool, p: Parser, c: char)
    requires Respects(lex, cs, j) && Shape(p) && InEscape(p.state) && From(lex, cs, p) && j(p.tree) && c in cs
    ensures var r := EscapeStep(p, c); j(r.p.tree) && From(lex, cs, r.p)
  {
    hide EscapeStep, From, Needs, HasLetter, EmitString, StartTag, EndTag, FromName, FromNumber, Over, Bland;
    FromNeeds(lex, cs, p);
    FromHolds(lex, cs, p);
    NeedsElement(cs, p.state);
    if p.state.EscapedDash? || p.state.EscapedDashDash? {
      EscapeDashStates(cs, p, c);
    } else {
      EscapeNameStates(cs, p, c);
    }
    BlandWords(cs);
    BlandOne(cs, c);
    var q := EscapeStep(p, c).p;
    NeedsElement(cs, q.state);
    FromMoves(lex, cs, p, q);
  }

  // ----- References -----

  lemma AddDigitFits(cs: set<char>, r: Ref, c: char)
    requires NumberFits(cs, r) && c in cs && DigitValue(r, c).Some?
    ensures NumberFits(cs, AddDigit(r, DigitValue(r, c).value))
  {
    var d, hex := DigitValue(r, c).value, r.hex.Some?;
    var r' := AddDigit(r, d);
    assert DigitIn(hex, c) == Some(d) && d < BaseOf(hex);
    if !r'.tooBig {
      assert r'.num == r.num * BaseOf(hex) + d;
      LastDigit(r.num, hex, d);
      hide HexValue;
    }
  }

  lemma LastDigit(n: nat, hex: bool, d: nat)
    requires d < BaseOf(hex)
    ensures (n * BaseOf(hex) + d) % BaseOf(hex) == d && (n * BaseOf(hex) + d) / BaseOf(hex) == n
  {
    if hex {
      assert (n * 16 + d) / 16 == n;
    } else {
      assert (n * 10 + d) / 10 == n;
    }
  }

  /** A reference is over and its characters are where it was found. */
  predicate Says(cs: set<char>, p: Parser, q: Parser, s: string) {
    && Moves(cs, p, q) && q.state == p.ref.ret && (q.tree == p.tree || q.tree == EmitString(p.tree, s))
      && q.tag.attrs == p.tag.attrs
  }

  lemma SaysKept(lex: Lexicon, cs: set<char>, j: Tree -> bool, p: Parser, q: Parser, s: string)
    requires Respects(lex, cs, j) && From(lex, cs, p) && j(p.tree) && Says(cs, p, q, s) && Sayable(lex, cs, s)
    ensures j(q.tree) && From(lex, cs, q)
  {
    hide From, Needs, Over, EmitString, Sayable;
    FromNeeds(lex, cs, p);
    FromMoves(lex, cs, p, q);
  }

  lemma NumericStepStates(cs: set<char>, p: Parser, c: char)
    requires Shape(p) && (p.state.CharRefNumStart? || p.state.CharRefNum?)
    ensures var r := NumericStep(p, c);
      || (p.state.CharRefNumStart? && (c == 'x' || c == 'X')
        && r.p == p.(ref := p.ref.(hex := Some(c)), state := CharRefNum))
      || (p.state.CharRefNumStart? && r.p == p.(state := CharRefNum))
      || (p.state.CharRefNum? && DigitValue(p.ref, c).Some?
          && r.p == p.(ref := AddDigit(p.ref, DigitValue(p.ref, c).value), state := CharRefNum))
      || Says(cs, p, r.p, NoDigits(p.ref)) || Says(cs, p, r.p, [NumericChar(p.ref)])
  {
    hide RefSay, EmitString, NumericChar, AddDigit, DigitValue, NoDigits, Over;
  }

  lemma NumericStepKept(lex: Lexicon, cs: set<char>, j: Tree -> bool, p: Parser, c: char)
    requires Respects(lex, cs, j) && Shape(p) && (p.state.CharRefNumStart? || p.state.CharRefNum?) && From(lex, cs, p)
      && j(p.tree) && c in cs
    ensures var r := NumericStep(p, c); j(r.p.tree) && From(lex, cs, r.p)
  {
    hide NumericStep, From, Says, AddDigit, DigitValue, NumericChar, Needs, Respects;
    FromHolds(lex, cs, p);
    FromNeeds(lex, cs, p);
    NeedsNumber(cs, p.state);
    NumericStepStates(cs, p, c);
    var q := NumericStep(p, c).p;
    if Says(cs, p, q, NoDigits(p.ref)) {
      NoDigitsBland(cs, p.ref);
      SaysKept(lex, cs, j, p, q, NoDigits(p.ref));
    } else if Says(cs, p, q, [NumericChar(p.ref)]) {
      assert FromNumber(cs, [NumericChar(p.ref)]);
      SaysKept(lex, cs, j, p, q, [NumericChar(p.ref)]);
    } else {
      if p.state.CharRefNum? {
        AddDigitFits(cs, p.ref, c);
      }
      AddDigitIs(p.ref, c);
      NumberFrom(lex, cs, p, q);
    }
  }

  lemma AddDigitIs(r: Ref, c: char)
    ensures DigitValue(r, c).Some? ==> var r' := AddDigit(r, DigitValue(r, c).value);
      r'.buf == r.buf && r'.found == r.found && r'.ret == r.ret
  {
  }

  lemma NumberFrom(lex: Lexicon, cs: set<char>, p: Parser, q: Parser)
    requires From(lex, cs, p) && (p.state.CharRefNumStart? || p.state.CharRefNum?) && q.state.CharRefNum?
      && NumberFits(cs, q.ref)
    requires q == p.(ref := q.ref, state := q.state) && q.ref.buf == p.ref.buf && q.ref.found == p.ref.found
      && q.ref.ret == p.ref.ret
    ensures From(lex, cs, q)
  {
    hide Over, FoundIn, NumberFits, HasLetter;
  }

  lemma NeedsNumber(cs: set<char>, s: State)
    requires Needs(cs, s)
    ensures IsRef(s) ==> '&' in cs
    ensures s.CharRefNumStart? || s.CharRefNum? ==> '#' in cs
  {
    hide HasLetter;
  }

  lemma NoDigitsBland(cs: set<char>, r: Ref)
    requires NumberFits(cs, r)
    ensures Bland(cs, NoDigits(r))
  {
    BlandWords(cs);
    assert "&#" + ['x'] == "&#x" && "&#" + ['X'] == "&#X";
  }

  /** What a named reference that ends leaves behind. */
  lemma ResolveNamedKept(lex: Lexicon, cs: set<char>, j: Tree -> bool, p: Parser)
    requires Respects(lex, cs, j) && Shape(p) && From(lex, cs, p) && j(p.tree) && '&' in cs
    ensures var q := ResolveNamed(p); j(q.tree) && From(lex, cs, q)
  {
    hide Respects, From, EmitString, LeftAlone, Over, Needs, Bland, FromName, FromNumber;
    FromHolds(lex, cs, p);
    FromNeeds(lex, cs, p);
    BlandWords(cs);
    var q := ResolveNamed(p);
    ResolvedHolds(cs, p);
    ResolvedFrom(lex, cs, p, q);
    if q.tree != p.tree {
      if q.tree != EmitString(p.tree, "&") {
        var w :| Over(cs, w) && lex.Full(w) == p.ref.found;
        assert CanName(lex, cs, w);
        FoundSays(lex, cs, w);
        KeptSays(lex, cs, j, p.tree, Emitted(lex.Full(w).value.e));
      } else {
        KeptSays(lex, cs, j, p.tree, "&");
      }
    }
  }

  lemma FoundSays(lex: Lexicon, cs: set<char>, w: string)
    requires CanName(lex, cs, w)
    ensures Sayable(lex, cs, Emitted(lex.Full(w).value.e))
  {
    hide Over, Emitted;
    assert FromName(lex, cs, Emitted(lex.Full(w).value.e));
  }

  lemma KeptSays(lex: Lexicon, cs: set<char>, j: Tree -> bool, t: Tree, s: string)
    requires Respects(lex, cs, j) && j(t) && Sayable(lex, cs, s)
    ensures j(EmitString(t, s))
  {
    hide Sayable, EmitString;
  }

  lemma ResolvedHolds(cs: set<char>, p: Parser)
    requires Over(cs, p.ref.buf) && Over(cs, p.pushback)
    ensures var q := ResolveNamed(p);
      && Over(cs, q.pushback) && SameNotes(p, q) && q.state == p.ref.ret && q.ref == p.ref.(buf := [], found := None)
      && (q.tree == p.tree || q.tree == EmitString(p.tree, "&")
          || (p.ref.found.Some? && q.tree == EmitString(p.tree, Emitted(p.ref.found.value.e))))
  {
    hide EmitString, LeftAlone, CodePoint;
  }

  lemma ResolvedFrom(lex: Lexicon, cs: set<char>, p: Parser, q: Parser)
    requires Shape(p) && From(lex, cs, p) && Over(cs, q.pushback) && SameNotes(p, q)
    requires q.state == p.ref.ret && q.ref == p.ref.(buf := [], found := None)
    ensures From(lex, cs, q)
  {
    hide Over, Needs, NumberFits;
    NothingOver(cs);
  }

  lemma NamedStepKept(lex: Lexicon, cs: set<char>, j: Tree -> bool, p: Parser, c: char)
    requires Respects(lex, cs, j) && Shape(p) && (p.state.CharRef? || p.state.CharRefNamed?) && From(lex, cs, p)
      && j(p.tree) && c in cs
    ensures var q := NamedStep(lex, p, c); j(q.tree) && From(lex, cs, q)
  {
    hide Respects, From, ResolveNamed, NamedBuffer, Needs;
    FromNeeds(lex, cs, p);
    NeedsNumber(cs, p.state);
    var q := NamedBuffer(lex, p, c);
    BufferFrom(lex, cs, p, c);
    ResolveNamedKept(lex, cs, j, q);
  }

  lemma BufferFrom(lex: Lexicon, cs: set<char>, p: Parser, c: char)
    requires (p.state.CharRef? || p.state.CharRefNamed?) && From(lex, cs, p) && c in cs
    ensures var q := NamedBuffer(lex, p, c); From(lex, cs, q) && From(lex, cs, q.(state := CharRefNamed))
  {
    hide From, Over, FoundIn, Needs, NamedBuffer;
    FromHolds(lex, cs, p);
    FromNeeds(lex, cs, p);
    NeedsNumber(cs, p.state);
    NeedsNamed(cs);
    var q := NamedBuffer(lex, p, c);
    BufferHolds(lex, cs, p, c);
    NamedFrom(lex, cs, p, q);
    NamedFrom(lex, cs, p, q.(state := CharRefNamed));
  }

  lemma NeedsNamed(cs: set<char>)
    requires '&' in cs
    ensures Needs(cs, CharRefNamed)
  {
  }

  lemma BufferHolds(lex: Lexicon, cs: set<char>, p: Parser, c: char)
    requires (p.state.CharRef? || p.state.CharRefNamed?) && Over(cs, p.ref.buf) && FoundIn(lex, cs, p.ref.found)
      && c in cs
    ensures var q := NamedBuffer(lex, p, c); Over(cs, q.ref.buf) && FoundIn(lex, cs, q.ref.found) && SameNotes(p, q)
  {
    var buf := (if p.state.CharRef? then [] else p.ref.buf) + [c];
    OverSnoc(cs, if p.state.CharRef? then [] else p.ref.buf, c);
    hide Over, lex.Full;
    assert lex.Full(buf).Some? ==> FoundIn(lex, cs, lex.Full(buf));
  }

  lemma NamedFrom(lex: Lexicon, cs: set<char>, p: Parser, q: Parser)
    requires From(lex, cs, p) && q.pushback == p.pushback && SameNotes(p, q) && q.ref.ret == p.ref.ret
    requires Over(cs, q.ref.buf) && FoundIn(lex, cs, q.ref.found) && Needs(cs, q.state)
      && (q.state.CharRef? || q.state.CharRefNamed?)
    ensures From(lex, cs, q)
  {
    hide Over, FoundIn, Needs;
  }

  lemma RefStepKept(lex: Lexicon, cs: set<char>, j: Tree -> bool, p: Parser, c: char)
    requires Respects(lex, cs, j) && Shape(p) && IsRef(p.state) && From(lex, cs, p) && j(p.tree) && c in cs
    ensures var r := RefStep(lex, p, c); j(r.p.tree) && From(lex, cs, r.p)
  {
    hide From, Respects, NumericStep, NamedStep, EmitString, RefSay, Sayable, Needs, Over;
    if p.state.CharRefNumStart? || p.state.CharRefNum? {
      NumericStepKept(lex, cs, j, p, c);
    } else if p.state.CharRefNamed? || IsAlnum(c) {
      NamedStepKept(lex, cs, j, p, c);
    } else if c == '#' {
      NumberBegins(lex, cs, p);
    } else {
      AmpersandSayable(lex, cs);
      SaysKept(lex, cs, j, p, RefStep(lex, p, c).p, "&");
    }
  }

  lemma AmpersandSayable(lex: Lexicon, cs: set<char>)
    ensures Sayable(lex, cs, "&") && Sayable(lex, cs, "&#")
  {
    BlandWords(cs);
  }

  lemma NumberBegins(lex: Lexicon, cs: set<char>, p: Parser)
    requires From(lex, cs, p) && p.state.CharRef? && '#' in cs
    ensures From(lex, cs,
      p.(ref := p.ref.(num := 0, tooBig := false, seenDigit := false, hex := None), state := CharRefNumStart))
  {
    hide Over, FoundIn, HasLetter;
  }

  // ----- Whole runs -----

  lemma LookKept(lex: Lexicon, cs: set<char>, j: Tree -> bool, p: Parser, c: char)
    requires Respects(lex, cs, j) && Shape(p) && From(lex, cs, p) && j(p.tree) && Tidy(p.tag.attrs) && PiFits(lex, p, c)
      && c in cs && c != '\r'
    ensures var r := Look(lex, p, c); j(r.p.tree) && From(lex, cs, r.p)
  {
    hide TextStep, AttrStep, DeclStep, CdataStep, PiStep, RefStep, RawStep, EscapeStep, TagStep, PiFits, Respects, From,
      Goto, Tidy;
    if InText(p.state) {
      TextStepKept(lex, cs, j, p, c);
    } else if InAttribute(p.state) {
      AttrStepKept(lex, cs, j, p, c);
    } else if InDeclaration(p.state) {
      DeclStepKept(lex, cs, p, c);
    } else if InComment(p.state) {
      CommentKept(lex, cs, p, c);
    } else if InCdata(p.state) {
      CdataStepKept(lex, cs, j, p, c);
    } else if InPi(p.state) {
      PiStepKept(lex, cs, j, p, c);
    } else if IsRef(p.state) {
      RefStepKept(lex, cs, j, p, c);
    } else if InRaw(p.state) {
      RawStepKept(lex, cs, j, p, c);
    } else if InEscape(p.state) {
      EscapeStepKept(lex, cs, j, p, c);
    } else {
      TagStepKept(lex, cs, j, p, c);
    }
  }

  lemma {:induction false} StepStateKept(lex: Lexicon, cs: set<char>, j: Tree -> bool, p: Parser, c: char)
    requires Respects(lex, cs, j) && Shape(p) && Sane(Nesting(), p) && PiFits(lex, p, c)
    requires From(lex, cs, p) && j(p.tree) && c in cs && c != '\r'
    ensures var q := StepState(lex, p, c); j(q.tree) && From(lex, cs, q)
    decreases Rank(p.state)
  {
    hide Look, Rank, Stable, PiFits, Respects, From, Nesting, Tidy;
    NestingIsStable(lex);
    LookSettles(lex, p, c);
    LookSane(lex, Nesting(), p, c);
    LookKept(lex, cs, j, p, c);
    var r := Look(lex, p, c);
    if r.again {
      StepStateKept(lex, cs, j, r.p, c);
    }
  }

  /** What the states see of a character: a carriage return is a newline to them. */
  predicate Reads(cs: set<char>, c: char) { '\r' !in cs && if c == '\r' then '\n' in cs else c in cs }

  lemma StepKept(lex: Lexicon, cs: set<char>, j: Tree -> bool, p: Parser, c: char)
    requires Respects(lex, cs, j) && Stays(lex, cs, j, p) && Reads(cs, c)
    ensures Stays(lex, cs, j, Step(lex, p, c))
  {
    hide StepState, Stable, Respects, From, Nesting, Sane;
    NestingIsStable(lex);
    StepHolds(lex, Nesting(), p, c);
    PiRestsFits(lex, p, '\n');
    PiRestsFits(lex, p, c);
    StartedFrom(lex, cs, p);
    SaneStarted(p);
    if c == '\r' {
      StepStateKept(lex, cs, j, p.(started := true, prevCr := true), '\n');
    } else {
      StepStateKept(lex, cs, j, p.(started := true, prevCr := false), c);
    }
  }

  lemma StartedFrom(lex: Lexicon, cs: set<char>, p: Parser)
    requires From(lex, cs, p)
    ensures forall a, b :: From(lex, cs, p.(started := a, prevCr := b))
    ensures From(lex, cs, p.(started := true))
  {
    hide Over, FoundIn, Needs, NumberFits;
  }

  lemma SaneStarted(p: Parser)
    requires Sane(Nesting(), p)
    ensures forall a, b :: Sane(Nesting(), p.(started := a, prevCr := b))
  {
  }

  lemma {:induction false} ProcessKept(lex: Lexicon, cs: set<char>, j: Tree -> bool, p: Parser, unread: string)
    requires Respects(lex, cs, j) && Stays(lex, cs, j, p) && forall k :: 0 <= k < |unread| ==> Reads(cs, unread[k])
    requires '\r' !in cs
    ensures Stays(lex, cs, j, Process(lex, p, unread))
    decreases |unread| + Kept(p), Pending(p.state), |unread| + |p.pushback|
  {
    hide Step, Good, From, Respects;
    GoodIsShape(lex, p);
    if p.pushback != [] {
      PoppedStays(lex, cs, j, p);
      StepProgress(lex, Popped(p), p.pushback[0]);
      StepKept(lex, cs, j, Popped(p), p.pushback[0]);
      ProcessKept(lex, cs, j, Step(lex, Popped(p), p.pushback[0]), unread);
    } else if unread != [] {
      StepProgress(lex, p, unread[0]);
      StepKept(lex, cs, j, p, unread[0]);
      ProcessKept(lex, cs, j, Step(lex, p, unread[0]), unread[1..]);
    }
  }

  lemma GoodIsShape(lex: Lexicon, p: Parser)
    requires Good(lex, p)
    ensures Shape(p)
  {
  }

  lemma PoppedStays(lex: Lexicon, cs: set<char>, j: Tree -> bool, p: Parser)
    requires Stays(lex, cs, j, p) && p.pushback != [] && '\r' !in cs
    ensures Stays(lex, cs, j, Popped(p)) && Reads(cs, p.pushback[0]) && Shape(Popped(p))
  {
    hide FoundIn, Needs, NumberFits, Inv, Tidy;
    PoppedHolds(lex, Nesting(), p);
  }

  lemma ResolveAtEndKept(lex: Lexicon, cs: set<char>, j: Tree -> bool, p: Parser)
    requires Respects(lex, cs, j) && Stays(lex, cs, j, p) && IsRef(p.state)
    ensures Stays(lex, cs, j, ResolveAtEnd(p))
  {
    hide Respects, From, ResolveNamed, RefSay, EmitString, NumericChar, Sayable, Needs, Stable, Over, Nesting, Sane,
      PiRests;
    NestingIsStable(lex);
    ResolveAtEndHolds(lex, Nesting(), p);
    FromHolds(lex, cs, p);
    FromNeeds(lex, cs, p);
    NeedsNumber(cs, p.state);
    AmpersandSayable(lex, cs);
    var q := ResolveAtEnd(p);
    if p.state.CharRefNamed? {
      ResolveNamedKept(lex, cs, j, p);
    } else if p.state.CharRef? {
      SaysKept(lex, cs, j, p, q, "&");
    } else if p.state.CharRefNumStart? {
      SaysKept(lex, cs, j, p, q, "&#");
    } else {
      NumberSayable(lex, cs, p.ref);
      SaysKept(lex, cs, j, p, q, if p.ref.seenDigit then [NumericChar(p.ref)] else NoDigits(p.ref));
    }
  }

  lemma NumberSayable(lex: Lexicon, cs: set<char>, r: Ref)
    requires NumberFits(cs, r) && '&' in cs && '#' in cs
    ensures Sayable(lex, cs, [NumericChar(r)]) && Sayable(lex, cs, NoDigits(r))
  {
    hide NumericChar;
    NoDigitsBland(cs, r);
    assert FromNumber(cs, [NumericChar(r)]);
  }

  lemma {:induction false} SettleKept(lex: Lexicon, cs: set<char>, j: Tree -> bool, p: Parser)
    requires Respects(lex, cs, j) && Stays(lex, cs, j, p) && '\r' !in cs
    ensures Stays(lex, cs, j, Settle(lex, p))
    decreases Kept(p), Pending(p.state), |p.pushback|
  {
    hide Step, Good, From, Respects, ResolveAtEnd;
    GoodIsShape(lex, p);
    if p.pushback != [] {
      PoppedStays(lex, cs, j, p);
      StepProgress(lex, Popped(p), p.pushback[0]);
      StepKept(lex, cs, j, Popped(p), p.pushback[0]);
      SettleKept(lex, cs, j, Step(lex, Popped(p), p.pushback[0]));
    } else if IsRef(p.state) {
      ResolveAtEndEnds(p);
      ResolveAtEndKept(lex, cs, j, p);
      SettleKept(lex, cs, j, ResolveAtEnd(p));
    }
  }

  lemma EndOfInputKept(lex: Lexicon, cs: set<char>, j: Tree -> bool, p: Parser)
    requires Respects(lex, cs, j) && From(lex, cs, p) && j(p.tree)
    ensures j(EndOfInput(p))
  {
    hide EmitString, From, FromName, FromNumber, Bland, Over, StartTag, EndTag, EmitPi;
    BlandWords(cs);
    FromHolds(lex, cs, p);
    OverBland(cs, p.temp);
  }

  /** The characters the states see of an input over `a`. */
  function Seen(a: set<char>): (cs: set<char>)
    ensures '\r' !in cs && forall c :: c in a ==> Reads(cs, c)
  {
    if '\r' in a then a - {'\r'} + {'\n'} else a
  }

  lemma InitialStays(lex: Lexicon, cs: set<char>, j: Tree -> bool)
    requires j(EMPTY_TREE)
    ensures Stays(lex, cs, j, INITIAL)
  {
    InitialGood(lex);
    hide Good;
  }

  /** Whatever text, instructions and tags over some characters keep, every run over them keeps. */
  lemma RunKept(lex: Lexicon, a: set<char>, j: Tree -> bool, input: string)
    requires Respects(lex, Seen(a), j) && j(EMPTY_TREE) && Over(a, input)
    ensures j(EndOfInput(Settle(lex, Process(lex, INITIAL, input))))
  {
    hide Respects, Good, From, Process, Settle, EndOfInput, Seen;
    var cs := Seen(a);
    InitialStays(lex, cs, j);
    ProcessKept(lex, cs, j, INITIAL, input);
    var p := Process(lex, INITIAL, input);
    SettleKept(lex, cs, j, p);
    EndOfInputKept(lex, cs, j, Settle(lex, p));
  }
}
