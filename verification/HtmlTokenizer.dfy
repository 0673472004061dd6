/** The tokenizer: one transition per state and character, and the input replayed after a failed
    character reference. */
module HtmlTokenizer {
  import opened Bytes
  import opened HtmlTokens
  import opened HtmlTree

  // ----- Named character references and character classes the host library supplies -----

  datatype Entity = Entity(c1: nat, c2: nat)

  datatype Match = Match(len: nat, e: Entity)

  /** The reference names (those of `legacy` also match without a semicolon) and the Unicode classes. */
  datatype Lexicon = Lexicon(entities: map<string, Entity>, legacy: map<string, Entity>, alphabetic: set<char>,
      alphanumeric: set<char>)
  {
    function Full(name: string): Option<Match> {
      if name != [] && name[|name| - 1] == ';' then
        if name[..|name| - 1] in entities then Some(Match(|name|, entities[name[..|name| - 1]])) else None
      else if name in legacy then Some(Match(|name|, legacy[name])) else None
    }

    /** What may begin the target of a processing instruction, and what may follow; line ends are
        normalised before any state sees them. */
    predicate Begins(c: char) { (c in alphabetic || c == '_') && c != '\r' }

    predicate Follows(c: char) {
      (c in alphanumeric || c == '-' || c == '_' || c == '.' || c == ':') && c != '\r' && c != '?' && c != '>'
        && !IsBlank(c)
    }

    predicate CanExtend(pending: string) {
      pending != [] && ';' !in pending && exists k :: k in entities && pending <= k
    }
  }

  predicate IsScalar(n: nat) { n < 0xD800 || 0xE000 <= n < 0x11_0000 }

  // ----- States -----

  datatype RawKind = RcdataKind | RawtextKind | ScriptKind | EscapedKind | DoubleEscapedKind

  datatype State =
    | Data | Rcdata | Rawtext | ScriptData | Plaintext | ScriptEscaped | ScriptDoubleEscaped
    | TagOpen | EndTagOpen | TagName
    | RawLt(kind: RawKind) | RawEndTagOpen(kind: RawKind) | RawEndTagName(kind: RawKind)
    | EscapeStart(named: bool) | EscapeStartDash | EscapedDash(dbl: bool) | EscapedDashDash(dbl: bool) | DoubleEscapeEnd
    | BeforeAttributeName | AttributeName | AfterAttributeName | BeforeAttributeValue
    | AttrValueDq | AttrValueSq | AttrValueUq | AfterAttrValueQuoted | SelfClosingStartTag
    | BogusComment | MarkupDecl | MdDash | MdDoctype(i: nat) | MdCdata(i: nat)
    | CommentStart | CommentStartDash | Comment | CommentEnd | CommentEndDash | CommentEndBang
    | DoctypeScan | Cdata | CdataBracket | CdataEnd
    | PiStart | PiTarget | PiAfterTarget | PiData | PiQuestion
    | CharRef | CharRefNamed | CharRefNumStart | CharRefNum

  function RawState(k: RawKind): State {
    match k
    case RcdataKind => Rcdata
    case RawtextKind => Rawtext
    case ScriptKind => ScriptData
    case EscapedKind => ScriptEscaped
    case DoubleEscapedKind => ScriptDoubleEscaped
  }

  predicate IsRef(s: State) { s.CharRef? || s.CharRefNamed? || s.CharRefNumStart? || s.CharRefNum? }

  predicate InValue(s: State) { s.AttrValueDq? || s.AttrValueSq? || s.AttrValueUq? }

  /** How often a state may still hand the same character on. */
  function Rank(s: State): nat {
    if s.CharRefNumStart? || s.PiTarget? then 2
    else if s.TagOpen? || s.EndTagOpen? || s.BeforeAttributeValue? || s.SelfClosingStartTag? || s.MarkupDecl?
      || s.MdDash?
      || s.MdDoctype? || s.MdCdata? || s.PiStart? || s.PiAfterTarget? || s.PiQuestion? || s.CharRef? || s.CharRefNum?
      || InRaw(s) || s.EscapeStart? || s.EscapeStartDash? || s.DoubleEscapeEnd? then 1
    else 0
  }

  // ----- The parser -----

  datatype Tag = Tag(isEnd: bool, name: string, attrs: seq<Attr>, attrName: string, attrValue: string,
      selfClosing: bool)

  datatype Ref = Ref(ret: State, buf: string, found: Option<Match>, num: nat, tooBig: bool, seenDigit: bool,
      hex: Option<char>)

  datatype Parser = Parser(
    state: State, tree: Tree, pushback: string, started: bool, prevCr: bool, tag: Tag, temp: string,
    piTarget: string, piData: string, ref: Ref, dtQuote: Option<char>, dtBracket: bool)

  const NO_TAG := Tag(false, [], [], [], [], false)

  const INITIAL := Parser(Data, EMPTY_TREE, [], false, false, NO_TAG, [], [], [],
    Ref(Data, [], None, 0, false, false, None), None, false)

  /** What every transition keeps about the state itself: references return to text or to an
      attribute value, and keyword positions are inside the keyword. */
  predicate Shape(p: Parser) {
    && (p.ref.ret.Data? || p.ref.ret.Rcdata? || InValue(p.ref.ret))
    && (p.state.MdDoctype? ==> p.state.i < 7) && (p.state.MdCdata? ==> p.state.i < 7)
  }

  /** The outcome of one look at a character: `again` when another state must look at it too. */
  datatype Next = Next(p: Parser, again: bool)

  /** Two parsers that differ neither in the input they hold nor in their reference. */
  predicate SameInput(p: Parser, q: Parser) { q.pushback == p.pushback && q.ref == p.ref }

  /** Nor in what they have put aside. */
  predicate SameNotes(p: Parser, q: Parser) { q.temp == p.temp && q.piTarget == p.piTarget }

  function Goto(p: Parser, s: State): (r: Next)
    ensures SameInput(p, r.p) && SameNotes(p, r.p) && r.p.state == s && !r.again && r.p.tree == p.tree
      && r.p.tag == p.tag
  {
    Next(p.(state := s), false)
  }

  function Retry(p: Parser, s: State): (r: Next)
    ensures SameInput(p, r.p) && SameNotes(p, r.p) && r.p.state == s && r.again && r.p.tree == p.tree
      && r.p.tag == p.tag
  {
    Next(p.(state := s), true)
  }

  function Say(p: Parser, s: string): (q: Parser)
    ensures SameInput(p, q) && SameNotes(p, q) && q.state == p.state && q.tree == EmitString(p.tree, s)
      && q.tag == p.tag
  {
    p.(tree := EmitString(p.tree, s))
  }

  // ----- Tags and attributes -----

  function NewTag(p: Parser, isEnd: bool, c: char): (q: Parser)
    ensures SameInput(p, q) && SameNotes(p, q) && q.tree == p.tree && q.tag.attrs == []
  {
    p.(tag := Tag(isEnd, [c], [], [], [], false))
  }

  predicate HasAttr(attrs: seq<Attr>, name: string) { exists k :: 0 <= k < |attrs| && SameName(attrs[k].name, name) }

  /** Stores the pending attribute; the first of a name wins. */
  function FinishAttr(t: Tag): Tag {
    if t.attrName == [] && t.attrValue == [] then t
    else
      var name := Normalize(t.attrName);
      t.(attrs := if HasAttr(t.attrs, name) then t.attrs else t.attrs + [Attr(name, t.attrValue)], attrName := [],
        attrValue := [])
  }

  function CreateAttr(p: Parser, c: char): (r: Next)
    ensures SameInput(p, r.p) && SameNotes(p, r.p) && r.p.state == AttributeName && !r.again
    ensures r.p.tree == p.tree && r.p.tag.attrs == FinishAttr(p.tag).attrs
  {
    Goto(p.(tag := FinishAttr(p.tag).(attrName := [c])), AttributeName)
  }

  function StateFor(mode: TextMode): (s: State)
    ensures InText(s)
  {
    match mode
    case Normal => Data
    case Script => ScriptData
    case EscapableRaw => Rcdata
    case Raw => Rawtext
    case Plain => Plaintext
  }

  function EmitTag(p: Parser): (r: Next)
    ensures SameInput(p, r.p) && SameNotes(p, r.p) && InText(r.p.state) && !r.again && r.p.tag.attrs == []
    ensures var tag := FinishAttr(p.tag);
      r.p.tree == if tag.isEnd then EndTag(p.tree, tag.name)
        else StartTag(p.tree, tag.name, tag.attrs, tag.selfClosing).t
  {
    var tag := FinishAttr(p.tag);
    var q := p.(tag := tag.(name := [], attrs := [], selfClosing := false));
    if tag.isEnd then Goto(q.(tree := EndTag(p.tree, tag.name)), Data)
    else
      var s := StartTag(p.tree, tag.name, tag.attrs, tag.selfClosing);
      Goto(q.(tree := s.t), StateFor(s.mode))
  }

  function Discard(p: Parser): (q: Parser)
    ensures SameInput(p, q) && SameNotes(p, q) && q.state == p.state && q.tree == p.tree && q.tag.attrs == []
  {
    p.(tag := NO_TAG.(isEnd := p.tag.isEnd))
  }

  // ----- Transitions: text -----

  function BeginRef(p: Parser): Next { Goto(p.(ref := p.ref.(ret := p.state)), CharRef) }

  function TextStep(p: Parser, c: char): Next
    requires Shape(p)
  {
    if p.state.Data? then
      if c == '&' then BeginRef(p) else if c == '<' then Goto(p, TagOpen) else Goto(Say(p, [c]), Data)
    else if p.state.Rcdata? then
      if c == '&' then BeginRef(p) else if c == '<' then Goto(p, RawLt(RcdataKind)) else Goto(Say(p, [c]), Rcdata)
    else if p.state.Rawtext? then
      if c == '<' then Goto(p, RawLt(RawtextKind)) else Goto(Say(p, [c]), Rawtext)
    else if p.state.ScriptData? then
      if c == '<' then Goto(p, RawLt(ScriptKind)) else Goto(Say(p, [c]), ScriptData)
    else if p.state.Plaintext? then
      Goto(Say(p, [c]), Plaintext)
    else if p.state.ScriptEscaped? then
      if c == '-' then Goto(Say(p, "-"), EscapedDash(false))
      else if c == '<' then Goto(p, RawLt(EscapedKind))
      else Goto(Say(p, [c]), ScriptEscaped)
    else
      if c == '-' then Goto(Say(p, "-"), EscapedDash(true))
      else if c == '<' then Goto(Say(p, "<"), RawLt(DoubleEscapedKind))
      else Goto(Say(p, [c]), ScriptDoubleEscaped)
  }

  /** Nothing is pushed back and no named reference is begun. */
  predicate Plainly(p: Parser, q: Parser) { q.pushback == p.pushback && !q.state.CharRefNamed? }

  /** A retry goes to a lower state, and never to one that buffers a reference. */
  predicate Settles(p: Parser, r: Next) { r.again ==> Rank(r.p.state) < Rank(p.state) && !r.p.state.CharRef? }

  // ----- Transitions: tags -----

  function TagStep(p: Parser, c: char): Next
    requires Shape(p) && (p.state.TagOpen? || p.state.EndTagOpen? || p.state.TagName? || p.state.SelfClosingStartTag?)
  {
    if p.state.TagOpen? then
      if c == '!' then Goto(p, MarkupDecl)
      else if c == '/' then Goto(p, EndTagOpen)
      else if c == '?' then Goto(p.(piTarget := [], piData := []), PiStart)
      else if IsAlpha(c) then Goto(NewTag(p, false, c), TagName)
      else Retry(Say(p, "<"), Data)
    else if p.state.EndTagOpen? then
      if c == '>' then Goto(p, Data)
      else if IsAlpha(c) then Goto(NewTag(p, true, c), TagName)
      else Retry(p, BogusComment)
    else if p.state.TagName? then
      if IsBlank(c) then Goto(p, BeforeAttributeName)
      else if c == '/' then Goto(p, SelfClosingStartTag)
      else if c == '>' then EmitTag(p)
      else Goto(p.(tag := p.tag.(name := p.tag.name + [c])), TagName)
    else
      if c == '>' then EmitTag(p.(tag := p.tag.(selfClosing := true))) else Retry(p, BeforeAttributeName)
  }

  function PushName(p: Parser, c: char): (r: Next)
    ensures SameInput(p, r.p) && SameNotes(p, r.p) && r.p.state == AttributeName && !r.again && r.p.tree == p.tree
      && r.p.tag.attrs == p.tag.attrs
  {
    Goto(p.(tag := p.tag.(attrName := p.tag.attrName + [c])), AttributeName)
  }

  function PushValue(p: Parser, c: char): (r: Next)
    ensures SameInput(p, r.p) && SameNotes(p, r.p) && r.p.state == p.state && !r.again && r.p.tree == p.tree
      && r.p.tag.attrs == p.tag.attrs
  {
    Goto(p.(tag := p.tag.(attrValue := p.tag.attrValue + [c])), p.state)
  }

  predicate InAttribute(s: State) {
    s.BeforeAttributeName? || s.AttributeName? || s.AfterAttributeName? || s.BeforeAttributeValue?
    || InValue(s) || s.AfterAttrValueQuoted?
  }

  function AttrStep(p: Parser, c: char): Next
    requires Shape(p) && InAttribute(p.state)
  {
    if p.state.BeforeAttributeName? then
      if IsBlank(c) then Goto(p, p.state)
      else if c == '/' then Goto(p, SelfClosingStartTag)
      else if c == '>' then EmitTag(p)
      else CreateAttr(p, c)
    else if p.state.AttributeName? then
      if IsBlank(c) then Goto(p, AfterAttributeName)
      else if c == '/' then Goto(p, SelfClosingStartTag)
      else if c == '>' then EmitTag(p)
      else if c == '=' then Goto(p, BeforeAttributeValue)
      else PushName(p, c)
    else if p.state.AfterAttributeName? then
      if IsBlank(c) then Goto(p, p.state)
      else if c == '/' then Goto(p, SelfClosingStartTag)
      else if c == '=' then Goto(p, BeforeAttributeValue)
      else if c == '>' then EmitTag(p)
      else CreateAttr(p, c)
    else if p.state.BeforeAttributeValue? then
      if IsBlank(c) then Goto(p, p.state)
      else if c == '"' then Goto(p, AttrValueDq)
      else if c == '\'' then Goto(p, AttrValueSq)
      else if c == '>' then EmitTag(p)
      else Retry(p, AttrValueUq)
    else if p.state.AttrValueDq? then
      if c == '"' then Goto(p, AfterAttrValueQuoted) else if c == '&' then BeginRef(p) else PushValue(p, c)
    else if p.state.AttrValueSq? then
      if c == '\'' then Goto(p, AfterAttrValueQuoted) else if c == '&' then BeginRef(p) else PushValue(p, c)
    else if p.state.AttrValueUq? then
      if IsBlank(c) then Goto(p.(tag := FinishAttr(p.tag)), BeforeAttributeName)
      else if c == '>' then EmitTag(p)
      else if c == '&' then BeginRef(p)
      else PushValue(p, c)
    else
      if IsBlank(c) then Goto(p, BeforeAttributeName)
      else if c == '/' then Goto(p, SelfClosingStartTag)
      else if c == '>' then EmitTag(p)
      else CreateAttr(p, c)
  }

  // ----- Transitions: declarations, comments, CDATA, processing instructions -----

  const DOCTYPE := "DOCTYPE"
  const CDATA := "[CDATA["

  predicate InDeclaration(s: State) {
    s.BogusComment? || s.MarkupDecl? || s.MdDash? || s.MdDoctype? || s.MdCdata? || s.DoctypeScan?
  }

  function DeclStep(p: Parser, c: char): Next
    requires Shape(p) && InDeclaration(p.state)
  {
    if p.state.BogusComment? then
      Goto(p, if c == '>' then Data else BogusComment)
    else if p.state.MarkupDecl? then
      if c == '-' then Goto(p, MdDash)
      else if c == '[' then Goto(p, MdCdata(1))
      else if c == 'D' || c == 'd' then Goto(p, MdDoctype(1))
      else Retry(p, BogusComment)
    else if p.state.MdDash? then
      if c == '-' then Goto(p, CommentStart) else Retry(p, BogusComment)
    else if p.state.MdDoctype? then
      var i := p.state.i;
      if Lower(c) != Lower(DOCTYPE[i]) then Retry(p, BogusComment)
      else if i + 1 == |DOCTYPE| then Goto(p.(dtQuote := None, dtBracket := false), DoctypeScan)
      else Goto(p, MdDoctype(i + 1))
    else if p.state.MdCdata? then
      var i := p.state.i;
      if c != CDATA[i] then Retry(p, BogusComment)
      else if i + 1 == |CDATA| then Goto(Hold(p, []), if p.tree.foreignDepth > 0 then Cdata else BogusComment)
      else Goto(p, MdCdata(i + 1))
    else
      if p.dtQuote.Some? then Goto(if c == p.dtQuote.value then p.(dtQuote := None) else p, DoctypeScan)
      else if c == '"' || c == '\'' then Goto(p.(dtQuote := Some(c)), DoctypeScan)
      else if c == '>' && !p.dtBracket then Goto(p, Data)
      else if c == '[' then Goto(p.(dtBracket := true), DoctypeScan)
      else if c == ']' then Goto(p.(dtBracket := false), DoctypeScan)
      else Goto(p, DoctypeScan)
  }

  predicate InComment(s: State) {
    s.CommentStart? || s.CommentStartDash? || s.Comment? || s.CommentEnd? || s.CommentEndDash? || s.CommentEndBang?
  }

  function CommentNext(s: State, c: char): (r: State)
    requires InComment(s)
    ensures InComment(r) || r.Data?
  {
    if s.CommentStart? then
      if c == '-' then CommentStartDash else if c == '>' then Data else Comment
    else if s.CommentStartDash? then
      if c == '-' then CommentEnd else if c == '>' then Data else Comment
    else if s.Comment? then
      if c == '-' then CommentEndDash else Comment
    else if s.CommentEnd? then
      if c == '>' then Data else if c == '!' then CommentEndBang else if c == '-' then CommentEnd else Comment
    else if s.CommentEndDash? then
      if c == '-' then CommentEnd else Comment
    else
      if c == '>' then Data else if c == '-' then CommentEndDash else Comment
  }

  function Flush(p: Parser): (q: Parser)
    ensures SameInput(p, q) && q.temp == [] && q.piTarget == p.piTarget && q.state == p.state
      && q.tree == EmitString(p.tree, p.temp) && q.tag == p.tag
  {
    Say(p, p.temp).(temp := [])
  }

  /** Sets the temporary buffer. */
  function Hold(p: Parser, s: string): (q: Parser)
    ensures SameInput(p, q) && q.temp == s && q.piTarget == p.piTarget && q.state == p.state && q.tree == p.tree
      && q.tag == p.tag
  {
    p.(temp := s)
  }

  function CdataStep(p: Parser, c: char): Next
    requires Shape(p)
  {
    var kept := Hold(p, p.temp + [c]);
    if p.state.Cdata? then
      Goto(kept, if c == ']' then CdataBracket else Cdata)
    else if p.state.CdataBracket? then
      Goto(kept, if c == ']' then CdataEnd else Cdata)
    else
      if c == ']' then Goto(kept, CdataEnd)
      else if c == '>' then Goto(Flush(if |p.temp| >= 2 then Hold(p, p.temp[..|p.temp| - 2]) else p), Data)
      else Goto(kept, Cdata)
  }

  function FinishPi(p: Parser): (r: Next)
    ensures SameInput(p, r.p) && r.p.temp == p.temp && r.p.piTarget == [] && r.p.state == Data && !r.again
    ensures r.p.tree == EmitPi(p.tree, p.piTarget, p.piData) && r.p.tag == p.tag
  {
    Goto(p.(tree := EmitPi(p.tree, p.piTarget, p.piData), piTarget := [], piData := []), Data)
  }

  predicate InPi(s: State) { s.PiStart? || s.PiTarget? || s.PiAfterTarget? || s.PiData? || s.PiQuestion? }

  function PiStep(lex: Lexicon, p: Parser, c: char): Next
    requires Shape(p) && InPi(p.state)
  {
    if p.state.PiStart? then
      if c in lex.alphabetic
        || c == '_' then Goto(p.(piTarget := p.piTarget + [c]), PiTarget) else Retry(p, BogusComment)
    else if p.state.PiTarget? then
      if IsBlank(c) || c == '?'
        || c == '>' then Retry(p, if SameName(p.piTarget, "xml") then BogusComment else PiAfterTarget)
      else if c in lex.alphanumeric || c == '-' || c == '_' || c == '.'
        || c == ':' then Goto(p.(piTarget := p.piTarget + [c]), PiTarget)
      else Retry(p, BogusComment)
    else if p.state.PiAfterTarget? then
      if IsBlank(c) then Goto(p, PiAfterTarget) else Retry(p, PiData)
    else if p.state.PiData? then
      if c == '?' then Goto(p, PiQuestion) else if c == '>' then FinishPi(p) else Goto(p.(piData := p.piData + [c]),
        PiData)
    else
      if c == '>' then FinishPi(p) else Retry(p.(piData := p.piData + ['?']), PiData)
  }

  // ----- Transitions: character references -----

  /** Characters of a reference go where the reference was found. */
  function RefSay(p: Parser, s: string): (q: Parser)
    ensures SameInput(p, q) && SameNotes(p, q) && q.state == p.state && q.tag.attrs == p.tag.attrs
    ensures q.tree == p.tree || q.tree == EmitString(p.tree, s)
  {
    if InValue(p.ref.ret) then p.(tag := p.tag.(attrValue := p.tag.attrValue + s)) else Say(p, s)
  }

  function CodePoint(n: nat): string { if IsScalar(n) then [n as char] else [] }

  /** In an attribute, a match without semicolon before `=` or a letter or digit is left alone. */
  predicate LeftAlone(p: Parser, m: Match) {
    && InValue(p.ref.ret) && m.len <= |p.ref.buf| && !(0 < m.len && p.ref.buf[m.len - 1] == ';')
    && m.len < |p.ref.buf| && (p.ref.buf[m.len] == '=' || IsAlnum(p.ref.buf[m.len]))
  }

  /** Ends a named reference with the longest match; the rest of the buffer becomes input again. */
  function ResolveNamed(p: Parser): Parser
  {
    var buf := p.ref.buf;
    var found := p.ref.found;
    var q := p.(ref := p.ref.(buf := [], found := None), state := p.ref.ret);
    if found.Some? && found.value.len <= |buf| && !LeftAlone(p, found.value) then
      var e := found.value.e;
      var text := CodePoint(e.c1) + if e.c2 != 0 then CodePoint(e.c2) else [];
      RefSay(q, text).(pushback := buf[found.value.len..] + p.pushback)
    else RefSay(q, "&").(pushback := buf + p.pushback)
  }

  /** What the numbers 0x80 to 0x9F stand for. */
  const C1: seq<char> := [
    '\U{20AC}', '\U{0081}', '\U{201A}', '\U{0192}', '\U{201E}', '\U{2026}', '\U{2020}', '\U{2021}',
    '\U{02C6}', '\U{2030}', '\U{0160}', '\U{2039}', '\U{0152}', '\U{008D}', '\U{017D}', '\U{008F}',
    '\U{0090}', '\U{2018}', '\U{2019}', '\U{201C}', '\U{201D}', '\U{2022}', '\U{2013}', '\U{2014}',
    '\U{02DC}', '\U{2122}', '\U{0161}', '\U{203A}', '\U{0153}', '\U{009D}', '\U{017E}', '\U{0178}']

  function NumericChar(r: Ref): char {
    if r.tooBig || r.num > 0x10_FFFF || r.num == 0 || 0xD800 <= r.num <= 0xDFFF then REPLACEMENT
    else if 0x80 <= r.num <= 0x9F then C1[r.num - 0x80]
    else r.num as char
  }

  function HexValue(c: char): Option<nat> {
    if '0' <= c <= '9' then Some(c as int - '0' as int)
    else if 'a' <= c <= 'f' then Some(c as int - 'a' as int + 10)
    else if 'A' <= c <= 'F' then Some(c as int - 'A' as int + 10)
    else None
  }

  function DigitValue(r: Ref, c: char): Option<nat> {
    if r.hex.Some? then HexValue(c) else if IsDigit(c) then Some(c as int - '0' as int) else None
  }

  function Base(r: Ref): nat { if r.hex.Some? then 16 else 10 }

  /** The number wraps at 32 bits; exceeding the last code point is remembered. */
  function AddDigit(r: Ref, d: nat): (r': Ref)
    ensures r'.ret == r.ret
  {
    var n := r.num * Base(r) % 0x1_0000_0000;
    r.(num := (n + d) % 0x1_0000_0000, tooBig := r.tooBig || n > 0x10_FFFF, seenDigit := true)
  }

  /** What a numeric reference without digits stands for: itself. */
  function NoDigits(r: Ref): string { if r.hex.Some? then "&#" + [r.hex.value] else "&#" }

  /** Input a parser still holds: what was pushed back and what a named reference has buffered. */
  function Kept(p: Parser): nat { |p.pushback| + if p.state.CharRefNamed? then |p.ref.buf| else 0 }

  /** A character that is not used up is buffered by the reference or ends it. */
  predicate Buffers(p: Parser, q: Parser) {
    && (p.state.CharRef? || p.state.CharRefNamed?) && Kept(q) <= Kept(p) + 1
    && ((q.state.CharRefNamed? && q.pushback == p.pushback) || !IsRef(q.state))
  }

  /** One more character of a named reference. */
  function NamedBuffer(lex: Lexicon, p: Parser, c: char): (q: Parser)
    requires p.state.CharRef? || p.state.CharRefNamed?
    ensures q.state == p.state && q.pushback == p.pushback && q.tree == p.tree && q.tag == p.tag
      && q.ref.ret == p.ref.ret
    ensures q.ref.buf == (if p.state.CharRef? then [] else p.ref.buf) + [c]
  {
    var buf := (if p.state.CharRef? then [] else p.ref.buf) + [c];
    var before := if p.state.CharRef? then None else p.ref.found;
    p.(ref := p.ref.(buf := buf, found := if lex.Full(buf).Some? then lex.Full(buf) else before))
  }

  function NamedStep(lex: Lexicon, p: Parser, c: char): Parser
    requires p.state.CharRef? || p.state.CharRefNamed?
  {
    var q := NamedBuffer(lex, p, c);
    if lex.CanExtend(q.ref.buf) then q.(state := CharRefNamed) else ResolveNamed(q)
  }

  function NumericStep(p: Parser, c: char): Next
    requires Shape(p) && (p.state.CharRefNumStart? || p.state.CharRefNum?)
  {
    var d := DigitValue(p.ref, c);
    if p.state.CharRefNumStart? then
      if c == 'x' || c == 'X' then Goto(p.(ref := p.ref.(hex := Some(c))), CharRefNum) else Retry(p, CharRefNum)
    else if d.Some? then Goto(p.(ref := AddDigit(p.ref, d.value)), CharRefNum)
    else if !p.ref.seenDigit then Retry(RefSay(p, NoDigits(p.ref)), p.ref.ret)
    else if c == ';' then Goto(RefSay(p, [NumericChar(p.ref)]), p.ref.ret)
    else Retry(RefSay(p, [NumericChar(p.ref)]), p.ref.ret)
  }

  function RefStep(lex: Lexicon, p: Parser, c: char): Next
    requires Shape(p) && IsRef(p.state)
  {
    if p.state.CharRefNumStart? || p.state.CharRefNum? then NumericStep(p, c)
    else if p.state.CharRefNamed? || IsAlnum(c) then Next(NamedStep(lex, p, c), false)
    else if c == '#' then Goto(p.(ref := p.ref.(num := 0, tooBig := false, seenDigit := false, hex := None)),
      CharRefNumStart)
    else Retry(RefSay(p, "&"), p.ref.ret)
  }

  // ----- Transitions: raw text and script -----

  predicate InRaw(s: State) { s.RawLt? || s.RawEndTagOpen? || s.RawEndTagName? }

  predicate Appropriate(p: Parser) { p.tree.stack != [] && SameName(p.tree.stack[|p.tree.stack| - 1].name, p.temp) }

  function RawLtStep(p: Parser, c: char): Next
    requires Shape(p) && p.state.RawLt?
  {
    var k := p.state.kind;
    if c == '/' then
      if k.DoubleEscapedKind? then Goto(Hold(Say(p, "/"), []), DoubleEscapeEnd) else Goto(Hold(p, []), RawEndTagOpen(k))
    else if c == '!' && k.ScriptKind? then Goto(Say(p, "<!"), EscapeStart(false))
    else if k.EscapedKind? && IsAlpha(c) then Goto(Hold(Say(p, ['<', c]), [c]), EscapeStart(true))
    else if k.DoubleEscapedKind? then Retry(p, RawState(k))
    else Retry(Say(p, "<"), RawState(k))
  }

  function RawEndOpenStep(p: Parser, k: RawKind, c: char): Next {
    if IsAlpha(c) then Goto(Hold(NewTag(p, true, c), p.temp + [c]), RawEndTagName(k))
    else Retry(Say(p, "</"), RawState(k))
  }

  function RawEndNameStep(p: Parser, k: RawKind, c: char): Next {
    if Appropriate(p) && IsBlank(c) then Goto(Hold(p, []), BeforeAttributeName)
    else if Appropriate(p) && c == '/' then Goto(Hold(p, []), SelfClosingStartTag)
    else if Appropriate(p) && c == '>' then EmitTag(Hold(p, []))
    else if IsAlpha(c) then Goto(p.(tag := p.tag.(name := p.tag.name + [c]), temp := p.temp + [c]), RawEndTagName(k))
    else Retry(Flush(Say(Discard(p), "</")), RawState(k))
  }

  function RawStep(p: Parser, c: char): Next
    requires Shape(p) && InRaw(p.state)
  {
    if p.state.RawLt? then RawLtStep(p, c)
    else if p.state.RawEndTagOpen? then RawEndOpenStep(p, p.state.kind, c)
    else RawEndNameStep(p, p.state.kind, c)
  }

  predicate InEscape(s: State) {
    s.EscapeStart? || s.EscapeStartDash? || s.EscapedDash? || s.EscapedDashDash? || s.DoubleEscapeEnd?
  }

  function EscapeStep(p: Parser, c: char): Next
    requires Shape(p) && InEscape(p.state)
  {
    var script := SameName(p.temp, "script");
    var ends := IsBlank(c) || c == '/' || c == '>';
    if p.state.EscapeStart? && p.state.named then
      if ends then Goto(Say(p, [c]), if script then ScriptDoubleEscaped else ScriptEscaped)
      else if IsAlpha(c) then Goto(Hold(Say(p, [c]), p.temp + [c]), p.state)
      else Retry(p, ScriptEscaped)
    else if p.state.EscapeStart? && !p.state.named then
      if c == '-' then Goto(Say(p, "-"), EscapeStartDash) else Retry(p, ScriptData)
    else if p.state.EscapeStartDash? then
      if c == '-' then Goto(Say(p, "-"), EscapedDashDash(false)) else Retry(p, ScriptData)
    else if p.state.EscapedDash? then
      var dbl := p.state.dbl;
      if c == '-' then Goto(Say(p, "-"), EscapedDashDash(dbl))
      else if c == '<' then Goto(if dbl then Say(p, "<") else p, RawLt(if dbl then DoubleEscapedKind else EscapedKind))
      else Goto(Say(p, [c]), if dbl then ScriptDoubleEscaped else ScriptEscaped)
    else if p.state.EscapedDashDash? then
      var dbl := p.state.dbl;
      if c == '-' then Goto(Say(p, "-"), p.state)
      else if c == '<' then Goto(if dbl then Say(p, "<") else p, RawLt(if dbl then DoubleEscapedKind else EscapedKind))
      else if c == '>' then Goto(Say(p, ">"), ScriptData)
      else Goto(Say(p, [c]), if dbl then ScriptDoubleEscaped else ScriptEscaped)
    else
      if ends then Goto(Say(p, [c]), if script then ScriptEscaped else ScriptDoubleEscaped)
      else if IsAlpha(c) then Goto(Hold(Say(p, [c]), p.temp + [c]), p.state)
      else Retry(p, ScriptDoubleEscaped)
  }

  predicate InCdata(s: State) { s.Cdata? || s.CdataBracket? || s.CdataEnd? }

  // ----- One character -----

  predicate InText(s: State) {
    s.Data? || s.Rcdata? || s.Rawtext? || s.ScriptData? || s.Plaintext? || s.ScriptEscaped? || s.ScriptDoubleEscaped?
  }

  function Look(lex: Lexicon, p: Parser, c: char): Next
    requires Shape(p)
  {
    if InText(p.state) then TextStep(p, c)
    else if InAttribute(p.state) then AttrStep(p, c)
    else if InDeclaration(p.state) then DeclStep(p, c)
    else if InComment(p.state) then Goto(p, CommentNext(p.state, c))
    else if InCdata(p.state) then CdataStep(p, c)
    else if InPi(p.state) then PiStep(lex, p, c)
    else if IsRef(p.state) then RefStep(lex, p, c)
    else if InRaw(p.state) then RawStep(p, c)
    else if InEscape(p.state) then EscapeStep(p, c)
    else TagStep(p, c)
  }

  // The dispatch, one lemma for each kind of state.

  lemma LookText(lex: Lexicon, p: Parser, c: char)
    requires Shape(p) && InText(p.state)
    ensures Look(lex, p, c) == TextStep(p, c)
  {
    hide TagStep, AttrStep, TextStep, DeclStep, CdataStep, PiStep, RefStep, RawStep, EscapeStep;
  }

  lemma LookTag(lex: Lexicon, p: Parser, c: char)
    requires Shape(p) && (p.state.TagOpen? || p.state.EndTagOpen? || p.state.TagName? || p.state.SelfClosingStartTag?)
    ensures Look(lex, p, c) == TagStep(p, c)
  {
    hide TagStep, AttrStep, TextStep, DeclStep, CdataStep, PiStep, RefStep, RawStep, EscapeStep;
  }

  lemma LookAttr(lex: Lexicon, p: Parser, c: char)
    requires Shape(p) && InAttribute(p.state)
    ensures Look(lex, p, c) == AttrStep(p, c)
  {
    hide TagStep, AttrStep, TextStep, DeclStep, CdataStep, PiStep, RefStep, RawStep, EscapeStep;
  }

  lemma LookPi(lex: Lexicon, p: Parser, c: char)
    requires Shape(p) && InPi(p.state)
    ensures Look(lex, p, c) == PiStep(lex, p, c)
  {
    hide TagStep, AttrStep, TextStep, DeclStep, CdataStep, PiStep, RefStep, RawStep, EscapeStep;
  }

  lemma LookRaw(lex: Lexicon, p: Parser, c: char)
    requires Shape(p) && InRaw(p.state)
    ensures Look(lex, p, c) == RawStep(p, c)
  {
    hide TagStep, AttrStep, TextStep, DeclStep, CdataStep, PiStep, RefStep, RawStep, EscapeStep;
  }

  lemma LookRef(lex: Lexicon, p: Parser, c: char)
    requires Shape(p) && IsRef(p.state)
    ensures Look(lex, p, c) == RefStep(lex, p, c)
  {
    hide TagStep, AttrStep, TextStep, DeclStep, CdataStep, PiStep, RefStep, RawStep, EscapeStep;
  }

  // ----- Shape, retries and pushed back input -----

  lemma TextStepSettles(p: Parser, c: char)
    requires Shape(p)
    ensures var r := TextStep(p, c);
      Shape(r.p) && !r.again && Plainly(p, r.p)
  {
    hide Goto, Say, EmitString;
  }

  lemma TagStepSettles(p: Parser, c: char)
    requires Shape(p) && (p.state.TagOpen? || p.state.EndTagOpen? || p.state.TagName? || p.state.SelfClosingStartTag?)
    ensures var r := TagStep(p, c);
      Shape(r.p) && Plainly(p, r.p) && Settles(p, r)
  {
    hide Goto, Retry, Say, NewTag, EmitTag, FinishAttr, StartTag, EndTag, EmitString;
  }

  lemma AttrStepSettles(p: Parser, c: char)
    requires Shape(p) && InAttribute(p.state)
    ensures var r := AttrStep(p, c);
      Shape(r.p) && Plainly(p, r.p) && Settles(p, r)
  {
    hide Goto, Retry, CreateAttr, EmitTag, PushName, PushValue, FinishAttr, StartTag, EndTag;
  }

  lemma DeclStepSettles(p: Parser, c: char)
    requires Shape(p) && InDeclaration(p.state)
    ensures var r := DeclStep(p, c);
      Shape(r.p) && Plainly(p, r.p) && Settles(p, r)
  {
    hide Goto, Retry, Hold, Lower;
  }

  lemma CdataStepSettles(p: Parser, c: char)
    requires Shape(p)
    ensures var r := CdataStep(p, c);
      Shape(r.p) && !r.again && Plainly(p, r.p)
  {
    hide Goto, Flush, Hold, EmitString;
  }

  lemma PiStepSettles(lex: Lexicon, p: Parser, c: char)
    requires Shape(p) && InPi(p.state)
    ensures var r := PiStep(lex, p, c);
      Shape(r.p) && Plainly(p, r.p) && Settles(p, r)
  {
    hide Goto, Retry, FinishPi, EmitPi, SameName;
  }

  lemma ResolveNamedReplays(p: Parser)
    requires Shape(p)
    ensures var q := ResolveNamed(p); Shape(q) && q.state == p.ref.ret
    ensures |p.pushback| <= |ResolveNamed(p).pushback| <= |p.pushback| + |p.ref.buf|
  {
    hide EmitString, CodePoint, LeftAlone;
  }

  lemma NamedStepBuffers(lex: Lexicon, p: Parser, c: char)
    requires Shape(p) && (p.state.CharRef? || p.state.CharRefNamed?)
    ensures Shape(NamedStep(lex, p, c)) && Buffers(p, NamedStep(lex, p, c))
  {
    hide ResolveNamed, NamedBuffer;
    ResolveNamedReplays(NamedBuffer(lex, p, c));
  }

  lemma NumericStepSettles(p: Parser, c: char)
    requires Shape(p) && (p.state.CharRefNumStart? || p.state.CharRefNum?)
    ensures var r := NumericStep(p, c); Shape(r.p) && Settles(p, r) && Plainly(p, r.p)
  {
    hide Goto, Retry, RefSay, EmitString, NumericChar, AddDigit, DigitValue, NoDigits, InValue, Rank;
    ReturnRanks(p);
  }

  lemma ReturnRanks(p: Parser)
    requires Shape(p)
    ensures Rank(p.ref.ret) == 0 && !IsRef(p.ref.ret) && !p.ref.ret.MdDoctype? && !p.ref.ret.MdCdata?
    ensures Rank(CharRefNum) == 1 && Rank(CharRefNumStart) == 2
  {
  }

  lemma RefStepSettles(lex: Lexicon, p: Parser, c: char)
    requires Shape(p) && IsRef(p.state)
    ensures var r := RefStep(lex, p, c);
      Shape(r.p) && Settles(p, r) && (Plainly(p, r.p) || (!r.again && Buffers(p, r.p)))
  {
    hide Goto, Retry, RefSay, EmitString, NumericStep, NamedStep;
    if p.state.CharRefNumStart? || p.state.CharRefNum? {
      NumericStepSettles(p, c);
    } else {
      NamedStepBuffers(lex, p, c);
    }
  }

  lemma RawLtStepSettles(p: Parser, c: char)
    requires Shape(p) && p.state.RawLt?
    ensures var r := RawLtStep(p, c); Shape(r.p) && Plainly(p, r.p) && Settles(p, r)
  {
    hide Goto, Retry, Say, Hold, EmitString;
  }

  lemma RawRanks(k: RawKind)
    ensures InText(RawState(k)) && Rank(RawState(k)) < Rank(RawEndTagName(k))
  {
  }

  lemma RawEndNameStepSettles(p: Parser, k: RawKind, c: char)
    requires Shape(p) && p.state == RawEndTagName(k)
    ensures var r := RawEndNameStep(p, k, c); Shape(r.p) && Plainly(p, r.p) && Settles(p, r)
  {
    RawRanks(k);
    hide Goto, Retry, Say, EmitTag, Discard, Flush, Hold, FinishAttr, StartTag, EndTag, EmitString, Appropriate,
      RawState, Rank, IsBlank, IsAlpha;
    if Appropriate(p) && (IsBlank(c) || c == '/') {
    } else if Appropriate(p) && c == '>' {
    } else if IsAlpha(c) {
    }
  }

  lemma RawStepSettles(p: Parser, c: char)
    requires Shape(p) && InRaw(p.state)
    ensures var r := RawStep(p, c); Shape(r.p) && Plainly(p, r.p) && Settles(p, r)
  {
    hide Goto, Retry, Say, NewTag, Hold, EmitString, RawLtStep, RawEndNameStep;
    if p.state.RawLt? {
      RawLtStepSettles(p, c);
    } else if p.state.RawEndTagName? {
      RawEndNameStepSettles(p, p.state.kind, c);
    }
  }

  lemma EscapeStepSettles(p: Parser, c: char)
    requires Shape(p) && InEscape(p.state)
    ensures var r := EscapeStep(p, c);
      Shape(r.p) && Plainly(p, r.p) && Settles(p, r)
  {
    hide Goto, Retry, Say, Hold, EmitString, SameName;
  }

  /** A retry always goes to a lower state; input is pushed back only by a named reference. */
  lemma LookSettles(lex: Lexicon, p: Parser, c: char)
    requires Shape(p)
    ensures var r := Look(lex, p, c);
      Shape(r.p) && Settles(p, r) && (Plainly(p, r.p) || (!r.again && Buffers(p, r.p)))
  {
    hide TextStep, AttrStep, DeclStep, CdataStep, PiStep, RefStep, RawStep, EscapeStep, TagStep;
    if InText(p.state) {
      TextStepSettles(p, c);
    } else if InAttribute(p.state) {
      AttrStepSettles(p, c);
    } else if InDeclaration(p.state) {
      DeclStepSettles(p, c);
    } else if InComment(p.state) {
    } else if InCdata(p.state) {
      CdataStepSettles(p, c);
    } else if InPi(p.state) {
      PiStepSettles(lex, p, c);
    } else if IsRef(p.state) {
      RefStepSettles(lex, p, c);
    } else if InRaw(p.state) {
      RawStepSettles(p, c);
    } else if InEscape(p.state) {
      EscapeStepSettles(p, c);
    } else {
      TagStepSettles(p, c);
    }
  }

  /** The states look at a character until one uses it; no chain of states comes back. */
  function StepState(lex: Lexicon, p: Parser, c: char): Parser
    requires Shape(p)
    decreases Rank(p.state)
  {
    LookSettles(lex, p, c);
    var r := Look(lex, p, c);
    if r.again then StepState(lex, r.p, c) else r.p
  }

  lemma {:induction false} StepStateKeeps(lex: Lexicon, p: Parser, c: char)
    requires Shape(p)
    ensures var q := StepState(lex, p, c); Shape(q) && (Plainly(p, q) || Buffers(p, q))
    decreases Rank(p.state)
  {
    hide Look, Buffers, Rank;
    LookSettles(lex, p, c);
    var r := Look(lex, p, c);
    if r.again {
      StepStateKeeps(lex, r.p, c);
      OnlyReferencesBuffer(r.p, StepState(lex, r.p, c));
    }
  }

  lemma OnlyReferencesBuffer(p: Parser, q: Parser)
    ensures Buffers(p, q) ==> p.state.CharRef? || p.state.CharRefNamed?
  {
  }

  /** Drops a byte order mark, turns carriage returns into newlines, and steps. */
  function Step(lex: Lexicon, p: Parser, c: char): Parser
    requires Shape(p)
  {
    var q := p.(started := true);
    if !p.started && c == '\U{FEFF}' then q
    else if c == '\r' then StepState(lex, q.(prevCr := true), '\n')
    else if p.prevCr && c == '\n' then q.(prevCr := false)
    else StepState(lex, q.(prevCr := false), c)
  }

  /** After a character is handed in, less input is kept than before, or a reference holds it. */
  lemma StepKeeps(lex: Lexicon, p: Parser, c: char)
    requires Shape(p)
    ensures var q := Step(lex, p, c); Shape(q) && (Kept(q) <= Kept(p) || Buffers(p, q))
  {
    hide StepState;
    StepStateKeeps(lex, p.(started := true, prevCr := true), '\n');
    StepStateKeeps(lex, p.(started := true, prevCr := false), c);
  }
}
