/** Names, the tokens of the repaired output, and what it means for them to nest. */
module HtmlTokens {
  import opened Bytes

  // ----- Characters and names -----

  /** Unicode white space. */
  predicate IsSpace(c: char) {
    var n := c as int;
    9 <= n <= 13 || n == 0x20 || n == 0x85 || n == 0xA0 || n == 0x1680 || 0x2000 <= n <= 0x200A
    || n == 0x2028 || n == 0x2029 || n == 0x202F || n == 0x205F || n == 0x3000
  }

  const REPLACEMENT: char := '\U{FFFD}'

  /** A character XML text may hold. */
  predicate IsXml(c: char) {
    var n := c as int;
    n == 9 || n == 10 || n == 13 || (0x20 <= n && n != 0xFFFE && n != 0xFFFF)
  }

  function XmlSafe(c: char): (r: char)
    ensures IsXml(r) && (IsXml(c) ==> r == c)
  {
    if IsXml(c) then c else REPLACEMENT
  }

  predicate NameStart(c: char) {
    var n := c as int;
    c == ':' || 'A' <= c <= 'Z' || c == '_' || 'a' <= c <= 'z'
    || 0xC0 <= n <= 0xD6 || 0xD8 <= n <= 0xF6 || 0xF8 <= n <= 0x2FF
    || 0x370 <= n <= 0x37D || 0x37F <= n <= 0x1FFF
    || 0x200C <= n <= 0x200D || 0x2070 <= n <= 0x218F
    || 0x2C00 <= n <= 0x2FEF || 0x3001 <= n <= 0xD7FF
    || 0xF900 <= n <= 0xFDCF || 0xFDF0 <= n <= 0xFFFD || 0x10000 <= n <= 0xEFFFF
  }

  predicate NameChar(c: char) {
    var n := c as int;
    NameStart(c) || c == '-' || c == '.' || '0' <= c <= '9' || n == 0xB7 || 0x300 <= n <= 0x36F || 0x203F <= n <= 0x2040
  }

  /** The Name production of XML 1.0. */
  predicate IsName(s: string) { s != [] && NameStart(s[0]) && forall k :: 0 <= k < |s| ==> NameChar(s[k]) }

  function FixFirst(c: char): string { if NameStart(c) then [c] else if NameChar(c) then ['_', c] else "_" }

  function FixRest(s: string): (r: string)
    ensures |r| == |s| && forall k :: 0 <= k < |s| ==> NameChar(r[k]) && r[k] == if NameChar(s[k]) then s[k] else '_'
  {
    if s == [] then [] else FixRest(s[..|s| - 1]) + [if NameChar(s[|s| - 1]) then s[|s| - 1] else '_']
  }

  /** Turns any tag or attribute name into an XML name. */
  function Normalize(s: string): string { if s == [] then "_" else FixFirst(s[0]) + FixRest(s[1..]) }

  /** Every result is an XML name, and an XML name is left alone. */
  lemma NormalizeIsName(s: string)
    ensures IsName(Normalize(s))
    ensures IsName(s) ==> Normalize(s) == s
  {
    hide NameChar, NameStart;
    UnderscoreIsName();
    if s != [] {
      StartIsName(s[0]);
    }
  }

  lemma UnderscoreIsName()
    ensures NameStart('_') && NameChar('_')
  {
  }

  lemma StartIsName(c: char)
    ensures NameStart(c) ==> NameChar(c)
  {
  }

  method NeedsRepair(s: string) returns (invalid: bool)
    requires s != []
    ensures invalid <==> !(NameStart(s[0]) && forall k :: 1 <= k < |s| ==> NameChar(s[k]))
  {
    hide NameChar, NameStart;
    invalid := !NameStart(s[0]);
    var i := 1;
    while i < |s|
      invariant 1 <= i <= |s|
      invariant invalid <==> !(NameStart(s[0]) && forall k :: 1 <= k < i ==> NameChar(s[k]))
    {
      if !NameChar(s[i]) {
        invalid := true;
      }
      i := i + 1;
    }
  }

  method RepairName(s: string) returns (r: string)
    requires s != []
    ensures r == FixFirst(s[0]) + FixRest(s[1..])
  {
    hide NameChar, NameStart, FixFirst;
    r := FixFirst(s[0]);
    var i := 1;
    while i < |s|
      invariant 1 <= i <= |s| && r == FixFirst(s[0]) + FixRest(s[1..i])
    {
      assert s[1..i + 1][..i - 1] == s[1..i];
      r := r + [if NameChar(s[i]) then s[i] else '_'];
      i := i + 1;
    }
    assert s[1..i] == s[1..];
  }

  method NormalizeName(s: string) returns (r: string)
    ensures r == Normalize(s)
  {
    hide NameChar, NameStart;
    if s == [] {
      return "_";
    }
    var invalid := NeedsRepair(s);
    if !invalid {
      assert FixRest(s[1..]) == s[1..];
      return s;
    }
    r := RepairName(s);
  }

  function Lower(c: char): char { if 'A' <= c <= 'Z' then (c as int + 32) as char else c }

  /** Equal up to ASCII case. */
  predicate SameName(a: string, b: string) {
    |a| == |b| && forall k :: 0 <= k < |a| ==> Lower(a[k]) == Lower(b[k])
  }

  predicate IsAlpha(c: char) { 'A' <= c <= 'Z' || 'a' <= c <= 'z' }

  predicate IsDigit(c: char) { '0' <= c <= '9' }

  predicate IsAlnum(c: char) { IsAlpha(c) || IsDigit(c) }

  /** The white space of HTML tags. */
  predicate IsBlank(c: char) { c == '\t' || c == '\n' || c == '\U{000C}' || c == ' ' }

  function LowerAll(s: string): (r: string)
    ensures |r| == |s|
  {
    seq(|s|, i requires 0 <= i < |s| => Lower(s[i]))
  }

  predicate IsAscii(s: string) { forall k :: 0 <= k < |s| ==> s[k] as int < 128 }

  /** The lower-case form of a short ASCII name. */
  function LowerShort(s: string, n: nat): Option<string> { if |s| > n || !IsAscii(s) then None else Some(LowerAll(s)) }

  predicate OneOf(s: string, n: nat, names: set<string>) { LowerShort(s, n).Some? && LowerShort(s, n).value in names }

  predicate AnyOf(s: string, names: seq<string>) { exists k :: 0 <= k < |names| && SameName(s, names[k]) }

  // ----- Tokens -----

  datatype Attr = Attr(name: string, value: string)

  datatype Token =
    | Open(name: string, attrs: seq<Attr>)
    | Empty(name: string, attrs: seq<Attr>)
    | Close(name: string)
    | Chr(c: char)
    | Pi(target: string, data: string)

  /** No attribute name occurs twice, ignoring ASCII case. */
  predicate Distinct(attrs: seq<Attr>) {
    forall i, j :: 0 <= i < j < |attrs| ==> !SameName(attrs[i].name, attrs[j].name)
  }

  predicate NamedWell(attrs: seq<Attr>) { forall i :: 0 <= i < |attrs| ==> IsName(attrs[i].name) }

  /** A processing instruction that is no XML declaration and is not ended by its own data. */
  predicate SoundPi(target: string, data: string) {
    target != [] && !SameName(target, "xml") && '>' !in data && forall k :: 0 <= k < |data| ==> IsXml(data[k])
  }

  /** A token the repaired output may hold; whether it is XML also depends on its place and, for
      a processing instruction, on its target. */
  predicate WellFormed(t: Token) {
    match t
    case Open(n, attrs) => IsName(n) && Distinct(attrs) && NamedWell(attrs)
    case Empty(n, attrs) => IsName(n) && Distinct(attrs) && NamedWell(attrs)
    case Close(n) => IsName(n)
    case Chr(c) => IsXml(c)
    case Pi(target, data) => SoundPi(target, data)
  }

  predicate AllWellFormed(ts: seq<Token>) { forall k :: 0 <= k < |ts| ==> WellFormed(ts[k]) }

  /** The names of the elements left open, innermost last; None when a close tag does not match. */
  function Nest(ts: seq<Token>): Option<seq<string>> {
    if ts == [] then Some([]) else NestOne(Nest(ts[..|ts| - 1]), ts[|ts| - 1])
  }

  function NestOne(open: Option<seq<string>>, t: Token): Option<seq<string>> {
    if open.None? then None
    else
      var s := open.value;
      match t
      case Open(n, _) => Some(s + [n])
      case Close(n) => if s != [] && s[|s| - 1] == n then Some(s[..|s| - 1]) else None
      case _ => open
  }

  /** How many elements start at the top level. */
  function Roots(ts: seq<Token>): nat {
    if ts == [] then 0 else Roots(ts[..|ts| - 1]) + (if Nest(ts[..|ts| - 1]) == Some([])
      && IsElement(ts[|ts| - 1]) then 1 else 0)
  }

  predicate IsElement(t: Token) { t.Open? || t.Empty? }

  /** Whether there is text other than white space at the top level. */
  predicate TopText(ts: seq<Token>) {
    ts != [] && (TopText(ts[..|ts| - 1]) || (Nest(ts[..|ts| - 1]) == Some([]) && IsInk(ts[|ts| - 1])))
  }

  predicate IsInk(t: Token) { t.Chr? && !IsSpace(t.c) }

  lemma NestSnoc(ts: seq<Token>, t: Token)
    ensures Nest(ts + [t]) == NestOne(Nest(ts), t)
    ensures Roots(ts + [t]) == Roots(ts) + (if Nest(ts) == Some([]) && IsElement(t) then 1 else 0)
    ensures TopText(ts + [t]) <==> TopText(ts) || (Nest(ts) == Some([]) && IsInk(t))
    ensures AllWellFormed(ts + [t]) <==> AllWellFormed(ts) && WellFormed(t)
  {
    var u := ts + [t];
    assert u[..|ts|] == ts && u[|ts|] == t;
    if AllWellFormed(u) {
      assert WellFormed(u[|ts|]);
      forall k | 0 <= k < |ts|
        ensures WellFormed(ts[k])
      {
        assert WellFormed(u[k]);
      }
    }
  }

  // ----- The same as trees -----

  datatype Node =
    | Element(name: string, attrs: seq<Attr>, children: seq<Node>)
    | Leaf(token: Token)

  function Flatten(n: Node): seq<Token>
    decreases n, 1
  {
    match n
    case Element(name, attrs, kids) => [Open(name, attrs)] + FlattenAll(kids) + [Close(name)]
    case Leaf(t) => [t]
  }

  function FlattenAll(ns: seq<Node>): seq<Token>
    decreases ns, 0
  {
    if ns == [] then [] else Flatten(ns[0]) + FlattenAll(ns[1..])
  }

  lemma {:induction false} FlattenSnoc(ns: seq<Node>, n: Node)
    ensures FlattenAll(ns + [n]) == FlattenAll(ns) + Flatten(n)
    decreases |ns|
  {
    hide Flatten;
    if ns == [] {
      assert ns + [n] == [n] && [n][1..] == [];
      assert Flatten(n) + [] == Flatten(n);
    } else {
      FlattenSnoc(ns[1..], n);
      assert (ns + [n])[1..] == ns[1..] + [n];
      assert Flatten(ns[0]) + (FlattenAll(ns[1..]) + Flatten(n)) == (Flatten(ns[0]) + FlattenAll(ns[1..])) + Flatten(n);
    }
  }

  /** An element under construction: its tag, and the nodes complete so far inside it. */
  datatype Frame = Frame(name: string, attrs: seq<Attr>, done: seq<Node>)

  /** The forest before the first open element, and the open elements from the outside in. */
  datatype Partial = Partial(base: seq<Node>, frames: seq<Frame>)

  function FlattenFrames(fs: seq<Frame>): seq<Token> {
    if fs == [] then []
    else FlattenFrames(fs[..|fs| - 1]) + ([Open(fs[|fs| - 1].name, fs[|fs| - 1].attrs)] + FlattenAll(fs[|fs| - 1].done))
  }

  function FlattenPartial(p: Partial): seq<Token> { FlattenAll(p.base) + FlattenFrames(p.frames) }

  function NamesOf(fs: seq<Frame>): (r: seq<string>)
    ensures |r| == |fs| && forall k :: 0 <= k < |fs| ==> r[k] == fs[k].name
  {
    seq(|fs|, i requires 0 <= i < |fs| => fs[i].name)
  }

  /** Adds a complete node where the document currently is. */
  function AddNode(p: Partial, n: Node): Partial {
    if p.frames == [] then p.(base := p.base + [n])
    else
      var last := p.frames[|p.frames| - 1];
      p.(frames := p.frames[..|p.frames| - 1] + [last.(done := last.done + [n])])
  }

  lemma FramesSnoc(fs: seq<Frame>, f: Frame)
    ensures FlattenFrames(fs + [f]) == FlattenFrames(fs) + ([Open(f.name, f.attrs)] + FlattenAll(f.done))
  {
    assert (fs + [f])[..|fs|] == fs;
  }

  lemma AddNodeFlattens(p: Partial, n: Node)
    ensures FlattenPartial(AddNode(p, n)) == FlattenPartial(p) + Flatten(n)
    ensures NamesOf(AddNode(p, n).frames) == NamesOf(p.frames)
  {
    hide Flatten, FlattenAll, FlattenFrames;
    if p.frames == [] {
      FlattenSnoc(p.base, n);
      NoFrames();
    } else {
      var k := |p.frames| - 1;
      var outer, last := p.frames[..k], p.frames[k];
      assert p.frames == outer + [last];
      FramesSnoc(outer, last);
      FramesSnoc(outer, last.(done := last.done + [n]));
      FlattenSnoc(last.done, n);
      Regroup(FlattenAll(p.base), FlattenFrames(outer), [Open(last.name, last.attrs)], FlattenAll(last.done),
        Flatten(n));
    }
  }

  lemma NoFrames()
    ensures FlattenFrames([]) == []
  {
  }

  lemma Regroup(a: seq<Token>, b: seq<Token>, c: seq<Token>, d: seq<Token>, e: seq<Token>)
    ensures a + (b + (c + (d + e))) == (a + (b + (c + d))) + e
  {
  }

  /** A nesting token sequence is a forest with some elements still open. */
  lemma {:induction false} NestIsPartial(ts: seq<Token>) returns (p: Partial)
    requires Nest(ts).Some?
    ensures FlattenPartial(p) == ts && NamesOf(p.frames) == Nest(ts).value
    decreases |ts|
  {
    hide FlattenPartial, Nest, NamesOf;
    if ts == [] {
      NothingOpen();
      return Partial([], []);
    }
    var init, t := ts[..|ts| - 1], ts[|ts| - 1];
    assert ts == init + [t];
    NestSnoc(init, t);
    p := NestIsPartial(init);
    p := Extend(p, t, Nest(init).value);
  }

  lemma NothingOpen()
    ensures FlattenPartial(Partial([], [])) == [] && NamesOf([]) == [] && Nest([]) == Some([])
  {
  }

  /** One more token on a partial forest. */
  lemma Extend(p: Partial, t: Token, names: seq<string>) returns (q: Partial)
    requires NamesOf(p.frames) == names && NestOne(Some(names), t).Some?
    ensures FlattenPartial(q) == FlattenPartial(p) + [t] && NamesOf(q.frames) == NestOne(Some(names), t).value
  {
    hide FlattenPartial;
    match t
    case Open(n, attrs) => q := OpenFrame(p, n, attrs);
    case Close(n) => q := CloseFrame(p, n);
    case _ =>
      AddNodeFlattens(p, Leaf(t));
      LeafIs(t);
      q := AddNode(p, Leaf(t));
  }

  lemma LeafIs(t: Token)
    ensures Flatten(Leaf(t)) == [t]
  {
  }

  lemma OpenFrame(p: Partial, n: string, attrs: seq<Attr>) returns (q: Partial)
    ensures FlattenPartial(q) == FlattenPartial(p) + [Open(n, attrs)] && NamesOf(q.frames) == NamesOf(p.frames) + [n]
  {
    var f := Frame(n, attrs, []);
    assert [Open(n, attrs)] + FlattenAll([]) == [Open(n, attrs)];
    hide FlattenAll, FlattenFrames;
    FramesSnoc(p.frames, f);
    q := p.(frames := p.frames + [f]);
  }

  lemma CloseFrame(p: Partial, n: string) returns (q: Partial)
    requires p.frames != [] && p.frames[|p.frames| - 1].name == n
    ensures FlattenPartial(q) == FlattenPartial(p) + [Close(n)]
    ensures NamesOf(q.frames) == NamesOf(p.frames)[..|p.frames| - 1]
  {
    hide FlattenAll, FlattenFrames, Flatten;
    var k := |p.frames| - 1;
    var outer, last := p.frames[..k], p.frames[k];
    assert p.frames == outer + [last];
    var e := Element(n, last.attrs, last.done);
    ElementIs(n, last.attrs, last.done);
    q := AddNode(Partial(p.base, outer), e);
    AddNodeFlattens(Partial(p.base, outer), e);
    FramesSnoc(outer, last);
    Rejoin(FlattenAll(p.base), FlattenFrames(outer), [Open(n, last.attrs)] + FlattenAll(last.done), [Close(n)]);
  }

  lemma ElementIs(n: string, attrs: seq<Attr>, kids: seq<Node>)
    ensures Flatten(Element(n, attrs, kids)) == ([Open(n, attrs)] + FlattenAll(kids)) + [Close(n)]
  {
  }

  lemma Rejoin(a: seq<Token>, b: seq<Token>, c: seq<Token>, d: seq<Token>)
    ensures (a + b) + (c + d) == (a + (b + c)) + d
  {
  }

  /** A balanced token sequence is the serialisation of a forest. */
  lemma BalancedIsForest(ts: seq<Token>) returns (forest: seq<Node>)
    requires Nest(ts) == Some([])
    ensures FlattenAll(forest) == ts
  {
    var p := NestIsPartial(ts);
    assert p.frames == [];
    forest := p.base;
  }

  // ----- Text -----

  function Escape(c: char): string {
    if c == '&' then "&amp;" else if c == '<' then "&lt;" else if c == '>' then "&gt;" else [c]
  }

  function EscapeValue(c: char): string { if c == '"' then "&quot;" else Escape(c) }

  function EscapeAll(s: string): string {
    if s == [] then [] else EscapeAll(s[..|s| - 1]) + EscapeValue(XmlSafe(s[|s| - 1]))
  }

  function RenderAttrs(attrs: seq<Attr>): string {
    if attrs == [] then []
    else
      var a := attrs[|attrs| - 1];
      RenderAttrs(attrs[..|attrs| - 1]) + (" " + a.name + "=\"" + EscapeAll(a.value) + "\"")
  }

  function RenderToken(t: Token): string {
    match t
    case Open(n, attrs) => "<" + n + RenderAttrs(attrs) + ">"
    case Empty(n, attrs) => "<" + n + RenderAttrs(attrs) + "/>"
    case Close(n) => "</" + n + ">"
    case Chr(c) => Escape(c)
    case Pi(target, data) => "<?" + target + (if data == [] then [] else " " + data) + "?>"
  }

  /** The document text. */
  function Render(ts: seq<Token>): string {
    if ts == [] then [] else Render(ts[..|ts| - 1]) + RenderToken(ts[|ts| - 1])
  }

  lemma RenderSnoc(ts: seq<Token>, t: Token)
    ensures Render(ts + [t]) == Render(ts) + RenderToken(t)
  {
    assert (ts + [t])[..|ts|] == ts;
  }
}
