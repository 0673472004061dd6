/** The tree builder: elements are opened, closed and repaired so that the output always nests. */
module HtmlTree {
  import opened Bytes
  import opened HtmlTokens

  const SCOPE_STOP := ["applet", "caption", "html", "table", "td", "th", "marquee", "object", "template"]
  const LI_SCOPE := SCOPE_STOP + ["ol", "ul", "menu"]
  const DL_SCOPE := SCOPE_STOP + ["dl"]
  const RUBY_SCOPE := SCOPE_STOP + ["ruby"]
  const CELL_SCOPE := ["applet", "caption", "html", "table", "marquee", "object", "template"]
  const ROW_SCOPE := SCOPE_STOP + ["thead", "tbody", "tfoot"]
  const TABLE_SCOPE := SCOPE_STOP
  const PAIRED_END_TAGS := ["p", "li", "dd", "dt", "rp", "rt"]
  const HTML_CONTAINERS := ["html", "head", "body"]
  const HEADINGS := ["h1", "h2", "h3", "h4", "h5", "h6"]

  predicate IsVoid(name: string) {
    OneOf(name, 10, {"area", "base", "basefont", "bgsound", "br", "col", "embed", "frame", "hr", "img", "input",
      "keygen",
                     "link", "meta", "param", "source", "track", "wbr"})
  }

  predicate IsBreakoutElement(name: string) {
    || OneOf(name, 11, {"b", "big", "blockquote", "body", "br", "center", "code", "dd", "div", "dl", "dt", "em",
      "embed"})
    || OneOf(name, 11, {"h1", "h2", "h3", "h4", "h5", "h6", "head", "hr", "i", "img", "li", "listing", "menu", "meta",
      "nobr"})
    || OneOf(name, 11, {"ol", "p", "pre", "ruby", "s", "small", "span", "strong", "strike", "sub", "sup", "table", "tt",
      "u",
                        "ul", "var"})
  }

  predicate IsBreakout(name: string, attrs: seq<Attr>) {
    IsBreakoutElement(name) || (SameName(name, "font")
      && exists k :: 0 <= k < |attrs| && AnyOf(attrs[k].name, ["color", "face", "size"]))
  }

  /** What kind of text an element holds. */
  datatype TextMode = Normal | Script | EscapableRaw | Raw | Plain

  function ModeOf(name: string, foreign: bool): TextMode {
    var low := LowerShort(name, 10);
    if low.None? then Normal
    else if low.value == "script" then Script
    else if low.value in {"title", "textarea"} then EscapableRaw
    else if low.value in {"style", "noframes"} then Raw
    else if foreign then Normal
    else if low.value == "plaintext" then Plain
    else if low.value in {"xmp", "iframe", "noembed"} then Raw
    else Normal
  }

  // ----- State -----

  /** An open element; a foreign root is an `svg` or `math` element that entered foreign content. */
  datatype OpenElement = OpenElement(name: string, foreignRoot: bool)

  datatype Tree = Tree(out: seq<Token>, stack: seq<OpenElement>, foreignDepth: nat, rootCount: nat, topText: bool)

  const EMPTY_TREE := Tree([], [], 0, 0, false)

  function Names(stack: seq<OpenElement>): (r: seq<string>)
    ensures |r| == |stack| && forall k :: 0 <= k < |stack| ==> r[k] == stack[k].name
  {
    seq(|stack|, i requires 0 <= i < |stack| => stack[i].name)
  }

  function ForeignRoots(stack: seq<OpenElement>): nat {
    if stack == [] then 0 else ForeignRoots(stack[..|stack| - 1]) + (if stack[|stack| - 1].foreignRoot then 1 else 0)
  }

  /** The unclosed tags of the output are the stack, the counters count what they say, and
      foreign content is never entered twice. */
  predicate Nests(t: Tree) {
    && Nest(t.out) == Some(Names(t.stack)) && AllWellFormed(t.out)
    && t.foreignDepth == ForeignRoots(t.stack) <= 1
    && t.rootCount == Roots(t.out) && t.topText == TopText(t.out)
  }

  // ----- Text and processing instructions -----

  function EmitText(t: Tree, c: char): Tree {
    t.(out := t.out + [Chr(XmlSafe(c))], topText := t.topText || (t.stack == [] && !IsSpace(XmlSafe(c))))
  }

  function EmitString(t: Tree, s: string): Tree {
    if s == [] then t else EmitText(EmitString(t, s[..|s| - 1]), s[|s| - 1])
  }

  function SafeAll(s: string): string {
    if s == [] then [] else SafeAll(s[..|s| - 1]) + [XmlSafe(s[|s| - 1])]
  }

  function EmitPi(t: Tree, target: string, data: string): Tree {
    if SameName(target, "xml") then t else t.(out := t.out + [Pi(target, SafeAll(data))])
  }

  // ----- Closing -----

  /** Closes the innermost element. */
  function Pop(t: Tree): Tree {
    if t.stack == [] then t
    else
      var e := t.stack[|t.stack| - 1];
      t.(out := t.out + [Close(e.name)], stack := t.stack[..|t.stack| - 1],
         foreignDepth := if e.foreignRoot && t.foreignDepth > 0 then t.foreignDepth - 1 else t.foreignDepth)
  }

  function PopTo(t: Tree, n: nat): Tree
    decreases |t.stack|
  {
    if |t.stack| <= n then t else PopTo(Pop(t), n)
  }

  /** Leaves foreign content. */
  function BreakOut(t: Tree): Tree
    decreases |t.stack|
  {
    if t.foreignDepth == 0 || t.stack == [] then t else BreakOut(Pop(t))
  }

  /** The innermost of the first `i` open elements that is a target, unless a boundary lies further in. */
  function Find(stack: seq<OpenElement>, i: nat, targets: seq<string>, stops: seq<string>): (r: Option<nat>)
    requires i <= |stack|
    ensures r.Some? ==> r.value < i && AnyOf(stack[r.value].name, targets)
    ensures r.Some? ==> forall k :: r.value < k < i ==> !AnyOf(stack[k].name, targets) && !AnyOf(stack[k].name, stops)
    ensures r.None? ==> forall k :: 0 <= k < i && AnyOf(stack[k].name, targets) ==> Shielded(stack, k, i, stops)
  {
    if i == 0 then None
    else if AnyOf(stack[i - 1].name, targets) then Some(i - 1)
    else if AnyOf(stack[i - 1].name, stops) then None
    else Find(stack, i - 1, targets, stops)
  }

  /** A boundary lies between the element at `k` and position `i`. */
  predicate Shielded(stack: seq<OpenElement>, k: nat, i: nat, stops: seq<string>)
    requires i <= |stack|
  {
    exists j :: k < j < i && AnyOf(stack[j].name, stops)
  }

  function CloseThrough(t: Tree, targets: seq<string>, stops: seq<string>): Tree {
    match Find(t.stack, |t.stack|, targets, stops)
    case None => t
    case Some(i) => PopTo(t, i)
  }

  predicate TopIs(t: Tree, names: seq<string>) { t.stack != [] && AnyOf(t.stack[|t.stack| - 1].name, names) }

  function PopIf(t: Tree, names: seq<string>): Tree { if TopIs(t, names) then Pop(t) else t }

  /** The elements a start tag closes before it opens. */
  function AutoClose(t: Tree, name: string): Tree {
    var low := LowerShort(name, 10);
    if low.None? then t
    else
      var n := low.value;
      if n == "p" then CloseThrough(t, ["p"], SCOPE_STOP)
      else if n == "li" then CloseThrough(t, ["li"], LI_SCOPE)
      else if n in {"dd", "dt"} then CloseThrough(t, ["dd", "dt"], DL_SCOPE)
      else if n in {"rp", "rt"} then CloseThrough(t, ["rp", "rt"], RUBY_SCOPE)
      else if n == "a" then CloseThrough(t, ["a"], SCOPE_STOP)
      else if n in {"h1", "h2", "h3", "h4", "h5", "h6"} then PopIf(t, HEADINGS)
      else if n in {"td", "th"} then CloseThrough(t, ["td", "th"], CELL_SCOPE)
      else if n == "tr" then CloseThrough(t, ["tr"], ROW_SCOPE)
      else if n in {"thead", "tbody", "tfoot", "colgroup"} then CloseThrough(t, [name], TABLE_SCOPE)
      else if n == "option" then PopIf(t, ["option"])
      else if n == "optgroup" then PopIf(PopIf(t, ["option"]), ["optgroup"])
      else t
  }

  // ----- Opening -----

  function CountRoot(t: Tree): nat { if t.stack == [] then t.rootCount + 1 else t.rootCount }

  function WriteEmpty(t: Tree, name: string, attrs: seq<Attr>): Tree {
    t.(out := t.out + [Empty(name, attrs)], rootCount := CountRoot(t))
  }

  function Push(t: Tree, name: string, attrs: seq<Attr>, foreignRoot: bool): Tree {
    t.(out := t.out + [Open(name, attrs)], rootCount := CountRoot(t),
      stack := t.stack + [OpenElement(name, foreignRoot)],
       foreignDepth := if foreignRoot then t.foreignDepth + 1 else t.foreignDepth)
  }

  datatype Started = Started(t: Tree, mode: TextMode)

  function StartName(raw: string): string { if SameName(raw, "image") then "img" else raw }

  predicate IsForeignName(name: string) { SameName(name, "svg") || SameName(name, "math") }

  predicate OnStack(t: Tree, name: string) { exists k :: 0 <= k < |t.stack| && SameName(t.stack[k].name, name) }

  /** A start tag, once foreign content has been left if the tag breaks out of it. */
  function OpenIn(t: Tree, name: string, attrs: seq<Attr>, selfClosing: bool): Started {
    var foreign := t.foreignDepth > 0;
    if !foreign && AnyOf(name, HTML_CONTAINERS) && OnStack(t, name) then Started(t, Normal)
    else
      var u := if foreign then t else AutoClose(t, name);
      if (!foreign && IsVoid(name))
        || (foreign && selfClosing) then Started(WriteEmpty(u, Normalize(name), attrs), Normal)
      else Started(Push(u, Normalize(name), attrs, !foreign && IsForeignName(name)), ModeOf(name, foreign))
  }

  function StartTag(t: Tree, raw: string, attrs: seq<Attr>, selfClosing: bool): Started {
    var name := StartName(raw);
    var u := if t.foreignDepth > 0 && IsBreakout(name, attrs) then BreakOut(t) else t;
    OpenIn(u, name, attrs, selfClosing)
  }

  /** The position of the innermost open element with a name. */
  function LastNamed(stack: seq<OpenElement>, i: nat, name: string): (r: Option<nat>)
    requires i <= |stack|
    ensures r.Some? ==> r.value < i && SameName(stack[r.value].name, name)
    ensures r.Some? ==> forall k :: r.value < k < i ==> !SameName(stack[k].name, name)
    ensures r.None? ==> forall k :: 0 <= k < i ==> !SameName(stack[k].name, name)
  {
    if i == 0 then None else if SameName(stack[i - 1].name, name) then Some(i - 1) else LastNamed(stack, i - 1, name)
  }

  /** An end tag without a matching element: some become an empty pair, `br` an empty element. */
  function Unmatched(t: Tree, raw: string): Tree {
    if t.foreignDepth > 0 then t
    else if AnyOf(raw, PAIRED_END_TAGS) then Pop(Push(t, Normalize(raw), [], false))
    else if SameName(raw, "br") then WriteEmpty(t, "br", [])
    else t
  }

  function EndTag(t: Tree, raw: string): Tree {
    var u := if t.foreignDepth > 0 && (SameName(raw, "br") || SameName(raw, "p")) then BreakOut(t) else t;
    match LastNamed(u.stack, |u.stack|, Normalize(raw))
    case Some(i) => PopTo(u, i)
    case None => Unmatched(u, raw)
  }

  // ----- Every operation keeps the output nesting -----

  lemma NamesSnoc(stack: seq<OpenElement>, e: OpenElement)
    ensures Names(stack + [e]) == Names(stack) + [e.name]
    ensures ForeignRoots(stack + [e]) == ForeignRoots(stack) + (if e.foreignRoot then 1 else 0)
  {
    assert (stack + [e])[..|stack|] == stack;
  }

  lemma TextNests(t: Tree, c: char)
    requires Nests(t)
    ensures Nests(EmitText(t, c))
  {
    hide Nest, Roots, TopText, AllWellFormed, IsSpace, IsXml;
    NestSnoc(t.out, Chr(XmlSafe(c)));
  }

  lemma {:induction false} StringNests(t: Tree, s: string)
    requires Nests(t)
    ensures Nests(EmitString(t, s))
    decreases |s|
  {
    hide Nests, EmitText;
    if s != [] {
      StringNests(t, s[..|s| - 1]);
      TextNests(EmitString(t, s[..|s| - 1]), s[|s| - 1]);
    }
  }

  lemma PiNests(t: Tree, target: string, data: string)
    requires Nests(t) && target != [] && '>' !in data
    ensures Nests(EmitPi(t, target, data))
  {
    SafeAt(data);
    hide Nest, Roots, TopText, AllWellFormed, SafeAll, SameName, IsXml;
    NestSnoc(t.out, Pi(target, SafeAll(data)));
  }

  lemma {:induction false} SafeAt(s: string)
    ensures |SafeAll(s)| == |s| && forall k :: 0 <= k < |s| ==> SafeAll(s)[k] == XmlSafe(s[k])
    decreases |s|
  {
    if s != [] {
      SafeAt(s[..|s| - 1]);
    }
  }

  lemma OpenNames(t: Tree)
    requires Nests(t) && t.stack != []
    ensures IsName(t.stack[|t.stack| - 1].name)
  {
    OpenedName(t.out, |t.stack| - 1);
  }

  /** Every element left open was opened under a well-formed name. */
  lemma {:induction false} OpenedName(ts: seq<Token>, k: nat)
    requires Nest(ts).Some? && k < |Nest(ts).value| && AllWellFormed(ts)
    ensures IsName(Nest(ts).value[k])
    decreases |ts|
  {
    var init, t := ts[..|ts| - 1], ts[|ts| - 1];
    assert ts == init + [t];
    hide Nest, AllWellFormed, IsName;
    NestSnoc(init, t);
    if !(t.Open? && k == |Nest(init).value|) {
      OpenedName(init, k);
    }
  }

  lemma PopNests(t: Tree)
    requires Nests(t)
    ensures Nests(Pop(t)) && |Pop(t).stack| == if t.stack == [] then 0 else |t.stack| - 1
  {
    if t.stack != [] {
      OpenNames(t);
      hide Nest, Roots, TopText, AllWellFormed, IsName, ForeignRoots;
      var init, e := t.stack[..|t.stack| - 1], t.stack[|t.stack| - 1];
      assert t.stack == init + [e];
      NamesSnoc(init, e);
      NestSnoc(t.out, Close(e.name));
      assert (Names(init) + [e.name])[..|init|] == Names(init);
    }
  }

  lemma {:induction false} PopToNests(t: Tree, n: nat)
    requires Nests(t)
    ensures Nests(PopTo(t, n)) && PopTo(t, n).stack == if |t.stack| <= n then t.stack else t.stack[..n]
    ensures ForeignRoots(PopTo(t, n).stack) <= ForeignRoots(t.stack)
    decreases |t.stack|
  {
    if |t.stack| > n {
      PopNests(t);
      PopIs(t);
      hide Nests, Pop;
      PopToNests(Pop(t), n);
    }
  }

  lemma PopIs(t: Tree)
    requires t.stack != []
    ensures Pop(t).stack == t.stack[..|t.stack| - 1] && ForeignRoots(Pop(t).stack) <= ForeignRoots(t.stack)
  {
  }

  lemma {:induction false} BreakOutNests(t: Tree)
    requires Nests(t)
    ensures Nests(BreakOut(t)) && BreakOut(t).foreignDepth == 0
    decreases |t.stack|
  {
    if t.foreignDepth > 0 {
      PopNests(t);
      hide Pop, Nest, Roots, TopText, AllWellFormed;
      BreakOutNests(Pop(t));
    }
  }

  lemma CloseThroughNests(t: Tree, targets: seq<string>, stops: seq<string>)
    requires Nests(t)
    ensures Nests(CloseThrough(t, targets, stops)) && CloseThrough(t, targets, stops).foreignDepth <= t.foreignDepth
  {
    hide AnyOf, Nest, Roots, TopText, AllWellFormed, ForeignRoots;
    match Find(t.stack, |t.stack|, targets, stops)
    case None =>
    case Some(i) => PopToNests(t, i);
  }

  lemma PopIfNests(t: Tree, names: seq<string>)
    requires Nests(t)
    ensures Nests(PopIf(t, names)) && PopIf(t, names).foreignDepth <= t.foreignDepth
  {
    hide AnyOf, Nests;
    PopNests(t);
  }

  lemma AutoCloseNests(t: Tree, name: string)
    requires Nests(t)
    ensures Nests(AutoClose(t, name)) && AutoClose(t, name).foreignDepth <= t.foreignDepth
  {
    hide Nests, CloseThrough, PopIf, LowerShort;
    CloseThroughNests(t, ["p"], SCOPE_STOP);
    CloseThroughNests(t, ["li"], LI_SCOPE);
    CloseThroughNests(t, ["dd", "dt"], DL_SCOPE);
    CloseThroughNests(t, ["rp", "rt"], RUBY_SCOPE);
    CloseThroughNests(t, ["a"], SCOPE_STOP);
    PopIfNests(t, HEADINGS);
    CloseThroughNests(t, ["td", "th"], CELL_SCOPE);
    CloseThroughNests(t, ["tr"], ROW_SCOPE);
    CloseThroughNests(t, [name], TABLE_SCOPE);
    PopIfNests(t, ["option"]);
    PopIfNests(PopIf(t, ["option"]), ["optgroup"]);
  }

  lemma EmptyNests(t: Tree, name: string, attrs: seq<Attr>)
    requires Nests(t) && WellFormed(Empty(name, attrs))
    ensures Nests(WriteEmpty(t, name, attrs))
  {
    hide Nest, Roots, TopText, AllWellFormed, WellFormed, ForeignRoots;
    NestSnoc(t.out, Empty(name, attrs));
  }

  lemma PushNests(t: Tree, name: string, attrs: seq<Attr>, foreignRoot: bool)
    requires Nests(t) && WellFormed(Open(name, attrs)) && (foreignRoot ==> t.foreignDepth == 0)
    ensures Nests(Push(t, name, attrs, foreignRoot))
  {
    hide Nest, Roots, TopText, AllWellFormed, WellFormed, ForeignRoots;
    NestSnoc(t.out, Open(name, attrs));
    NamesSnoc(t.stack, OpenElement(name, foreignRoot));
  }

  lemma OpenInNests(t: Tree, name: string, attrs: seq<Attr>, selfClosing: bool)
    requires Nests(t) && Distinct(attrs) && NamedWell(attrs)
    ensures Nests(OpenIn(t, name, attrs, selfClosing).t)
  {
    NormalizeIsName(name);
    hide Nests, AutoClose, Distinct, NamedWell, IsName, Normalize, WriteEmpty, Push, IsVoid, IsForeignName, OnStack,
      AnyOf, ModeOf;
    AutoCloseNests(t, name);
    var foreign := t.foreignDepth > 0;
    var u := if foreign then t else AutoClose(t, name);
    EmptyNests(u, Normalize(name), attrs);
    PushNests(u, Normalize(name), attrs, !foreign && IsForeignName(name));
  }

  lemma UnmatchedNests(t: Tree, raw: string)
    requires Nests(t)
    ensures Nests(Unmatched(t, raw))
  {
    NormalizeIsName(raw);
    BrIsName();
    assert Distinct([]) && NamedWell([]);
    hide Nests, Distinct, NamedWell, IsName, Normalize, WriteEmpty, Push, Pop, AnyOf, SameName;
    if t.foreignDepth == 0 {
      PushNests(t, Normalize(raw), [], false);
      PopNests(Push(t, Normalize(raw), [], false));
      EmptyNests(t, "br", []);
    }
  }

  lemma BrIsName()
    ensures IsName("br")
  {
  }

  // ----- Items do not nest in items -----

  /** Between two open elements of a group there is always a boundary of its scope. */
  predicate Separated(stack: seq<OpenElement>, targets: seq<string>, stops: seq<string>) {
    forall i, j :: 0 <= i < j < |stack| && AnyOf(stack[i].name, targets) && AnyOf(stack[j].name, targets)
      ==> Shielded(stack, i, j, stops)
  }

  /** Paragraphs, list items and definitions are never open inside one another unless a
      boundary lies between. */
  predicate Scoped(stack: seq<OpenElement>) {
    && Separated(stack, ["p"], SCOPE_STOP) && Separated(stack, ["li"], LI_SCOPE)
    && Separated(stack, ["dd", "dt"], DL_SCOPE)
  }

  predicate IsPrefix(a: seq<OpenElement>, b: seq<OpenElement>) { |a| <= |b| && a == b[..|a|] }

  lemma SeparatedPrefix(a: seq<OpenElement>, b: seq<OpenElement>, targets: seq<string>, stops: seq<string>)
    requires IsPrefix(a, b) && Separated(b, targets, stops)
    ensures Separated(a, targets, stops)
  {
    hide AnyOf;
    forall i, j | 0 <= i < j < |a| && AnyOf(a[i].name, targets) && AnyOf(a[j].name, targets)
      ensures Shielded(a, i, j, stops)
    {
      assert a[i] == b[i] && a[j] == b[j];
      var k :| i < k < j && AnyOf(b[k].name, stops);
      assert a[k] == b[k];
    }
  }

  lemma ScopedPrefix(a: seq<OpenElement>, b: seq<OpenElement>)
    requires IsPrefix(a, b) && Scoped(b)
    ensures Scoped(a)
  {
    hide Separated;
    SeparatedPrefix(a, b, ["p"], SCOPE_STOP);
    SeparatedPrefix(a, b, ["li"], LI_SCOPE);
    SeparatedPrefix(a, b, ["dd", "dt"], DL_SCOPE);
  }

  /** Every open target is shielded from what comes next. */
  predicate Clear(stack: seq<OpenElement>, targets: seq<string>, stops: seq<string>) {
    forall k :: 0 <= k < |stack| && AnyOf(stack[k].name, targets) ==> Shielded(stack, k, |stack|, stops)
  }

  lemma CloseThroughClears(t: Tree, targets: seq<string>, stops: seq<string>)
    requires Nests(t) && Separated(t.stack, targets, stops)
    ensures Clear(CloseThrough(t, targets, stops).stack, targets, stops)
  {
    hide AnyOf, Nests;
    match Find(t.stack, |t.stack|, targets, stops)
    case None =>
    case Some(r) =>
      PopToNests(t, r);
      var a := t.stack[..r];
      forall k | 0 <= k < |a| && AnyOf(a[k].name, targets)
        ensures Shielded(a, k, |a|, stops)
      {
        assert a[k] == t.stack[k];
        var j :| k < j < r && AnyOf(t.stack[j].name, stops);
        assert a[j] == t.stack[j];
      }
  }

  lemma PushSeparated(stack: seq<OpenElement>, e: OpenElement, targets: seq<string>, stops: seq<string>)
    requires Separated(stack, targets, stops) && (AnyOf(e.name, targets) ==> Clear(stack, targets, stops))
    ensures Separated(stack + [e], targets, stops)
  {
    hide AnyOf;
    var b := stack + [e];
    forall i, j | 0 <= i < j < |b| && AnyOf(b[i].name, targets) && AnyOf(b[j].name, targets)
      ensures Shielded(b, i, j, stops)
    {
      assert b[i] == stack[i] && (j < |stack| ==> b[j] == stack[j]);
      assert Shielded(stack, i, j, stops);
      var k :| i < k < j && AnyOf(stack[k].name, stops);
      assert b[k] == stack[k];
    }
  }

  /** A name that is repaired into a plain word is that word, up to case. */
  lemma NormalizedWord(name: string, w: string)
    requires 0 < |w| <= 10 && (forall k :: 0 <= k < |w| ==> 'a' <= w[k] <= 'z') && SameName(Normalize(name), w)
    ensures LowerShort(name, 10) == Some(w) && LowerShort(name, 11) == Some(w)
  {
    var n := Normalize(name);
    assert Lower(n[0]) == w[0];
    assert name != [] && n == [name[0]] + FixRest(name[1..]);
    forall k | 0 <= k < |name|
      ensures Lower(name[k]) == w[k] && name[k] as int < 128
    {
      assert Lower(n[k]) == Lower(w[k]) == w[k];
      if k > 0 {
        assert n[k] == FixRest(name[1..])[k - 1] && name[1..][k - 1] == name[k];
      }
    }
    assert LowerAll(name) == w;
  }

  lemma GroupWords(name: string)
    ensures AnyOf(Normalize(name), ["p"]) ==> LowerShort(name, 10) == Some("p") && IsBreakoutElement(name)
    ensures AnyOf(Normalize(name), ["li"]) ==> LowerShort(name, 10) == Some("li") && IsBreakoutElement(name)
    ensures AnyOf(Normalize(name), ["dd", "dt"])
      ==> LowerShort(name, 10).Some? && LowerShort(name, 10).value in {"dd", "dt"} && IsBreakoutElement(name)
  {
    hide Normalize, LowerShort, SameName;
    var n := Normalize(name);
    if SameName(n, "p") {
      NormalizedWord(name, "p");
    }
    if SameName(n, "li") {
      NormalizedWord(name, "li");
    }
    if SameName(n, "dd") {
      NormalizedWord(name, "dd");
    }
    if SameName(n, "dt") {
      NormalizedWord(name, "dt");
    }
  }

  lemma CloseThroughPrefix(t: Tree, targets: seq<string>, stops: seq<string>)
    requires Nests(t)
    ensures IsPrefix(CloseThrough(t, targets, stops).stack, t.stack)
  {
    hide AnyOf, Nests;
    match Find(t.stack, |t.stack|, targets, stops)
    case None =>
    case Some(i) => PopToNests(t, i);
  }

  lemma PopIfPrefix(t: Tree, names: seq<string>)
    ensures IsPrefix(PopIf(t, names).stack, t.stack)
  {
    hide AnyOf;
  }

  lemma AutoClosePrefix(t: Tree, name: string)
    requires Nests(t)
    ensures IsPrefix(AutoClose(t, name).stack, t.stack)
  {
    hide Nests, CloseThrough, PopIf, LowerShort;
    CloseThroughPrefix(t, ["p"], SCOPE_STOP);
    CloseThroughPrefix(t, ["li"], LI_SCOPE);
    CloseThroughPrefix(t, ["dd", "dt"], DL_SCOPE);
    CloseThroughPrefix(t, ["rp", "rt"], RUBY_SCOPE);
    CloseThroughPrefix(t, ["a"], SCOPE_STOP);
    PopIfPrefix(t, HEADINGS);
    CloseThroughPrefix(t, ["td", "th"], CELL_SCOPE);
    CloseThroughPrefix(t, ["tr"], ROW_SCOPE);
    CloseThroughPrefix(t, [name], TABLE_SCOPE);
    PopIfPrefix(t, ["option"]);
    PopIfPrefix(PopIf(t, ["option"]), ["optgroup"]);
    PrefixOfPrefix(PopIf(PopIf(t, ["option"]), ["optgroup"]).stack, PopIf(t, ["option"]).stack, t.stack);
  }

  lemma PrefixOfPrefix(a: seq<OpenElement>, b: seq<OpenElement>, c: seq<OpenElement>)
    requires IsPrefix(a, b) && IsPrefix(b, c)
    ensures IsPrefix(a, c)
  {
  }

  /** A start tag of a group first closes what would enclose it. */
  lemma AutoCloseClears(t: Tree, name: string)
    requires Nests(t) && Scoped(t.stack)
    ensures var s := AutoClose(t, name).stack;
      && (AnyOf(Normalize(name), ["p"]) ==> Clear(s, ["p"], SCOPE_STOP))
      && (AnyOf(Normalize(name), ["li"]) ==> Clear(s, ["li"], LI_SCOPE))
      && (AnyOf(Normalize(name), ["dd", "dt"]) ==> Clear(s, ["dd", "dt"], DL_SCOPE))
  {
    hide Nests, CloseThrough, PopIf, LowerShort, Clear, Separated, Normalize, AnyOf, IsBreakoutElement;
    GroupWords(name);
    CloseThroughClears(t, ["p"], SCOPE_STOP);
    CloseThroughClears(t, ["li"], LI_SCOPE);
    CloseThroughClears(t, ["dd", "dt"], DL_SCOPE);
  }

  lemma PushScoped(t: Tree, name: string, foreignRoot: bool)
    requires Nests(t) && Scoped(t.stack)
    ensures Scoped(AutoClose(t, name).stack + [OpenElement(Normalize(name), foreignRoot)])
  {
    hide Nests, AutoClose, Clear, Separated, Normalize, AnyOf;
    var u, e := AutoClose(t, name), OpenElement(Normalize(name), foreignRoot);
    AutoClosePrefix(t, name);
    ScopedPrefix(u.stack, t.stack);
    AutoCloseClears(t, name);
    PushSeparated(u.stack, e, ["p"], SCOPE_STOP);
    PushSeparated(u.stack, e, ["li"], LI_SCOPE);
    PushSeparated(u.stack, e, ["dd", "dt"], DL_SCOPE);
  }

  /** In foreign content no element of a group is ever opened. */
  lemma PushForeign(stack: seq<OpenElement>, name: string)
    requires Scoped(stack) && !IsBreakoutElement(name)
    ensures Scoped(stack + [OpenElement(Normalize(name), false)])
  {
    hide Clear, Separated, Normalize, AnyOf, IsBreakoutElement, LowerShort;
    GroupWords(name);
    var e := OpenElement(Normalize(name), false);
    PushSeparated(stack, e, ["p"], SCOPE_STOP);
    PushSeparated(stack, e, ["li"], LI_SCOPE);
    PushSeparated(stack, e, ["dd", "dt"], DL_SCOPE);
  }

  // ----- The whole invariant -----

  predicate Inv(t: Tree) { Nests(t) && Scoped(t.stack) }

  lemma {:induction false} StringKeeps(t: Tree, s: string)
    requires Inv(t)
    ensures Inv(EmitString(t, s))
    decreases |s|
  {
    hide Nests, Scoped;
    StringNests(t, s);
    StringStack(t, s);
  }

  lemma {:induction false} StringStack(t: Tree, s: string)
    ensures EmitString(t, s).stack == t.stack
    decreases |s|
  {
    if s != [] {
      StringStack(t, s[..|s| - 1]);
    }
  }

  lemma {:induction false} EmitDepth(t: Tree, s: string)
    ensures var u := EmitString(t, s);
      u.foreignDepth == t.foreignDepth && u.rootCount == t.rootCount && (t.stack != [] ==> u.topText == t.topText)
    decreases |s|
  {
    if s != [] {
      EmitDepth(t, s[..|s| - 1]);
      StringStack(t, s[..|s| - 1]);
    }
  }

  lemma PiKeeps(t: Tree, target: string, data: string)
    requires Inv(t) && target != [] && '>' !in data
    ensures Inv(EmitPi(t, target, data))
  {
    hide Nests, Scoped, SameName;
    PiNests(t, target, data);
  }

  lemma PopKeeps(t: Tree)
    requires Inv(t)
    ensures Inv(Pop(t)) && |Pop(t).stack| == if t.stack == [] then 0 else |t.stack| - 1
  {
    hide Nests, Scoped;
    PopNests(t);
    ScopedPrefix(Pop(t).stack, t.stack);
  }

  lemma PopToKeeps(t: Tree, n: nat)
    requires Inv(t)
    ensures Inv(PopTo(t, n)) && PopTo(t, n).stack == if |t.stack| <= n then t.stack else t.stack[..n]
  {
    hide Nests, Scoped, ForeignRoots;
    PopToNests(t, n);
    ScopedPrefix(PopTo(t, n).stack, t.stack);
  }

  lemma {:induction false} BreakOutPrefix(t: Tree)
    ensures IsPrefix(BreakOut(t).stack, t.stack)
    decreases |t.stack|
  {
    if t.foreignDepth > 0 && t.stack != [] {
      BreakOutPrefix(Pop(t));
      PrefixOfPrefix(BreakOut(Pop(t)).stack, Pop(t).stack, t.stack);
    }
  }

  lemma BreakOutKeeps(t: Tree)
    requires Inv(t)
    ensures Inv(BreakOut(t)) && BreakOut(t).foreignDepth == 0
  {
    hide Nests, Scoped;
    BreakOutNests(t);
    BreakOutPrefix(t);
    ScopedPrefix(BreakOut(t).stack, t.stack);
  }

  lemma OpenInKeeps(t: Tree, name: string, attrs: seq<Attr>, selfClosing: bool)
    requires Inv(t) && Distinct(attrs) && NamedWell(attrs) && (t.foreignDepth > 0 ==> !IsBreakoutElement(name))
    ensures Inv(OpenIn(t, name, attrs, selfClosing).t)
  {
    hide Nests, Scoped, Distinct, NamedWell, AutoClose, Normalize, IsVoid, IsForeignName, OnStack, AnyOf, ModeOf,
      IsBreakoutElement;
    OpenInNests(t, name, attrs, selfClosing);
    AutoClosePrefix(t, name);
    ScopedPrefix(AutoClose(t, name).stack, t.stack);
    PushScoped(t, name, IsForeignName(name));
    if t.foreignDepth > 0 {
      PushForeign(t.stack, name);
    }
  }

  /** A start tag keeps the invariant, whatever its name and attributes. */
  lemma StartTagKeeps(t: Tree, raw: string, attrs: seq<Attr>, selfClosing: bool)
    requires Inv(t) && Distinct(attrs) && NamedWell(attrs)
    ensures Inv(StartTag(t, raw, attrs, selfClosing).t)
  {
    hide Inv, Distinct, NamedWell, OpenIn, BreakOut, IsBreakoutElement, StartName, SameName, AnyOf;
    BreakOutKeeps(t);
    var name := StartName(raw);
    var u := if t.foreignDepth > 0 && IsBreakout(name, attrs) then BreakOut(t) else t;
    OpenInKeeps(u, name, attrs, selfClosing);
  }

  lemma UnmatchedKeeps(t: Tree, raw: string)
    requires Inv(t)
    ensures Inv(Unmatched(t, raw))
  {
    hide Nests, Scoped, Normalize, AnyOf, SameName;
    UnmatchedNests(t, raw);
    assert (t.stack + [OpenElement(Normalize(raw), false)])[..|t.stack|] == t.stack;
  }

  /** An end tag keeps the invariant, whatever its name. */
  lemma EndTagKeeps(t: Tree, raw: string)
    requires Inv(t)
    ensures Inv(EndTag(t, raw))
  {
    hide Inv, BreakOut, PopTo, Unmatched, Normalize, SameName;
    BreakOutKeeps(t);
    var u := if t.foreignDepth > 0 && (SameName(raw, "br") || SameName(raw, "p")) then BreakOut(t) else t;
    match LastNamed(u.stack, |u.stack|, Normalize(raw))
    case Some(i) => PopToKeeps(u, i);
    case None => UnmatchedKeeps(u, raw);
  }
}
