/** Parsing a URL into its parts and printing it back. */
module UrlParse {
  import opened Bytes
  import opened UrlAddress
  import opened Url

  type Text = seq<byte>

  datatype Host = Domain(text: Text) | Ipv4(text: Text) | Ipv6(text: Text)

  datatype Authority = Authority(userinfo: Option<Text>, host: Host, port: Option<Text>)

  datatype Location = Location(scheme: Text, authority: Option<Authority>, path: Text, query: Option<Text>,
      fragment: Option<Text>)

  type Parsed<+T> = Result<T, UrlError>

  // ----- Printing -----

  function PrintHost(h: Host): Text {
    match h
    case Domain(t) => t
    case Ipv4(t) => t
    case Ipv6(t) => [OPEN_BRACKET] + t + [CLOSE_BRACKET]
  }

  function After(c: byte, t: Option<Text>): Text { if t.Some? then [c] + t.value else [] }

  function PrintAuthority(a: Authority): Text {
    (if a.userinfo.Some? then a.userinfo.value + [AT_SIGN] else []) + (PrintHost(a.host) + After(COLON, a.port))
  }

  function PrintHier(a: Option<Authority>, path: Text): Text {
    (if a.Some? then [SLASH, SLASH] + PrintAuthority(a.value) else []) + path
  }

  function Print(u: Location): Text {
    u.scheme + [COLON] + (PrintHier(u.authority, u.path) + After(QUESTION, u.query) + After(HASH, u.fragment))
  }

  // ----- Parsing -----

  function IndexOf(s: Text, c: byte): (i: nat)
    ensures i <= |s| && c !in s[..i] && (i < |s| ==> s[i] == c)
  {
    if s == [] || s[0] == c then 0
    else
      var i := 1 + IndexOf(s[1..], c);
      assert s[..i] == [s[0]] + s[1..][..i - 1];
      i
  }

  /** What follows the first `c`, if there is one. */
  function Tail(s: Text, c: byte): Option<Text> {
    var i := IndexOf(s, c);
    if i < |s| then Some(s[i + 1..]) else None
  }

  function Head(s: Text, c: byte): Text { s[..IndexOf(s, c)] }

  predicate ValidScheme(s: Text) { s != [] && IsAlpha(s[0]) && All(s[1..], IsSchemeChar) }

  const MAX_PORT := 65535

  /** The digits of a port from position `i` on; `value` is the number before them. */
  function PortScan(port: Text, i: nat, value: int, at: nat): Option<UrlError>
    requires i <= |port|
    decreases |port| - i
  {
    if i == |port| then None
    else if !IsDigit(port[i]) then Some(InvalidCharacter(at + i))
    else
      var v := value * 10 + (port[i] as int - ZERO as int);
      if v > MAX_PORT then Some(InvalidPort) else PortScan(port, i + 1, v, at)
  }

  function PortFault(port: Text, at: nat): Option<UrlError> {
    if port == [] then Some(InvalidPort) else PortScan(port, 0, 0, at)
  }

  predicate ValidPort(port: Text) { port != [] && All(port, IsDigit) && Value(port) <= MAX_PORT }

  predicate IsFile(scheme: Text) {
    |scheme| == 4 && scheme[0] in {'f' as int, 'F' as int} && scheme[1] in {'i' as int, 'I' as int}
    && scheme[2] in {'l' as int, 'L' as int} && scheme[3] in {'e' as int, 'E' as int}
  }

  predicate IsDigitOrDot(b: byte) { IsDigit(b) || b == DOT }

  function ClassifyHost(host: Text, at: nat, allowEmpty: bool): Parsed<Host> {
    if host == [] then (if allowEmpty then Ok(Domain([])) else Err(EmptyHost))
    else if All(host, IsDigitOrDot) then (if IsIpv4(host) then Ok(Ipv4(host)) else Err(InvalidHost))
    else
      var fault := Fault(host, at, IsRegNameChar);
      if fault.Some? then Err(fault.value) else Ok(Domain(host))
  }

  datatype HostPort = HostPort(host: Host, port: Option<Text>)

  function WithPort(host: Parsed<Host>, port: Option<Text>, at: nat): Parsed<HostPort> {
    match host
    case Err(e) => Err(e)
    case Ok(h) =>
      if port.Some? && PortFault(port.value,
        at).Some? then Err(PortFault(port.value, at).value) else Ok(HostPort(h, port))
  }

  function SplitHostPort(s: Text, at: nat, allowEmpty: bool): Parsed<HostPort> {
    if s != [] && s[0] == OPEN_BRACKET then
      var close := IndexOf(s[1..], CLOSE_BRACKET);
      if close == |s| - 1 then Err(InvalidIpv6)
      else
        var raw, tail := s[1..][..close], s[close + 2..];
        if !IsIpv6(raw) then Err(InvalidIpv6)
        else if tail == [] then Ok(HostPort(Ipv6(raw), None))
        else if tail[0] != COLON then Err(InvalidHost)
        else WithPort(Ok(Ipv6(raw)), Some(tail[1..]), at + close + 3)
    else if OPEN_BRACKET in s || CLOSE_BRACKET in s then Err(InvalidHost)
    else WithPort(ClassifyHost(Head(s, COLON), at, allowEmpty), Tail(s, COLON), at + IndexOf(s, COLON) + 1)
  }

  function ParseAuthority(s: Text, at: nat, allowEmpty: bool): Parsed<Authority> {
    var i := IndexOf(s, AT_SIGN);
    var fault := if i < |s| then Fault(s[..i], at, IsUserinfoChar) else None;
    if fault.Some? then Err(fault.value)
    else
      var start := if i < |s| then i + 1 else 0;
      match SplitHostPort(s[start..], at + start, allowEmpty)
      case Err(e) => Err(e)
      case Ok(hp) => Ok(Authority(if i < |s| then Some(s[..i]) else None, hp.host, hp.port))
  }

  /** The text of the authority, if the hierarchical part starts with two slashes. */
  function AuthorityText(hier: Text): Option<Text> {
    if [SLASH, SLASH] <= hier then Some(Head(hier[2..], SLASH)) else None
  }

  function PathText(hier: Text): (path: Text)
    ensures |path| <= |hier|
  {
    if [SLASH, SLASH] <= hier then hier[2 + IndexOf(hier[2..], SLASH)..] else hier
  }

  /** The faults of path, query and fragment, in order. */
  function RestFault(path: Text, query: Option<Text>, fragment: Option<Text>, pathAt: nat, queryAt: nat,
      fragmentAt: nat): Option<UrlError> {
    var p := Fault(path, pathAt, IsPathChar);
    var q := if query.Some? then Fault(query.value, queryAt, IsQueryChar) else None;
    var f := if fragment.Some? then Fault(fragment.value, fragmentAt, IsQueryChar) else None;
    if p.Some? then p else if q.Some? then q else f
  }

  function ParseRest(scheme: Text, rest: Text, at: nat): Parsed<Location> {
    var front, fragment := Head(rest, HASH), Tail(rest, HASH);
    var hier, query := Head(front, QUESTION), Tail(front, QUESTION);
    var text, path := AuthorityText(hier), PathText(hier);
    var authority := if text.Some? then ParseAuthority(text.value, at + 2, IsFile(scheme)) else Err(EmptyHost);
    if text.Some? && authority.Err? then Err(authority.error)
    else
      var fault := RestFault(path, query, fragment, at + |hier| - |path|, at + |hier| + 1, at + |front| + 1);
      if fault.Some? then Err(fault.value)
      else Ok(Location(scheme, if text.Some? then Some(authority.value) else None, path, query, fragment))
  }

  function Parse(input: Text): Parsed<Location> {
    if input == [] then Err(EmptyInput)
    else
      var i := IndexOf(input, COLON);
      if i == |input| then Err(MissingScheme)
      else if !ValidScheme(input[..i]) then Err(InvalidScheme)
      else ParseRest(input[..i], input[i + 1..], i + 1)
  }

  // ----- Printing undoes parsing -----

  lemma HeadTail(s: Text, c: byte)
    ensures s == Head(s, c) + After(c, Tail(s, c))
  {
    var i := IndexOf(s, c);
    if i < |s| {
      assert s == s[..i] + ([c] + s[i + 1..]);
    } else {
      assert s == s[..i] + [];
    }
  }

  lemma PrintBracketed(s: Text)
    requires s != [] && s[0] == OPEN_BRACKET && IndexOf(s[1..], CLOSE_BRACKET) < |s| - 1
    ensures var close := IndexOf(s[1..], CLOSE_BRACKET);
      s == [OPEN_BRACKET] + s[1..][..close] + [CLOSE_BRACKET] + s[close + 2..]
  {
    hide IndexOf;
    var close := IndexOf(s[1..], CLOSE_BRACKET);
    assert s[1..][close] == s[close + 1];
  }

  lemma PrintHostPort(s: Text, at: nat, allowEmpty: bool)
    requires SplitHostPort(s, at, allowEmpty).Ok?
    ensures var hp := SplitHostPort(s, at, allowEmpty).value; PrintHost(hp.host) + After(COLON, hp.port) == s
  {
    hide Fault, PortFault, IsIpv6, IsIpv4, IndexOf, Head, Tail;
    if s != [] && s[0] == OPEN_BRACKET {
      PrintBracketed(s);
      var tail := s[IndexOf(s[1..], CLOSE_BRACKET) + 2..];
      assert tail != [] ==> tail == [tail[0]] + tail[1..];
    } else {
      HeadTail(s, COLON);
    }
  }

  lemma PrintsAuthority(s: Text, at: nat, allowEmpty: bool)
    requires ParseAuthority(s, at, allowEmpty).Ok?
    ensures PrintAuthority(ParseAuthority(s, at, allowEmpty).value) == s
  {
    hide SplitHostPort, Fault, PrintHost, After, IndexOf;
    var i := IndexOf(s, AT_SIGN);
    AtSplits(s, i);
    if i < |s| {
      PrintHostPort(s[i + 1..], at + i + 1, allowEmpty);
    } else {
      PrintHostPort(s, at, allowEmpty);
    }
  }

  lemma AtSplits(s: Text, i: nat)
    ensures i < |s| && s[i] == AT_SIGN ==> s == (s[..i] + [AT_SIGN]) + s[i + 1..]
    ensures s[0..] == s == [] + s
  {
  }

  lemma HierParts(hier: Text)
    ensures hier == (if AuthorityText(hier).Some? then [SLASH,
      SLASH] + AuthorityText(hier).value else []) + PathText(hier)
  {
    if [SLASH, SLASH] <= hier {
      var i := IndexOf(hier[2..], SLASH);
      assert hier == [SLASH, SLASH] + hier[2..][..i] + hier[2 + i..];
    } else {
      assert [] + hier == hier;
    }
  }

  lemma PrintsRest(scheme: Text, rest: Text, at: nat)
    requires ParseRest(scheme, rest, at).Ok?
    ensures var u := ParseRest(scheme, rest, at).value;
      u.scheme == scheme && PrintHier(u.authority, u.path) + After(QUESTION, u.query) + After(HASH, u.fragment) == rest
  {
    hide ParseAuthority, RestFault, Head, Tail, After, IsFile, AuthorityText, PathText, PrintAuthority;
    var front := Head(rest, HASH);
    var hier := Head(front, QUESTION);
    HeadTail(rest, HASH);
    HeadTail(front, QUESTION);
    HierParts(hier);
    if AuthorityText(hier).Some? {
      PrintsAuthority(AuthorityText(hier).value, at + 2, IsFile(scheme));
    }
  }

  /** Printing a parsed URL reproduces the input, byte for byte. */
  lemma PrintUndoesParse(input: Text)
    requires Parse(input).Ok?
    ensures Print(Parse(input).value) == input
  {
    hide ParseRest, PrintHier, After, ValidScheme;
    var i := IndexOf(input, COLON);
    PrintsRest(input[..i], input[i + 1..], i + 1);
    assert input == input[..i] + [COLON] + input[i + 1..];
  }

  // ----- Ports -----

  lemma {:induction false} PortScanIff(port: Text, i: nat, at: nat)
    requires i <= |port| && All(port[..i], IsDigit) && Value(port[..i]) <= MAX_PORT
    ensures PortScan(port, i, Value(port[..i]), at).None? <==> All(port, IsDigit) && Value(port) <= MAX_PORT
    decreases |port| - i
  {
    if i == |port| {
      assert port[..i] == port;
    } else {
      assert port[..i + 1][..i] == port[..i];
      if IsDigit(port[i]) {
        assert All(port[..i + 1], IsDigit) by {
          assert forall k :: 0 <= k < i ==> port[..i + 1][k] == port[..i][k];
        }
        if Value(port[..i + 1]) <= MAX_PORT {
          PortScanIff(port, i + 1, at);
        } else if All(port, IsDigit) {
          ValueGrows(port, i + 1);
        }
      }
    }
  }

  /** More digits never make a number smaller. */
  lemma {:induction false} ValueGrows(d: Text, i: nat)
    requires All(d, IsDigit) && i <= |d|
    ensures 0 <= Value(d[..i]) <= Value(d)
    decreases |d|
  {
    if i == |d| {
      assert d[..i] == d;
      ValueNonNegative(d);
    } else {
      var init := d[..|d| - 1];
      assert init[..i] == d[..i] && All(init, IsDigit);
      ValueGrows(init, i);
      assert IsDigit(d[|d| - 1]);
    }
  }

  lemma {:induction false} ValueNonNegative(d: Text)
    requires All(d, IsDigit)
    ensures Value(d) >= 0
    decreases |d|
  {
    if d != [] {
      assert All(d[..|d| - 1], IsDigit);
      ValueNonNegative(d[..|d| - 1]);
      assert IsDigit(d[|d| - 1]);
    }
  }

  /** The port check accepts exactly the decimal numbers up to 65535. */
  lemma PortIff(port: Text, at: nat)
    ensures PortFault(port, at).None? <==> ValidPort(port)
  {
    assert port[..0] == [];
    PortScanIff(port, 0, at);
  }

  method CheckPort(port: Text, base: nat) returns (fault: Option<UrlError>)
    ensures fault == PortFault(port, base)
  {
    if port == [] {
      return Some(InvalidPort);
    }
    var value, i := 0, 0;
    while i < |port|
      invariant 0 <= i <= |port| && PortScan(port, 0, 0, base) == PortScan(port, i, value, base)
    {
      if !IsDigit(port[i]) {
        return Some(InvalidCharacter(base + i));
      }
      value := value * 10 + (port[i] as int - ZERO as int);
      if value > MAX_PORT {
        return Some(InvalidPort);
      }
      i := i + 1;
    }
    fault := None;
  }

  // ----- Parsing undoes printing -----

  predicate Faultless(s: Text, allowed: byte -> bool) { Fault(s, 0, allowed).None? }

  lemma {:induction false} FaultAnywhere(s: Text, at: nat, at': nat, allowed: byte -> bool)
    ensures Fault(s, at, allowed).None? <==> Fault(s, at', allowed).None?
    decreases |s|
  {
    if s != [] {
      FaultAnywhere(s[1..], at + 1, at' + 1, allowed);
      if |s| >= 3 {
        FaultAnywhere(s[3..], at + 3, at' + 3, allowed);
      }
    }
  }

  predicate ValidHost(h: Host, allowEmpty: bool) {
    match h
    case Domain(t) => (t == [] && allowEmpty) || (t != [] && !All(t, IsDigitOrDot) && Faultless(t, IsRegNameChar))
    case Ipv4(t) => IsIpv4(t)
    case Ipv6(t) => IsIpv6(t)
  }

  predicate ValidAuthority(a: Authority, allowEmpty: bool) {
    && (a.userinfo.Some? ==> Faultless(a.userinfo.value, IsUserinfoChar))
    && ValidHost(a.host, allowEmpty) && (a.port.Some? ==> ValidPort(a.port.value))
  }

  /** The parts a URL may have, as RFC 3986 splits them. */
  predicate ValidLocation(u: Location) {
    && ValidScheme(u.scheme)
    && (u.authority.Some? ==> ValidAuthority(u.authority.value, IsFile(u.scheme)))
    && (u.authority.Some? ==> u.path == [] || u.path[0] == SLASH)
    && (u.authority.None? ==> !([SLASH, SLASH] <= u.path))
    && Faultless(u.path, IsPathChar)
    && (u.query.Some? ==> Faultless(u.query.value, IsQueryChar))
    && (u.fragment.Some? ==> Faultless(u.fragment.value, IsQueryChar))
  }

  lemma {:induction false} IndexOfFirst(a: Text, c: byte, b: Text)
    requires c !in a
    ensures IndexOf(a + [c] + b, c) == |a|
    decreases |a|
  {
    if a != [] {
      assert c !in a[1..];
      IndexOfFirst(a[1..], c, b);
      assert (a + [c] + b)[1..] == a[1..] + [c] + b;
    }
  }

  lemma IndexOfNone(a: Text, c: byte)
    requires c !in a
    ensures IndexOf(a, c) == |a|
  {
  }

  lemma HeadTailOf(a: Text, c: byte, t: Option<Text>)
    requires c !in a
    ensures Head(a + After(c, t), c) == a && Tail(a + After(c, t), c) == t
  {
    hide IndexOf;
    if t.Some? {
      IndexOfFirst(a, c, t.value);
      assert a + After(c, t) == a + [c] + t.value;
    } else {
      IndexOfNone(a, c);
      assert a + After(c, t) == a;
    }
  }

  /** A delimiter outside a component's class cannot occur in it. */
  lemma Excludes(s: Text, allowed: byte -> bool, c: byte)
    requires Faultless(s, allowed) && !allowed(c) && c != PERCENT && !IsHex(c)
    ensures c !in s
  {
    forall k | 0 <= k < |s|
      ensures s[k] != c
    {
      FaultlessBytes(s, 0, allowed, k);
    }
  }

  predicate IsV6Char(b: byte) { IsHex(b) || b == COLON || b == DOT }

  lemma {:induction false} V4Bytes(s: Text, n: nat)
    requires ScanV4(s, n)
    ensures All(s, IsDigitOrDot) && s != []
    decreases |s|
  {
    var k := RunLength(s, IsDigit);
    assert forall j :: 0 <= j < k ==> s[..k][j] == s[j];
    if k < |s| {
      V4Bytes(s[k + 1..], n + 1);
      assert forall j :: k < j < |s| ==> s[k + 1..][j - k - 1] == s[j];
    }
  }

  lemma AllParts(s: Text, n: nat, p: byte -> bool)
    requires n <= |s| && All(s[..n], p) && All(s[n..], p)
    ensures All(s, p)
  {
    forall k | 0 <= k < |s|
      ensures p(s[k])
    {
      assert if k < n then s[k] == s[..n][k] else s[k] == s[n..][k - n];
    }
  }

  lemma HexIsV6(s: Text, k: nat)
    requires k <= |s| && All(s[..k], IsHex)
    ensures All(s[..k], IsV6Char)
    ensures k < |s| && s[k] == COLON ==> All(s[..k + 1], IsV6Char)
    ensures k + 1 < |s| && s[k] == COLON && s[k + 1] == COLON ==> All(s[..k + 2], IsV6Char)
  {
    assert forall j :: 0 <= j < k ==> s[..k][j] == s[j];
  }

  lemma {:induction false} V6Bytes(s: Text, groups: nat, compressed: bool)
    requires ScanV6(s, groups, compressed)
    ensures All(s, IsV6Char)
    decreases |s|
  {
    hide ScanV6, IsIpv4, IsV6Char, IsHex, RunLength;
    var k := RunLength(s, IsHex);
    ScanAt(s, k, groups, compressed);
    HexIsV6(s, k);
    if k < |s| && s[k] == DOT {
      V4IsV6(s);
    } else if k == |s| {
      assert s[..k] == s;
    } else if s[k + 1] != COLON {
      V6Bytes(s[k + 1..], groups + 1, compressed);
      AllParts(s, k + 1, IsV6Char);
    } else if k + 2 == |s| {
      assert s[..k + 2] == s;
    } else {
      V6Bytes(s[k + 2..], groups + 1, true);
      AllParts(s, k + 2, IsV6Char);
    }
  }

  lemma V4IsV6(s: Text)
    requires IsIpv4(s)
    ensures All(s, IsV6Char)
  {
    V4Bytes(s, 0);
  }

  lemma Ipv6Bytes(s: Text)
    requires IsIpv6(s)
    ensures All(s, IsV6Char)
  {
    if s[0] != COLON {
      V6Bytes(s, 0, false);
    } else if |s| > 2 {
      V6Bytes(s[2..], 0, true);
      assert forall j :: 2 <= j < |s| ==> s[2..][j - 2] == s[j];
    }
  }

  /** The bytes a host and port may be printed with. */
  predicate IsHostByte(b: byte) {
    IsRegNameChar(b) || b == PERCENT || IsHex(b) || b == COLON || b == OPEN_BRACKET || b == CLOSE_BRACKET
  }

  lemma HostTextBytes(t: Text)
    requires Faultless(t, IsRegNameChar)
    ensures forall k :: 0 <= k < |t| ==> IsRegNameChar(t[k]) || t[k] == PERCENT || IsHex(t[k])
  {
    forall k | 0 <= k < |t|
      ensures IsRegNameChar(t[k]) || t[k] == PERCENT || IsHex(t[k])
    {
      FaultlessBytes(t, 0, IsRegNameChar, k);
    }
  }

  lemma HostBytes(h: Host, allowEmpty: bool)
    requires ValidHost(h, allowEmpty)
    ensures All(PrintHost(h), IsHostByte)
    ensures !h.Ipv6? ==> COLON !in h.text && OPEN_BRACKET !in h.text && CLOSE_BRACKET !in h.text
    ensures h.Ipv6? ==> CLOSE_BRACKET !in h.text
  {
    match h
    case Domain(t) => HostTextBytes(t);
    case Ipv4(t) => V4Bytes(t, 0);
    case Ipv6(t) => Ipv6Bytes(t);
  }

  lemma ClassifyValid(h: Host, at: nat, allowEmpty: bool)
    requires ValidHost(h, allowEmpty) && !h.Ipv6?
    ensures ClassifyHost(h.text, at, allowEmpty) == Ok(h)
  {
    match h
    case Domain(t) => FaultAnywhere(t, 0, at, IsRegNameChar);
    case Ipv4(t) => V4Bytes(t, 0);
  }

  lemma PortBytes(port: Option<Text>)
    requires port.Some? ==> ValidPort(port.value)
    ensures All(After(COLON, port), IsHostByte) && OPEN_BRACKET !in After(COLON, port)
      && CLOSE_BRACKET !in After(COLON, port)
  {
  }

  lemma SplitPlainHost(h: Host, port: Option<Text>, at: nat, allowEmpty: bool)
    requires ValidHost(h, allowEmpty) && !h.Ipv6? && (port.Some? ==> ValidPort(port.value))
    ensures SplitHostPort(h.text + After(COLON, port), at, allowEmpty) == Ok(HostPort(h, port))
  {
    var s := h.text + After(COLON, port);
    HostBytes(h, allowEmpty);
    PortBytes(port);
    hide IndexOf, Head, Tail, PortFault, ClassifyHost, ValidHost, ValidPort, After;
    HeadTailOf(h.text, COLON, port);
    ClassifyValid(h, at, allowEmpty);
    assert OPEN_BRACKET !in s && CLOSE_BRACKET !in s;
    if port.Some? {
      PortIff(port.value, at + IndexOf(s, COLON) + 1);
    }
  }

  lemma SplitBracketIs(t: Text, tail: Text, at: nat, allowEmpty: bool)
    requires IsIpv6(t) && CLOSE_BRACKET !in t
    ensures SplitHostPort([OPEN_BRACKET] + t + [CLOSE_BRACKET] + tail, at, allowEmpty) ==
      if tail == [] then Ok(HostPort(Ipv6(t), None))
      else if tail[0] != COLON then Err(InvalidHost)
      else WithPort(Ok(Ipv6(t)), Some(tail[1..]), at + |t| + 3)
  {
    hide IndexOf, IsIpv6, WithPort;
    var s := [OPEN_BRACKET] + t + [CLOSE_BRACKET] + tail;
    assert s[1..] == t + [CLOSE_BRACKET] + tail;
    IndexOfFirst(t, CLOSE_BRACKET, tail);
    assert s[1..][..|t|] == t && s[|t| + 2..] == tail;
  }

  lemma SplitBracketed(t: Text, port: Option<Text>, at: nat, allowEmpty: bool)
    requires IsIpv6(t) && (port.Some? ==> ValidPort(port.value))
    ensures SplitHostPort(PrintHost(Ipv6(t)) + After(COLON, port), at, allowEmpty) == Ok(HostPort(Ipv6(t), port))
  {
    HostBytes(Ipv6(t), allowEmpty);
    hide SplitHostPort, PortFault, IsIpv6, ValidPort;
    SplitBracketIs(t, After(COLON, port), at, allowEmpty);
    if port.Some? {
      assert After(COLON, port)[1..] == port.value;
      PortIff(port.value, at + |t| + 3);
    }
  }

  lemma SplitPrinted(h: Host, port: Option<Text>, at: nat, allowEmpty: bool)
    requires ValidHost(h, allowEmpty) && (port.Some? ==> ValidPort(port.value))
    ensures SplitHostPort(PrintHost(h) + After(COLON, port), at, allowEmpty) == Ok(HostPort(h, port))
  {
    hide SplitHostPort, After, ValidPort, IsIpv6, IsIpv4, Fault;
    match h
    case Domain(_) => SplitPlainHost(h, port, at, allowEmpty);
    case Ipv4(_) => SplitPlainHost(h, port, at, allowEmpty);
    case Ipv6(t) => SplitBracketed(t, port, at, allowEmpty);
  }

  lemma AuthorityBytes(a: Authority, allowEmpty: bool)
    requires ValidAuthority(a, allowEmpty)
    ensures var s := PrintAuthority(a); SLASH !in s && QUESTION !in s && HASH !in s
    ensures AT_SIGN !in PrintHost(a.host) + After(COLON, a.port)
    ensures a.userinfo.Some? ==> AT_SIGN !in a.userinfo.value
  {
    HostBytes(a.host, allowEmpty);
    PortBytes(a.port);
    if a.userinfo.Some? {
      Excludes(a.userinfo.value, IsUserinfoChar, SLASH);
      Excludes(a.userinfo.value, IsUserinfoChar, QUESTION);
      Excludes(a.userinfo.value, IsUserinfoChar, HASH);
      Excludes(a.userinfo.value, IsUserinfoChar, AT_SIGN);
    }
    NoDelimiters(PrintHost(a.host));
    NoDelimiters(After(COLON, a.port));
  }

  lemma NoDelimiters(s: Text)
    requires All(s, IsHostByte)
    ensures SLASH !in s && QUESTION !in s && HASH !in s && AT_SIGN !in s
  {
    forall k | 0 <= k < |s|
      ensures s[k] != SLASH && s[k] != QUESTION && s[k] != HASH && s[k] != AT_SIGN
    {
      assert IsHostByte(s[k]);
    }
  }

  function WithUser(user: Option<Text>, hp: Parsed<HostPort>): Parsed<Authority> {
    if hp.Err? then Err(hp.error) else Ok(Authority(user, hp.value.host, hp.value.port))
  }

  lemma ParseWithUser(user: Text, hp: Text, at: nat, allowEmpty: bool)
    requires AT_SIGN !in user && Faultless(user, IsUserinfoChar)
    ensures ParseAuthority(user + [AT_SIGN] + hp, at, allowEmpty)
      == WithUser(Some(user), SplitHostPort(hp, at + |user| + 1, allowEmpty))
  {
    hide IndexOf, SplitHostPort, Fault;
    var s, i := user + [AT_SIGN] + hp, |user|;
    IndexOfFirst(user, AT_SIGN, hp);
    assert s[..i] == user && s[i + 1..] == hp;
    FaultAnywhere(user, 0, at, IsUserinfoChar);
  }

  lemma ParseWithoutUser(hp: Text, at: nat, allowEmpty: bool)
    requires AT_SIGN !in hp
    ensures ParseAuthority(hp, at, allowEmpty) == WithUser(None, SplitHostPort(hp, at, allowEmpty))
  {
    hide IndexOf, SplitHostPort, Fault;
    IndexOfNone(hp, AT_SIGN);
    assert hp[0..] == hp;
  }

  lemma AuthorityParses(a: Authority, at: nat, allowEmpty: bool)
    requires ValidAuthority(a, allowEmpty)
    ensures ParseAuthority(PrintAuthority(a), at, allowEmpty) == Ok(a)
  {
    hide ParseAuthority, SplitHostPort, Faultless, PrintHost, After, ValidHost, ValidPort;
    AuthorityBytes(a, allowEmpty);
    var hp := PrintHost(a.host) + After(COLON, a.port);
    if a.userinfo.Some? {
      ParseWithUser(a.userinfo.value, hp, at, allowEmpty);
      SplitPrinted(a.host, a.port, at + |a.userinfo.value| + 1, allowEmpty);
    } else {
      assert PrintAuthority(a) == hp;
      ParseWithoutUser(hp, at, allowEmpty);
      SplitPrinted(a.host, a.port, at, allowEmpty);
    }
  }

  lemma HierSplits(text: Option<Text>, path: Text)
    requires text.Some? ==> SLASH !in text.value && (path == [] || path[0] == SLASH)
    requires text.None? ==> !([SLASH, SLASH] <= path)
    ensures var hier := (if text.Some? then [SLASH, SLASH] + text.value else []) + path;
      AuthorityText(hier) == text && PathText(hier) == path
  {
    hide IndexOf;
    var hier := (if text.Some? then [SLASH, SLASH] + text.value else []) + path;
    if text.Some? {
      var i := |text.value|;
      assert hier[2..] == text.value + path;
      if path == [] {
        IndexOfNone(text.value, SLASH);
        assert hier[2..] == text.value;
      } else {
        IndexOfFirst(text.value, SLASH, path[1..]);
        assert hier[2..] == text.value + [SLASH] + path[1..];
      }
      assert hier[2..][..i] == text.value && hier[2 + i..] == path;
    } else {
      assert hier == path;
    }
  }

  lemma HierBytes(u: Location)
    requires ValidLocation(u)
    ensures var hier := PrintHier(u.authority, u.path); QUESTION !in hier && HASH !in hier
    ensures HASH !in After(QUESTION, u.query)
  {
    hide PrintAuthority, ValidAuthority, ValidScheme, IsFile;
    Excludes(u.path, IsPathChar, QUESTION);
    Excludes(u.path, IsPathChar, HASH);
    if u.authority.Some? {
      AuthorityBytes(u.authority.value, IsFile(u.scheme));
    }
    if u.query.Some? {
      Excludes(u.query.value, IsQueryChar, HASH);
    }
  }

  /** Parsing what follows the scheme, once its parts are known. */
  lemma ParseRestIs(scheme: Text, hier: Text, query: Option<Text>, fragment: Option<Text>, at: nat)
    requires QUESTION !in hier && HASH !in hier && HASH !in After(QUESTION, query)
    ensures ParseRest(scheme, hier + After(QUESTION, query) + After(HASH, fragment), at)
      == AssembleRest(scheme, hier, query, fragment, at)
  {
    hide Head, Tail, After, AuthorityText, PathText, ParseAuthority, RestFault, IsFile;
    HeadTailOf(hier + After(QUESTION, query), HASH, fragment);
    HeadTailOf(hier, QUESTION, query);
  }

  function AssembleRest(scheme: Text, hier: Text, query: Option<Text>, fragment: Option<Text>,
      at: nat): Parsed<Location> {
    var text, path := AuthorityText(hier), PathText(hier);
    var authority := if text.Some? then ParseAuthority(text.value, at + 2, IsFile(scheme)) else Err(EmptyHost);
    if text.Some? && authority.Err? then Err(authority.error)
    else
      var fault := RestFault(path, query, fragment, at + |hier| - |path|, at + |hier| + 1,
        at + |hier| + |After(QUESTION, query)| + 1);
      if fault.Some? then Err(fault.value)
      else Ok(Location(scheme, if text.Some? then Some(authority.value) else None, path, query, fragment))
  }

  lemma NoRestFault(u: Location, p: nat, q: nat, f: nat)
    requires ValidLocation(u)
    ensures RestFault(u.path, u.query, u.fragment, p, q, f).None?
  {
    hide Fault, ValidAuthority, ValidScheme, IsFile;
    FaultAnywhere(u.path, 0, p, IsPathChar);
    if u.query.Some? {
      FaultAnywhere(u.query.value, 0, q, IsQueryChar);
    }
    if u.fragment.Some? {
      FaultAnywhere(u.fragment.value, 0, f, IsQueryChar);
    }
  }

  lemma RestParses(u: Location, at: nat)
    requires ValidLocation(u)
    ensures ParseRest(u.scheme, PrintHier(u.authority, u.path) + After(QUESTION, u.query) + After(HASH, u.fragment),
      at) == Ok(u)
  {
    hide ParseRest, After, ParseAuthority, PrintAuthority, AuthorityText, PathText, RestFault, IsFile, ValidAuthority,
      ValidScheme, Faultless;
    HierBytes(u);
    var hier := PrintHier(u.authority, u.path);
    ParseRestIs(u.scheme, hier, u.query, u.fragment, at);
    if u.authority.Some? {
      AuthorityBytes(u.authority.value, IsFile(u.scheme));
      AuthorityParses(u.authority.value, at + 2, IsFile(u.scheme));
      HierSplits(Some(PrintAuthority(u.authority.value)), u.path);
    } else {
      HierSplits(None, u.path);
    }
    NoRestFault(u, at + |hier| - |u.path|, at + |hier| + 1, at + |hier| + |After(QUESTION, u.query)| + 1);
  }

  /** Parsing a printed URL gives its parts back. */
  lemma ParseUndoesPrint(u: Location)
    requires ValidLocation(u)
    ensures Parse(Print(u)) == Ok(u)
  {
    hide IndexOf, ParseRest, PrintHier, After, Fault;
    var rest := PrintHier(u.authority, u.path) + After(QUESTION, u.query) + After(HASH, u.fragment);
    var s := Print(u);
    SchemeHasNoColon(u.scheme);
    IndexOfFirst(u.scheme, COLON, rest);
    assert s == u.scheme + [COLON] + rest && s[..|u.scheme|] == u.scheme && s[|u.scheme| + 1..] == rest;
    RestParses(u, |u.scheme| + 1);
  }

  lemma SchemeHasNoColon(s: Text)
    requires ValidScheme(s)
    ensures COLON !in s
  {
    assert forall k :: 1 <= k < |s| ==> s[1..][k - 1] == s[k];
  }

  // ----- The accepted strings are exactly the printings of valid parts -----

  lemma SplitIsValid(s: Text, at: nat, allowEmpty: bool)
    requires SplitHostPort(s, at, allowEmpty).Ok?
    ensures var hp := SplitHostPort(s, at, allowEmpty).value;
      ValidHost(hp.host, allowEmpty) && (hp.port.Some? ==> ValidPort(hp.port.value))
  {
    hide IndexOf, Head, Tail, PortFault, IsIpv6, IsIpv4, Fault, ValidPort;
    var hp := SplitHostPort(s, at, allowEmpty).value;
    if hp.port.Some? {
      PortIff(hp.port.value,
        if hp.host.Ipv6? then at + IndexOf(s[1..], CLOSE_BRACKET) + 3 else at + IndexOf(s, COLON) + 1);
    }
    if hp.host.Domain? {
      FaultAnywhere(hp.host.text, at, 0, IsRegNameChar);
    }
  }

  lemma AuthorityIsValid(s: Text, at: nat, allowEmpty: bool)
    requires ParseAuthority(s, at, allowEmpty).Ok?
    ensures ValidAuthority(ParseAuthority(s, at, allowEmpty).value, allowEmpty)
  {
    hide IndexOf, SplitHostPort, Fault, ValidHost, ValidPort;
    var i := IndexOf(s, AT_SIGN);
    var start := if i < |s| then i + 1 else 0;
    SplitIsValid(s[start..], at + start, allowEmpty);
    if i < |s| {
      FaultAnywhere(s[..i], at, 0, IsUserinfoChar);
    }
  }

  lemma PathIsValid(hier: Text)
    ensures AuthorityText(hier).Some? ==> PathText(hier) == [] || PathText(hier)[0] == SLASH
    ensures AuthorityText(hier).None? ==> !([SLASH, SLASH] <= PathText(hier))
  {
    hide IndexOf;
    if [SLASH, SLASH] <= hier {
      var i := IndexOf(hier[2..], SLASH);
      assert i < |hier| - 2 ==> hier[2..][i] == hier[2 + i];
    }
  }

  lemma ParsedIsValid(input: Text)
    requires Parse(input).Ok?
    ensures ValidLocation(Parse(input).value)
  {
    hide IndexOf, Head, Tail, AuthorityText, PathText, ParseAuthority, Fault, ValidScheme, ValidAuthority, IsFile;
    var i := IndexOf(input, COLON);
    var scheme, rest, at := input[..i], input[i + 1..], i + 1;
    var front := Head(rest, HASH);
    var hier := Head(front, QUESTION);
    var u := Parse(input).value;
    PathIsValid(hier);
    if AuthorityText(hier).Some? {
      AuthorityIsValid(AuthorityText(hier).value, at + 2, IsFile(scheme));
    }
    FaultAnywhere(u.path, at + |hier| - |u.path|, 0, IsPathChar);
    if u.query.Some? {
      FaultAnywhere(u.query.value, at + |hier| + 1, 0, IsQueryChar);
    }
    if u.fragment.Some? {
      FaultAnywhere(u.fragment.value, at + |front| + 1, 0, IsQueryChar);
    }
  }

  /** A string is accepted exactly when it is the printing of valid parts. */
  lemma AcceptedIffPrinted(input: Text)
    ensures Parse(input).Ok? <==> exists u :: ValidLocation(u) && Print(u) == input
  {
    hide Parse, Print, ValidLocation;
    if Parse(input).Ok? {
      PrintUndoesParse(input);
      ParsedIsValid(input);
    }
    forall u | ValidLocation(u) && Print(u) == input
      ensures Parse(input).Ok?
    {
      ParseUndoesPrint(u);
    }
  }
}
