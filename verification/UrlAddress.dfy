/** The address literals of a URL host: the scanners accept exactly the grammar of RFC 3986. */
module UrlAddress {
  import opened Bytes

  const DOT: byte := '.' as int
  const COLON: byte := ':' as int
  const ZERO: byte := '0' as int

  predicate IsDigit(b: byte) { '0' as int <= b <= '9' as int }

  predicate IsHex(b: byte) { IsDigit(b) || 'a' as int <= b <= 'f' as int || 'A' as int <= b <= 'F' as int }

  predicate All(s: seq<byte>, p: byte -> bool) { forall k :: 0 <= k < |s| ==> p(s[k]) }

  /** The length of the longest prefix whose bytes satisfy `p`. */
  function RunLength(s: seq<byte>, p: byte -> bool): (n: nat)
    ensures n <= |s| && All(s[..n], p) && (n < |s| ==> !p(s[n]))
  {
    if s == [] || !p(s[0]) then 0
    else
      var n := 1 + RunLength(s[1..], p);
      assert forall k :: 0 < k < n ==> s[..n][k] == s[1..][..n - 1][k - 1];
      n
  }

  lemma RunOf(d: seq<byte>, rest: seq<byte>, p: byte -> bool)
    requires All(d, p) && (rest != [] ==> !p(rest[0]))
    ensures RunLength(d + rest, p) == |d|
  {
    hide RunLength;
    var s := d + rest;
    assert forall k :: 0 <= k < |d| ==> s[k] == d[k] && p(s[k]);
    assert rest != [] ==> s[|d|] == rest[0];
    assert forall n :: |d| < n <= |s| ==> s[..n][|d|] == rest[0];
  }

  // ----- IPv4 -----

  function Value(d: seq<byte>): int
    decreases |d|
  {
    if d == [] then 0 else Value(d[..|d| - 1]) * 10 + (d[|d| - 1] as int - ZERO as int)
  }

  /** The dec-octet rule: 0 to 255 without leading zeroes. */
  predicate Octet(d: seq<byte>) {
    1 <= |d| <= 3 && All(d, IsDigit) && (|d| > 1 ==> d[0] != ZERO) && Value(d) <= 255
  }

  predicate Octets(os: seq<seq<byte>>) { forall k :: 0 <= k < |os| ==> Octet(os[k]) }

  function Join(ps: seq<seq<byte>>, sep: byte): seq<byte> {
    if ps == [] then [] else if |ps| == 1 then ps[0] else ps[0] + [sep] + Join(ps[1..], sep)
  }

  /** The IPv4address rule: four octets between dots. */
  ghost predicate Ipv4Address(s: seq<byte>) { exists os :: |os| == 4 && Octets(os) && s == Join(os, DOT) }

  /** The scan: one octet, then the rest; `n` octets came before. */
  predicate ScanV4(s: seq<byte>, n: nat)
    decreases |s|
  {
    var k := RunLength(s, IsDigit);
    Octet(s[..k]) && if k == |s| then n + 1 == 4 else s[k] == DOT && k + 1 < |s| && ScanV4(s[k + 1..], n + 1)
  }

  predicate IsIpv4(s: seq<byte>) { ScanV4(s, 0) }

  lemma {:induction false} ScanV4Sound(s: seq<byte>, n: nat) returns (os: seq<seq<byte>>)
    requires ScanV4(s, n)
    ensures os != [] && Octets(os) && s == Join(os, DOT) && n + |os| == 4
    decreases |s|
  {
    hide Octet;
    var k := RunLength(s, IsDigit);
    var d := s[..k];
    if k == |s| {
      assert d == s;
      return [d];
    }
    var rest := ScanV4Sound(s[k + 1..], n + 1);
    os := [d] + rest;
    assert os[1..] == rest;
    assert s == d + [DOT] + s[k + 1..];
  }

  lemma {:induction false} ScanV4Complete(os: seq<seq<byte>>, n: nat)
    requires os != [] && Octets(os)
    ensures ScanV4(Join(os, DOT), n) <==> n + |os| == 4
    decreases |os|
  {
    var s, d := Join(os, DOT), os[0];
    assert Octet(d);
    if |os| == 1 {
      RunOf(d, [], IsDigit);
      assert d + [] == d && s[..|d|] == d;
    } else {
      var rest := Join(os[1..], DOT);
      assert Octets(os[1..]);
      NotEmpty(os[1..]);
      RunOf(d, [DOT] + rest, IsDigit);
      assert s == d + ([DOT] + rest) && s[..|d|] == d && s[|d| + 1..] == rest;
      ScanV4Complete(os[1..], n + 1);
    }
  }

  lemma NotEmpty(os: seq<seq<byte>>)
    requires os != [] && Octets(os)
    ensures Join(os, DOT) != []
  {
    assert Octet(os[0]);
  }

  /** The scanner accepts exactly the IPv4 addresses. */
  lemma Ipv4Iff(s: seq<byte>)
    ensures IsIpv4(s) <==> Ipv4Address(s)
  {
    if IsIpv4(s) {
      var os := ScanV4Sound(s, 0);
    }
    if Ipv4Address(s) {
      var os :| |os| == 4 && Octets(os) && s == Join(os, DOT);
      ScanV4Complete(os, 0);
    }
  }

  // ----- IPv6 -----

  /** The h16 rule. */
  predicate Group(d: seq<byte>) { 1 <= |d| <= 4 && All(d, IsHex) }

  predicate Groups(ps: seq<seq<byte>>) { forall k :: 0 <= k < |ps| ==> Group(ps[k]) }

  /** Pieces between colons: groups, the last of which may be an IPv4 address. */
  ghost predicate Pieces(ps: seq<seq<byte>>) {
    ps != [] && Groups(ps[..|ps| - 1]) && (Group(ps[|ps| - 1]) || Ipv4Address(ps[|ps| - 1]))
  }

  /** How many 16-bit groups pieces stand for: an IPv4 address counts two. */
  function Count(ps: seq<seq<byte>>): nat { if ps == [] then 0 else |ps| + if DOT in ps[|ps| - 1] then 1 else 0 }

  ghost predicate Whole(s: seq<byte>, n: int) { exists ps :: Pieces(ps) && s == Join(ps, COLON) && Count(ps) == n }

  /** At most `n` groups, at least none. */
  ghost predicate Right(s: seq<byte>, n: int) {
    s == [] || exists ps :: Pieces(ps) && s == Join(ps, COLON) && Count(ps) <= n
  }

  ghost predicate Split(s: seq<byte>, l: seq<seq<byte>>, r: seq<byte>, n: int) {
    l != [] && Groups(l) && s == Join(l, COLON) + [COLON, COLON] + r && Right(r, n - |l|) && |l| <= n
  }

  ghost predicate Compressed(s: seq<byte>, n: int) { exists l, r :: Split(s, l, r, n) }

  /** The IPv6address rule: eight 16-bit groups, the last two possibly written as an IPv4
      address, or at most seven with one `::` standing for the missing ones. */
  ghost predicate Ipv6Address(s: seq<byte>) {
    Whole(s, 8) || Compressed(s, 7) || (|s| >= 2 && s[0] == COLON && s[1] == COLON && Right(s[2..], 7))
  }

  predicate Fits(groups: nat, compressed: bool) { if compressed then groups < 8 else groups == 8 }

  /** The scan at the start of a piece, after `groups` groups. */
  predicate ScanV6(s: seq<byte>, groups: nat, compressed: bool)
    decreases |s|
  {
    var k := RunLength(s, IsHex);
    k > 0 &&
    if k < |s| && s[k] == DOT then IsIpv4(s) && Fits(groups + 2, compressed)
    else if k > 4 then false
    else if k == |s| then Fits(groups + 1, compressed)
    else if s[k] != COLON || k + 1 == |s| then false
    else if s[k + 1] != COLON then ScanV6(s[k + 1..], groups + 1, compressed)
    else if compressed then false
    else if k + 2 == |s| then Fits(groups + 1, true)
    else ScanV6(s[k + 2..], groups + 1, true)
  }

  predicate IsIpv6(s: seq<byte>) {
    s != [] &&
    if s[0] == COLON then |s| >= 2 && s[1] == COLON && (|s| == 2 || ScanV6(s[2..], 0, true))
    else ScanV6(s, 0, false)
  }

  lemma GroupHasNoDot(d: seq<byte>)
    requires Group(d)
    ensures DOT !in d && COLON !in d
  {
  }

  lemma {:induction false} V4HasDot(s: seq<byte>)
    requires IsIpv4(s) || Ipv4Address(s)
    ensures IsIpv4(s) && Ipv4Address(s)
    ensures DOT in s && s != [] && IsDigit(s[0]) && RunLength(s, IsHex) < |s| && s[RunLength(s, IsHex)] == DOT
      && RunLength(s, IsHex) > 0
  {
    Ipv4Iff(s);
    hide Ipv4Address;
    var k := RunLength(s, IsDigit);
    assert s[k] == DOT;
    var d, rest := s[..k], s[k..];
    assert All(d, IsHex) by {
      assert forall i :: 0 <= i < |d| ==> IsDigit(d[i]);
    }
    RunOf(d, rest, IsHex);
    assert d + rest == s;
    assert d[0] == s[0];
  }

  /** One group in front of a scan. */
  lemma ScanGroup(d: seq<byte>, rest: seq<byte>, groups: nat, compressed: bool)
    requires Group(d) && rest != [] && rest[0] != COLON
    ensures ScanV6(d + [COLON] + rest, groups, compressed) == ScanV6(rest, groups + 1, compressed)
  {
    var s := d + [COLON] + rest;
    RunOf(d, [COLON] + rest, IsHex);
    assert s == d + ([COLON] + rest);
    assert s[|d|] == COLON && s[|d| + 1] == rest[0] && s[|d| + 1..] == rest;
  }

  lemma FirstOfPieces(ps: seq<seq<byte>>)
    requires Pieces(ps)
    ensures Join(ps, COLON) != [] && Join(ps, COLON)[0] != COLON
  {
    var d := ps[0];
    if |ps| == 1 && !Group(d) {
      V4HasDot(d);
    } else {
      assert Group(d) by {
        assert |ps| > 1 ==> ps[..|ps| - 1][0] == d;
      }
      assert IsHex(d[0]);
    }
  }

  /** Pieces to the end of the address scan to their count. */
  lemma {:induction false} ScanPieces(ps: seq<seq<byte>>, groups: nat, compressed: bool)
    requires Pieces(ps)
    ensures ScanV6(Join(ps, COLON), groups, compressed) <==> Fits(groups + Count(ps), compressed)
    decreases |ps|
  {
    var d := ps[0];
    if |ps| == 1 {
      if Group(d) {
        GroupHasNoDot(d);
        RunOf(d, [], IsHex);
        assert d + [] == d;
      } else {
        V4HasDot(d);
      }
    } else {
      assert ps[..|ps| - 1][0] == d && Group(d);
      PiecesTail(ps);
      FirstOfPieces(ps[1..]);
      ScanGroup(d, Join(ps[1..], COLON), groups, compressed);
      ScanPieces(ps[1..], groups + 1, compressed);
    }
  }

  lemma PiecesTail(ps: seq<seq<byte>>)
    requires Pieces(ps) && |ps| > 1
    ensures Pieces(ps[1..]) && Count(ps) == 1 + Count(ps[1..])
  {
    var t := ps[1..];
    var front := t[..|t| - 1];
    assert t[|t| - 1] == ps[|ps| - 1];
    forall k | 0 <= k < |front|
      ensures Group(front[k])
    {
      assert front[k] == ps[..|ps| - 1][k + 1];
    }
  }

  /** One turn of the scan: a run of hexadecimal digits and what may follow it. */
  lemma ScanAt(s: seq<byte>, k: nat, groups: nat, compressed: bool)
    requires k == RunLength(s, IsHex)
    ensures ScanV6(s, groups, compressed) <==>
      k > 0 &&
      if k < |s| && s[k] == DOT then IsIpv4(s) && Fits(groups + 2, compressed)
      else if k > 4 then false
      else if k == |s| then Fits(groups + 1, compressed)
      else if s[k] != COLON || k + 1 == |s| then false
      else if s[k + 1] != COLON then ScanV6(s[k + 1..], groups + 1, compressed)
      else if compressed then false
      else if k + 2 == |s| then Fits(groups + 1, true)
      else ScanV6(s[k + 2..], groups + 1, true)
  {
    hide IsIpv4;
  }

  lemma ScanDouble(d: seq<byte>, r: seq<byte>, groups: nat)
    requires Group(d)
    ensures ScanV6(d + [COLON, COLON] + r, groups, false)
      <==> if r == [] then Fits(groups + 1, true) else ScanV6(r, groups + 1, true)
  {
    hide ScanV6, IsIpv4, RunLength, Fits;
    var s := d + [COLON, COLON] + r;
    RunOf(d, [COLON, COLON] + r, IsHex);
    assert s == d + ([COLON, COLON] + r);
    assert s[|d|] == COLON && s[|d| + 1] == COLON && s[|d| + 2..] == r;
    ScanAt(s, |d|, groups, false);
  }

  lemma GroupsArePieces(l: seq<seq<byte>>)
    requires l != [] && Groups(l)
    ensures Pieces(l)
  {
    hide Group, Ipv4Address;
  }

  /** Groups, a double colon and the rest scan to the rest after compression. */
  lemma {:induction false} ScanSplit(l: seq<seq<byte>>, r: seq<byte>, groups: nat)
    requires l != [] && Groups(l)
    ensures ScanV6(Join(l, COLON) + [COLON, COLON] + r, groups, false)
      <==> if r == [] then Fits(groups + |l|, true) else ScanV6(r, groups + |l|, true)
    decreases |l|
  {
    hide ScanV6, Group, Fits, IsIpv4, Pieces;
    var d := l[0];
    assert Group(d);
    if |l| == 1 {
      ScanDouble(d, r, groups);
    } else {
      var t := l[1..];
      GroupsArePieces(t);
      FirstOfPieces(t);
      var rest := Join(t, COLON) + [COLON, COLON] + r;
      ScanGroup(d, rest, groups, false);
      ScanSplit(t, r, groups + 1);
      assert Join(l, COLON) + [COLON, COLON] + r == d + [COLON] + rest;
    }
  }

  /** A scan after compression found pieces. */
  lemma {:induction false} ScanFindsPieces(s: seq<byte>, groups: nat) returns (ps: seq<seq<byte>>)
    requires ScanV6(s, groups, true)
    ensures Pieces(ps) && s == Join(ps, COLON) && groups + Count(ps) < 8
    decreases |s|
  {
    hide Ipv4Address, IsIpv4;
    var k := RunLength(s, IsHex);
    if k < |s| && s[k] == DOT {
      V4HasDot(s);
      return [s];
    }
    var d := s[..k];
    if k == |s| {
      assert d == s;
      GroupHasNoDot(d);
      return [d];
    }
    var rest := ScanFindsPieces(s[k + 1..], groups + 1);
    ps := [d] + rest;
    PiecesCons(d, rest);
    assert s == d + [COLON] + s[k + 1..];
  }

  lemma PiecesCons(d: seq<byte>, rest: seq<seq<byte>>)
    requires Group(d) && Pieces(rest)
    ensures Pieces([d] + rest) && Count([d] + rest) == 1 + Count(rest)
    ensures Join([d] + rest, COLON) == d + [COLON] + Join(rest, COLON)
  {
    hide Group;
    var ps := [d] + rest;
    var front := ps[..|ps| - 1];
    assert ps[1..] == rest && ps[|ps| - 1] == rest[|rest| - 1];
    forall k | 0 <= k < |front|
      ensures Group(front[k])
    {
      assert k > 0 ==> front[k] == rest[..|rest| - 1][k - 1];
    }
  }

  lemma FindsDouble(s: seq<byte>, d: seq<byte>, r: seq<byte>, groups: nat)
    requires Group(d) && s == d + [COLON, COLON] + r
      && if r == [] then Fits(groups + 1, true) else ScanV6(r, groups + 1, true)
    ensures Compressed(s, 7 - groups)
  {
    hide ScanV6, Pieces, Group;
    if r != [] {
      var ps := ScanFindsPieces(r, groups + 1);
    }
    assert Right(r, 7 - groups - 1);
    assert Join([d], COLON) == d && Split(s, [d], r, 7 - groups);
  }

  /** A scan found either all pieces or a double colon between them. */
  lemma {:induction false} ScanFinds(s: seq<byte>, groups: nat)
    requires groups <= 8 && ScanV6(s, groups, false)
    ensures Whole(s, 8 - groups) || Compressed(s, 7 - groups)
    decreases |s|, 0
  {
    hide Ipv4Address, IsIpv4;
    var k := RunLength(s, IsHex);
    if k < |s| && s[k] == DOT {
      V4HasDot(s);
      assert Pieces([s]) && s == Join([s], COLON) && Count([s]) == 2;
    } else {
      var d := s[..k];
      GroupHasNoDot(d);
      if k == |s| {
        assert d == s;
        assert Pieces([d]) && s == Join([d], COLON) && Count([d]) == 1;
      } else if s[k + 1] != COLON {
        ScanFindsMore(s, d, s[k + 1..], groups);
      } else {
        FindsDouble(s, d, s[k + 2..], groups);
      }
    }
  }

  lemma WholeCons(d: seq<byte>, t: seq<byte>, n: int)
    requires Group(d) && Whole(t, n)
    ensures Whole(d + [COLON] + t, n + 1)
  {
    hide Group, Pieces, Count, Join;
    var ps :| Pieces(ps) && t == Join(ps, COLON) && Count(ps) == n;
    PiecesCons(d, ps);
    assert Pieces([d] + ps) && Count([d] + ps) == n + 1;
  }

  lemma CompressedCons(d: seq<byte>, t: seq<byte>, n: int)
    requires Group(d) && Compressed(t, n)
    ensures Compressed(d + [COLON] + t, n + 1)
  {
    hide Group, Join, Right, IsIpv4;
    var l, r :| Split(t, l, r, n);
    assert Pieces(l);
    PiecesCons(d, l);
    var s := d + [COLON] + t;
    assert s == Join([d] + l, COLON) + [COLON, COLON] + r;
    assert Split(s, [d] + l, r, n + 1);
  }

  lemma {:induction false} ScanFindsMore(s: seq<byte>, d: seq<byte>, t: seq<byte>, groups: nat)
    requires groups <= 8 && Group(d) && s == d + [COLON] + t && ScanV6(t, groups + 1, false)
    ensures Whole(s, 8 - groups) || Compressed(s, 7 - groups)
    decreases |t|, 1
  {
    hide ScanV6, Group, Whole, Compressed;
    if groups < 8 {
      ScanFinds(t, groups + 1);
      if Whole(t, 7 - groups) {
        WholeCons(d, t, 7 - groups);
      } else {
        CompressedCons(d, t, 6 - groups);
      }
    } else {
      TooMany(t, groups + 1);
    }
  }

  lemma {:induction false} TooMany(s: seq<byte>, groups: nat)
    requires groups > 8
    ensures !ScanV6(s, groups, false) && !ScanV6(s, groups, true)
    decreases |s|
  {
    if s != [] {
      var k := RunLength(s, IsHex);
      if k + 1 < |s| {
        TooMany(s[k + 1..], groups + 1);
        TooMany(s[k + 2..], groups + 1);
      }
    }
  }

  /** The scanner accepts exactly the IPv6 addresses. */
  lemma Ipv6Iff(s: seq<byte>)
    ensures IsIpv6(s) <==> Ipv6Address(s)
  {
    if IsIpv6(s) {
      if s[0] != COLON {
        ScanFinds(s, 0);
      } else if |s| > 2 {
        var ps := ScanFindsPieces(s[2..], 0);
        assert Right(s[2..], 7);
      }
    }
    if Ipv6Address(s) {
      Ipv6Complete(s);
    }
  }

  lemma Ipv6Complete(s: seq<byte>)
    requires Ipv6Address(s)
    ensures IsIpv6(s)
  {
    if Whole(s, 8) {
      var ps :| Pieces(ps) && s == Join(ps, COLON) && Count(ps) == 8;
      FirstOfPieces(ps);
      ScanPieces(ps, 0, false);
    } else if Compressed(s, 7) {
      var l, r :| Split(s, l, r, 7);
      assert Pieces(l);
      FirstOfPieces(l);
      ScanSplit(l, r, 0);
      if r != [] {
        var ps :| Pieces(ps) && r == Join(ps, COLON) && Count(ps) <= 7 - |l|;
        ScanPieces(ps, |l|, true);
      }
    } else if s[2..] != [] {
      var ps :| Pieces(ps) && s[2..] == Join(ps, COLON) && Count(ps) <= 7;
      ScanPieces(ps, 0, true);
    }
  }

  // ----- The scanners as loops -----

  method Run(s: seq<byte>, from: nat, p: byte -> bool) returns (i: nat)
    requires from <= |s|
    ensures i == from + RunLength(s[from..], p)
  {
    i := from;
    while i < |s| && p(s[i])
      invariant from <= i <= |s| && RunLength(s[from..], p) == i - from + RunLength(s[i..], p)
    {
      assert s[i..][0] == s[i] && s[i..][1..] == s[i + 1..];
      i := i + 1;
    }
  }

  method CheckOctet(d: seq<byte>) returns (ok: bool)
    requires All(d, IsDigit)
    ensures ok == Octet(d)
  {
    if |d| == 0 || |d| > 3 || (|d| > 1 && d[0] == ZERO) {
      return false;
    }
    var value, j := 0, 0;
    while j < |d|
      invariant 0 <= j <= |d| && value == Value(d[..j])
    {
      assert d[..j + 1][..j] == d[..j];
      value := value * 10 + (d[j] as int - ZERO as int);
      j := j + 1;
    }
    assert d[..j] == d;
    ok := value <= 255;
  }

  lemma ScanV4At(s: seq<byte>, k: nat, n: nat)
    requires k == RunLength(s, IsDigit)
    ensures ScanV4(s, n) <==>
      Octet(s[..k]) && if k == |s| then n + 1 == 4 else s[k] == DOT && k + 1 < |s| && ScanV4(s[k + 1..], n + 1)
  {
    hide Octet;
  }

  method CheckIpv4(s: seq<byte>) returns (ok: bool)
    ensures ok == IsIpv4(s)
  {
    hide Octet, RunLength, ScanV4;
    if s == [] {
      EmptyIsNotIpv4();
      return false;
    }
    var i, octets := 0, 0;
    assert s[0..] == s;
    while true
      invariant 0 <= i < |s| && ScanV4(s, 0) == ScanV4(s[i..], octets)
      decreases |s| - i
    {
      var end := Run(s, i, IsDigit);
      ScanV4At(s[i..], end - i, octets);
      Suffix(s, i, end);
      assert s[i..][..end - i] == s[i..end];
      var octet := CheckOctet(s[i..end]);
      if !octet {
        return false;
      }
      octets := octets + 1;
      if end == |s| {
        return octets == 4;
      }
      if s[end] != DOT || end + 1 == |s| {
        return false;
      }
      i := end + 1;
    }
  }

  lemma EmptyIsNotIpv4()
    ensures !IsIpv4([])
  {
  }

  method CheckIpv6(s: seq<byte>) returns (ok: bool)
    ensures ok == IsIpv6(s)
  {
    if s == [] {
      return false;
    }
    var i, compressed := 0, false;
    assert s[0..] == s;
    if s[0] == COLON {
      if |s| < 2 || s[1] != COLON {
        return false;
      }
      compressed, i := true, 2;
      if i == |s| {
        return true;
      }
    }
    ok := ScanRest(s, i, compressed);
  }

  lemma Suffix(s: seq<byte>, i: nat, end: nat)
    requires i <= end <= |s|
    ensures var t := s[i..];
      && (end < |s| ==> t[end - i] == s[end] && t[end + 1 - i..] == s[end + 1..])
      && (end + 1 < |s| ==> t[end + 1 - i] == s[end + 1] && t[end + 2 - i..] == s[end + 2..])
  {
  }

  method ScanRest(s: seq<byte>, from: nat, wasCompressed: bool) returns (ok: bool)
    requires from < |s|
    ensures ok == ScanV6(s[from..], 0, wasCompressed)
  {
    hide ScanV6, IsIpv4, Fits, RunLength;
    var i, groups, compressed := from, 0, wasCompressed;
    while true
      invariant from <= i < |s| && ScanV6(s[from..], 0, wasCompressed) == ScanV6(s[i..], groups, compressed)
      decreases |s| - i
    {
      var end := Run(s, i, IsHex);
      ScanAt(s[i..], end - i, groups, compressed);
      Suffix(s, i, end);
      if end == i {
        return false;
      }
      if end < |s| && s[end] == DOT {
        var v4 := CheckIpv4(s[i..]);
        return v4 && Fits(groups + 2, compressed);
      }
      if end - i > 4 {
        return false;
      }
      groups := groups + 1;
      if end == |s| {
        return Fits(groups, compressed);
      }
      if s[end] != COLON || end + 1 == |s| {
        return false;
      }
      i := end + 1;
      if s[i] == COLON {
        if compressed {
          return false;
        }
        compressed := true;
        i := i + 1;
        if i == |s| {
          return Fits(groups, true);
        }
      }
    }
  }
}
