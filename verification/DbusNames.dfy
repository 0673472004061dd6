/** The names a D-Bus message carries, and the errors of the library. */
module DbusNames {
  import opened Bytes

  datatype DbusError =
    | Disconnected
    | Io(errno: int)
    | InvalidName
    | InvalidSignature
    | InvalidMessage
    | MessageTooBig(size: nat)
    | Auth
    | Timeout
    | InvalidState
    | Remote(name: seq<byte>)

  const MAX_NAME_LEN := 0x100

  const DOT: byte := 46
  const SLASH: byte := 47
  const COLON: byte := 58
  const HYPHEN: byte := 45
  const UNDERSCORE: byte := 95

  predicate IsDigit(b: byte) { 48 <= b <= 57 }

  predicate IsAlpha(b: byte) { 65 <= b <= 90 || 97 <= b <= 122 }

  predicate NameByte(b: byte, hyphen: bool) { IsAlpha(b) || IsDigit(b) || b == UNDERSCORE || (hyphen && b == HYPHEN) }

  predicate FirstByte(b: byte, digit: bool) { IsAlpha(b) || b == UNDERSCORE || (digit && IsDigit(b)) }

  // ----- The grammar: names are elements joined by a separator -----

  predicate Chars(e: seq<byte>, hyphen: bool) { forall k :: 0 <= k < |e| ==> NameByte(e[k], hyphen) }

  predicate Element(e: seq<byte>, hyphen: bool, digit: bool) { e != [] && FirstByte(e[0], digit) && Chars(e, hyphen) }

  predicate PathElement(e: seq<byte>) { e != [] && Chars(e, false) }

  function Join(es: seq<seq<byte>>, sep: byte): (s: seq<byte>)
    requires es != []
  {
    if |es| == 1 then es[0] else es[0] + [sep] + Join(es[1..], sep)
  }

  predicate Elements(es: seq<seq<byte>>, hyphen: bool, digit: bool) {
    forall k :: 0 <= k < |es| ==> Element(es[k], hyphen, digit)
  }

  predicate PathElements(es: seq<seq<byte>>) { forall k :: 0 <= k < |es| ==> PathElement(es[k]) }

  ghost predicate ElementName(s: seq<byte>, hyphen: bool, digit: bool, min: nat) {
    |s| <= MAX_NAME_LEN && exists es :: |es| >= min && es != [] && Elements(es, hyphen, digit) && s == Join(es, DOT)
  }

  /** What each kind of name may be, as the specification's grammar says it. */
  ghost predicate InterfaceName(s: seq<byte>) { ElementName(s, false, false, 2) }

  ghost predicate BusName(s: seq<byte>) {
    if s != [] && s[0] == COLON then ElementName(s[1..], true, true, 2) else ElementName(s, true, false, 2)
  }

  ghost predicate ObjectPath(s: seq<byte>) {
    s == [SLASH] || exists es :: es != [] && PathElements(es) && s == [SLASH] + Join(es, SLASH)
  }

  // ----- The validators: one scan over the bytes -----

  /** The pieces of `s` from `start` on, `s[start..i]` being free of separators. */
  function Pieces(s: seq<byte>, sep: byte, start: nat, i: nat): (r: seq<seq<byte>>)
    requires start <= i <= |s|
    ensures r != []
    decreases |s| - i
  {
    if i == |s| then [s[start..i]]
    else if s[i] == sep then [s[start..i]] + Pieces(s, sep, i + 1, i + 1)
    else Pieces(s, sep, start, i + 1)
  }

  predicate ValidElements(s: seq<byte>, hyphen: bool, digit: bool, min: nat) {
    var es := Pieces(s, DOT, 0, 0);
    0 < |s| <= MAX_NAME_LEN && Elements(es, hyphen, digit) && |es| >= min
  }

  predicate ValidInterface(s: seq<byte>) { ValidElements(s, false, false, 2) }

  predicate ValidMember(s: seq<byte>) { |s| <= MAX_NAME_LEN && Element(s, false, false) }

  predicate ValidBusName(s: seq<byte>) {
    if s != [] && s[0] == COLON then ValidElements(s[1..], true, true, 2) else ValidElements(s, true, false, 2)
  }

  predicate ValidPath(s: seq<byte>) {
    s != [] && s[0] == SLASH && (|s| == 1 || PathElements(Pieces(s, SLASH, 1, 1)))
  }

  lemma {:induction false} PiecesJoin(s: seq<byte>, sep: byte, start: nat, i: nat)
    requires start <= i <= |s|
    ensures Join(Pieces(s, sep, start, i), sep) == s[start..]
    decreases |s| - i
  {
    if i < |s| && s[i] == sep {
      PiecesJoin(s, sep, i + 1, i + 1);
      var rest := Pieces(s, sep, i + 1, i + 1);
      assert ([s[start..i]] + rest)[1..] == rest;
      assert s[start..] == s[start..i] + [sep] + s[i + 1..];
    } else if i < |s| {
      PiecesJoin(s, sep, start, i + 1);
    }
  }

  ghost predicate Free(es: seq<seq<byte>>, sep: byte) { forall k :: 0 <= k < |es| ==> sep !in es[k] }

  /** Splitting undoes joining when no element holds the separator. */
  lemma {:induction false} JoinPieces(s: seq<byte>, sep: byte, start: nat, i: nat, es: seq<seq<byte>>)
    requires start <= i <= |s| && es != [] && Free(es, sep)
    requires sep !in s[start..i] && s[start..] == Join(es, sep)
    ensures Pieces(s, sep, start, i) == es
    decreases |s| - i
  {
    var e := es[0];
    assert |s| >= start + |e|;
    assert e == s[start..start + |e|];
    if |es| > 1 {
      assert s[start + |e|] == s[start..][|e|] == sep;
    }
    if i < start + |e| {
      assert s[i] == e[i - start];
      JoinPieces(s, sep, start, i + 1, es);
    } else if |es| == 1 {
      assert i == |s|;
    } else {
      assert i == start + |e|;
      assert s[i + 1..] == s[start..][|e| + 1..] == Join(es[1..], sep);
      assert Free(es[1..], sep);
      JoinPieces(s, sep, i + 1, i + 1, es[1..]);
      assert es == [e] + es[1..];
    }
  }

  lemma ElementNameIff(s: seq<byte>, hyphen: bool, digit: bool, min: nat)
    ensures ValidElements(s, hyphen, digit, min) <==> ElementName(s, hyphen, digit, min)
  {
    PiecesJoin(s, DOT, 0, 0);
    assert s[0..] == s;
    if ElementName(s, hyphen, digit, min) {
      var es :| |es| >= min && es != [] && Elements(es, hyphen, digit) && s == Join(es, DOT);
      assert Element(es[0], hyphen, digit);
      JoinPieces(s, DOT, 0, 0, es);
    }
  }

  lemma PathIff(s: seq<byte>)
    ensures ValidPath(s) <==> ObjectPath(s)
  {
    if |s| > 1 && s[0] == SLASH {
      PiecesJoin(s, SLASH, 1, 1);
      assert s == [SLASH] + s[1..];
    }
    if ObjectPath(s) && s != [SLASH] {
      var es :| es != [] && PathElements(es) && s == [SLASH] + Join(es, SLASH);
      assert PathElement(es[0]);
      assert s[1..] == Join(es, SLASH);
      JoinPieces(s, SLASH, 1, 1, es);
    }
  }

  /** The validators accept exactly the names of the grammar. */
  lemma NamesAreTheGrammar(s: seq<byte>)
    ensures ValidInterface(s) <==> InterfaceName(s)
    ensures ValidBusName(s) <==> BusName(s)
    ensures ValidPath(s) <==> ObjectPath(s)
  {
    hide ElementName, ValidElements, ValidPath, ObjectPath;
    ElementNameIff(s, false, false, 2);
    ElementNameIff(s, true, false, 2);
    if s != [] {
      ElementNameIff(s[1..], true, true, 2);
    }
    PathIff(s);
  }

  // ----- How long a name may be -----

  const LETTER: byte := 97

  function Letters(n: nat): (e: seq<byte>)
    ensures |e| == n && forall k :: 0 <= k < n ==> e[k] == LETTER
  {
    seq(n, i => LETTER)
  }

  /** A name of two elements, `a.aa…`, of `n` bytes. */
  function Dotted(n: nat): (s: seq<byte>)
    requires n >= 3
    ensures |s| == n && s[0] == LETTER
  {
    Letters(1) + [DOT] + Letters(n - 2)
  }

  lemma DottedIsAName(n: nat, hyphen: bool, digit: bool)
    requires 3 <= n <= MAX_NAME_LEN
    ensures ValidElements(Dotted(n), hyphen, digit, 2)
  {
    hide Pieces;
    var es := [Letters(1), Letters(n - 2)];
    assert Element(es[0], hyphen, digit) && Element(es[1], hyphen, digit);
    assert es[1..] == [es[1]];
    assert Join(es, DOT) == Dotted(n);
    ElementNameIff(Dotted(n), hyphen, digit, 2);
  }

  lemma TwoElementsTakeThreeBytes(s: seq<byte>, hyphen: bool, digit: bool)
    requires ValidElements(s, hyphen, digit, 2)
    ensures 3 <= |s| <= MAX_NAME_LEN
  {
    var es := Pieces(s, DOT, 0, 0);
    PiecesJoin(s, DOT, 0, 0);
    assert s[0..] == s;
    hide Pieces;
    assert Element(es[0], hyphen, digit) && Element(es[1], hyphen, digit);
    assert |Join(es[1..], DOT)| >= 1;
  }

  predicate IsUnique(s: seq<byte>) { s != [] && s[0] == COLON }

  /** The lengths names of each kind come in. The code's limit does not count the colon of a
      unique name, so a unique name may be a byte longer than the others. */
  lemma NameLengths(n: nat)
    ensures (exists s :: |s| == n && ValidInterface(s)) <==> 3 <= n <= 256
    ensures (exists s :: |s| == n && ValidMember(s)) <==> 1 <= n <= 256
    ensures (exists s :: |s| == n && !IsUnique(s) && ValidBusName(s)) <==> 3 <= n <= 256
    ensures (exists s :: |s| == n && IsUnique(s) && ValidBusName(s)) <==> 4 <= n <= 257
  {
    hide ValidElements, Dotted;
    forall s, hyphen, digit | ValidElements(s, hyphen, digit, 2) ensures 3 <= |s| <= 256 {
      TwoElementsTakeThreeBytes(s, hyphen, digit);
    }
    if 1 <= n <= 256 {
      assert ValidMember(Letters(n));
    }
    if 3 <= n <= 256 {
      DottedIsAName(n, false, false);
      DottedIsAName(n, true, false);
      assert ValidInterface(Dotted(n)) && ValidBusName(Dotted(n));
    }
    if 4 <= n <= 257 {
      UniqueName(n);
    }
  }

  lemma UniqueName(n: nat)
    requires 4 <= n <= 257
    ensures var s := [COLON] + Dotted(n - 1); |s| == n && IsUnique(s) && ValidBusName(s)
  {
    hide ValidElements, Dotted;
    DottedIsAName(n - 1, true, true);
    assert ([COLON] + Dotted(n - 1))[1..] == Dotted(n - 1);
  }

  /** Names over the 255 bytes of the D-Bus specification that the code accepts. */
  lemma OverlongNames()
    ensures |Dotted(256)| == 256 && ValidInterface(Dotted(256))
    ensures |[COLON] + Dotted(256)| == 257 && ValidBusName([COLON] + Dotted(256))
  {
    DottedIsAName(256, false, false);
    UniqueName(257);
  }

  method CheckElements(s: seq<byte>, hyphen: bool, digit: bool, min: nat) returns (ok: bool)
    ensures ok == ValidElements(s, hyphen, digit, min)
  {
    if s == [] || |s| > MAX_NAME_LEN {
      return false;
    }
    ghost var all := Pieces(s, DOT, 0, 0);
    if s[0] == DOT {
      assert !Element(all[0], hyphen, digit);
      return false;
    }
    var elements, start, i := 0, 0, 0;
    ghost var done: seq<seq<byte>> := [];
    while true
      invariant 0 <= start <= i <= |s| && |done| == elements && Elements(done, hyphen, digit)
      invariant all == done + Pieces(s, DOT, start, i)
      decreases |s| - i
    {
      var isLast := i == |s|;
      if isLast || s[i] == DOT {
        var e := s[start..i];
        assert all[elements] == e;
        if e == [] || !FirstByte(e[0], digit) || !Chars(e, hyphen) {
          assert !Element(all[elements], hyphen, digit);
          return false;
        }
        done := done + [e];
        elements, start := elements + 1, i + 1;
        if isLast {
          break;
        }
      }
      i := i + 1;
    }
    ok := elements >= min;
  }

  method CheckPath(s: seq<byte>) returns (ok: bool)
    ensures ok == ValidPath(s)
  {
    if s == [] || s[0] != SLASH {
      return false;
    }
    if |s| == 1 {
      return true;
    }
    ghost var all := Pieces(s, SLASH, 1, 1);
    if s[|s| - 1] == SLASH {
      TrailingSeparator(s, SLASH, 1, 1);
      assert !PathElement(all[|all| - 1]);
      return false;
    }
    var start, i := 1, 1;
    ghost var done: seq<seq<byte>> := [];
    while true
      invariant 1 <= start <= i <= |s| && PathElements(done)
      invariant all == done + Pieces(s, SLASH, start, i)
      decreases |s| - i
    {
      var isLast := i == |s|;
      if isLast || s[i] == SLASH {
        var e := s[start..i];
        assert all[|done|] == e;
        if e == [] || !Chars(e, false) {
          assert !PathElement(all[|done|]);
          return false;
        }
        done := done + [e];
        start := i + 1;
        if isLast {
          break;
        }
      }
      i := i + 1;
    }
    ok := true;
  }

  lemma {:induction false} TrailingSeparator(s: seq<byte>, sep: byte, start: nat, i: nat)
    requires start <= i <= |s| && 0 < |s| && s[|s| - 1] == sep && (i < |s| || start == i)
    ensures var es := Pieces(s, sep, start, i); es[|es| - 1] == []
    decreases |s| - i
  {
    if i < |s| {
      if s[i] == sep {
        TrailingSeparator(s, sep, i + 1, i + 1);
      } else {
        TrailingSeparator(s, sep, start, i + 1);
      }
    }
  }
}
