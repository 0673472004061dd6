/** Stage one of WEZC: UTF-32 split into a dense low plane and a delta-coded escape list. */
module Utf32 {
  import opened Bytes

  datatype WezcError =
    | NotMultipleOfFour
    | Overflow
    | OutOfRange
    | PlaneMismatch
    | NotWezc
    | Implausible
    | NegativeShift

  const WORD32 := 0x1_0000_0000

  // ----- Specification of the split -----

  /** The three high bytes of code unit `k`, little endian. */
  function High(raw: seq<byte>, k: nat): (v: nat)
    requires 4 * k + 3 < |raw|
    ensures v < 0x100_0000
  {
    (raw[4 * k + 1] as int) + 256 * raw[4 * k + 2] as int + 0x1_0000 * raw[4 * k + 3] as int
  }

  /** The code units among the first `n` that do not fit in one byte, ascending. */
  function Escapes(raw: seq<byte>, n: nat): (esc: seq<nat>)
    requires 4 * n <= |raw|
    ensures |esc| <= n && forall i :: 0 <= i < |esc| ==> esc[i] < n
  {
    if n == 0 then [] else Escapes(raw, n - 1) + (if High(raw, n - 1) != 0 then [n - 1] else [])
  }

  /** `esc` lists exactly the code units with high bytes, in strictly ascending order. */
  ghost predicate ListsEscapes(raw: seq<byte>, esc: seq<nat>, n: nat)
    requires 4 * n <= |raw|
  {
    && (forall i :: 0 <= i < |esc| ==> esc[i] < n && High(raw, esc[i]) != 0)
    && (forall i, j :: 0 <= i < j < |esc| ==> esc[i] < esc[j])
    && (forall k: nat :: k < n && k !in esc ==> High(raw, k) == 0)
  }

  lemma {:induction false} EscapesListed(raw: seq<byte>, n: nat)
    requires 4 * n <= |raw|
    ensures ListsEscapes(raw, Escapes(raw, n), n)
    decreases n
  {
    if n > 0 {
      EscapesListed(raw, n - 1);
      ListMore(raw, Escapes(raw, n - 1), n);
    }
  }

  lemma ListMore(raw: seq<byte>, front: seq<nat>, n: nat)
    requires 1 <= n && 4 * n <= |raw| && ListsEscapes(raw, front, n - 1)
    ensures ListsEscapes(raw, front + (if High(raw, n - 1) != 0 then [n - 1] else []), n)
  {
    var esc := front + (if High(raw, n - 1) != 0 then [n - 1] else []);
    forall k: nat | k < n && High(raw, k) != 0
      ensures k in esc
    {
      if k == n - 1 {
        assert esc[|front|] == k;
      } else {
        assert k in front;
      }
    }
  }

  lemma EscapesAscend(raw: seq<byte>, n: nat)
    requires 4 * n <= |raw|
    ensures Ascending(Escapes(raw, n), 0)
  {
    EscapesListed(raw, n);
    SortedAscends(Escapes(raw, n), 0);
  }

  /** Seven bits a byte, least significant first, the top bit marking continuation. */
  function Varint(d: nat): (s: seq<byte>)
    ensures |s| >= 1
  {
    if d >= 128 then [d % 128 + 128] + Varint(d / 128) else [d]
  }

  ghost predicate Ascending(pos: seq<nat>, prev: nat) {
    pos == [] || (prev <= pos[0] && Ascending(pos[1..], pos[0]))
  }

  lemma {:induction false} SortedAscends(pos: seq<nat>, prev: nat)
    requires forall i :: 0 <= i < |pos| ==> prev <= pos[i]
    requires forall i, j :: 0 <= i < j < |pos| ==> pos[i] < pos[j]
    ensures Ascending(pos, prev)
  {
    if pos != [] {
      SortedAscends(pos[1..], pos[0]);
    }
  }

  function Deltas(pos: seq<nat>, prev: nat): seq<byte>
    requires Ascending(pos, prev)
  {
    if pos == [] then [] else Varint(pos[0] - prev) + Deltas(pos[1..], pos[0])
  }

  function Words(raw: seq<byte>, pos: seq<nat>): seq<byte>
    requires forall i :: 0 <= i < |pos| ==> 4 * pos[i] + 3 < |raw|
  {
    if pos == [] then [] else LeBytes(High(raw, pos[0]), 3) + Words(raw, pos[1..])
  }

  /** The low bytes of the first `n` code units. */
  function LowPlane(raw: seq<byte>, n: nat): (p: seq<byte>)
    requires 4 * n <= |raw|
    ensures |p| == n
  {
    if n == 0 then [] else LowPlane(raw, n - 1) + [raw[4 * n - 4]]
  }

  lemma {:induction false} LowPlaneAt(raw: seq<byte>, n: nat, k: nat)
    requires 4 * n <= |raw| && k < n
    ensures LowPlane(raw, n)[k] == raw[4 * k]
    decreases n
  {
    if k < n - 1 {
      LowPlaneAt(raw, n - 1, k);
    }
  }

  function Split(raw: seq<byte>): Result<seq<byte>, WezcError> {
    var n := |raw| / 4;
    if |raw| % 4 != 0 then Err(NotMultipleOfFour)
    else if n >= WORD32 then Err(Overflow)
    else
      EscapesListed(raw, n);
      EscapesAscend(raw, n);
      Ok(Layout(raw, Escapes(raw, n)))
  }

  /** Code unit count, escape count, escape positions, escape words, low plane. */
  function Layout(raw: seq<byte>, esc: seq<nat>): seq<byte>
    requires ListsEscapes(raw, esc, |raw| / 4)
    requires Ascending(esc, 0)
  {
    LeBytes(|raw| / 4, 4) + LeBytes(|esc|, 4) + (Deltas(esc, 0) + (Words(raw, esc) + LowPlane(raw, |raw| / 4)))
  }

  // ----- Specification of the join -----

  datatype Varread = Varread(value: nat, next: nat)

  /** Reads a varint whose lower bits `acc` below `shift` are already known. */
  function ReadVarint(body: seq<byte>, i: nat, acc: nat, shift: nat): (r: Result<Varread, WezcError>)
    ensures r.Ok? ==> i < r.value.next <= |body|
    decreases |body| - i
  {
    if i >= |body| then Err(OutOfRange)
    else
      var d := acc + body[i] % 128 * Pow2(shift);
      if body[i] >= 128 then ReadVarint(body, i + 1, d, shift + 7) else Ok(Varread(d, i + 1))
  }

  datatype Positions = Positions(pos: seq<nat>, next: nat)

  function ReadPositions(body: seq<byte>, i: nat, count: nat, prev: nat): (r: Result<Positions, WezcError>)
    ensures r.Ok? ==> |r.value.pos| == count
    decreases count
  {
    if count == 0 then Ok(Positions([], i))
    else
      match ReadVarint(body, i, 0, 0)
      case Err(e) => Err(e)
      case Ok(v) =>
        Onto([prev + v.value], ReadPositions(body, v.next, count - 1, prev + v.value))
  }

  /** Positions already read, put in front of those that follow. */
  function Onto(front: seq<nat>, r: Result<Positions, WezcError>): Result<Positions, WezcError> {
    if r.Ok? then Ok(Positions(front + r.value.pos, r.value.next)) else r
  }

  /** A slice that stops at the end of the sequence, as Python's does. */
  function Slice(s: seq<byte>, lo: nat, hi: nat): seq<byte> {
    if lo >= |s| || hi <= lo then [] else if hi <= |s| then s[lo..hi] else s[lo..]
  }

  function WordAt(body: seq<byte>, i: nat, k: nat): nat { FromLe(Slice(body, i + 3 * k, i + 3 * k + 3)) }

  /** Puts the high bytes `v` of code unit `p` in place. */
  function PutHigh(raw: seq<byte>, p: nat, v: nat): (r: seq<byte>)
    requires 4 * p + 3 < |raw|
    ensures |r| == |raw|
  {
    raw[4 * p + 1 := v % 256][4 * p + 2 := v / 256 % 256][4 * p + 3 := v / 0x1_0000 % 256]
  }

  /** Code units with the given low bytes and no high bytes. */
  function Spread(plane: seq<byte>): (raw: seq<byte>)
    ensures |raw| == 4 * |plane|
  {
    if plane == [] then [] else Spread(plane[..|plane| - 1]) + [plane[|plane| - 1], 0, 0, 0]
  }

  lemma {:induction false} SpreadAt(plane: seq<byte>, i: nat)
    requires i < 4 * |plane|
    ensures Spread(plane)[i] == if i % 4 == 0 then plane[i / 4] else 0
    decreases |plane|
  {
    if i < 4 * (|plane| - 1) {
      SpreadAt(plane[..|plane| - 1], i);
    }
  }

  /** The three-byte words from `i` on. */
  function Values(body: seq<byte>, i: nat, count: nat): (values: seq<nat>)
    ensures |values| == count
    decreases count, |body|
  {
    if count == 0 then [] else Values(body, i, count - 1) + [WordAt(body, i, count - 1)]
  }

  lemma {:induction false} ValuesAt(body: seq<byte>, i: nat, count: nat, k: nat)
    requires k < count
    ensures Values(body, i, count)[k] == WordAt(body, i, k)
    decreases count
  {
    if k < count - 1 {
      ValuesAt(body, i, count - 1, k);
    }
  }

  /** Applies the first `m` escapes. */
  function Fill(raw: seq<byte>, values: seq<nat>, pos: seq<nat>, m: nat): (r: Result<seq<byte>, WezcError>)
    requires m <= |pos| && |values| == |pos|
    ensures r.Ok? ==> |r.value| == |raw|
    decreases m, |raw|
  {
    if m == 0 then Ok(raw)
    else
      match Fill(raw, values, pos, m - 1)
      case Err(e) => Err(e)
      case Ok(done) => if 4 * pos[m - 1] + 3 < |done| then Ok(PutHigh(done, pos[m - 1],
        values[m - 1])) else Err(OutOfRange)
  }

  function Join(body: seq<byte>): Result<seq<byte>, WezcError> {
    var count := FromLe(Slice(body, 4, 8));
    Rebuild(body, FromLe(Slice(body, 0, 4)), ReadPositions(body, 8, count, 0))
  }

  /** The rest of the join, once the escape positions are read. */
  function Rebuild(body: seq<byte>, n: nat, positions: Result<Positions, WezcError>): Result<seq<byte>, WezcError> {
    match positions
    case Err(e) => Err(e)
    case Ok(p) =>
      var count := |p.pos|;
      FillPlane(Slice(body, p.next + 3 * count, p.next + 3 * count + n), n, Values(body, p.next, count), p.pos)
  }

  function FillPlane(plane: seq<byte>, n: nat, values: seq<nat>, pos: seq<nat>): Result<seq<byte>, WezcError>
    requires |values| == |pos|
  {
    if |plane| != n then Err(PlaneMismatch) else Fill(Spread(plane), values, pos, |pos|)
  }

  // ----- Joining undoes splitting -----

  lemma {:induction false} VarintReads(body: seq<byte>, i: nat, d: nat, acc: nat, shift: nat)
    requires At(body, i, Varint(d))
    ensures ReadVarint(body, i, acc, shift) == Ok(Varread(acc + d * Pow2(shift), i + |Varint(d)|))
    decreases d
  {
    assert body[i + 0] == Varint(d)[0];
    if d >= 128 {
      AtParts(body, i, [d % 128 + 128], Varint(d / 128));
      VarintReads(body, i + 1, d / 128, acc + d % 128 * Pow2(shift), shift + 7);
      Pow2Add7(shift);
      Regroup(d, Pow2(shift));
    }
  }

  lemma Regroup(d: nat, p: nat)
    ensures d % 128 * p + d / 128 * (128 * p) == d * p
  {
    var q, r := d / 128, d % 128;
    assert d == r + 128 * q;
    assert q * (128 * p) == (128 * q) * p;
    assert (r + 128 * q) * p == r * p + (128 * q) * p;
  }

  lemma Pow2Add7(shift: nat)
    ensures Pow2(shift + 7) == 128 * Pow2(shift)
  {
    assert Pow2(shift + 7) == 2 * Pow2(shift + 6);
    assert Pow2(shift + 6) == 2 * Pow2(shift + 5);
    assert Pow2(shift + 5) == 2 * Pow2(shift + 4);
    assert Pow2(shift + 4) == 2 * Pow2(shift + 3);
    assert Pow2(shift + 3) == 2 * Pow2(shift + 2);
    assert Pow2(shift + 2) == 2 * Pow2(shift + 1);
  }

  lemma {:induction false} DeltasRead(body: seq<byte>, i: nat, pos: seq<nat>, prev: nat)
    requires Ascending(pos, prev) && At(body, i, Deltas(pos, prev))
    ensures ReadPositions(body, i, |pos|, prev) == Ok(Positions(pos, i + |Deltas(pos, prev)|))
    decreases |pos|
  {
    if pos != [] {
      var d, more := pos[0] - prev, Deltas(pos[1..], pos[0]);
      AtParts(body, i, Varint(d), more);
      VarintReads(body, i, d, 0, 0);
      DeltasRead(body, i + |Varint(d)|, pos[1..], pos[0]);
      PositionsStep(body, i, prev, Varread(d, i + |Varint(d)|), Positions(pos[1..], i + |Varint(d)| + |more|));
      Uncons(pos);
    }
  }

  lemma PositionsStep(body: seq<byte>, i: nat, prev: nat, v: Varread, p: Positions)
    requires ReadVarint(body, i, 0, 0) == Ok(v)
    requires ReadPositions(body, v.next, |p.pos|, prev + v.value) == Ok(p)
    ensures ReadPositions(body, i, |p.pos| + 1, prev) == Ok(Positions([prev + v.value] + p.pos, p.next))
  {
  }

  lemma Uncons(pos: seq<nat>)
    requires pos != []
    ensures [pos[0]] + pos[1..] == pos
  {
  }

  lemma {:induction false} WordsLength(raw: seq<byte>, pos: seq<nat>)
    requires forall j :: 0 <= j < |pos| ==> 4 * pos[j] + 3 < |raw|
    ensures |Words(raw, pos)| == 3 * |pos|
  {
    if pos != [] {
      WordsLength(raw, pos[1..]);
    }
  }

  lemma {:induction false} WordsRead(body: seq<byte>, i: nat, raw: seq<byte>, pos: seq<nat>, k: nat)
    requires forall j :: 0 <= j < |pos| ==> 4 * pos[j] + 3 < |raw|
    requires At(body, i, Words(raw, pos)) && k < |pos|
    ensures WordAt(body, i, k) == High(raw, pos[k])
    decreases |pos|
  {
    var first := LeBytes(High(raw, pos[0]), 3);
    AtParts(body, i, first, Words(raw, pos[1..]));
    if k == 0 {
      WordReads(body, i, High(raw, pos[0]));
    } else {
      WordsRead(body, i + 3, raw, pos[1..], k - 1);
      assert WordAt(body, i, k) == WordAt(body, i + 3, k - 1);
    }
  }

  lemma WordReads(body: seq<byte>, i: nat, v: nat)
    requires v < 0x100_0000 && At(body, i, LeBytes(v, 3))
    ensures WordAt(body, i, 0) == v
  {
    assert Pow256(3) == 0x100_0000;
    LeRoundTrip(v, 3);
    AtSlice(body, i, LeBytes(v, 3));
  }

  /** `r` agrees with `raw` except that code units not among `done` have no high bytes yet. */
  ghost predicate Filled(raw: seq<byte>, r: seq<byte>, done: seq<nat>) {
    && |r| == |raw|
    && forall i {:trigger r[i]} :: 0 <= i < |raw| ==> r[i] == if i % 4 == 0 || i / 4 in done then raw[i] else 0
  }

  lemma HighBytes(raw: seq<byte>, p: nat)
    requires 4 * p + 3 < |raw|
    ensures var v := High(raw, p);
      v % 256 == raw[4 * p + 1] && v / 256 % 256 == raw[4 * p + 2] && v / 0x1_0000 % 256 == raw[4 * p + 3]
  {
  }

  lemma PutFills(raw: seq<byte>, done: seq<byte>, before: seq<nat>, p: nat)
    requires 4 * p + 3 < |raw| && Filled(raw, done, before)
    ensures Filled(raw, PutHigh(done, p, High(raw, p)), before + [p])
  {
    HighBytes(raw, p);
    var r := PutHigh(done, p, High(raw, p));
    forall i | 0 <= i < |raw|
      ensures r[i] == if i % 4 == 0 || i / 4 in before + [p] then raw[i] else 0
    {
      assert i / 4 in before + [p] <==> i / 4 in before || i / 4 == p;
    }
  }

  lemma {:induction false} FillFills(raw: seq<byte>, base: seq<byte>, values: seq<nat>, pos: seq<nat>, m: nat)
    requires m <= |pos| && |values| == |pos|
    requires forall j :: 0 <= j < |pos| ==> 4 * pos[j] + 3 < |raw| && values[j] == High(raw, pos[j])
    requires Filled(raw, base, [])
    ensures Fill(base, values, pos, m).Ok? && Filled(raw, Fill(base, values, pos, m).value, pos[..m])
    decreases m
  {
    if m > 0 {
      FillFills(raw, base, values, pos, m - 1);
      PutFills(raw, Fill(base, values, pos, m - 1).value, pos[..m - 1], pos[m - 1]);
      assert pos[..m] == pos[..m - 1] + [pos[m - 1]];
    }
  }

  lemma FilledIsWhole(raw: seq<byte>, r: seq<byte>, esc: seq<nat>)
    requires |raw| % 4 == 0 && ListsEscapes(raw, esc, |raw| / 4) && Filled(raw, r, esc)
    ensures r == raw
  {
    forall i | 0 <= i < |raw|
      ensures r[i] == raw[i]
    {
      var k := i / 4;
      if i % 4 != 0 && k !in esc {
        assert High(raw, k) == 0;
        HighBytes(raw, k);
        assert i == 4 * k + 1 || i == 4 * k + 2 || i == 4 * k + 3;
      }
    }
  }

  /** Where the fields of the layout lie. */
  ghost predicate LaidOut(raw: seq<byte>, esc: seq<nat>, body: seq<byte>)
    requires Ascending(esc, 0) && forall j :: 0 <= j < |esc| ==> 4 * esc[j] + 3 < |raw|
  {
    var i := 8 + |Deltas(esc, 0)|;
    && At(body, 0, LeBytes(|raw| / 4, 4)) && At(body, 4, LeBytes(|esc|, 4))
    && At(body, 8, Deltas(esc, 0)) && At(body, i, Words(raw, esc)) && At(body, i + 3 * |esc|, LowPlane(raw, |raw| / 4))
  }

  lemma LayoutLaidOut(raw: seq<byte>, esc: seq<nat>)
    requires ListsEscapes(raw, esc, |raw| / 4) && Ascending(esc, 0)
    ensures LaidOut(raw, esc, Layout(raw, esc))
  {
    var a, b, c, d, e := LeBytes(|raw| / 4, 4), LeBytes(|esc|, 4), Deltas(esc, 0), Words(raw, esc),
      LowPlane(raw, |raw| / 4);
    WordsLength(raw, esc);
    FiveParts(a, b, c, d, e);
  }

  lemma FiveParts(a: seq<byte>, b: seq<byte>, c: seq<byte>, d: seq<byte>, e: seq<byte>)
    ensures var body := a + b + (c + (d + e));
      && At(body, 0, a) && At(body, |a|, b) && At(body, |a| + |b|, c)
      && At(body, |a| + |b| + |c|, d) && At(body, |a| + |b| + |c| + |d|, e)
  {
    var body := a + b + (c + (d + e));
    AtSelf(body);
    AtParts(body, 0, a + b, c + (d + e));
    AtParts(body, 0, a, b);
    AtParts(body, |a| + |b|, c, d + e);
    AtParts(body, |a| + |b| + |c|, d, e);
  }

  /** The body behind the escape positions holds the escape words and then the low plane. */
  ghost predicate TailRead(raw: seq<byte>, esc: seq<nat>, plane: seq<byte>, values: seq<nat>)
    requires forall j :: 0 <= j < |esc| ==> 4 * esc[j] + 3 < |raw|
  {
    && |plane| == |raw| / 4 && (forall k {:trigger plane[k]} :: 0 <= k < |plane| ==> plane[k] == raw[4 * k])
    && |values| == |esc| && (forall j :: 0 <= j < |esc| ==> values[j] == High(raw, esc[j]))
  }

  lemma TailReads(raw: seq<byte>, esc: seq<nat>, body: seq<byte>, i: nat)
    requires forall j :: 0 <= j < |esc| ==> 4 * esc[j] + 3 < |raw|
    requires At(body, i, Words(raw, esc)) && At(body, i + 3 * |esc|, LowPlane(raw, |raw| / 4))
    ensures TailRead(raw, esc, Slice(body, i + 3 * |esc|, i + 3 * |esc| + |raw| / 4), Values(body, i, |esc|))
  {
    hide Values, Slice, LowPlane, Words, High, At;
    ValuesRead(raw, esc, body, i);
    PlaneReads(raw, body, i + 3 * |esc|);
  }

  lemma ValuesRead(raw: seq<byte>, esc: seq<nat>, body: seq<byte>, i: nat)
    requires forall j :: 0 <= j < |esc| ==> 4 * esc[j] + 3 < |raw|
    requires At(body, i, Words(raw, esc))
    ensures forall j :: 0 <= j < |esc| ==> Values(body, i, |esc|)[j] == High(raw, esc[j])
  {
    forall j | 0 <= j < |esc|
      ensures Values(body, i, |esc|)[j] == High(raw, esc[j])
    {
      WordsRead(body, i, raw, esc, j);
      ValuesAt(body, i, |esc|, j);
    }
  }

  lemma PlaneReads(raw: seq<byte>, body: seq<byte>, i: nat)
    requires At(body, i, LowPlane(raw, |raw| / 4))
    ensures var plane := Slice(body, i, i + |raw| / 4);
      |plane| == |raw| / 4 && forall k {:trigger plane[k]} :: 0 <= k < |plane| ==> plane[k] == raw[4 * k]
  {
    var n := |raw| / 4;
    forall k | 0 <= k < n
      ensures LowPlane(raw, n)[k] == raw[4 * k]
    {
      LowPlaneAt(raw, n, k);
    }
  }

  lemma SpreadFilled(raw: seq<byte>, plane: seq<byte>)
    requires |raw| % 4 == 0 && |plane| == |raw| / 4
    requires forall k {:trigger plane[k]} :: 0 <= k < |plane| ==> plane[k] == raw[4 * k]
    ensures Filled(raw, Spread(plane), [])
  {
    forall i | 0 <= i < |raw|
      ensures Spread(plane)[i] == if i % 4 == 0 then raw[i] else 0
    {
      SpreadAt(plane, i);
    }
  }

  /** The escape words put back into the low plane rebuild the input. */
  lemma FillRebuilds(raw: seq<byte>, esc: seq<nat>, plane: seq<byte>, values: seq<nat>)
    requires |raw| % 4 == 0 && ListsEscapes(raw, esc, |raw| / 4) && TailRead(raw, esc, plane, values)
    ensures Fill(Spread(plane), values, esc, |esc|) == Ok(raw)
  {
    SpreadFilled(raw, plane);
    var base, n := Spread(plane), |esc|;
    FillFills(raw, base, values, esc, n);
    assert esc[..n] == esc;
    FilledIsWhole(raw, Fill(base, values, esc, n).value, esc);
  }

  lemma PlaneRebuilds(raw: seq<byte>, esc: seq<nat>, plane: seq<byte>, values: seq<nat>)
    requires |raw| % 4 == 0 && ListsEscapes(raw, esc, |raw| / 4) && TailRead(raw, esc, plane, values)
    ensures FillPlane(plane, |raw| / 4, values, esc) == Ok(raw)
  {
    FillRebuilds(raw, esc, plane, values);
  }

  /** Splitting a whole number of code units and joining the result is the identity. */
  lemma JoinInvertsSplit(raw: seq<byte>)
    requires |raw| % 4 == 0 && |raw| / 4 < WORD32
    ensures Split(raw).Ok? && Join(Split(raw).value) == Ok(raw)
  {
    var esc := Escapes(raw, |raw| / 4);
    EscapesListed(raw, |raw| / 4);
    EscapesAscend(raw, |raw| / 4);
    LayoutLaidOut(raw, esc);
    JoinReads(raw, esc, Layout(raw, esc));
  }

  lemma JoinReads(raw: seq<byte>, esc: seq<nat>, body: seq<byte>)
    requires |raw| % 4 == 0 && |raw| / 4 < WORD32 && |esc| < WORD32 && ListsEscapes(raw, esc, |raw| / 4)
    requires Ascending(esc, 0) && LaidOut(raw, esc, body)
    ensures Join(body) == Ok(raw)
  {
    hide Values, Slice, LowPlane, Words, High, At, FillPlane, FromLe, LeBytes, ReadPositions, Deltas, ListsEscapes,
      Ascending, TailRead;
    var i, n := 8 + |Deltas(esc, 0)|, |raw| / 4;
    EscapesInRange(raw, esc);
    CountsRead(body, n, |esc|);
    DeltasRead(body, 8, esc, 0);
    TailReads(raw, esc, body, i);
    PlaneRebuilds(raw, esc, Slice(body, i + 3 * |esc|, i + 3 * |esc| + n), Values(body, i, |esc|));
  }

  lemma EscapesInRange(raw: seq<byte>, esc: seq<nat>)
    requires ListsEscapes(raw, esc, |raw| / 4)
    ensures forall j :: 0 <= j < |esc| ==> 4 * esc[j] + 3 < |raw|
  {
  }

  lemma CountsRead(body: seq<byte>, n: nat, count: nat)
    requires n < WORD32 && count < WORD32
    requires At(body, 0, LeBytes(n, 4)) && At(body, 4, LeBytes(count, 4))
    ensures FromLe(Slice(body, 0, 4)) == n && FromLe(Slice(body, 4, 8)) == count
  {
    assert Pow256(4) == WORD32;
    LeRoundTrip(n, 4);
    LeRoundTrip(count, 4);
    AtSlice(body, 0, LeBytes(n, 4));
    AtSlice(body, 4, LeBytes(count, 4));
  }

  // ----- The plausibility bound -----

  lemma {:induction false} VarintLength(d: nat, k: nat)
    requires k >= 1 && d < Pow2(7 * k)
    ensures |Varint(d)| <= k
    decreases k
  {
    if k > 1 {
      Pow2Add7(7 * (k - 1));
      assert 7 * (k - 1) + 7 == 7 * k;
      if d >= 128 {
        VarintLength(d / 128, k - 1);
      }
    } else {
      assert Pow2(7) == 128;
    }
  }

  lemma {:induction false} DeltasLength(pos: seq<nat>, prev: nat)
    requires Ascending(pos, prev)
    requires forall i :: 0 <= i < |pos| ==> pos[i] < WORD32
    ensures |Deltas(pos, prev)| <= 5 * |pos|
  {
    if pos != [] {
      Pow2Of35();
      VarintLength(pos[0] - prev, 5);
      DeltasLength(pos[1..], pos[0]);
    }
  }

  lemma Pow2Of35()
    ensures Pow2(35) == 8 * WORD32
  {
    Pow2Add7(0);
    Pow2Add7(7);
    Pow2Add7(14);
    Pow2Add7(21);
    Pow2Add7(28);
  }

  /** The body is never longer than four times the input plus sixteen. */
  lemma SplitIsPlausible(raw: seq<byte>)
    requires Split(raw).Ok?
    ensures |Split(raw).value| <= 4 * |raw| + 16
  {
    var esc := Escapes(raw, |raw| / 4);
    EscapesListed(raw, |raw| / 4);
    EscapesAscend(raw, |raw| / 4);
    DeltasLength(esc, 0);
    WordsLength(raw, esc);
  }

  // ----- The loops -----

  method PutVarint(out0: seq<byte>, d0: nat) returns (out: seq<byte>)
    ensures out == out0 + Varint(d0)
  {
    out := out0;
    var d := d0;
    while d >= 128
      invariant out + Varint(d) == out0 + Varint(d0)
    {
      out := out + [d % 128 + 128];
      d := d / 128;
    }
    out := out + [d];
  }

  method ListEscapes(raw: seq<byte>) returns (esc: seq<nat>)
    ensures esc == Escapes(raw, |raw| / 4)
  {
    esc := [];
    var k := 0;
    while k < |raw| / 4
      invariant 0 <= k <= |raw| / 4 && esc == Escapes(raw, k)
    {
      HighBytes(raw, k);
      if raw[4 * k + 1] != 0 || raw[4 * k + 2] != 0 || raw[4 * k + 3] != 0 {
        esc := esc + [k];
      }
      k := k + 1;
    }
  }

  /** Appends the varint deltas of `esc`. */
  method PutDeltas(out0: seq<byte>, esc: seq<nat>) returns (out: seq<byte>)
    requires Ascending(esc, 0)
    ensures out == out0 + Deltas(esc, 0)
  {
    out := out0;
    var prev, i := 0, 0;
    while i < |esc|
      invariant 0 <= i <= |esc| && Ascending(esc[i..], prev)
      invariant out + Deltas(esc[i..], prev) == out0 + Deltas(esc, 0)
    {
      assert esc[i..][0] == esc[i] && esc[i..][1..] == esc[i + 1..];
      out := PutVarint(out, esc[i] - prev);
      prev, i := esc[i], i + 1;
    }
  }

  /** Appends the three-byte words of `esc`. */
  method PutWords(out0: seq<byte>, raw: seq<byte>, esc: seq<nat>) returns (out: seq<byte>)
    requires forall i :: 0 <= i < |esc| ==> 4 * esc[i] + 3 < |raw|
    ensures out == out0 + Words(raw, esc)
  {
    out := out0;
    var i := 0;
    while i < |esc|
      invariant 0 <= i <= |esc|
      invariant out + Words(raw, esc[i..]) == out0 + Words(raw, esc)
    {
      assert esc[i..][0] == esc[i] && esc[i..][1..] == esc[i + 1..];
      out := out + LeBytes(High(raw, esc[i]), 3);
      i := i + 1;
    }
  }

  method SplitPlanes(raw: seq<byte>) returns (r: Result<seq<byte>, WezcError>)
    ensures r == Split(raw)
  {
    if |raw| % 4 != 0 {
      return Err(NotMultipleOfFour);
    }
    var n := |raw| / 4;
    if n >= WORD32 {
      return Err(Overflow);
    }
    var esc := ListEscapes(raw);
    EscapesListed(raw, n);
    EscapesAscend(raw, n);
    var head := LeBytes(n, 4) + LeBytes(|esc|, 4);
    var out := PutDeltas(head, esc);
    out := PutWords(out, raw, esc);
    out := out + LowPlane(raw, |raw| / 4);
    Regrouped(head, Deltas(esc, 0), Words(raw, esc), LowPlane(raw, |raw| / 4));
    r := Ok(out);
  }

  lemma Regrouped(a: seq<byte>, b: seq<byte>, c: seq<byte>, d: seq<byte>)
    ensures a + b + c + d == a + (b + (c + d))
  {
  }

  method GetVarint(body: seq<byte>, i0: nat) returns (r: Result<Varread, WezcError>)
    ensures r == ReadVarint(body, i0, 0, 0)
  {
    var d: nat, shift: nat, i: nat := 0, 0, i0;
    while i < |body|
      invariant ReadVarint(body, i, d, shift) == ReadVarint(body, i0, 0, 0)
      decreases |body| - i
    {
      var b := body[i];
      d := d + b % 128 * Pow2(shift);
      i := i + 1;
      if b >= 128 {
        shift := shift + 7;
      } else {
        return Ok(Varread(d, i));
      }
    }
    r := Err(OutOfRange);
  }

  lemma OntoNothing(r: Result<Positions, WezcError>)
    ensures Onto([], r) == r
  {
    assert r.Ok? ==> [] + r.value.pos == r.value.pos;
  }

  lemma OntoMore(front: seq<nat>, x: nat, r: Result<Positions, WezcError>)
    ensures Onto(front, Onto([x], r)) == Onto(front + [x], r)
  {
    assert r.Ok? ==> front + ([x] + r.value.pos) == front + [x] + r.value.pos;
  }

  method GetPositions(body: seq<byte>, count: nat) returns (r: Result<Positions, WezcError>)
    ensures r == ReadPositions(body, 8, count, 0)
  {
    var pos: seq<nat>, prev: nat, i: nat, k: nat := [], 0, 8, 0;
    OntoNothing(ReadPositions(body, 8, count, 0));
    while k < count
      invariant 0 <= k <= count
      invariant ReadPositions(body, 8, count, 0) == Onto(pos, ReadPositions(body, i, count - k, prev))
    {
      var v := GetVarint(body, i);
      if v.Err? {
        return Err(v.error);
      }
      prev := prev + v.value.value;
      OntoMore(pos, prev, ReadPositions(body, v.value.next, count - k - 1, prev));
      pos, i, k := pos + [prev], v.value.next, k + 1;
    }
    assert pos + [] == pos;
    r := Ok(Positions(pos, i));
  }

  method JoinPlanes(body: seq<byte>) returns (r: Result<seq<byte>, WezcError>)
    ensures r == Join(body)
  {
    var n, count := FromLe(Slice(body, 0, 4)), FromLe(Slice(body, 4, 8));
    var p := GetPositions(body, count);
    r := RebuildPlanes(body, n, p);
  }

  method RebuildPlanes(body: seq<byte>, n: nat, p: Result<Positions, WezcError>) returns (r: Result<seq<byte>,
      WezcError>)
    ensures r == Rebuild(body, n, p)
  {
    if p.Err? {
      return Err(p.error);
    }
    var i, count := p.value.next, |p.value.pos|;
    var plane := Slice(body, i + 3 * count, i + 3 * count + n);
    if |plane| != n {
      return Err(PlaneMismatch);
    }
    r := PutEscapes(Spread(plane), Values(body, i, count), p.value.pos);
  }

  method PutEscapes(plane: seq<byte>, values: seq<nat>, pos: seq<nat>) returns (r: Result<seq<byte>, WezcError>)
    requires |values| == |pos|
    ensures r == Fill(plane, values, pos, |pos|)
  {
    var raw := plane;
    var k := 0;
    while k < |pos|
      invariant 0 <= k <= |pos|
      invariant Fill(plane, values, pos, k) == Ok(raw)
    {
      if 4 * pos[k] + 3 >= |raw| {
        FillFails(plane, values, pos, k, |pos|);
        return Err(OutOfRange);
      }
      raw := PutHigh(raw, pos[k], values[k]);
      k := k + 1;
    }
    r := Ok(raw);
  }

  lemma {:induction false} FillFails(raw: seq<byte>, values: seq<nat>, pos: seq<nat>, k: nat, m: nat)
    requires |values| == |pos| && k < m <= |pos| && Fill(raw, values, pos, k).Ok? && 4 * pos[k] + 3 >= |raw|
    ensures Fill(raw, values, pos, m) == Err(OutOfRange)
    decreases m
  {
    if k + 1 < m {
      FillFails(raw, values, pos, k, m - 1);
    }
  }
}
