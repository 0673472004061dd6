/** The context-mixing model of WEZC as a pure state machine. */
module WezcModel {
  import opened Bytes
  import opened ArithmeticCoder

  const NCTX := 8          // context tables
  const NM := 9            // mixer inputs: the contexts and the match model
  const NW := 10           // mixer weights: the inputs and a bias
  const NMX := 3           // first-layer mixers
  const PHI := 0x9E3779B9
  const WORD32 := 0x1_0000_0000

  // ----- Clamps and shifts -----

  function Clamp(x: int, lo: int, hi: int): (r: int)
    requires lo <= hi
    ensures lo <= r <= hi
    ensures lo <= x <= hi ==> r == x
  {
    if x < lo then lo else if x > hi then hi else x
  }

  /** Arithmetic shift right: rounds towards minus infinity. */
  function Shr(x: int, n: nat): int { x / Pow2(n) }

  function Xor(a: nat, b: nat): nat
    decreases a + b
  {
    if a == 0 then b
    else if b == 0 then a
    else 2 * Xor(a / 2, b / 2) + (if a % 2 == b % 2 then 0 else 1)
  }

  /** The squash table, indexed by logit + 2047, and the stretch table, indexed by probability. */
  datatype Tables = Tables(sq: seq<int>, st: seq<int>) {
    predicate Ok() {
      && |sq| == 4095 && (forall i :: 0 <= i < |sq| ==> 1 <= sq[i] <= 4095)
      && |st| == 4096 && (forall i :: 0 <= i < |st| ==> -2047 <= st[i] <= 2047)
    }

    function Squash(logit: int): (p: nat)
      requires Ok()
      ensures 1 <= p <= 4095
    {
      sq[Clamp(logit, -2047, 2047) + 2047]
    }

    function Stretch(p: int): (logit: int)
      requires Ok()
      ensures -2047 <= logit <= 2047
    {
      st[Clamp(p, 1, 4095)]
    }

    /** A first-layer dot product squashed to a probability and stretched again. */
    function Restretch(dot: int): int
      requires Ok()
    {
      Stretch(Squash(Shr(dot, 16)))
    }

    /** The input that a state-map entry contributes. */
    function EntryLogit(e: nat): int
      requires Ok()
    {
      Stretch(e / 4096)
    }
  }

  // ----- Bit-history states -----

  /** A slot packs two saturating counts and the last bit as n0*32 + n1*4 + bit. */
  function Zeros(s: byte): nat { s / 32 }
  function Ones(s: byte): nat { s / 4 % 8 }

  function Pack(n0: nat, n1: nat, y: nat): (s: byte)
    requires n0 <= 7 && n1 <= 7 && y <= 1
    ensures Zeros(s) == n0 && Ones(s) == n1 && s % 4 == y
  {
    n0 * 32 + n1 * 4 + y
  }

  function NextState(s: byte, y: nat): (r: byte)
    requires y <= 1
  {
    var n0, n1 := Zeros(s), Ones(s);
    if y == 1 then
      var b := if n1 < 7 then n1 + 1 else 7;
      Pack(if n0 > 3 && n0 + b > 7 then n0 - 1 else n0, b, y)
    else
      var a := if n0 < 7 then n0 + 1 else 7;
      Pack(a, if n1 > 3 && a + n1 > 7 then n1 - 1 else n1, y)
  }

  /** The seen bit's count saturates at 7; the other one decays by one only
      while it is above 3 and the two together exceed 7. */
  lemma NextStateCounts(s: byte, y: nat)
    requires y <= 1
    ensures var r := NextState(s, y);
      var (seen, seen', other, other') :=
        if y == 1 then (Ones(s), Ones(r), Zeros(s), Zeros(r)) else (Zeros(s), Zeros(r), Ones(s), Ones(r));
      && seen <= 7 && other <= 7 && r % 4 == y
      && seen' == (if seen < 7 then seen + 1 else 7)
      && other' == (if other > 3 && seen' + other > 7 then other - 1 else other)
  {
  }

  /** round(65536 / (n + 1.5)); the fraction never ties. */
  function InverseRate(n: nat): (r: nat)
    ensures r <= 43691
  {
    var d := 2 * n + 3;
    assert d >= 3;
    (262144 + d) / (2 * d)
  }

  /** round(65536 * (n1 + 0.5) / (n0 + n1 + 1)), clamped; the fraction never ties. */
  function InitialEntry(s: byte): (e: nat)
    ensures ValidEntry(e) && e % 256 == 0
  {
    var d := Zeros(s) + Ones(s) + 1;
    var p := Clamp((65536 * (2 * Ones(s) + 1) + d) / (2 * d), 1, 65534);
    p * 256
  }

  /** A state-map entry: a 16-bit probability above an 8-bit visit counter. */
  predicate ValidEntry(e: nat) { 1 <= e / 256 <= 65534 }

  function PackEntry(p: nat, n: nat): (e: nat)
    requires n < 256
    ensures e / 256 == p && e % 256 == n
  {
    p * 256 + n
  }

  function LearnEntry(e: nat, bit: nat): (r: nat)
    requires ValidEntry(e) && bit <= 1
    ensures ValidEntry(r)
    ensures r % 256 == if e % 256 < 255 then e % 256 + 1 else 255
  {
    var p, n := e / 256, e % 256;
    var p' := Clamp(p + Shr((bit * 65536 - p) * InverseRate(n), 16), 1, 65534);
    PackEntry(p', if n < 255 then n + 1 else n)
  }

  // ----- The state -----

  datatype Model = Model(
    memBits: nat, sseBits: nat, lrShift: nat,
    tc: seq<seq<byte>>,       // bit-history slots per context
    sm: seq<seq<nat>>,        // state maps per context
    m1: seq<seq<seq<int>>>,   // first-layer weight rows per selector width
    m2: seq<seq<int>>,        // second-layer weight rows
    rows: seq<nat>, s2: seq<int>,
    sse: seq<int>,
    h: seq<nat>, word: nat, sp: nat,
    mm: seq<nat>, mt: seq<nat>, buf: seq<byte>, mptr: nat, mlen: nat, miss: bool,
    idx: seq<nat>, st: seq<int>, sn: seq<byte>, sidx: nat, pr: nat)
  {
    predicate TablesSized() {
      && |tc| == NCTX && (forall k :: 0 <= k < NCTX ==> |tc[k]| == Pow2(memBits))
      && |sm| == NCTX && (forall k :: 0 <= k < NCTX ==> |sm[k]| == 256)
      && |m1| == NMX && (forall j :: 0 <= j < NMX ==> |m1[j]| == RowCount(j))
      && (forall j, r :: 0 <= j < NMX && 0 <= r < |m1[j]| ==> |m1[j][r]| == NW)
      && |m2| == 16 && (forall r :: 0 <= r < 16 ==> |m2[r]| == NMX + 1)
      && |sse| == Pow2(sseBits) && |mm| == Pow2(memBits) && |mt| == 4096 && |h| == NCTX
    }

    predicate ScratchSized() {
      && |rows| == NMX && |s2| == NMX && |idx| == NCTX && |st| == NW && |sn| == NCTX
      && (forall j :: 0 <= j < NMX ==> rows[j] < RowCount(j))
      && (forall k :: 0 <= k < NCTX ==> idx[k] < Pow2(memBits))
      && sidx < Pow2(sseBits)
      && 1 <= pr <= 4095
    }

    /** Every state-map entry is in range. */
    predicate EntriesValid()
      requires TablesSized()
    {
      forall k, s :: 0 <= k < NCTX && 0 <= s < 256 ==> ValidEntry(sm[k][s])
    }

    /** The match model only points into its history. */
    predicate MatchValid()
      requires TablesSized()
    {
      && (forall i :: 0 <= i < |mm| ==> mm[i] <= |buf|)
      && (forall i :: 0 <= i < 4096 ==> 1 <= mt[i] <= 65534)
      && (mlen > 0 ==> mptr < |buf|)
    }

    predicate Valid() {
      lrShift >= 8 && TablesSized() && ScratchSized() && EntriesValid() && MatchValid() && h[0] < 256
    }
  }

  /** Rows of first-layer mixer `j`: by bit position, previous nibble, previous byte. */
  function RowCount(j: nat): nat
    requires j < NMX
  {
    if j == 0 then 16 else if j == 1 then 256 else 4096
  }

  function FreshEntries(): (r: seq<nat>)
    ensures |r| == 256 && forall s :: 0 <= s < 256 ==> ValidEntry(r[s])
  {
    seq(256, s requires 0 <= s < 256 => InitialEntry(s))
  }

  function FreshRows(n: nat, row: seq<int>): (r: seq<seq<int>>)
    ensures |r| == n && forall i :: 0 <= i < n ==> r[i] == row
  {
    seq(n, _ => row)
  }

  const ROW1: seq<int> := [7281, 7281, 7281, 7281, 7281, 7281, 7281, 7281, 7281, 0]
  const ROW2: seq<int> := [21845, 21845, 21845, 0]

  function Init(memBits: nat, sseBits: nat, lrShift: nat): (m: Model)
    requires lrShift >= 8
    ensures m.Valid()
  {
    Model(
      memBits, sseBits, lrShift,
      seq(NCTX, _ => seq(Pow2(memBits), _ => 0)),
      seq(NCTX, _ => FreshEntries()),
      [FreshRows(16, ROW1), FreshRows(256, ROW1), FreshRows(4096, ROW1)],
      FreshRows(16, ROW2),
      [0, 0, 0], [0, 0, 0],
      seq(Pow2(sseBits), _ => 0),
      [0, 0, 0, 0, 0, 0, 0, 0], 0, 0,
      seq(Pow2(memBits), _ => 0), seq(4096, _ => 0x8000), [], 0, 0, false,
      [0, 0, 0, 0, 0, 0, 0, 0], [0, 0, 0, 0, 0, 0, 0, 0, 0, 256], [0, 0, 0, 0, 0, 0, 0, 0], 0, 2048)
  }

  // ----- Prediction -----

  /** The slot of context `k` for the partial byte `c0`. */
  function ContextIndex(m: Model, k: nat, c0: nat): (i: nat)
    requires k < NCTX && |m.h| == NCTX
    ensures i < Pow2(m.memBits)
  {
    if k < 6 then Scatter(m.h[k], c0 * PHI % WORD32, m.memBits)
    else if k == 6 then Xor(m.word, c0 * PHI % WORD32) % Pow2(m.memBits)
    else Scatter(m.sp, c0 * PHI % WORD32, m.memBits)
  }

  function Scatter(h: nat, pc0: nat, memBits: nat): (i: nat)
    ensures i < Pow2(memBits)
  {
    Xor(h, pc0) * PHI % WORD32 % Pow2(memBits)
  }

  predicate PartialByte(c0: nat, nbits: nat) { nbits < 8 && Pow2(nbits) <= c0 < 2 * Pow2(nbits) }

  /** The match model's logit, and the model after its adaptation. */
  function MatchInput(t: Tables, m: Model, c0: nat, nbits: nat): (r: (Model, int))
    requires t.Ok() && m.Valid() && PartialByte(c0, nbits)
    ensures r.0.Valid() && r.0 == m.(mt := r.0.mt, miss := r.0.miss)
    ensures -2047 <= r.1 <= 2047
  {
    if m.mlen == 0 || m.miss || m.mptr >= |m.buf| then (m, 0)
    else
      var pred := m.buf[m.mptr];
      var sofar := c0 - Pow2(nbits);
      if nbits > 0 && pred / Pow2(8 - nbits) != sofar then (m.(miss := true), 0)
      else
        var bit := pred / Pow2(7 - nbits) % 2;
        var i := MatchIndex(m.mlen, nbits, bit, sofar);
        var p := m.mt[i];
        (m.(mt := m.mt[i := Clamp(p + Shr(bit * 65536 - p, 6), 1, 65534)]), t.Stretch(p / 16))
  }

  function MatchIndex(mlen: nat, nbits: nat, bit: nat, sofar: nat): (i: nat)
    ensures i < 4096
  {
    (((if mlen < 16 then mlen else 16) * 16 + nbits * 2 + bit) * 16 + sofar % 16) % 4096
  }

  function Dot(w: seq<int>, x: seq<int>, n: nat): int
    requires n <= |w| && n <= |x|
    decreases n, |w|
  {
    if n == 0 then 0 else Dot(w, x, n - 1) + w[n - 1] * x[n - 1]
  }

  function RowsFor(prev: nat, nbits: nat, matching: bool): (rows: seq<nat>)
    requires nbits < 8 && prev < 256
    ensures |rows| == NMX && rows[0] < 16 && rows[1] < 256 && rows[2] < 4096
  {
    var r0 := nbits * 2 + (if matching then 1 else 0);
    [r0, r0 * 16 + prev / 16, r0 * 256 + prev]
  }

  /** Looks up every context, the match model, and fills the per-bit scratch. */
  function Gather(t: Tables, m: Model, c0: nat, nbits: nat): (r: Model)
    requires t.Ok() && m.Valid() && PartialByte(c0, nbits)
    ensures r.Valid()
  {
    var idx := seq(NCTX, k requires 0 <= k < NCTX => ContextIndex(m, k, c0));
    var sn := seq(NCTX, k requires 0 <= k < NCTX => m.tc[k][idx[k]]);
    var inputs := seq(NCTX, k requires 0 <= k < NCTX => t.EntryLogit(m.sm[k][sn[k]]));
    var (m', logit) := MatchInput(t, m, c0, nbits);
    m'.(rows := RowsFor(m.h[0], nbits, m.mlen > 0 && !m.miss), idx := idx, sn := sn, st := inputs + [logit, m.st[NM]])
  }

  /** The stretched output of first-layer mixer `j`. */
  function Mix1(t: Tables, m: Model, j: nat): (s: int)
    requires t.Ok() && m.Valid() && j < NMX
  {
    t.Restretch(Dot(m.m1[j][m.rows[j]], m.st, NW))
  }

  /** The logit of the second layer. */
  function Mix2(m: Model, s2: seq<int>): int
    requires m.Valid() && |s2| == NMX
  {
    var w2 := m.m2[m.rows[0]];
    Clamp(Shr(Dot(w2, s2, NMX) + w2[NMX] * 256, 16), -2047, 2047)
  }

  /** Mixes the gathered inputs and applies the secondary estimation stage. */
  function Decide(t: Tables, m: Model): (r: Model)
    requires t.Ok() && m.Valid()
    ensures r.Valid()
  {
    var s2 := [Mix1(t, m, 0), Mix1(t, m, 1), Mix1(t, m, 2)];
    var logit := Mix2(m, s2);
    var p := t.Squash(logit);
    var sidx := Xor(m.idx[1] / 16, p / 64) % Pow2(m.sseBits);
    m.(s2 := s2, sidx := sidx, pr := t.Squash(logit + Shr(m.sse[sidx], 6)))
  }

  /** The prediction for the next bit is always a probability in 1..4095. */
  function Predict(t: Tables, m: Model, c0: nat, nbits: nat): (r: Prediction<Model>)
    requires t.Ok() && m.Valid() && PartialByte(c0, nbits)
    ensures r.model.Valid() && 1 <= r.p <= 4095
  {
    var m' := Decide(t, Gather(t, m, c0, nbits));
    Prediction(m', m'.pr)
  }

  // ----- Learning -----

  function LearnRow2(w: seq<int>, s2: seq<int>, err: int, sh: nat): (r: seq<int>)
    requires |w| == NMX + 1 && |s2| == NMX && sh >= 8
    ensures |r| == NMX + 1
  {
    [w[0] + Shr(err * s2[0], sh), w[1] + Shr(err * s2[1], sh), w[2] + Shr(err * s2[2], sh), w[3] + Shr(err, sh - 8)]
  }

  /** The first-layer row moves by its share of the second-layer error. */
  function LearnRow1(w: seq<int>, st: seq<int>, err: int, w2: int, sh: nat): (r: seq<int>)
    requires |w| == NW && |st| == NW
    ensures |r| == NW
  {
    var e1 := Shr(err * w2, 16);
    seq(NW, i requires 0 <= i < NW => w[i] + Shr(e1 * st[i], sh))
  }

  function LearnMixers(m: Model, err: int): (r: Model)
    requires m.Valid()
    ensures r.Valid()
  {
    var w2 := LearnRow2(m.m2[m.rows[0]], m.s2, err, m.lrShift);
    var m1 := seq(NMX, j requires 0 <= j < NMX =>
      m.m1[j][m.rows[j] := LearnRow1(m.m1[j][m.rows[j]], m.st, err, w2[j], m.lrShift)]);
    m.(m2 := m.m2[m.rows[0] := w2], m1 := m1)
  }

  function LearnSse(m: Model, err: int): (r: Model)
    requires m.Valid()
    ensures r.Valid()
  {
    m.(sse := m.sse[m.sidx := m.sse[m.sidx] + Shr(err, 5)])
  }

  function LearnContexts(m: Model, bit: nat): (r: Model)
    requires m.Valid() && bit <= 1
    ensures r.Valid()
  {
    var sm := seq(NCTX, k requires 0 <= k < NCTX => m.sm[k][m.sn[k] := LearnEntry(m.sm[k][m.sn[k]], bit)]);
    var tc := seq(NCTX, k requires 0 <= k < NCTX => m.tc[k][m.idx[k] := NextState(m.sn[k], bit)]);
    m.(sm := sm, tc := tc)
  }

  function Update(m: Model, bit: nat): (r: Model)
    requires m.Valid() && bit <= 1
    ensures r.Valid()
  {
    var err := bit * 4096 - m.pr;
    LearnContexts(LearnMixers(LearnSse(m, err), err), bit)
  }

  predicate WordByte(c: byte) { 48 <= c <= 57 || 65 <= c <= 90 || 97 <= c <= 122 || c == 95 }

  function Roll(h: nat, c: byte, modulus: nat): nat
    requires modulus > 0
  {
    (h * 256 + c) % modulus
  }

  function HashFold(h: nat, c: byte, salt: nat): nat { Xor(h * PHI, c + salt) % WORD32 }

  function WordHash(word: nat, c: byte): nat { if WordByte(c) then (word * 32 + word + c) % WORD32 else 0 }

  /** The context that skips the byte in the middle. */
  function Sparse(b: seq<byte>): nat {
    var n := |b|;
    if n >= 4 then (b[n - 1] as int) * 0x1_0000 + (b[n - 3] as int) * 256 + b[n - 4] else 0
  }

  /** Folds a finished byte into the rolling contexts. */
  function FoldContexts(m: Model, c: byte): (r: Model)
    requires m.Valid()
    ensures r.Valid() && (r.mlen > 0 ==> r.mptr + 1 < |r.buf|)
  {
    var h := m.h;
    var h' := [
      c, Roll(h[0], c, 0x1_0000), Roll(h[1], c, WORD32), Roll(h[2], c, WORD32),
      HashFold(h[3], c, 0x76B149), HashFold(h[4], c, 0x2A6B2E3D), h[6], h[7]];
    var b := m.buf + [c];
    m.(buf := b, h := h', word := WordHash(m.word, c), sp := Sparse(b))
  }

  /** Follows the current match with the byte just appended, or drops it. */
  function ExtendMatch(m: Model, c: byte): (r: Model)
    requires m.Valid() && (m.mlen > 0 ==> m.mptr + 1 < |m.buf|)
    ensures r.Valid()
  {
    if m.mlen == 0 then m
    else if m.mptr < |m.buf| && m.buf[m.mptr] == c then m.(mptr := m.mptr + 1, mlen := m.mlen + 1)
    else m.(mlen := 0)
  }

  function MatchKey(h: seq<nat>, memBits: nat): (i: nat)
    requires |h| == NCTX
    ensures i < Pow2(memBits)
  {
    Xor(Xor(Xor(h[0], h[1] * 2), h[2] * 4), h[3] * 8) % Pow2(memBits)
  }

  /** Records the position and starts a match at a confirmed earlier one. */
  function FindMatch(m: Model, c: byte): (r: Model)
    requires m.Valid()
    ensures r.Valid()
  {
    if m.mlen >= 6 then m.(miss := false)
    else
      var key := MatchKey(m.h, m.memBits);
      var cand := m.mm[key];
      var m' := m.(mm := m.mm[key := |m.buf|], miss := false);
      if cand != |m.buf| && cand >= 2 && m.buf[cand - 1] == c && m.buf[cand - 2] == m.h[1] / 256
      then m'.(mptr := cand, mlen := 1)
      else m'
  }

  function ByteUpdate(m: Model, c: byte): (r: Model)
    requires m.Valid()
    ensures r.Valid()
  {
    FindMatch(ExtendMatch(FoldContexts(m, c), c), c)
  }

  /** A dictionary primes the statistics but leaves no match history. */
  function EndPriming(m: Model): (r: Model)
    requires m.Valid()
    ensures r.Valid() && r.buf == [] && r.mlen == 0
  {
    m.(buf := [], mlen := 0, mm := seq(Pow2(m.memBits), _ => 0))
  }

  /** The model as a predictor; a state or argument outside the model's domain is left alone. */
  function WezcPredictor(t: Tables): (m: Predictor<Model>)
    requires t.Ok()
    ensures Lawful(m)
  {
    Predictor(
      (s: Model, c0: nat, nbits: nat) => if s.Valid()
        && PartialByte(c0, nbits) then Predict(t, s, c0, nbits) else Prediction(s, 2048),
      (s: Model, bit: nat) => if s.Valid() && bit <= 1 then Update(s, bit) else s,
      (s: Model, c: byte) => if s.Valid() then ByteUpdate(s, c) else s,
      (s: Model) => if s.Valid() then EndPriming(s) else s)
  }
}
