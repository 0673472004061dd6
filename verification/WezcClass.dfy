/** The model instance that encoder and decoder drive, updated in place. */
module WezcClass {
  import opened Bytes
  import opened ArithmeticCoder
  import WM = WezcModel

  /** `pr` is the model of tables `t` wherever that model is defined. */
  ghost predicate Implements(pr: Predictor<WM.Model>, t: WM.Tables) {
    && Lawful(pr) && t.Ok()
    && (forall s: WM.Model, c0, n {:trigger WM.Predict(t, s, c0, n)} ::
          s.Valid() && WM.PartialByte(c0, n) ==> pr.predict(s, c0, n) == WM.Predict(t, s, c0, n))
    && (forall s: WM.Model, bit {:trigger WM.Update(s, bit)} ::
          s.Valid() && bit <= 1 ==> pr.update(s, bit) == WM.Update(s, bit))
    && (forall s: WM.Model, c {:trigger WM.ByteUpdate(s, c)} ::
          s.Valid() ==> pr.byteUpdate(s, c) == WM.ByteUpdate(s, c))
    && (forall s: WM.Model {:trigger WM.EndPriming(s)} :: s.Valid() ==> pr.endPriming(s) == WM.EndPriming(s))
  }

  lemma WezcImplements(t: WM.Tables)
    requires t.Ok()
    ensures Implements(WM.WezcPredictor(t), t)
  {
  }

  /** The attributes of an instance are the fields of the record `m`. */
  class Wezc {
    const t: WM.Tables
    ghost const pr: Predictor<WM.Model>
    var m: WM.Model

    ghost predicate Valid()
      reads this
    {
      Implements(pr, t) && m.Valid()
    }

    constructor (tables: WM.Tables, memBits: nat, sseBits: nat, lrShift: nat)
      requires tables.Ok() && lrShift >= 8
      ensures Valid() && t == tables && pr == WM.WezcPredictor(tables)
      ensures m == WM.Init(memBits, sseBits, lrShift)
    {
      t, pr := tables, WM.WezcPredictor(tables);
      m := WM.Init(memBits, sseBits, lrShift);
      WezcImplements(tables);
    }

    method MatchInput(c0: nat, nbits: nat) returns (logit: int)
      requires Valid() && WM.PartialByte(c0, nbits)
      modifies this
      ensures (m, logit) == WM.MatchInput(t, old(m), c0, nbits)
    {
      if m.mlen == 0 || m.miss {
        return 0;
      }
      if m.mptr >= |m.buf| {
        return 0;
      }
      var pred := m.buf[m.mptr];
      var sofar := c0 - Pow2(nbits);
      if nbits > 0 && pred / Pow2(8 - nbits) != sofar {
        m := m.(miss := true);
        return 0;
      }
      var bit := pred / Pow2(7 - nbits) % 2;
      var i := WM.MatchIndex(m.mlen, nbits, bit, sofar);
      var p := m.mt[i];
      m := m.(mt := m.mt[i := WM.Clamp(p + WM.Shr(bit * 65536 - p, 6), 1, 65534)]);
      logit := t.Stretch(p / 16);
    }

    method Gather(c0: nat, nbits: nat)
      requires Valid() && WM.PartialByte(c0, nbits)
      modifies this
      ensures Valid()
      ensures m == WM.Gather(t, old(m), c0, nbits)
    {
      var idx, sn, st := LookUp(t, m, c0);
      LookedIsGathered(t, m, c0, nbits, idx, sn, st);
      var rows := WM.RowsFor(m.h[0], nbits, m.mlen > 0 && !m.miss);
      var logit := MatchInput(c0, nbits);
      m := m.(rows := rows, idx := idx, sn := sn, st := st[WM.NCTX := logit]);
    }

    /** The six byte contexts, the word context and the sparse context of `m`. */
    static method LookUp(t: WM.Tables, m: WM.Model, c0: nat) returns (idx: seq<nat>, sn: seq<byte>, st: seq<int>)
      requires t.Ok() && m.Valid()
      ensures WM.NCTX == |idx| == |sn| && |st| == WM.NW
      ensures Looked(t, m, c0, idx, sn, st, WM.NCTX)
    {
      idx, sn, st := m.idx, m.sn, m.st;
      var pc0 := c0 * WM.PHI % WM.WORD32;
      var k := 0;
      while k < 6
        invariant 0 <= k <= 6 && |idx| == WM.NCTX && |sn| == WM.NCTX && |st| == WM.NW
        invariant Looked(t, m, c0, idx, sn, st, k)
      {
        var i := WM.Scatter(m.h[k], pc0, m.memBits);
        var s := m.tc[k][i];
        idx, sn, st := idx[k := i], sn[k := s], st[k := t.EntryLogit(m.sm[k][s])];
        k := k + 1;
      }
      var i := WM.Xor(m.word, pc0) % Pow2(m.memBits);
      var s := m.tc[6][i];
      idx, sn, st := idx[6 := i], sn[6 := s], st[6 := t.EntryLogit(m.sm[6][s])];
      i := WM.Scatter(m.sp, pc0, m.memBits);
      s := m.tc[7][i];
      idx, sn, st := idx[7 := i], sn[7 := s], st[7 := t.EntryLogit(m.sm[7][s])];
    }

    /** The first `n` contexts have been looked up. */
    static ghost predicate Looked(t: WM.Tables, m: WM.Model, c0: nat, idx: seq<nat>, sn: seq<byte>, st: seq<int>,
      n: nat)
      requires t.Ok() && m.Valid() && n <= WM.NCTX == |idx| == |sn| && |st| == WM.NW
    {
      && (forall q :: 0 <= q < n ==> idx[q] == WM.ContextIndex(m, q, c0) && sn[q] == m.tc[q][idx[q]])
      && (forall q :: 0 <= q < n ==> st[q] == t.EntryLogit(m.sm[q][sn[q]]))
      && st[WM.NM] == m.st[WM.NM]
    }

    static lemma LookedIsGathered(t: WM.Tables, m: WM.Model, c0: nat, nbits: nat, idx: seq<nat>, sn: seq<byte>,
      st: seq<int>)
      requires t.Ok() && m.Valid() && WM.PartialByte(c0, nbits) && WM.NCTX == |idx| == |sn| && |st| == WM.NW
      requires Looked(t, m, c0, idx, sn, st, WM.NCTX)
      ensures var g := WM.Gather(t, m, c0, nbits);
        g.idx == idx && g.sn == sn && g.st == st[WM.NCTX := WM.MatchInput(t, m, c0, nbits).1]
    {
    }

    static method DotProduct(w: seq<int>, x: seq<int>, n: nat) returns (dot: int)
      requires n <= |w| && n <= |x|
      ensures dot == WM.Dot(w, x, n)
    {
      dot := 0;
      var i := 0;
      while i < n
        invariant 0 <= i <= n
        invariant dot == WM.Dot(w, x, i)
      {
        dot := dot + w[i] * x[i];
        i := i + 1;
      }
    }

    /** The three first-layer outputs and their dot product with the second-layer row. */
    static method FirstLayer(t: WM.Tables, m: WM.Model, w2: seq<int>) returns (s2: seq<int>, dot2: int)
      requires t.Ok() && m.Valid() && |w2| == WM.NMX + 1
      ensures s2 == [WM.Mix1(t, m, 0), WM.Mix1(t, m, 1), WM.Mix1(t, m, 2)]
      ensures dot2 == WM.Dot(w2, s2, WM.NMX)
    {
      s2 := m.s2;
      dot2 := 0;
      var j := 0;
      while j < WM.NMX
        invariant 0 <= j <= WM.NMX && |s2| == WM.NMX
        invariant forall q :: 0 <= q < j ==> s2[q] == WM.Mix1(t, m, q)
        invariant dot2 == WM.Dot(w2, s2, j)
      {
        var dot := DotProduct(m.m1[j][m.rows[j]], m.st, WM.NW);
        var s := t.Restretch(dot);
        DotPrefix(w2, s2, s2[j := s], j);
        s2 := s2[j := s];
        dot2 := dot2 + w2[j] * s;
        j := j + 1;
      }
    }

    static method SecondLayer(w2: seq<int>, dot2: int) returns (logit: int)
      requires |w2| == WM.NMX + 1
      ensures logit == WM.Clamp(WM.Shr(dot2 + w2[WM.NMX] * 256, 16), -2047, 2047)
    {
      logit := WM.Shr(dot2 + w2[WM.NMX] * 256, 16);
      if logit < -2047 {
        logit := -2047;
      } else if logit > 2047 {
        logit := 2047;
      }
    }

    method Decide()
      requires Valid()
      modifies this
      ensures Valid()
      ensures m == WM.Decide(t, old(m))
    {
      hide WM.Mix1, WM.Dot, WM.Shr, WM.Xor, WM.Clamp;
      var w2 := m.m2[m.rows[0]];
      var s2, dot2 := FirstLayer(t, m, w2);
      var logit := SecondLayer(w2, dot2);
      var p := t.Squash(logit);
      var sidx := WM.Xor(m.idx[1] / 16, p / 64) % Pow2(m.sseBits);
      m := m.(s2 := s2, sidx := sidx, pr := t.Squash(logit + WM.Shr(m.sse[sidx], 6)));
    }

    /** Returns the probability of a one and stashes the state `Update` consumes. */
    method Predict(c0: nat, nbits: nat) returns (p: nat)
      requires Valid() && WM.PartialByte(c0, nbits)
      modifies this
      ensures Valid() && 1 <= p <= 4095
      ensures Prediction(m, p) == pr.predict(old(m), c0, nbits)
    {
      hide WM.Gather, WM.Decide, WM.Model.Valid;
      assert pr.predict(m, c0, nbits) == WM.Predict(t, m, c0, nbits);
      Gather(c0, nbits);
      Decide();
      p := m.pr;
    }

    static method LearnRow2(w: seq<int>, s2: seq<int>, err: int, sh: nat) returns (r: seq<int>)
      requires |w| == WM.NMX + 1 && |s2| == WM.NMX && sh >= 8
      ensures r == WM.LearnRow2(w, s2, err, sh)
    {
      r := w;
      var j := 0;
      while j < WM.NMX
        invariant 0 <= j <= WM.NMX && |r| == WM.NMX + 1
        invariant forall q :: 0 <= q < j ==> r[q] == w[q] + WM.Shr(err * s2[q], sh)
        invariant forall q :: j <= q <= WM.NMX ==> r[q] == w[q]
      {
        r := r[j := r[j] + WM.Shr(err * s2[j], sh)];
        j := j + 1;
      }
      r := r[WM.NMX := r[WM.NMX] + WM.Shr(err, sh - 8)];
    }

    static method LearnRow1(w: seq<int>, st: seq<int>, err: int, w2: int, sh: nat) returns (r: seq<int>)
      requires |w| == WM.NW && |st| == WM.NW
      ensures r == WM.LearnRow1(w, st, err, w2, sh)
    {
      r := w;
      var e1 := WM.Shr(err * w2, 16);
      if e1 != 0 {
        var i := 0;
        while i < WM.NW
          invariant 0 <= i <= WM.NW && |r| == WM.NW
          invariant forall q :: 0 <= q < i ==> r[q] == w[q] + WM.Shr(e1 * st[q], sh)
          invariant forall q :: i <= q < WM.NW ==> r[q] == w[q]
        {
          r := r[i := r[i] + WM.Shr(e1 * st[i], sh)];
          i := i + 1;
        }
      } else {
        assert forall q :: 0 <= q < WM.NW ==> e1 * st[q] == 0;
      }
    }

    /** Moves the weights of both layers along the coding error. */
    method LearnMixers(err: int)
      requires Valid()
      modifies this
      ensures Valid()
      ensures m == WM.LearnMixers(old(m), err)
    {
      var w2 := LearnRow2(m.m2[m.rows[0]], m.s2, err, m.lrShift);
      var m1 := FirstLayerRows(m, err, w2);
      assert m1 == WM.LearnMixers(m, err).m1;
      m := m.(m2 := m.m2[m.rows[0] := w2], m1 := m1);
    }

    static method FirstLayerRows(m: WM.Model, err: int, w2: seq<int>) returns (m1: seq<seq<seq<int>>>)
      requires m.Valid() && |w2| == WM.NMX + 1
      ensures |m1| == WM.NMX
      ensures forall q :: 0 <= q < WM.NMX ==>
        m1[q] == m.m1[q][m.rows[q] := WM.LearnRow1(m.m1[q][m.rows[q]], m.st, err, w2[q], m.lrShift)]
    {
      m1 := m.m1;
      var j := 0;
      while j < WM.NMX
        invariant 0 <= j <= WM.NMX && |m1| == WM.NMX
        invariant forall q :: 0 <= q < j ==>
          m1[q] == m.m1[q][m.rows[q] := WM.LearnRow1(m.m1[q][m.rows[q]], m.st, err, w2[q], m.lrShift)]
        invariant forall q :: j <= q < WM.NMX ==> m1[q] == m.m1[q]
      {
        var wj := LearnRow1(m1[j][m.rows[j]], m.st, err, w2[j], m.lrShift);
        m1 := m1[j := m1[j][m.rows[j] := wj]];
        j := j + 1;
      }
    }

    method LearnContexts(bit: nat)
      requires Valid() && bit <= 1
      modifies this
      ensures Valid()
      ensures m == WM.LearnContexts(old(m), bit)
    {
      var sm, tc := m.sm, m.tc;
      var k := 0;
      while k < WM.NCTX
        invariant 0 <= k <= WM.NCTX && |sm| == WM.NCTX && |tc| == WM.NCTX
        invariant forall q :: 0 <= q < k ==> sm[q] == m.sm[q][m.sn[q] := WM.LearnEntry(m.sm[q][m.sn[q]], bit)]
        invariant forall q :: 0 <= q < k ==> tc[q] == m.tc[q][m.idx[q] := WM.NextState(m.sn[q], bit)]
        invariant forall q :: k <= q < WM.NCTX ==> sm[q] == m.sm[q] && tc[q] == m.tc[q]
      {
        var s := m.sn[k];
        var entries: seq<nat> := sm[k][s := WM.LearnEntry(sm[k][s], bit)];
        var slots: seq<byte> := tc[k][m.idx[k] := WM.NextState(s, bit)];
        sm, tc := sm[k := entries], tc[k := slots];
        k := k + 1;
      }
      assert sm == WM.LearnContexts(m, bit).sm && tc == WM.LearnContexts(m, bit).tc;
      m := m.(sm := sm, tc := tc);
    }

    /** Adapts the mixer, the context tables and the secondary estimation. */
    method Update(bit: nat)
      requires Valid() && bit <= 1
      modifies this
      ensures Valid()
      ensures m == pr.update(old(m), bit)
    {
      hide WM.LearnSse, WM.LearnMixers, WM.LearnContexts, WM.Model.Valid;
      assert pr.update(m, bit) == WM.Update(m, bit);
      var err := bit * 4096 - m.pr;
      LearnSse(err);
      LearnMixers(err);
      LearnContexts(bit);
    }

    method LearnSse(err: int)
      requires Valid()
      modifies this
      ensures Valid()
      ensures m == WM.LearnSse(old(m), err)
    {
      m := m.(sse := m.sse[m.sidx := m.sse[m.sidx] + WM.Shr(err, 5)]);
    }

    method FoldContexts(c: byte)
      requires Valid()
      modifies this
      ensures Valid() && (m.mlen > 0 ==> m.mptr + 1 < |m.buf|)
      ensures m == WM.FoldContexts(old(m), c)
    {
      var buf := m.buf + [c];
      var h := m.h;
      h := h[5 := WM.HashFold(h[4], c, 0x2A6B2E3D)];
      h := h[4 := WM.HashFold(h[3], c, 0x76B149)];
      h := h[3 := WM.Roll(h[2], c, WM.WORD32)];
      h := h[2 := WM.Roll(h[1], c, WM.WORD32)];
      h := h[1 := WM.Roll(h[0], c, 0x1_0000)];
      h := h[0 := c];
      assert h == WM.FoldContexts(m, c).h;
      m := m.(buf := buf, h := h, word := WM.WordHash(m.word, c), sp := WM.Sparse(buf));
    }

    method ExtendMatch(c: byte)
      requires Valid() && (m.mlen > 0 ==> m.mptr + 1 < |m.buf|)
      modifies this
      ensures Valid()
      ensures m == WM.ExtendMatch(old(m), c)
    {
      if m.mlen > 0 {
        if m.mptr < |m.buf| && m.buf[m.mptr] == c {
          m := m.(mptr := m.mptr + 1, mlen := m.mlen + 1);
        } else {
          m := m.(mlen := 0);
        }
      }
    }

    method FindMatch(c: byte)
      requires Valid()
      modifies this
      ensures Valid()
      ensures m == WM.FindMatch(old(m), c)
    {
      if m.mlen < 6 {
        var key := WM.MatchKey(m.h, m.memBits);
        var cand := m.mm[key];
        m := m.(mm := m.mm[key := |m.buf|]);
        if cand != 0 && cand != |m.buf| && cand >= 2 {
          if m.buf[cand - 1] == c && m.buf[cand - 2] == m.h[1] / 256 {
            m := m.(mptr := cand, mlen := 1);
          }
        }
      }
      m := m.(miss := false);
    }

    /** Folds a finished byte into the contexts and the match model. */
    method ByteUpdate(c: byte)
      requires Valid()
      modifies this
      ensures Valid()
      ensures m == pr.byteUpdate(old(m), c)
    {
      hide WM.FoldContexts, WM.ExtendMatch, WM.FindMatch;
      assert pr.byteUpdate(m, c) == WM.ByteUpdate(m, c);
      FoldContexts(c);
      ExtendMatch(c);
      FindMatch(c);
    }

    /** After a dictionary block the match history is forgotten. */
    method EndPriming()
      requires Valid()
      modifies this
      ensures Valid()
      ensures m == pr.endPriming(old(m))
    {
      assert pr.endPriming(m) == WM.EndPriming(m);
      m := m.(buf := [], mlen := 0, mm := seq(Pow2(m.memBits), _ => 0));
    }
  }

  lemma {:induction false} DotPrefix(w: seq<int>, a: seq<int>, b: seq<int>, n: nat)
    requires n <= |w| && n <= |a| && n <= |b| && a[..n] == b[..n]
    ensures WM.Dot(w, a, n) == WM.Dot(w, b, n)
    decreases n
  {
    if n > 0 {
      assert a[..n - 1] == a[..n][..n - 1] && b[..n - 1] == b[..n][..n - 1];
      assert a[n - 1] == a[..n][n - 1] && b[n - 1] == b[..n][n - 1];
      DotPrefix(w, a, b, n - 1);
    }
  }
}
