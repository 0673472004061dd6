/** The coding loop that encoder and decoder share, run in place on a model instance. */
module WezcRun {
  import opened Bytes
  import opened Iteration
  import opened ArithmeticCoder
  import opened WezcClass
  import opened WezcRuns

  /** The loop's own variables; the model lives in the instance. */
  datatype Loop = Loop(iv: Live, x: nat, pos: nat, c0: nat, sink: seq<byte>) {
    function With<S>(s: S): Coder<S> { Coder(s, iv, x, pos, c0, sink) }
  }

  /** Shifts equal leading bytes out of the interval, into the sink when encoding. */
  method EmitLeading(iv0: Interval, sink0: seq<byte>) returns (iv: Live, sink: seq<byte>)
    requires iv0.Ordered()
    ensures iv == Renorm(iv0).iv && sink == sink0 + Renorm(iv0).out
  {
    var w := iv0;
    sink := sink0;
    while w.SameTop()
      invariant w.Ordered()
      invariant Renorm(w).iv == Renorm(iv0).iv && sink + Renorm(w).out == sink0 + Renorm(iv0).out
      decreases MASK32 - (w.x2 - w.x1)
    {
      ShiftWidens(w);
      sink := sink + [w.x1 / TOP];
      w := w.Shift();
    }
    iv := w;
  }

  /** Shifts equal leading bytes out of the interval, fetching payload bytes into the window. */
  method FetchLeading(iv0: Interval, x0: nat, pos0: nat, payload: seq<byte>) returns (iv: Live, x: nat, pos: nat)
    requires iv0.Ordered()
    ensures var r := Renorm(iv0);
      iv == r.iv && pos == pos0 + |r.out| && x == Slide(x0, pos0, |r.out|, payload)
  {
    var w := iv0;
    x, pos := x0, pos0;
    while w.SameTop()
      invariant w.Ordered()
      invariant Renorm(w).iv == Renorm(iv0).iv && pos + |Renorm(w).out| == pos0 + |Renorm(iv0).out|
      invariant Slide(x, pos, |Renorm(w).out|, payload) == Slide(x0, pos0, |Renorm(iv0).out|, payload)
      decreases MASK32 - (w.x2 - w.x1)
    {
      ShiftWidens(w);
      w := w.Shift();
      x := x % TOP * 256 + ByteAt(payload, pos);
      pos := pos + 1;
    }
    iv := w;
  }

  /** The coder's share of a bit, given the prediction. */
  method CodeOneBit(mode: Mode, v: Loop, p: nat, known: nat, ghost s: WM.Model) returns (v': Loop, bit: nat)
    requires 1 <= p <= 4095 && known <= 1
    ensures bit == ChooseBit(mode, v.With(s), p, known)
    ensures v'.With(s) == CodeBit(mode, v.With(s), p, bit)
  {
    bit := known;
    v' := v;
    MidInside(v.iv, p);
    if mode.Encode? {
      var iv, sink := EmitLeading(v.iv.Narrow(p, bit), v.sink);
      v' := v.(iv := iv, sink := sink);
    } else if mode.Decode? {
      bit := if v.x <= v.iv.Mid(p) then 1 else 0;
      var iv, x, pos := FetchLeading(v.iv.Narrow(p, bit), v.x, v.pos, mode.payload);
      v' := v.(iv := iv, x := x, pos := pos);
    }
  }

  method RunBit(model: Wezc, mode: Mode, v: Loop, nbits: nat, known: nat) returns (v': Loop)
    requires model.Valid() && WM.PartialByte(v.c0, nbits) && known <= 1
    modifies model
    ensures model.Valid()
    ensures v'.With(model.m) == StepBit(model.pr, mode, v.With(old(model.m)), nbits, known)
  {
    ghost var s := model.m;
    var p := model.Predict(v.c0, nbits);
    var bit;
    v', bit := CodeOneBit(mode, v, p, known, s);
    model.Update(bit);
    v' := v'.(c0 := 2 * v.c0 + bit);
  }

  lemma BitTurn<S(!new)>(m: Predictor<S>, mode: Mode, b: byte, v: Coder<S>, i: nat, w: Coder<S>)
    requires Lawful(m) && w == Iterate(BitLoop(m, mode, b), v, i)
    ensures StepBit(m, mode, w, i, BitOf(b, i)) == Iterate(BitLoop(m, mode, b), v, i + 1)
  {
  }

  /** Codes the eight bits of a byte, most significant first, and folds the byte in. */
  method RunByte(model: Wezc, mode: Mode, v: Loop, b: byte) returns (v': Loop)
    requires model.Valid()
    modifies model
    ensures model.Valid()
    ensures v'.With(model.m) == StepByte(model.pr, mode, v.With(old(model.m)), b)
  {
    hide WM.Model.Valid, StepBit;
    ghost var v0 := v.(c0 := 1).With(model.m);
    v' := v.(c0 := 1);
    var nbits := 0;
    while nbits < 8
      invariant 0 <= nbits <= 8 && model.Valid() && Pow2(nbits) <= v'.c0 < 2 * Pow2(nbits)
      invariant v'.With(model.m) == Iterate(BitLoop(model.pr, mode, b), v0, nbits)
    {
      ghost var w := v'.With(model.m);
      v' := RunBit(model, mode, v', nbits, BitOf(b, nbits));
      BitTurn(model.pr, mode, b, v0, nbits, w);
      nbits := nbits + 1;
    }
    var done: byte := b;
    if mode.Decode? {
      done := v'.c0 % 256;
      v' := v'.(sink := v'.sink + [done]);
    }
    model.ByteUpdate(done);
  }

  lemma ByteTurn<S(!new)>(m: Predictor<S>, mode: Mode, source: seq<byte>, v: Coder<S>, i: nat, w: Coder<S>)
    requires Lawful(m) && w == Iterate(ByteLoop(m, mode, source), v, i)
    ensures StepByte(m, mode, w, ByteAt(source, i)) == Iterate(ByteLoop(m, mode, source), v, i + 1)
  {
  }

  method RunBlock(model: Wezc, direction: Mode, v: Loop, k: Block) returns (v': Loop)
    requires model.Valid()
    requires BlockMode(direction, k).Decode? || k.count <= |k.source|
    modifies model
    ensures model.Valid()
    ensures v'.With(model.m) == StepBlock(model.pr, direction, v.With(old(model.m)), k)
  {
    ghost var v0 := v.With(model.m);
    var mode := BlockMode(direction, k);
    v' := v;
    var i := 0;
    while i < k.count
      invariant 0 <= i <= k.count && model.Valid()
      invariant v'.With(model.m) == Iterate(ByteLoop(model.pr, mode, k.source), v0, i)
    {
      ghost var w := v'.With(model.m);
      v' := RunByte(model, mode, v', ByteAt(k.source, i));
      ByteTurn(model.pr, mode, k.source, v0, i, w);
      i := i + 1;
    }
    if k.priming {
      model.EndPriming();
    }
  }

  lemma BlockTurn<S(!new)>(m: Predictor<S>, direction: Mode, blocks: seq<Block>, v: Coder<S>, i: nat, w: Coder<S>)
    requires Lawful(m) && i < |blocks| && w == Iterate(BlockLoop(m, direction, blocks), v, i)
    ensures StepBlock(m, direction, w, blocks[i]) == Iterate(BlockLoop(m, direction, blocks), v, i + 1)
  {
  }

  /** The shared loop over all blocks. */
  method RunBlocks(model: Wezc, direction: Mode, blocks: seq<Block>) returns (sink: seq<byte>)
    requires model.Valid() && Runnable(direction, blocks)
    modifies model
    ensures model.Valid()
    ensures sink == Run(model.pr, direction, old(model.m), blocks)
  {
    ghost var v0 := Start(model.m, direction);
    var v := Loop(FULL, if direction.Decode? then Window(direction.payload, 0) else 0, 4, 1, []);
    var i := 0;
    while i < |blocks|
      invariant 0 <= i <= |blocks| && model.Valid()
      invariant v.With(model.m) == Iterate(BlockLoop(model.pr, direction, blocks), v0, i)
    {
      ghost var w := v.With(model.m);
      v := RunBlock(model, direction, v, blocks[i]);
      BlockTurn(model.pr, direction, blocks, v0, i, w);
      i := i + 1;
    }
    sink := v.sink;
    if direction.Encode? {
      sink := sink + Closing(v.iv);
    }
  }

  method EncodeData(t: WM.Tables, data: seq<byte>, dictionary: seq<byte>, memBits: nat, sseBits: nat, lrShift: nat)
    returns (payload: seq<byte>)
    requires t.Ok() && lrShift >= 8
    ensures payload == EncodeStream(t, data, dictionary, memBits, sseBits, lrShift)
    ensures DecodeStream(t, payload, |data|, dictionary, memBits, sseBits, lrShift) == data
  {
    var model := new Wezc(t, memBits, sseBits, lrShift);
    StreamBlocksCode(data, dictionary);
    payload := RunBlocks(model, Encode, DictionaryBlock(dictionary) + [Block(data, |data|, false)]);
    StreamRoundTrip(t, data, dictionary, memBits, sseBits, lrShift);
  }

  method DecodeData(t: WM.Tables, payload: seq<byte>, length: nat, dictionary: seq<byte>, memBits: nat, sseBits: nat,
      lrShift: nat)
    returns (data: seq<byte>)
    requires t.Ok() && lrShift >= 8
    ensures data == DecodeStream(t, payload, length, dictionary, memBits, sseBits, lrShift)
  {
    var model := new Wezc(t, memBits, sseBits, lrShift);
    data := RunBlocks(model, Decode(payload), DictionaryBlock(dictionary) + [Block([], length, false)]);
  }
}
