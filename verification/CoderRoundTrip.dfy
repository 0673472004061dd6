/** Decoding inverts encoding, for every lawful predictor and every block list. */
module CoderRoundTrip {
  import opened Bytes
  import opened Iteration
  import opened ArithmeticCoder

  // ----- Windows -----

  lemma WindowShift(payload: seq<byte>, k: nat)
    ensures Window(payload, k) % TOP * 256 + ByteAt(payload, k + 4) == Window(payload, k + 1)
    ensures Window(payload, k) == ByteAt(payload, k) * TOP + Window(payload, k + 1) / 256
  {
  }

  /** Fetching bytes keeps the window on the payload. */
  lemma {:induction false} SlideWindow(payload: seq<byte>, k: nat, n: nat)
    ensures Slide(Window(payload, k), k + 4, n, payload) == Window(payload, k + n)
    decreases n
  {
    if n > 0 {
      WindowShift(payload, k);
      SlideWindow(payload, k + 1, n - 1);
    }
  }

  /** A window inside the interval after renormalisation was inside it before. */
  lemma {:induction false} RenormBack(iv: Interval, payload: seq<byte>, k: nat)
    requires iv.Ordered()
    requires k + |Renorm(iv).out| <= |payload| && payload[k..k + |Renorm(iv).out|] == Renorm(iv).out
    requires Renorm(iv).iv.x1 <= Window(payload, k + |Renorm(iv).out|) <= Renorm(iv).iv.x2
    ensures iv.x1 <= Window(payload, k) <= iv.x2
    decreases MASK32 - (iv.x2 - iv.x1)
  {
    if iv.SameTop() {
      ShiftWidens(iv);
      var out := Renorm(iv.Shift()).out;
      assert payload[k..k + |Renorm(iv).out|][0] == iv.x1 / TOP;
      assert payload[k + 1..k + 1 + |out|] == payload[k..k + |Renorm(iv).out|][1..];
      RenormBack(iv.Shift(), payload, k + 1);
      WindowShift(payload, k);
    }
  }

  // ----- The encoder stays on the track its own output lays -----

  /** What the encoder has emitted is a prefix of `payload`, and the next four
      payload bytes name a number inside the current interval. */
  ghost predicate OnTrack<S>(e: Coder<S>, payload: seq<byte>) {
    && |e.sink| <= |payload|
    && e.sink == payload[..|e.sink|]
    && e.iv.x1 <= Window(payload, |e.sink|) <= e.iv.x2
  }

  ghost function Tracks<S>(payload: seq<byte>): Coder<S> -> bool { (e: Coder<S>) => OnTrack(e, payload) }

  lemma ClosingOnTrack<S>(e: Coder<S>)
    ensures OnTrack(e, e.sink + Closing(e.iv))
  {
    var x, f := e.iv.x1, e.sink + Closing(e.iv);
    var le := LeBytes(x, 4);
    assert le == [x % 256, x / 256 % 256, x / 256 / 256 % 256, x / 256 / 256 / 256 % 256];
    assert f[|e.sink|..] == Reverse(le);
    assert f[|e.sink|] == le[3] && f[|e.sink| + 1] == le[2] && f[|e.sink| + 2] == le[1] && f[|e.sink| + 3] == le[0];
  }

  lemma CodeBitBack<S>(e: Coder<S>, p: nat, bit: nat, payload: seq<byte>)
    requires 1 <= p <= 4095 && bit <= 1
    requires OnTrack(CodeBit(Encode, e, p, bit), payload)
    ensures OnTrack(e, payload)
    ensures var iv := e.iv.Narrow(p, bit); iv.Ordered() && iv.x1 <= Window(payload, |e.sink|) <= iv.x2
  {
    MidInside(e.iv, p);
    var iv := e.iv.Narrow(p, bit);
    var out, e' := Renorm(iv).out, CodeBit(Encode, e, p, bit);
    assert payload[..|e.sink|] == payload[..|e'.sink|][..|e.sink|];
    assert payload[|e.sink|..|e.sink| + |out|] == payload[..|e'.sink|][|e.sink|..];
    RenormBack(iv, payload, |e.sink|);
  }

  lemma BitBack<S(!new)>(m: Predictor<S>, e: Coder<S>, nbits: nat, bit: nat, payload: seq<byte>)
    requires Lawful(m) && bit <= 1
    requires OnTrack(StepBit(m, Encode, e, nbits, bit), payload)
    ensures OnTrack(e, payload)
  {
    CodeBitBack(e, m.predict(e.model, e.c0, nbits).p, bit, payload);
  }

  lemma BitLoopBack<S(!new)>(m: Predictor<S>, b: byte, payload: seq<byte>)
    requires Lawful(m)
    ensures forall e: Coder<S>, i :: Tracks(payload)(BitLoop(m, Encode, b)(e, i)) ==> Tracks(payload)(e)
  {
    forall e: Coder<S>, i: nat | Tracks(payload)(BitLoop(m, Encode, b)(e, i))
      ensures Tracks(payload)(e)
    {
      BitBack(m, e, i, BitOf(b, i), payload);
    }
  }

  lemma ByteBack<S(!new)>(m: Predictor<S>, e: Coder<S>, b: byte, n: nat, payload: seq<byte>)
    requires Lawful(m) && n <= 8
    requires OnTrack(StepByte(m, Encode, e, b), payload)
    ensures OnTrack(Iterate(BitLoop(m, Encode, b), e.(c0 := 1), n), payload)
    ensures OnTrack(e, payload)
  {
    BitLoopBack(m, b, payload);
    var e8 := Iterate(BitLoop(m, Encode, b), e.(c0 := 1), 8);
    assert Tracks(payload)(e8);
    IterateBack(BitLoop(m, Encode, b), Tracks(payload), e.(c0 := 1), n, 8);
    IterateBack(BitLoop(m, Encode, b), Tracks(payload), e.(c0 := 1), 0, 8);
    assert Tracks(payload)(e.(c0 := 1));
  }

  lemma ByteLoopBack<S(!new)>(m: Predictor<S>, source: seq<byte>, payload: seq<byte>)
    requires Lawful(m)
    ensures forall e: Coder<S>, i :: Tracks(payload)(ByteLoop(m, Encode, source)(e, i)) ==> Tracks(payload)(e)
  {
    forall e: Coder<S>, i: nat | Tracks(payload)(ByteLoop(m, Encode, source)(e, i))
      ensures Tracks(payload)(e)
    {
      ByteBack(m, e, ByteAt(source, i), 0, payload);
    }
  }

  /** Priming changes nothing but the model and the partial byte. */
  ghost function Unmoved<S>(v: Coder<S>): Coder<S> -> bool { (w: Coder<S>) => w == v.(model := w.model, c0 := w.c0) }

  lemma PrimingOnlyTeaches<S(!new)>(m: Predictor<S>, v: Coder<S>, source: seq<byte>, n: nat)
    requires Lawful(m)
    ensures Unmoved(v)(Iterate(ByteLoop(m, Prime, source), v, n))
  {
    forall w: Coder<S>, i: nat | Unmoved(v)(w)
      ensures Unmoved(v)(ByteLoop(m, Prime, source)(w, i))
    {
      var b := ByteAt(source, i);
      IterateKeeps(BitLoop(m, Prime, b), Unmoved(v), w.(c0 := 1), 8);
    }
    IterateKeeps(ByteLoop(m, Prime, source), Unmoved(v), v, n);
  }

  lemma BlockBack<S(!new)>(m: Predictor<S>, e: Coder<S>, k: Block, payload: seq<byte>)
    requires Lawful(m)
    requires OnTrack(StepBlock(m, Encode, e, k), payload)
    ensures OnTrack(e, payload)
    ensures !k.priming ==> OnTrack(Iterate(ByteLoop(m, Encode, k.source), e, k.count), payload)
  {
    if k.priming {
      PrimingOnlyTeaches(m, e, k.source, k.count);
    } else {
      ByteLoopBack(m, k.source, payload);
      assert Tracks(payload)(Iterate(ByteLoop(m, Encode, k.source), e, k.count));
      IterateBack(ByteLoop(m, Encode, k.source), Tracks(payload), e, 0, k.count);
      assert Tracks(payload)(e);
    }
  }

  lemma BlockLoopBack<S(!new)>(m: Predictor<S>, blocks: seq<Block>, payload: seq<byte>)
    requires Lawful(m)
    ensures forall e: Coder<S>, i :: Tracks(payload)(BlockLoop(m, Encode, blocks)(e, i)) ==> Tracks(payload)(e)
  {
    forall e: Coder<S>, i: nat | Tracks(payload)(BlockLoop(m, Encode, blocks)(e, i))
      ensures Tracks(payload)(e)
    {
      BlockBack(m, e, BlockAt(blocks, i), payload);
    }
  }

  // ----- Lock step -----

  /** Encoder and decoder agree on the model and the interval, and the decoder
      looks at the four bytes the encoder is about to emit. */
  ghost predicate InStep<S>(e: Coder<S>, d: Coder<S>, payload: seq<byte>) {
    && d.model == e.model && d.iv == e.iv
    && d.pos == |e.sink| + 4 && d.x == Window(payload, |e.sink|)
  }

  /** In step inside a byte: the decoder has also read the encoder's leading bits. */
  ghost function InBitStep<S>(payload: seq<byte>, delivered: seq<byte>): (Coder<S>, Coder<S>, nat) -> bool {
    (e: Coder<S>, d: Coder<S>, n: nat) => InStep(e, d, payload) && d.c0 == e.c0 && d.sink == delivered
  }

  /** In step between bytes: the decoder has delivered what the encoder read. */
  ghost function InByteStep<S>(payload: seq<byte>, before: seq<byte>, data: seq<byte>): (Coder<S>, Coder<S>,
      nat) -> bool {
    (e: Coder<S>, d: Coder<S>, n: nat) => n <= |data| ==> InStep(e, d, payload) && d.sink == before + data[..n]
  }

  lemma CodeBitInStep<S>(e: Coder<S>, d: Coder<S>, p: nat, bit: nat, known: nat, payload: seq<byte>)
    requires 1 <= p <= 4095 && bit <= 1 && known <= 1
    requires InStep(e, d, payload)
    requires OnTrack(CodeBit(Encode, e, p, bit), payload)
    ensures d.iv.x1 <= d.x <= d.iv.x2
    ensures ChooseBit(Decode(payload), d, p, known) == bit
    ensures InStep(CodeBit(Encode, e, p, bit), CodeBit(Decode(payload), d, p, bit), payload)
  {
    CodeBitBack(e, p, bit, payload);
    MidInside(e.iv, p);
    SlideWindow(payload, |e.sink|, |Renorm(e.iv.Narrow(p, bit)).out|);
  }

  /** One coded bit: the decoder reads the encoder's bit and stays in step. */
  lemma BitInStep<S(!new)>(m: Predictor<S>, e: Coder<S>, d: Coder<S>, nbits: nat, bit: nat, known: nat,
      payload: seq<byte>)
    requires Lawful(m) && bit <= 1 && known <= 1
    requires InStep(e, d, payload) && d.c0 == e.c0
    requires OnTrack(StepBit(m, Encode, e, nbits, bit), payload)
    ensures var e', d' := StepBit(m, Encode, e, nbits, bit), StepBit(m, Decode(payload), d, nbits, known);
      InStep(e', d', payload) && d'.c0 == e'.c0 && d'.sink == d.sink
  {
    CodeBitInStep(e, d, m.predict(e.model, e.c0, nbits).p, bit, known, payload);
  }

  lemma BitLoopInStep<S(!new)>(m: Predictor<S>, b: byte, b': byte, payload: seq<byte>, delivered: seq<byte>)
    requires Lawful(m)
    ensures var f, g, r := BitLoop(m, Encode, b), BitLoop(m, Decode(payload), b'), InBitStep<S>(payload, delivered);
      forall a: Coder<S>, w: Coder<S>, i: nat :: Tracks(payload)(f(a, i)) && r(a, w, i) ==> r(f(a, i), g(w, i), i + 1)
  {
    var f, g, r := BitLoop(m, Encode, b), BitLoop(m, Decode(payload), b'), InBitStep<S>(payload, delivered);
    forall a: Coder<S>, w: Coder<S>, i: nat | Tracks(payload)(f(a, i)) && r(a, w, i)
      ensures r(f(a, i), g(w, i), i + 1)
    {
      BitInStep(m, a, w, i, BitOf(b, i), BitOf(b', i), payload);
    }
  }

  lemma BitsInStep<S(!new)>(m: Predictor<S>, e: Coder<S>, d: Coder<S>, b: byte, b': byte, n: nat, payload: seq<byte>)
    requires Lawful(m)
    requires InBitStep(payload, d.sink)(e, d, 0)
    requires Tracks(payload)(Iterate(BitLoop(m, Encode, b), e, n))
    ensures InBitStep(payload, d.sink)(Iterate(BitLoop(m, Encode, b), e, n),
      Iterate(BitLoop(m, Decode(payload), b'), d, n), n)
  {
    BitLoopBack(m, b, payload);
    BitLoopInStep(m, b, b', payload, d.sink);
    IterateTogether(BitLoop(m, Encode, b), BitLoop(m, Decode(payload), b'), Tracks(payload), InBitStep(payload, d.sink),
      e, d, n);
  }

  /** The encoder's partial byte holds the leading bits of the byte being coded. */
  lemma {:induction false} EncoderPartial<S(!new)>(m: Predictor<S>, mode: Mode, e: Coder<S>, b: byte, n: nat)
    requires Lawful(m) && n <= 8 && !mode.Decode? && e.c0 == 1
    ensures Iterate(BitLoop(m, mode, b), e, n).c0 == Partial(b, n)
    decreases n
  {
    if n > 0 {
      EncoderPartial(m, mode, e, b, n - 1);
    }
  }

  lemma ByteRead<S(!new)>(m: Predictor<S>, e: Coder<S>, b: byte)
    requires Lawful(m) && e.c0 == 1
    ensures Iterate(BitLoop(m, Encode, b), e, 8).c0 % 256 == b
  {
    hide Iterate, BitLoop, Lawful;
    EncoderPartial(m, Encode, e, b, 8);
    PartialWhole(b);
  }

  lemma FinishInStep<S(!new)>(m: Predictor<S>, e: Coder<S>, d: Coder<S>, b: byte, b': byte, payload: seq<byte>)
    requires InStep(e, d, payload) && d.c0 % 256 == b
    ensures var d' := FinishByte(m, Decode(payload), d, b');
      InStep(FinishByte(m, Encode, e, b), d', payload) && d'.sink == d.sink + [b]
  {
  }

  lemma ByteInStep<S(!new)>(m: Predictor<S>, e: Coder<S>, d: Coder<S>, b: byte, b': byte, payload: seq<byte>)
    requires Lawful(m)
    requires InStep(e, d, payload)
    requires OnTrack(StepByte(m, Encode, e, b), payload)
    ensures var d' := StepByte(m, Decode(payload), d, b');
      InStep(StepByte(m, Encode, e, b), d', payload) && d'.sink == d.sink + [b]
  {
    var e1, d1, n := e.(c0 := 1), d.(c0 := 1), 8;
    var e8, d8 := Iterate(BitLoop(m, Encode, b), e1, n), Iterate(BitLoop(m, Decode(payload), b'), d1, n);
    ByteBack(m, e, b, n, payload);
    BitsInStep(m, e1, d1, b, b', n, payload);
    ByteRead(m, e1, b);
    FinishInStep(m, e8, d8, b, b', payload);
  }

  lemma ByteLoopInStep<S(!new)>(m: Predictor<S>, data: seq<byte>, source: seq<byte>, payload: seq<byte>,
      before: seq<byte>)
    requires Lawful(m)
    ensures var f, g, r := ByteLoop(m, Encode, data), ByteLoop(m, Decode(payload), source),
      InByteStep<S>(payload, before, data);
      forall a: Coder<S>, w: Coder<S>, i: nat :: Tracks(payload)(f(a, i)) && r(a, w, i) ==> r(f(a, i), g(w, i), i + 1)
  {
    var f, g, r := ByteLoop(m, Encode, data), ByteLoop(m, Decode(payload), source),
      InByteStep<S>(payload, before, data);
    forall a: Coder<S>, w: Coder<S>, i: nat | Tracks(payload)(f(a, i)) && r(a, w, i)
      ensures r(f(a, i), g(w, i), i + 1)
    {
      ByteLoopStep(m, a, w, data, i, source, payload, before);
    }
  }

  lemma ByteLoopStep<S(!new)>(m: Predictor<S>, a: Coder<S>, w: Coder<S>, data: seq<byte>, i: nat, source: seq<byte>,
      payload: seq<byte>, before: seq<byte>)
    requires Lawful(m)
    requires InByteStep(payload, before, data)(a, w, i)
    requires Tracks(payload)(ByteLoop(m, Encode, data)(a, i))
    ensures InByteStep(payload, before, data)(ByteLoop(m, Encode, data)(a, i),
      ByteLoop(m, Decode(payload), source)(w, i), i + 1)
  {
    if i < |data| {
      var e', d' := StepByte(m, Encode, a, data[i]), StepByte(m, Decode(payload), w, ByteAt(source, i));
      assert InStep(a, w, payload) && w.sink == before + data[..i];
      assert OnTrack(e', payload);
      ByteInStep(m, a, w, data[i], ByteAt(source, i), payload);
      assert InStep(e', d', payload);
      assert d'.sink == before + data[..i + 1] by {
        assert data[..i + 1] == data[..i] + [data[i]];
      }
    }
  }

  lemma BytesInStep<S(!new)>(m: Predictor<S>, e: Coder<S>, d: Coder<S>, data: seq<byte>, n: nat, source: seq<byte>,
      payload: seq<byte>)
    requires Lawful(m)
    requires InStep(e, d, payload)
    requires Tracks(payload)(Iterate(ByteLoop(m, Encode, data), e, n))
    ensures InByteStep(payload, d.sink, data)(Iterate(ByteLoop(m, Encode, data), e, n),
      Iterate(ByteLoop(m, Decode(payload), source), d, n), n)
  {
    ByteLoopBack(m, data, payload);
    ByteLoopInStep(m, data, source, payload, d.sink);
    assert InByteStep(payload, d.sink, data)(e, d, 0);
    IterateTogether(ByteLoop(m, Encode, data), ByteLoop(m, Decode(payload), source), Tracks(payload),
      InByteStep(payload, d.sink, data), e, d, n);
  }

  /** Priming treats encoder and decoder alike. */
  ghost function SameModel<S>(): (Coder<S>, Coder<S>, nat) -> bool {
    (e: Coder<S>, d: Coder<S>, n: nat) => e.model == d.model && e.c0 == d.c0
  }

  ghost function Anything<S>(): Coder<S> -> bool { (e: Coder<S>) => true }

  lemma PrimingByteAlike<S(!new)>(m: Predictor<S>, e: Coder<S>, d: Coder<S>, b: byte)
    requires Lawful(m) && e.model == d.model
    ensures StepByte(m, Prime, e, b).model == StepByte(m, Prime, d, b).model
  {
    var n := 8;
    IterateTogether(BitLoop(m, Prime, b), BitLoop(m, Prime, b), Anything(), SameModel(), e.(c0 := 1), d.(c0 := 1), n);
    var e8, d8 := Iterate(BitLoop(m, Prime, b), e.(c0 := 1), n), Iterate(BitLoop(m, Prime, b), d.(c0 := 1), n);
    assert SameModel()(e8, d8, n);
  }

  lemma PrimingAlike<S(!new)>(m: Predictor<S>, e: Coder<S>, d: Coder<S>, source: seq<byte>, n: nat)
    requires Lawful(m) && e.model == d.model
    ensures Iterate(ByteLoop(m, Prime, source), e, n).model == Iterate(ByteLoop(m, Prime, source), d, n).model
  {
    var f := ByteLoop(m, Prime, source);
    var r := (a: Coder<S>, w: Coder<S>, i: nat) => a.model == w.model;
    forall a: Coder<S>, w: Coder<S>, i: nat | r(a, w, i)
      ensures r(f(a, i), f(w, i), i + 1)
    {
      PrimingByteAlike(m, a, w, ByteAt(source, i));
    }
    IterateTogether(f, f, Anything(), r, e, d, n);
  }

  /** The decoder's block list: the same shapes and the same dictionaries. */
  ghost predicate SameShape(k: Block, k': Block) {
    k'.count == k.count && k'.priming == k.priming && (k.priming ==> k'.source == k.source)
  }

  ghost predicate SameShapes(blocks: seq<Block>, toDecode: seq<Block>) {
    |toDecode| == |blocks| && forall i :: 0 <= i < |blocks| ==> SameShape(blocks[i], toDecode[i])
  }

  /** The bytes a block codes. */
  function Coded(k: Block): seq<byte> {
    if k.priming || |k.source| < k.count then [] else k.source[..k.count]
  }

  /** The bytes the first `n` blocks code, in order. */
  function CodedBytes(blocks: seq<Block>, n: nat): seq<byte>
    decreases n, blocks
  {
    if n == 0 then [] else CodedBytes(blocks, n - 1) + Coded(BlockAt(blocks, n - 1))
  }

  lemma BlockInStep<S(!new)>(m: Predictor<S>, e: Coder<S>, d: Coder<S>, k: Block, k': Block, payload: seq<byte>)
    requires Lawful(m) && k.count <= |k.source| && SameShape(k, k')
    requires InStep(e, d, payload)
    requires OnTrack(StepBlock(m, Encode, e, k), payload)
    ensures var d' := StepBlock(m, Decode(payload), d, k');
      InStep(StepBlock(m, Encode, e, k), d', payload) && d'.sink == d.sink + Coded(k)
  {
    if k.priming {
      PrimingAlike(m, e, d, k.source, k.count);
      PrimingOnlyTeaches(m, e, k.source, k.count);
      PrimingOnlyTeaches(m, d, k.source, k.count);
    } else {
      BlockBack(m, e, k, payload);
      BytesInStep(m, e, d, k.source, k.count, k'.source, payload);
    }
  }

  ghost function InBlockStep<S>(payload: seq<byte>, before: seq<byte>, blocks: seq<Block>): (Coder<S>, Coder<S>,
      nat) -> bool {
    (e: Coder<S>, d: Coder<S>, n: nat) =>
      n <= |blocks| ==> InStep(e, d, payload) && d.sink == before + CodedBytes(blocks, n)
  }

  lemma BlockLoopInStep<S(!new)>(m: Predictor<S>, blocks: seq<Block>, toDecode: seq<Block>, payload: seq<byte>,
      before: seq<byte>)
    requires Lawful(m) && Runnable(Encode, blocks) && SameShapes(blocks, toDecode)
    ensures var f, g, r := BlockLoop(m, Encode, blocks), BlockLoop(m, Decode(payload), toDecode),
      InBlockStep<S>(payload, before, blocks);
      forall a: Coder<S>, w: Coder<S>, i: nat :: Tracks(payload)(f(a, i)) && r(a, w, i) ==> r(f(a, i), g(w, i), i + 1)
  {
    var f, g, r := BlockLoop(m, Encode, blocks), BlockLoop(m, Decode(payload), toDecode),
      InBlockStep<S>(payload, before, blocks);
    forall a: Coder<S>, w: Coder<S>, i: nat | Tracks(payload)(f(a, i)) && r(a, w, i)
      ensures r(f(a, i), g(w, i), i + 1)
    {
      if i < |blocks| {
        CodedStep(blocks, i, toDecode, before);
        BlockLoopStep(m, a, w, blocks, i, toDecode, payload, before);
      }
    }
  }

  lemma BlockLoopStep<S(!new)>(m: Predictor<S>, a: Coder<S>, w: Coder<S>, blocks: seq<Block>, i: nat,
      toDecode: seq<Block>, payload: seq<byte>, before: seq<byte>)
    requires Lawful(m) && i < |blocks|
    requires var k := BlockAt(blocks, i);
      && k.count <= |k.source| && SameShape(k, BlockAt(toDecode, i))
      && before + CodedBytes(blocks, i + 1) == before + CodedBytes(blocks, i) + Coded(k)
    requires InBlockStep(payload, before, blocks)(a, w, i)
    requires Tracks(payload)(BlockLoop(m, Encode, blocks)(a, i))
    ensures InBlockStep(payload, before, blocks)(BlockLoop(m, Encode, blocks)(a, i),
      BlockLoop(m, Decode(payload), toDecode)(w, i), i + 1)
  {
    BlockInStep(m, a, w, BlockAt(blocks, i), BlockAt(toDecode, i), payload);
  }

  lemma CodedStep(blocks: seq<Block>, i: nat, toDecode: seq<Block>, before: seq<byte>)
    requires Runnable(Encode, blocks) && SameShapes(blocks, toDecode) && i < |blocks|
    ensures var k := BlockAt(blocks, i);
      && k.count <= |k.source| && SameShape(k, BlockAt(toDecode, i))
      && before + CodedBytes(blocks, i + 1) == before + CodedBytes(blocks, i) + Coded(k)
  {
    assert !BlockMode(Encode, blocks[i]).Decode?;
  }

  lemma BlocksInStep<S(!new)>(m: Predictor<S>, e: Coder<S>, d: Coder<S>, blocks: seq<Block>, toDecode: seq<Block>,
      n: nat, payload: seq<byte>)
    requires Lawful(m) && Runnable(Encode, blocks) && SameShapes(blocks, toDecode)
    requires InStep(e, d, payload)
    requires Tracks(payload)(Iterate(BlockLoop(m, Encode, blocks), e, n))
    ensures InBlockStep(payload, d.sink, blocks)(
      Iterate(BlockLoop(m, Encode, blocks), e, n), Iterate(BlockLoop(m, Decode(payload), toDecode), d, n), n)
  {
    BlockLoopBack(m, blocks, payload);
    BlockLoopInStep(m, blocks, toDecode, payload, d.sink);
    assert InBlockStep(payload, d.sink, blocks)(e, d, 0);
    IterateTogether(BlockLoop(m, Encode, blocks), BlockLoop(m, Decode(payload), toDecode), Tracks(payload),
      InBlockStep(payload, d.sink, blocks), e, d, n);
  }

  /** Round trip: for every lawful predictor, start state and block list the
      decoder returns exactly the coded bytes. */
  lemma DecodeInvertsEncode<S(!new)>(m: Predictor<S>, s: S, blocks: seq<Block>, toDecode: seq<Block>)
    requires Lawful(m) && Runnable(Encode, blocks) && SameShapes(blocks, toDecode)
    ensures Run(m, Decode(Run(m, Encode, s, blocks)), s, toDecode) == CodedBytes(blocks, |blocks|)
  {
    var e := Iterate(BlockLoop(m, Encode, blocks), Start(s, Encode), |blocks|);
    var payload := e.sink + Closing(e.iv);
    ClosingOnTrack(e);
    BlocksInStep(m, Start(s, Encode), Start(s, Decode(payload)), blocks, toDecode, |blocks|, payload);
  }

  // ----- In step after every bit -----

  lemma InsideByte<S(!new)>(m: Predictor<S>, e: Coder<S>, d: Coder<S>, b: byte, b': byte, payload: seq<byte>, n: nat)
    requires Lawful(m) && n <= 8
    requires InStep(e, d, payload) && OnTrack(StepByte(m, Encode, e, b), payload)
    ensures Alike(Iterate(BitLoop(m, Encode, b), e.(c0 := 1), n),
      Iterate(BitLoop(m, Decode(payload), b'), d.(c0 := 1), n))
  {
    ByteBack(m, e, b, n, payload);
    BitsInStep(m, e.(c0 := 1), d.(c0 := 1), b, b', n, payload);
  }

  /** Both ends hold the same model and interval, and the decoder's window lies in the interval. */
  ghost predicate Alike<S>(e: Coder<S>, d: Coder<S>) {
    d.model == e.model && d.iv == e.iv && d.iv.x1 <= d.x <= d.iv.x2
  }

  /** A run after `i` bytes of block `k` and `n` bits of the next. */
  function Inside<S(!new)>(m: Predictor<S>, direction: Mode, v: Coder<S>, k: Block, i: nat, n: nat): Coder<S>
    requires Lawful(m)
  {
    var mode := BlockMode(direction, k);
    Iterate(BitLoop(m, mode, ByteAt(k.source, i)), Iterate(ByteLoop(m, mode, k.source), v, i).(c0 := 1), n)
  }

  lemma BetweenBytes<S(!new)>(m: Predictor<S>, e: Coder<S>, d: Coder<S>, source: seq<byte>, count: nat,
      other: seq<byte>, payload: seq<byte>, i: nat)
    requires Lawful(m) && i < count <= |source|
    requires InStep(e, d, payload) && Tracks(payload)(Iterate(ByteLoop(m, Encode, source), e, count))
    ensures Tracks(payload)(ByteLoop(m, Encode, source)(Iterate(ByteLoop(m, Encode, source), e, i), i))
    ensures InByteStep(payload, d.sink, source)(Iterate(ByteLoop(m, Encode, source), e, i),
      Iterate(ByteLoop(m, Decode(payload), other), d, i), i)
  {
    hide Iterate, Tracks, ByteLoop, InByteStep, Lawful;
    ByteLoopBack(m, source, payload);
    TurnBack(ByteLoop(m, Encode, source), Tracks(payload), e, i, count);
    BytesInStep(m, e, d, source, i, other, payload);
  }

  lemma InsideCoded<S(!new)>(m: Predictor<S>, e: Coder<S>, d: Coder<S>, k: Block, k': Block, payload: seq<byte>, i: nat,
      n: nat)
    requires Lawful(m) && i < k.count <= |k.source| && SameShape(k, k') && !k.priming && n <= 8
    requires InStep(e, d, payload) && OnTrack(StepBlock(m, Encode, e, k), payload)
    ensures Alike(Inside(m, Encode, e, k, i, n), Inside(m, Decode(payload), d, k', i, n))
  {
    hide Alike, OnTrack, InStep, Iterate, StepByte, StepBit, Lawful;
    BlockBack(m, e, k, payload);
    BetweenBytes(m, e, d, k.source, k.count, k'.source, payload, i);
    var e', d' := Iterate(ByteLoop(m, Encode, k.source), e, i), Iterate(ByteLoop(m, Decode(payload), k'.source), d, i);
    InsideByte(m, e', d', ByteAt(k.source, i), ByteAt(k'.source, i), payload, n);
  }

  lemma PrimingBits<S(!new)>(m: Predictor<S>, e: Coder<S>, d: Coder<S>, b: byte, n: nat)
    requires Lawful(m) && e.model == d.model && e.c0 == d.c0
    ensures var e', d' := Iterate(BitLoop(m, Prime, b), e, n), Iterate(BitLoop(m, Prime, b), d, n);
      e'.model == d'.model && Unmoved(e)(e') && Unmoved(d)(d')
  {
    var g := BitLoop(m, Prime, b);
    IterateTogether(g, g, Anything(), SameModel(), e, d, n);
    assert SameModel()(Iterate(g, e, n), Iterate(g, d, n), n);
    IterateKeeps(g, Unmoved(e), e, n);
    IterateKeeps(g, Unmoved(d), d, n);
  }

  lemma InsidePriming<S(!new)>(m: Predictor<S>, e: Coder<S>, d: Coder<S>, k: Block, payload: seq<byte>, i: nat, n: nat)
    requires Lawful(m) && k.priming && Alike(e, d)
    ensures Alike(Inside(m, Encode, e, k, i, n), Inside(m, Decode(payload), d, k, i, n))
  {
    hide Iterate, StepByte, StepBit, ByteLoop, BitLoop, Lawful;
    var f := ByteLoop(m, Prime, k.source);
    PrimingAlike(m, e, d, k.source, i);
    PrimingOnlyTeaches(m, e, k.source, i);
    PrimingOnlyTeaches(m, d, k.source, i);
    PrimingBits(m, Iterate(f, e, i).(c0 := 1), Iterate(f, d, i).(c0 := 1), ByteAt(k.source, i), n);
  }

  /** The two ends enter every block in step. */
  lemma EntersInStep<S(!new)>(m: Predictor<S>, s: S, blocks: seq<Block>, toDecode: seq<Block>, payload: seq<byte>,
      j: nat)
    requires Lawful(m) && Runnable(Encode, blocks) && SameShapes(blocks, toDecode) && j < |blocks|
    requires payload == Run(m, Encode, s, blocks)
    ensures var e := Iterate(BlockLoop(m, Encode, blocks), Start(s, Encode), j);
      && InStep(e, Iterate(BlockLoop(m, Decode(payload), toDecode), Start(s, Decode(payload)), j), payload)
      && OnTrack(e, payload) && OnTrack(StepBlock(m, Encode, e, blocks[j]), payload)
  {
    hide Iterate, Lawful, Runnable, SameShapes, OnTrack, InStep, StepBlock, Start, Closing, CodedBytes;
    var f, e0 := BlockLoop(m, Encode, blocks), Start(s, Encode);
    ClosingOnTrack(Iterate(f, e0, |blocks|));
    StartInStep(s, payload);
    BlockLoopBack(m, blocks, payload);
    TurnBack(f, Tracks(payload), e0, j, |blocks|);
    BlocksInStep(m, e0, Start(s, Decode(payload)), blocks, toDecode, j, payload);
    BlockTurn(m, blocks, Iterate(f, e0, j), j);
    assert Tracks(payload)(f(Iterate(f, e0, j), j)) && Tracks(payload)(Iterate(f, e0, j));
  }

  lemma BlockTurn<S(!new)>(m: Predictor<S>, blocks: seq<Block>, e: Coder<S>, j: nat)
    requires Lawful(m) && j < |blocks|
    ensures BlockLoop(m, Encode, blocks)(e, j) == StepBlock(m, Encode, e, blocks[j])
  {
  }

  lemma StartInStep<S>(s: S, payload: seq<byte>)
    ensures InStep(Start(s, Encode), Start(s, Decode(payload)), payload)
  {
  }

  /** After any number of blocks, coded or priming, of bytes of the next block and of bits of the
      next byte, the decoder holds the encoder's model and interval. */
  lemma LockStepAfterEveryBit<S(!new)>(m: Predictor<S>, s: S, blocks: seq<Block>, toDecode: seq<Block>, j: nat, i: nat,
      n: nat)
    requires Lawful(m) && Runnable(Encode, blocks) && SameShapes(blocks, toDecode)
    requires j < |blocks| && i < blocks[j].count && n <= 8
    ensures var payload := Run(m, Encode, s, blocks);
      Alike(Inside(m, Encode, Iterate(BlockLoop(m, Encode, blocks), Start(s, Encode), j), blocks[j], i, n),
        Inside(m, Decode(payload), Iterate(BlockLoop(m, Decode(payload), toDecode), Start(s, Decode(payload)), j),
          toDecode[j], i, n))
  {
    var payload := Run(m, Encode, s, blocks);
    EntersInStep(m, s, blocks, toDecode, payload, j);
    var e := Iterate(BlockLoop(m, Encode, blocks), Start(s, Encode), j);
    var d := Iterate(BlockLoop(m, Decode(payload), toDecode), Start(s, Decode(payload)), j);
    assert Alike(e, d);
    hide Inside, Alike, Run, InStep, OnTrack, Lawful;
    if blocks[j].priming {
      assert toDecode[j] == blocks[j];
      InsidePriming(m, e, d, blocks[j], payload, i, n);
    } else {
      assert !BlockMode(Encode, blocks[j]).Decode?;
      InsideCoded(m, e, d, blocks[j], toDecode[j], payload, i, n);
    }
  }
}
