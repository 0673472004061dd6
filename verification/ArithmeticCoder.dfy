/** The carry-less binary arithmetic coder shared by the WEZC encoder and decoder.
    Everything here is stated for an arbitrary deterministic predictor. */
module ArithmeticCoder {
  import opened Bytes
  import opened Iteration

  const MASK32 := 0xFFFF_FFFF
  const TOP := 0x100_0000

  /** The coding interval [x1, x2] on 32-bit unsigned numbers. */
  datatype Interval = Interval(x1: nat, x2: nat) {
    ghost predicate Ordered() { x1 <= x2 <= MASK32 }

    /** The state between two coded bits: the leading bytes differ. */
    ghost predicate Settled() { Ordered() && x1 / TOP < x2 / TOP }

    predicate SameTop() { x1 / TOP == x2 / TOP }

    function Mid(p: nat): nat
      requires x1 <= x2
    {
      x1 + (x2 - x1) / 4096 * p
    }

    /** A one takes the lower half, a zero the upper half. */
    function Narrow(p: nat, bit: nat): Interval
      requires x1 <= x2
    {
      if bit == 1 then Interval(x1, Mid(p)) else Interval(Mid(p) + 1, x2)
    }

    function Shift(): Interval { Interval(x1 % TOP * 256, x2 % TOP * 256 + 255) }
  }

  const FULL := Interval(0, MASK32)

  /** The intervals between coded bits. */
  type Live = iv: Interval | iv.Settled() witness FULL

  /** Before every coded bit the split point falls strictly inside the interval. */
  lemma MidInside(iv: Live, p: nat)
    requires 1 <= p <= 4095
    ensures iv.x1 <= iv.Mid(p) < iv.x2
  {
    var w := (iv.x2 - iv.x1) / 4096;
    assert w * p <= w * 4095;
    assert w * 4096 <= iv.x2 - iv.x1;
  }

  lemma ShiftWidens(iv: Interval)
    requires iv.Ordered() && iv.SameTop()
    ensures iv.Shift().Ordered()
    ensures iv.Shift().x2 - iv.Shift().x1 + 1 == 256 * (iv.x2 - iv.x1 + 1)
    ensures iv.x1 == iv.x1 / TOP * TOP + iv.Shift().x1 / 256
    ensures iv.x2 == iv.x1 / TOP * TOP + iv.Shift().x2 / 256
  {
  }

  /** Shifts out leading bytes while both ends agree on them. */
  function Renorm(iv: Interval): (r: Renormed)
    requires iv.Ordered()
    decreases MASK32 - (iv.x2 - iv.x1)
  {
    if iv.SameTop() then
      ShiftWidens(iv);
      var r := Renorm(iv.Shift());
      Renormed(r.iv, [iv.x1 / TOP] + r.out)
    else
      Renormed(iv, [])
  }

  datatype Renormed = Renormed(iv: Live, out: seq<byte>)

  /** Each shift multiplies the width by 256, so at most four happen, even
      when the interval has collapsed to a point. */
  lemma {:induction false} RenormBound(iv: Interval, k: nat)
    requires iv.Ordered() && k <= 4
    requires iv.x2 - iv.x1 + 1 >= Pow256(4 - k)
    ensures |Renorm(iv).out| <= k
    decreases k
  {
    assert Pow256(4) == 0x1_0000_0000 && Pow256(3) == TOP && Pow256(0) == 1;
    if iv.SameTop() {
      ShiftWidens(iv);
      assert k > 0;
      RenormBound(iv.Shift(), k - 1);
    }
  }

  lemma RenormWithinFourShifts(iv: Interval)
    requires iv.Ordered()
    ensures |Renorm(iv).out| <= 4
  {
    RenormBound(iv, 4);
  }

  // ----- The predictor -----

  datatype Prediction<S> = Prediction(model: S, p: nat)

  /** A model: `predict` may change the state; `update` learns a coded bit,
      `byteUpdate` a finished byte, `endPriming` ends a dictionary block. */
  datatype Predictor<!S> = Predictor(
    predict: (S, nat, nat) -> Prediction<S>,
    update: (S, nat) -> S,
    byteUpdate: (S, byte) -> S,
    endPriming: S -> S)

  ghost predicate Lawful<S(!new)>(m: Predictor<S>) {
    forall s, c0, nbits :: 1 <= m.predict(s, c0, nbits).p <= 4095
  }

  /** Bit number `nbits` of `b`, the most significant bit being number 0. */
  function BitOf(b: byte, nbits: nat): (bit: nat)
    ensures bit <= 1
  {
    if nbits < 8 then b / Pow2(7 - nbits) % 2 else 0
  }

  /** The leading `n` bits of `b` behind a marker bit. */
  function Partial(b: byte, n: nat): (c0: nat)
    decreases n, b
  {
    if n == 0 then 1 else 2 * Partial(b, n - 1) + BitOf(b, n - 1)
  }

  /** All eight bits make up the byte. */
  lemma PartialWhole(b: byte)
    ensures Partial(b, 8) == 256 + b
  {
    assert Pow2(1) == 2 && Pow2(2) == 4 && Pow2(3) == 8 && Pow2(4) == 16 && Pow2(5) == 32 && Pow2(6) == 64
      && Pow2(7) == 128;
    assert Partial(b, 1) == 2 + b / 128;
    assert Partial(b, 2) == 4 + b / 64;
    assert Partial(b, 3) == 8 + b / 32;
    assert Partial(b, 4) == 16 + b / 16;
    assert Partial(b, 5) == 32 + b / 8;
    assert Partial(b, 6) == 64 + b / 4;
    assert Partial(b, 7) == 128 + b / 2;
  }

  // ----- The coding loop -----

  /** Everything the loop carries. `c0` is the partial byte behind a marker bit.
      Only the decoder uses `x`, a window of four payload bytes, and `pos`,
      the payload position behind that window. */
  datatype Coder<S> = Coder(model: S, iv: Live, x: nat, pos: nat, c0: nat, sink: seq<byte>)

  /** A priming block is learned without being coded. */
  datatype Mode = Encode | Decode(payload: seq<byte>) | Prime

  function ByteAt(s: seq<byte>, i: nat): byte { if i < |s| then s[i] else 0 }

  function Window(payload: seq<byte>, k: nat): (x: nat)
    ensures x <= MASK32
  {
    ByteAt(payload, k) * TOP + ByteAt(payload, k + 1) * 0x1_0000 + ByteAt(payload, k + 2) * 256 + ByteAt(payload, k + 3)
  }

  /** The decoder's window after sliding over `n` more bytes. */
  function Slide(x: nat, pos: nat, n: nat, payload: seq<byte>): nat
    decreases n, |payload|
  {
    if n == 0 then x else Slide(x % TOP * 256 + ByteAt(payload, pos), pos + 1, n - 1, payload)
  }

  /** The bit the mode codes: the input's bit, or the side of `mid` the window lies on. */
  function ChooseBit<S>(mode: Mode, v: Coder<S>, p: nat, known: nat): (bit: nat)
    requires known <= 1
    ensures bit <= 1
  {
    if mode.Decode? then (if v.x <= v.iv.Mid(p) then 1 else 0) else known
  }

  /** The coder's share of a bit: narrow and renormalise, emitting or fetching bytes. */
  function CodeBit<S>(mode: Mode, v: Coder<S>, p: nat, bit: nat): Coder<S>
    requires 1 <= p <= 4095 && bit <= 1
  {
    MidInside(v.iv, p);
    var r := Renorm(v.iv.Narrow(p, bit));
    match mode
    case Prime => v
    case Encode => v.(iv := r.iv, sink := v.sink + r.out)
    case Decode(payload) => v.(iv := r.iv, x := Slide(v.x, v.pos, |r.out|, payload), pos := v.pos + |r.out|)
  }

  function StepBit<S(!new)>(m: Predictor<S>, mode: Mode, v: Coder<S>, nbits: nat, known: nat): (r: Coder<S>)
    requires Lawful(m) && known <= 1
    ensures 2 * v.c0 <= r.c0 <= 2 * v.c0 + 1
  {
    var prediction := m.predict(v.model, v.c0, nbits);
    var bit := ChooseBit(mode, v, prediction.p, known);
    CodeBit(mode, v, prediction.p, bit).(model := m.update(prediction.model, bit), c0 := 2 * v.c0 + bit)
  }

  /** The loop over the bits of `b`; the decoder ignores `b`. */
  function BitLoop<S(!new)>(m: Predictor<S>, mode: Mode, b: byte): (Coder<S>, nat) -> Coder<S>
    requires Lawful(m)
  {
    (v: Coder<S>, i: nat) => StepBit(m, mode, v, i, BitOf(b, i))
  }

  /** Tells the model the finished byte; the decoder also delivers it. */
  function FinishByte<S(!new)>(m: Predictor<S>, mode: Mode, v: Coder<S>, b: byte): Coder<S> {
    if mode.Decode? then
      var done: byte := v.c0 % 256;
      v.(model := m.byteUpdate(v.model, done), sink := v.sink + [done])
    else
      v.(model := m.byteUpdate(v.model, b))
  }

  function StepByte<S(!new)>(m: Predictor<S>, mode: Mode, v: Coder<S>, b: byte): Coder<S>
    requires Lawful(m)
  {
    FinishByte(m, mode, Iterate(BitLoop(m, mode, b), v.(c0 := 1), 8), b)
  }

  function ByteLoop<S(!new)>(m: Predictor<S>, mode: Mode, source: seq<byte>): (Coder<S>, nat) -> Coder<S>
    requires Lawful(m)
  {
    (v: Coder<S>, i: nat) => StepByte(m, mode, v, ByteAt(source, i))
  }

  /** A block of bytes to code or to learn; decoding a coded block ignores its source. */
  datatype Block = Block(source: seq<byte>, count: nat, priming: bool)

  /** Priming blocks are learned on both sides; the others follow the run's direction. */
  function BlockMode(direction: Mode, k: Block): Mode { if k.priming then Prime else direction }

  function StepBlock<S(!new)>(m: Predictor<S>, direction: Mode, v: Coder<S>, k: Block): Coder<S>
    requires Lawful(m)
  {
    var v' := Iterate(ByteLoop(m, BlockMode(direction, k), k.source), v, k.count);
    if k.priming then v'.(model := m.endPriming(v'.model)) else v'
  }

  function BlockAt(blocks: seq<Block>, i: nat): Block { if i < |blocks| then blocks[i] else Block([], 0, false) }

  function BlockLoop<S(!new)>(m: Predictor<S>, direction: Mode, blocks: seq<Block>): (Coder<S>, nat) -> Coder<S>
    requires Lawful(m)
  {
    (v: Coder<S>, i: nat) => StepBlock(m, direction, v, BlockAt(blocks, i))
  }

  function Start<S>(s: S, direction: Mode): Coder<S> {
    Coder(s, FULL, if direction.Decode? then Window(direction.payload, 0) else 0, 4, 1, [])
  }

  /** The four closing bytes of an encoding: the big-endian lower end of the interval. */
  function Closing(iv: Interval): (s: seq<byte>)
    ensures |s| == 4
  {
    Reverse(LeBytes(iv.x1, 4))
  }

  /** The whole run: an encoding is closed by four bytes, a decoding is not. */
  function Run<S(!new)>(m: Predictor<S>, direction: Mode, s: S, blocks: seq<Block>): seq<byte>
    requires Lawful(m)
  {
    var v := Iterate(BlockLoop(m, direction, blocks), Start(s, direction), |blocks|);
    if direction.Encode? then v.sink + Closing(v.iv) else v.sink
  }

  /** Every block that is read has the bytes it claims. */
  predicate Runnable(direction: Mode, blocks: seq<Block>) {
    forall i :: 0 <= i < |blocks| ==> BlockMode(direction, blocks[i]).Decode? || blocks[i].count <= |blocks[i].source|
  }
}
