/** What every run of the WEZC model keeps, and the round trip of its streams. */
module WezcRuns {
  import opened Bytes
  import opened Iteration
  import opened ArithmeticCoder
  import opened CoderRoundTrip
  import opened WezcModel

  /** `inv` survives every operation of the predictor. */
  ghost predicate Keeps<S(!new)>(m: Predictor<S>, inv: S -> bool) {
    && (forall s, c0, n :: inv(s) ==> inv(m.predict(s, c0, n).model))
    && (forall s, bit :: inv(s) && bit <= 1 ==> inv(m.update(s, bit)))
    && (forall s, c :: inv(s) ==> inv(m.byteUpdate(s, c)))
    && (forall s :: inv(s) ==> inv(m.endPriming(s)))
  }

  ghost function Holds<S>(inv: S -> bool): Coder<S> -> bool { (v: Coder<S>) => inv(v.model) }

  lemma ByteKeeps<S(!new)>(m: Predictor<S>, inv: S -> bool, mode: Mode, v: Coder<S>, b: byte)
    requires Lawful(m) && Keeps(m, inv) && inv(v.model)
    ensures inv(StepByte(m, mode, v, b).model)
  {
    IterateKeeps(BitLoop(m, mode, b), Holds(inv), v.(c0 := 1), 8);
    assert Holds(inv)(Iterate(BitLoop(m, mode, b), v.(c0 := 1), 8));
  }

  lemma BlockKeeps<S(!new)>(m: Predictor<S>, inv: S -> bool, direction: Mode, v: Coder<S>, k: Block)
    requires Lawful(m) && Keeps(m, inv) && inv(v.model)
    ensures inv(StepBlock(m, direction, v, k).model)
  {
    var f := ByteLoop(m, BlockMode(direction, k), k.source);
    forall w: Coder<S>, i: nat | Holds(inv)(w)
      ensures Holds(inv)(f(w, i))
    {
      ByteKeeps(m, inv, BlockMode(direction, k), w, ByteAt(k.source, i));
    }
    IterateKeeps(f, Holds(inv), v, k.count);
    assert Holds(inv)(Iterate(f, v, k.count));
  }

  /** An invariant of the predictor holds after any number of blocks, in any
      direction and whatever the payload. */
  lemma RunKeeps<S(!new)>(m: Predictor<S>, inv: S -> bool, direction: Mode, v: Coder<S>, blocks: seq<Block>, n: nat)
    requires Lawful(m) && Keeps(m, inv) && inv(v.model)
    ensures inv(Iterate(BlockLoop(m, direction, blocks), v, n).model)
  {
    var f := BlockLoop(m, direction, blocks);
    forall w: Coder<S>, i: nat | Holds(inv)(w)
      ensures Holds(inv)(f(w, i))
    {
      BlockKeeps(m, inv, direction, w, BlockAt(blocks, i));
    }
    IterateKeeps(f, Holds(inv), v, n);
    assert Holds(inv)(Iterate(f, v, n));
  }

  ghost function ModelIsValid(): Model -> bool { (s: Model) => s.Valid() }

  lemma WezcKeepsValid(t: Tables)
    requires t.Ok()
    ensures Keeps(WezcPredictor(t), ModelIsValid())
  {
  }

  /** Every run keeps the model valid: table sizes and indices, state-map entries,
      match pointer; encoding, decoding arbitrary payloads, and priming alike. */
  lemma EveryRunKeepsTheModelValid(t: Tables, direction: Mode, v: Coder<Model>, blocks: seq<Block>, n: nat)
    requires t.Ok() && v.model.Valid()
    ensures Iterate(BlockLoop(WezcPredictor(t), direction, blocks), v, n).model.Valid()
  {
    WezcKeepsValid(t);
    RunKeeps(WezcPredictor(t), ModelIsValid(), direction, v, blocks, n);
    assert ModelIsValid()(Iterate(BlockLoop(WezcPredictor(t), direction, blocks), v, n).model);
  }

  // ----- Streams -----

  function DictionaryBlock(dictionary: seq<byte>): seq<Block> {
    if dictionary != [] then [Block(dictionary, |dictionary|, true)] else []
  }

  function EncodeStream(t: Tables, data: seq<byte>, dictionary: seq<byte>, memBits: nat, sseBits: nat,
      lrShift: nat): seq<byte>
    requires t.Ok() && lrShift >= 8
  {
    Run(WezcPredictor(t), Encode, Init(memBits, sseBits, lrShift),
      DictionaryBlock(dictionary) + [Block(data, |data|, false)])
  }

  function DecodeStream(t: Tables, payload: seq<byte>, length: nat, dictionary: seq<byte>, memBits: nat, sseBits: nat,
      lrShift: nat): seq<byte>
    requires t.Ok() && lrShift >= 8
  {
    Run(WezcPredictor(t), Decode(payload), Init(memBits, sseBits, lrShift),
      DictionaryBlock(dictionary) + [Block([], length, false)])
  }

  lemma StreamBlocksCode(data: seq<byte>, dictionary: seq<byte>)
    ensures var blocks := DictionaryBlock(dictionary) + [Block(data, |data|, false)];
      Runnable(Encode, blocks) && CodedBytes(blocks, |blocks|) == data
  {
    var blocks := DictionaryBlock(dictionary) + [Block(data, |data|, false)];
    var n := |blocks| - 1;
    assert n == 1 ==> BlockAt(blocks, 0).priming && CodedBytes(blocks, 0) == [];
    assert CodedBytes(blocks, n) == [];
    assert BlockAt(blocks, n) == Block(data, |data|, false) && data[..|data|] == data;
  }

  /** Decompression inverts compression for all data, dictionaries and parameters. */
  lemma StreamRoundTrip(t: Tables, data: seq<byte>, dictionary: seq<byte>, memBits: nat, sseBits: nat, lrShift: nat)
    requires t.Ok() && lrShift >= 8
    ensures DecodeStream(t, EncodeStream(t, data, dictionary, memBits, sseBits, lrShift), |data|, dictionary, memBits,
      sseBits, lrShift) == data
  {
    var blocks := DictionaryBlock(dictionary) + [Block(data, |data|, false)];
    StreamBlocksCode(data, dictionary);
    DecodeInvertsEncode(WezcPredictor(t), Init(memBits, sseBits, lrShift), blocks,
      DictionaryBlock(dictionary) + [Block([], |data|, false)]);
  }
}
