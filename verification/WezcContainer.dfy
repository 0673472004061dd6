/** The WEZC container: a 22-byte header in front of the coded body. */
module WezcContainer {
  import opened Bytes
  import opened Utf32
  import WM = WezcModel
  import WR = WezcRuns
  import WX = WezcRun

  const MAGIC: seq<byte> := [0x57, 0x45, 0x5A, 0x43, 0x01]
  const MODE_UTF32: byte := 2

  /** The parameters stored in the header. */
  datatype Params = Params(mode: byte, memBits: byte, sseBits: byte, lrShift: byte)

  datatype Unpacked = Unpacked(data: seq<byte>, originalLength: nat, units: nat)

  /** With a learning-rate shift below eight the model cannot learn a single bit. */
  function CodeBody(t: WM.Tables, body: seq<byte>, dictionary: seq<byte>, p: Params): Result<seq<byte>, WezcError>
    requires t.Ok()
  {
    if p.lrShift >= 8 then Ok(WR.EncodeStream(t, body, dictionary, p.memBits, p.sseBits, p.lrShift))
    else if body == [] && dictionary == [] then Ok([0, 0, 0, 0])
    else Err(NegativeShift)
  }

  function DecodeBody(t: WM.Tables, payload: seq<byte>, length: nat, dictionary: seq<byte>,
      p: Params): Result<seq<byte>, WezcError>
    requires t.Ok()
  {
    if p.lrShift >= 8 then Ok(WR.DecodeStream(t, payload, length, dictionary, p.memBits, p.sseBits, p.lrShift))
    else if length == 0 && dictionary == [] then Ok([])
    else Err(NegativeShift)
  }

  function Header(p: Params, originalLength: nat, units: nat, bodyLength: nat): (h: seq<byte>)
    ensures |h| == 22
  {
    MAGIC + [p.mode, p.memBits, p.sseBits, p.lrShift, 0] + LeBytes(originalLength, 4) + LeBytes(units,
      4) + LeBytes(bodyLength, 4)
  }

  function BodyOf(data: seq<byte>, mode: byte): Result<seq<byte>, WezcError> {
    if mode == MODE_UTF32 then Split(data) else Ok(data)
  }

  function UnitsOf(data: seq<byte>, mode: byte): nat {
    if mode == MODE_UTF32 then |data| / 4 else |data|
  }

  function Pack(t: WM.Tables, data: seq<byte>, dictionary: seq<byte>, p: Params): Result<seq<byte>, WezcError>
    requires t.Ok()
  {
    match BodyOf(data, p.mode)
    case Err(e) => Err(e)
    case Ok(body) =>
      match CodeBody(t, body, dictionary, p)
      case Err(e) => Err(e)
      case Ok(coded) =>
        if |data| >= WORD32 || UnitsOf(data, p.mode) >= WORD32 || |body| >= WORD32 then Err(Overflow)
        else Ok(Header(p, |data|, UnitsOf(data, p.mode), |body|) + coded)
  }

  function Unpack(t: WM.Tables, blob: seq<byte>, dictionary: seq<byte>): Result<Unpacked, WezcError>
    requires t.Ok()
  {
    if Slice(blob, 0, 5) != MAGIC then Err(NotWezc)
    else if |blob| < 9 then Err(OutOfRange)
    else
      var p := Params(blob[5], blob[6], blob[7], blob[8]);
      var originalLength := FromLe(Slice(blob, 10, 14));
      var units := FromLe(Slice(blob, 14, 18));
      var bodyLength := FromLe(Slice(blob, 18, 22));
      if bodyLength > originalLength * 4 + 16 then Err(Implausible)
      else
        Finish(DecodeBody(t, Slice(blob, 22, |blob|), bodyLength, dictionary, p), p.mode, originalLength, units)
  }

  function Finish(body: Result<seq<byte>, WezcError>, mode: byte, originalLength: nat, units: nat): Result<Unpacked,
      WezcError> {
    match body
    case Err(e) => Err(e)
    case Ok(body) =>
      match if mode == MODE_UTF32 then Join(body) else Ok(body)
      case Err(e) => Err(e)
      case Ok(data) => Ok(Unpacked(data, originalLength, units))
  }

  // ----- Round trip -----

  lemma HeaderFields(p: Params, a: nat, b: nat, c: nat, coded: seq<byte>)
    requires a < WORD32 && b < WORD32 && c < WORD32
    ensures var blob := Header(p, a, b, c) + coded;
      && Slice(blob, 0, 5) == MAGIC && |blob| >= 22
      && blob[5..10] == [p.mode, p.memBits, p.sseBits, p.lrShift, 0]
      && FromLe(Slice(blob, 10, 14)) == a && FromLe(Slice(blob, 14, 18)) == b && FromLe(Slice(blob, 18, 22)) == c
      && Slice(blob, 22, |blob|) == coded
  {
    assert Pow256(4) == WORD32;
    LeRoundTrip(a, 4);
    LeRoundTrip(b, 4);
    LeRoundTrip(c, 4);
    var ps: seq<byte> := [p.mode, p.memBits, p.sseBits, p.lrShift, 0];
    CutHeader(MAGIC, ps, LeBytes(a, 4), LeBytes(b, 4), LeBytes(c, 4), coded);
  }

  lemma CutHeader(magic: seq<byte>, ps: seq<byte>, a: seq<byte>, b: seq<byte>, c: seq<byte>, coded: seq<byte>)
    requires |magic| == 5 && |ps| == 5 && |a| == |b| == |c| == 4
    ensures var blob := magic + ps + a + b + c + coded;
      && Slice(blob, 0, 5) == magic && blob[5..10] == ps
      && Slice(blob, 10, 14) == a && Slice(blob, 14, 18) == b && Slice(blob, 18, 22) == c
      && Slice(blob, 22, |blob|) == coded
  {
  }

  /** Unpacking a plausible header goes on to decode the body with its parameters. */
  lemma HeaderReads(t: WM.Tables, dictionary: seq<byte>, p: Params, a: nat, b: nat, c: nat, coded: seq<byte>)
    requires t.Ok() && a < WORD32 && b < WORD32 && c < WORD32
    ensures Unpack(t, Header(p, a, b, c) + coded, dictionary) ==
      if c > a * 4 + 16 then Err(Implausible) else Finish(DecodeBody(t, coded, c, dictionary, p), p.mode, a, b)
  {
    HeaderFields(p, a, b, c, coded);
    var blob := Header(p, a, b, c) + coded;
    assert blob[5] == blob[5..10][0] && blob[6] == blob[5..10][1] && blob[7] == blob[5..10][2]
      && blob[8] == blob[5..10][3];
  }

  lemma BodyRoundTrip(t: WM.Tables, body: seq<byte>, dictionary: seq<byte>, p: Params)
    requires t.Ok() && CodeBody(t, body, dictionary, p).Ok?
    ensures DecodeBody(t, CodeBody(t, body, dictionary, p).value, |body|, dictionary, p) == Ok(body)
  {
    if p.lrShift >= 8 {
      WR.StreamRoundTrip(t, body, dictionary, p.memBits, p.sseBits, p.lrShift);
    }
  }

  /** Whatever is packed unpacks to the same data: both modes, every dictionary, all
      parameters; in particular the plausibility check never fires on packed output. */
  lemma UnpackInvertsPack(t: WM.Tables, data: seq<byte>, dictionary: seq<byte>, p: Params)
    requires t.Ok() && Pack(t, data, dictionary, p).Ok?
    ensures Unpack(t, Pack(t, data, dictionary, p).value,
      dictionary) == Ok(Unpacked(data, |data|, UnitsOf(data, p.mode)))
  {
    var body := BodyOf(data, p.mode).value;
    var coded := CodeBody(t, body, dictionary, p).value;
    HeaderReads(t, dictionary, p, |data|, UnitsOf(data, p.mode), |body|, coded);
    BodyRoundTrip(t, body, dictionary, p);
    if p.mode == MODE_UTF32 {
      JoinInvertsSplit(data);
      SplitIsPlausible(data);
    }
  }

  /** Data of up to a gigabyte packs, in whole code units when split. */
  lemma PackSucceeds(t: WM.Tables, data: seq<byte>, dictionary: seq<byte>, p: Params)
    requires t.Ok() && p.lrShift >= 8 && 4 * |data| + 16 < WORD32 && (p.mode == MODE_UTF32 ==> |data| % 4 == 0)
    ensures Pack(t, data, dictionary, p).Ok?
  {
    hide WR.EncodeStream, Header;
    if p.mode == MODE_UTF32 {
      SplitIsPlausible(data);
    }
  }

  // ----- The operations -----

  method PackData(t: WM.Tables, data: seq<byte>, dictionary: seq<byte>, p: Params) returns (r: Result<seq<byte>,
      WezcError>)
    requires t.Ok()
    ensures r == Pack(t, data, dictionary, p)
    ensures r.Ok? ==> Unpack(t, r.value, dictionary) == Ok(Unpacked(data, |data|, UnitsOf(data, p.mode)))
  {
    var body, units := data, |data|;
    if p.mode == MODE_UTF32 {
      var split := SplitPlanes(data);
      if split.Err? {
        return Err(split.error);
      }
      body, units := split.value, |data| / 4;
    }
    var coded: seq<byte> := [0, 0, 0, 0];
    if p.lrShift >= 8 {
      coded := WX.EncodeData(t, body, dictionary, p.memBits, p.sseBits, p.lrShift);
    } else if body != [] || dictionary != [] {
      return Err(NegativeShift);
    }
    if |data| >= WORD32 || units >= WORD32 || |body| >= WORD32 {
      return Err(Overflow);
    }
    r := Ok(Header(p, |data|, units, |body|) + coded);
    UnpackInvertsPack(t, data, dictionary, p);
  }

  method UnpackData(t: WM.Tables, blob: seq<byte>, dictionary: seq<byte>) returns (r: Result<Unpacked, WezcError>)
    requires t.Ok()
    ensures r == Unpack(t, blob, dictionary)
  {
    if Slice(blob, 0, 5) != MAGIC {
      return Err(NotWezc);
    }
    if |blob| < 9 {
      return Err(OutOfRange);
    }
    var p := Params(blob[5], blob[6], blob[7], blob[8]);
    var originalLength := FromLe(Slice(blob, 10, 14));
    var units := FromLe(Slice(blob, 14, 18));
    var bodyLength := FromLe(Slice(blob, 18, 22));
    if bodyLength > originalLength * 4 + 16 {
      return Err(Implausible);
    }
    var body: seq<byte> := [];
    if p.lrShift >= 8 {
      body := WX.DecodeData(t, Slice(blob, 22, |blob|), bodyLength, dictionary, p.memBits, p.sseBits, p.lrShift);
    } else if bodyLength > 0 || dictionary != [] {
      return Err(NegativeShift);
    }
    var data := body;
    if p.mode == MODE_UTF32 {
      var joined := JoinPlanes(body);
      if joined.Err? {
        return Err(joined.error);
      }
      data := joined.value;
    }
    r := Ok(Unpacked(data, originalLength, units));
  }
}
