/** D-Bus type signatures: the grammar as trees, the parser, and that the two agree. */
module DbusSignature {
  import opened Bytes

  const MAX_SIGNATURE_LEN := 255
  const MAX_ARRAY_DEPTH := 32
  const MAX_STRUCT_DEPTH := 32

  // Type codes.
  const BYTE: byte := 121          // y
  const BOOLEAN: byte := 98        // b
  const INT16: byte := 110         // n
  const UINT16: byte := 113        // q
  const INT32: byte := 105         // i
  const UINT32: byte := 117        // u
  const INT64: byte := 120         // x
  const UINT64: byte := 116        // t
  const DOUBLE: byte := 100        // d
  const STRING: byte := 115        // s
  const OBJECT_PATH: byte := 111   // o
  const SIGNATURE: byte := 103     // g
  const UNIX_FD: byte := 104       // h
  const ARRAY: byte := 97          // a
  const VARIANT: byte := 118       // v
  const STRUCT_OPEN: byte := 40    // (
  const STRUCT_CLOSE: byte := 41   // )
  const DICT_OPEN: byte := 123     // {
  const DICT_CLOSE: byte := 125    // }

  predicate IsBasic(c: byte) {
    c in {BYTE, BOOLEAN, INT16, UINT16, INT32, UINT32, INT64, UINT64, DOUBLE, STRING, OBJECT_PATH, SIGNATURE, UNIX_FD}
  }

  /** The alignment of a value whose type starts with code `c`. */
  function Alignment(c: byte): Option<nat> {
    if c in {BYTE, SIGNATURE} then Some(1)
    else if c in {INT16, UINT16} then Some(2)
    else if c in {BOOLEAN, INT32, UINT32, UNIX_FD, STRING, OBJECT_PATH} then Some(4)
    else if c in {INT64, UINT64, DOUBLE, ARRAY, VARIANT, STRUCT_OPEN, DICT_OPEN} then Some(8)
    else None
  }

  // ----- Type trees -----

  datatype Type =
    | Basic(code: byte)
    | Array(elem: Type)
    | Struct(fields: seq<Type>)
    | Dict(key: byte, value: Type)
    | Variant

  function Print(t: Type): (s: seq<byte>)
    ensures |s| >= 1
    decreases t, 1
  {
    match t
    case Basic(c) => [c]
    case Array(e) => [ARRAY] + Print(e)
    case Struct(fs) => [STRUCT_OPEN] + PrintAll(fs) + [STRUCT_CLOSE]
    case Dict(k, v) => [DICT_OPEN, k] + Print(v) + [DICT_CLOSE]
    case Variant => [VARIANT]
  }

  function PrintAll(ts: seq<Type>): (s: seq<byte>)
    ensures |s| >= |ts|
    decreases ts, 0
  {
    if ts == [] then [] else Print(ts[0]) + PrintAll(ts[1..])
  }

  /** The types of the D-Bus grammar inside `arrays` arrays and `structs` structs or
      dict entries; a dict entry is legal only as the element of an array. */
  predicate Legal(t: Type, arrays: nat, structs: nat, allowDict: bool)
    decreases t, 1
  {
    match t
    case Basic(c) => IsBasic(c)
    case Array(e) => arrays < MAX_ARRAY_DEPTH && Legal(e, arrays + 1, structs, true)
    case Struct(fs) => structs < MAX_STRUCT_DEPTH && fs != [] && AllLegal(fs, arrays, structs + 1)
    case Dict(k, v) => allowDict && structs < MAX_STRUCT_DEPTH && IsBasic(k) && Legal(v, arrays, structs + 1, false)
    case Variant => true
  }

  predicate AllLegal(ts: seq<Type>, arrays: nat, structs: nat)
    decreases ts, 0
  {
    ts == [] || (Legal(ts[0], arrays, structs, false) && AllLegal(ts[1..], arrays, structs))
  }

  /** A type built from known codes, its structs not empty, at any depth; every value of one
      takes at least a byte. */
  predicate Solid(t: Type)
    decreases t, 1
  {
    match t
    case Basic(c) => IsBasic(c)
    case Array(e) => Solid(e)
    case Struct(fs) => fs != [] && AllSolid(fs)
    case Dict(k, v) => IsBasic(k) && Solid(v)
    case Variant => true
  }

  predicate AllSolid(ts: seq<Type>)
    decreases ts, 0
  {
    ts == [] || (Solid(ts[0]) && AllSolid(ts[1..]))
  }

  lemma {:induction false} LegalIsSolid(t: Type, arrays: nat, structs: nat, allowDict: bool)
    requires Legal(t, arrays, structs, allowDict)
    ensures Solid(t)
    decreases t, 1
  {
    match t
    case Basic(c) =>
    case Array(e) => LegalIsSolid(e, arrays + 1, structs, true);
    case Struct(fs) => AllLegalIsSolid(fs, arrays, structs + 1);
    case Dict(k, v) => LegalIsSolid(v, arrays, structs + 1, false);
    case Variant =>
  }

  lemma {:induction false} AllLegalIsSolid(ts: seq<Type>, arrays: nat, structs: nat)
    requires AllLegal(ts, arrays, structs)
    ensures AllSolid(ts)
    decreases ts, 0
  {
    if ts != [] {
      LegalIsSolid(ts[0], arrays, structs, false);
      AllLegalIsSolid(ts[1..], arrays, structs);
    }
  }

  /** A type legal in some place is legal in every shallower one. */
  lemma {:induction false} LegalShallower(t: Type, arrays: nat, structs: nat, allowDict: bool, arrays': nat,
      structs': nat)
    requires Legal(t, arrays, structs, allowDict) && arrays' <= arrays && structs' <= structs
    ensures Legal(t, arrays', structs', allowDict) && Legal(t, arrays', structs', true)
    decreases t, 1
  {
    match t
    case Basic(c) =>
    case Array(e) => LegalShallower(e, arrays + 1, structs, true, arrays' + 1, structs');
    case Struct(fs) => AllLegalShallower(fs, arrays, structs + 1, arrays', structs' + 1);
    case Dict(k, v) => LegalShallower(v, arrays, structs + 1, false, arrays', structs' + 1);
    case Variant =>
  }

  lemma {:induction false} AllLegalShallower(ts: seq<Type>, arrays: nat, structs: nat, arrays': nat, structs': nat)
    requires AllLegal(ts, arrays, structs) && arrays' <= arrays && structs' <= structs
    ensures AllLegal(ts, arrays', structs')
    decreases ts, 0
  {
    if ts != [] {
      LegalShallower(ts[0], arrays, structs, false, arrays', structs');
      AllLegalShallower(ts[1..], arrays, structs, arrays', structs');
    }
  }

  // ----- The parser -----

  datatype ParseError = Truncated | Invalid | Depth
  datatype Parsed = Parsed(t: Type, next: nat)
  datatype Fields = Fields(ts: seq<Type>, next: nat)

  /** Parses one complete type at `pos`. */
  function ParseOne(b: seq<byte>, pos: nat, arrays: nat, structs: nat, allowDict: bool): (r: Result<Parsed, ParseError>)
    ensures r.Ok? ==> pos < r.value.next <= |b|
    decreases |b| - pos, 1
  {
    if pos >= |b| then Err(Truncated)
    else if IsBasic(b[pos]) then Ok(Parsed(Basic(b[pos]), pos + 1))
    else if b[pos] == ARRAY then
      if arrays >= MAX_ARRAY_DEPTH then Err(Depth)
      else
        match ParseOne(b, pos + 1, arrays + 1, structs, true)
        case Err(e) => Err(e)
        case Ok(p) => Ok(Parsed(Array(p.t), p.next))
    else if b[pos] == STRUCT_OPEN then
      if structs >= MAX_STRUCT_DEPTH then Err(Depth)
      else
        match ParseFields(b, pos + 1, arrays, structs + 1)
        case Err(e) => Err(e)
        case Ok(f) => if f.ts == [] then Err(Invalid) else Ok(Parsed(Struct(f.ts), f.next + 1))
    else if b[pos] == DICT_OPEN then
      if !allowDict then Err(Invalid)
      else if structs >= MAX_STRUCT_DEPTH then Err(Depth)
      else if pos + 1 >= |b| then Err(Truncated)
      else if !IsBasic(b[pos + 1]) then Err(Invalid)
      else
        match ParseOne(b, pos + 2, arrays, structs + 1, false)
        case Err(e) => Err(e)
        case Ok(v) =>
          if v.next >= |b| then Err(Truncated)
          else if b[v.next] != DICT_CLOSE then Err(Invalid)
          else Ok(Parsed(Dict(b[pos + 1], v.t), v.next + 1))
    else if b[pos] == VARIANT then Ok(Parsed(Variant, pos + 1))
    else Err(Invalid)
  }

  /** Parses complete types up to the closing parenthesis of a struct. */
  function ParseFields(b: seq<byte>, pos: nat, arrays: nat, structs: nat): (r: Result<Fields, ParseError>)
    ensures r.Ok? ==> pos <= r.value.next < |b| && b[r.value.next] == STRUCT_CLOSE
    decreases |b| - pos, 2
  {
    if pos >= |b| then Err(Truncated)
    else if b[pos] == STRUCT_CLOSE then Ok(Fields([], pos))
    else
      match ParseOne(b, pos, arrays, structs, false)
      case Err(e) => Err(e)
      case Ok(p) =>
        match ParseFields(b, p.next, arrays, structs)
        case Err(e) => Err(e)
        case Ok(f) => Ok(Fields([p.t] + f.ts, f.next))
  }

  // ----- The parser accepts exactly the printings of legal types -----

  /** Soundness: what is parsed is the printing of a legal type, and nothing more is consumed. */
  lemma {:induction false} ParseOneSound(b: seq<byte>, pos: nat, arrays: nat, structs: nat, allowDict: bool)
    requires ParseOne(b, pos, arrays, structs, allowDict).Ok?
    ensures var p := ParseOne(b, pos, arrays, structs, allowDict).value;
      Legal(p.t, arrays, structs, allowDict) && At(b, pos, Print(p.t)) && p.next == pos + |Print(p.t)|
    decreases |b| - pos, 1
  {
    hide IsBasic, Legal, AllLegal, Print, PrintAll, At;
    var p := ParseOne(b, pos, arrays, structs, allowDict).value;
    if IsBasic(b[pos]) || b[pos] == VARIANT {
      LeafSound(b, pos, p.t, arrays, structs, allowDict);
    } else if b[pos] == ARRAY {
      ParseOneSound(b, pos + 1, arrays + 1, structs, true);
      ArraySound(b, pos, p.t.elem, arrays, structs, allowDict);
    } else if b[pos] == STRUCT_OPEN {
      ParseFieldsSound(b, pos + 1, arrays, structs + 1);
      StructSound(b, pos, p.t.fields, arrays, structs, allowDict);
    } else {
      ParseOneSound(b, pos + 2, arrays, structs + 1, false);
      DictSound(b, pos, p.t.value, arrays, structs);
    }
  }

  lemma LeafSound(b: seq<byte>, pos: nat, t: Type, arrays: nat, structs: nat, allowDict: bool)
    requires pos < |b| && ((t == Variant && b[pos] == VARIANT) || (t == Basic(b[pos]) && IsBasic(b[pos])))
    ensures Legal(t, arrays, structs, allowDict) && At(b, pos, Print(t)) && |Print(t)| == 1
  {
  }

  lemma ArraySound(b: seq<byte>, pos: nat, e: Type, arrays: nat, structs: nat, allowDict: bool)
    requires pos < |b| && b[pos] == ARRAY && arrays < MAX_ARRAY_DEPTH
    requires Legal(e, arrays + 1, structs, true) && At(b, pos + 1, Print(e))
    ensures Legal(Array(e), arrays, structs, allowDict) && At(b, pos, Print(Array(e)))
    ensures |Print(Array(e))| == 1 + |Print(e)|
  {
    AtParts(b, pos, [ARRAY], Print(e));
  }

  lemma StructSound(b: seq<byte>, pos: nat, fs: seq<Type>, arrays: nat, structs: nat, allowDict: bool)
    requires pos < |b| && b[pos] == STRUCT_OPEN && structs < MAX_STRUCT_DEPTH && fs != []
    requires AllLegal(fs, arrays, structs + 1) && At(b, pos + 1, PrintAll(fs))
    requires pos + 1 + |PrintAll(fs)| < |b| && b[pos + 1 + |PrintAll(fs)|] == STRUCT_CLOSE
    ensures Legal(Struct(fs), arrays, structs, allowDict) && At(b, pos, Print(Struct(fs)))
    ensures |Print(Struct(fs))| == 2 + |PrintAll(fs)|
  {
    AtBracketed(b, pos, [STRUCT_OPEN], PrintAll(fs), [STRUCT_CLOSE]);
  }

  lemma DictSound(b: seq<byte>, pos: nat, v: Type, arrays: nat, structs: nat)
    requires pos + 1 < |b| && b[pos] == DICT_OPEN && IsBasic(b[pos + 1]) && structs < MAX_STRUCT_DEPTH
    requires Legal(v, arrays, structs + 1, false) && At(b, pos + 2, Print(v))
    requires pos + 2 + |Print(v)| < |b| && b[pos + 2 + |Print(v)|] == DICT_CLOSE
    ensures var d := Dict(b[pos + 1], v);
      Legal(d, arrays, structs, true) && At(b, pos, Print(d)) && |Print(d)| == 3 + |Print(v)|
  {
    AtBracketed(b, pos, [DICT_OPEN, b[pos + 1]], Print(v), [DICT_CLOSE]);
  }

  lemma AtBracketed(b: seq<byte>, pos: nat, open: seq<byte>, inner: seq<byte>, close: seq<byte>)
    requires At(b, pos, open) && At(b, pos + |open|, inner) && At(b, pos + |open| + |inner|, close)
    ensures At(b, pos, open + inner + close)
  {
    AtParts(b, pos, open, inner);
    AtParts(b, pos, open + inner, close);
  }

  lemma {:induction false} ParseFieldsSound(b: seq<byte>, pos: nat, arrays: nat, structs: nat)
    requires ParseFields(b, pos, arrays, structs).Ok?
    ensures var f := ParseFields(b, pos, arrays, structs).value;
      AllLegal(f.ts, arrays, structs) && At(b, pos, PrintAll(f.ts)) && f.next == pos + |PrintAll(f.ts)|
    decreases |b| - pos, 2
  {
    if b[pos] != STRUCT_CLOSE {
      ParseOneSound(b, pos, arrays, structs, false);
      var p := ParseOne(b, pos, arrays, structs, false).value;
      ParseFieldsSound(b, p.next, arrays, structs);
      var f := ParseFields(b, p.next, arrays, structs).value;
      assert ([p.t] + f.ts)[1..] == f.ts;
      AtParts(b, pos, Print(p.t), PrintAll(f.ts));
    }
  }

  lemma FirstCode(t: Type)
    requires Solid(t)
    ensures Print(t)[0] != STRUCT_CLOSE
  {
  }

  lemma BracketsAreNotBasic()
    ensures !IsBasic(ARRAY) && !IsBasic(STRUCT_OPEN) && !IsBasic(DICT_OPEN) && !IsBasic(VARIANT)
  {
  }

  // The parser at each kind of bracket.

  lemma AtArray(b: seq<byte>, pos: nat, arrays: nat, structs: nat, allowDict: bool)
    requires pos < |b| && b[pos] == ARRAY
    ensures var r, e := ParseOne(b, pos, arrays, structs, allowDict), ParseOne(b, pos + 1, arrays + 1, structs, true);
      if arrays < MAX_ARRAY_DEPTH && e.Ok? then r == Ok(Parsed(Array(e.value.t), e.value.next)) else r.Err?
  {
    BracketsAreNotBasic();
    hide IsBasic;
  }

  lemma AtStruct(b: seq<byte>, pos: nat, arrays: nat, structs: nat, allowDict: bool)
    requires pos < |b| && b[pos] == STRUCT_OPEN
    ensures var r, f := ParseOne(b, pos, arrays, structs, allowDict), ParseFields(b, pos + 1, arrays, structs + 1);
      if structs < MAX_STRUCT_DEPTH && f.Ok?
        && f.value.ts != [] then r == Ok(Parsed(Struct(f.value.ts), f.value.next + 1))
      else r.Err?
  {
    BracketsAreNotBasic();
    hide IsBasic;
  }

  lemma AtDict(b: seq<byte>, pos: nat, arrays: nat, structs: nat, allowDict: bool)
    requires pos + 1 < |b| && b[pos] == DICT_OPEN && IsBasic(b[pos + 1])
    ensures var r, v := ParseOne(b, pos, arrays, structs, allowDict), ParseOne(b, pos + 2, arrays, structs + 1, false);
      if allowDict && structs < MAX_STRUCT_DEPTH && v.Ok? && v.value.next < |b| && b[v.value.next] == DICT_CLOSE
      then r == Ok(Parsed(Dict(b[pos + 1], v.value.t), v.value.next + 1))
      else r.Err?
  {
    BracketsAreNotBasic();
    hide IsBasic;
  }

  /** Completeness: the printing of a type is parsed back, whatever follows it, when the type
      is legal there, and refused when it is not. */
  lemma {:induction false} ParseOneComplete(b: seq<byte>, pos: nat, t: Type, arrays: nat, structs: nat, allowDict: bool)
    requires Solid(t) && At(b, pos, Print(t))
    ensures var r := ParseOne(b, pos, arrays, structs, allowDict);
      if Legal(t, arrays, structs, allowDict) then r == Ok(Parsed(t, pos + |Print(t)|)) else r.Err?
    decreases t, 1
  {
    hide ParseOne, IsBasic;
    match t
    case Basic(c) =>
      LeafComplete(b, pos, t, arrays, structs, allowDict);
    case Variant =>
      LeafComplete(b, pos, t, arrays, structs, allowDict);
    case Array(e) =>
      assert b[pos + 0] == Print(t)[0];
      AtParts(b, pos, [ARRAY], Print(e));
      ParseOneComplete(b, pos + 1, e, arrays + 1, structs, true);
      AtArray(b, pos, arrays, structs, allowDict);
    case Struct(fs) =>
      StructComplete(b, pos, fs, arrays, structs, allowDict);
    case Dict(k, v) =>
      DictComplete(b, pos, k, v, arrays, structs, allowDict);
  }

  lemma LeafComplete(b: seq<byte>, pos: nat, t: Type, arrays: nat, structs: nat, allowDict: bool)
    requires (t.Basic? || t.Variant?) && Solid(t) && At(b, pos, Print(t))
    ensures ParseOne(b, pos, arrays, structs, allowDict) == Ok(Parsed(t, pos + 1))
  {
    BracketsAreNotBasic();
    hide IsBasic;
    assert b[pos + 0] == Print(t)[0];
  }

  lemma {:induction false} StructComplete(b: seq<byte>, pos: nat, fs: seq<Type>, arrays: nat, structs: nat,
      allowDict: bool)
    requires Solid(Struct(fs)) && At(b, pos, Print(Struct(fs)))
    ensures var r := ParseOne(b, pos, arrays, structs, allowDict);
      if Legal(Struct(fs), arrays, structs,
        allowDict) then r == Ok(Parsed(Struct(fs), pos + |Print(Struct(fs))|)) else r.Err?
    decreases fs, 2
  {
    hide ParseOne, ParseFields, IsBasic, PrintAll, AllLegal, AllSolid;
    var inner := PrintAll(fs);
    assert Print(Struct(fs)) == [STRUCT_OPEN] + inner + [STRUCT_CLOSE];
    AtParts(b, pos, [STRUCT_OPEN] + inner, [STRUCT_CLOSE]);
    AtParts(b, pos, [STRUCT_OPEN], inner);
    var close := pos + 1 + |inner|;
    assert b[pos + 0] == [STRUCT_OPEN][0] && b[close + 0] == [STRUCT_CLOSE][0];
    ParseFieldsComplete(b, pos + 1, fs, arrays, structs + 1);
    AtStruct(b, pos, arrays, structs, allowDict);
  }

  lemma {:induction false} DictComplete(b: seq<byte>, pos: nat, k: byte, v: Type, arrays: nat, structs: nat,
      allowDict: bool)
    requires Solid(Dict(k, v)) && At(b, pos, Print(Dict(k, v)))
    ensures var r := ParseOne(b, pos, arrays, structs, allowDict);
      if Legal(Dict(k, v), arrays, structs,
        allowDict) then r == Ok(Parsed(Dict(k, v), pos + |Print(Dict(k, v))|)) else r.Err?
    decreases v, 2
  {
    hide ParseOne, IsBasic;
    var inner := Print(v);
    assert Print(Dict(k, v)) == [DICT_OPEN, k] + inner + [DICT_CLOSE];
    AtParts(b, pos, [DICT_OPEN, k] + inner, [DICT_CLOSE]);
    AtParts(b, pos, [DICT_OPEN, k], inner);
    var close := pos + 2 + |inner|;
    assert b[pos + 0] == [DICT_OPEN, k][0] && b[pos + 1] == [DICT_OPEN, k][1] && b[close + 0] == [DICT_CLOSE][0];
    ParseOneComplete(b, pos + 2, v, arrays, structs + 1, false);
    AtDict(b, pos, arrays, structs, allowDict);
  }

  lemma {:induction false} ParseFieldsComplete(b: seq<byte>, pos: nat, ts: seq<Type>, arrays: nat, structs: nat)
    requires AllSolid(ts) && At(b, pos, PrintAll(ts))
    requires pos + |PrintAll(ts)| < |b| && b[pos + |PrintAll(ts)|] == STRUCT_CLOSE
    ensures var r := ParseFields(b, pos, arrays, structs);
      if AllLegal(ts, arrays, structs) then r == Ok(Fields(ts, pos + |PrintAll(ts)|)) else r.Err?
    decreases ts, 0
  {
    if ts != [] {
      var first := Print(ts[0]);
      AtParts(b, pos, first, PrintAll(ts[1..]));
      FirstCode(ts[0]);
      assert b[pos + 0] == first[0];
      hide ParseOne, Legal, Solid;
      ParseOneComplete(b, pos, ts[0], arrays, structs, false);
      ParseFieldsComplete(b, pos + |first|, ts[1..], arrays, structs);
      assert ts == [ts[0]] + ts[1..];
    }
  }

  // ----- Whole signatures -----

  /** Parses complete types up to the end of the signature. */
  function ParseAll(b: seq<byte>, pos: nat): (r: Result<seq<Type>, ParseError>)
    decreases |b| - pos
  {
    if pos >= |b| then Ok([])
    else
      match ParseOne(b, pos, 0, 0, false)
      case Err(e) => Err(e)
      case Ok(p) =>
        match ParseAll(b, p.next)
        case Err(e) => Err(e)
        case Ok(ts) => Ok([p.t] + ts)
  }

  /** A signature the D-Bus specification allows. */
  predicate ValidSignature(sig: seq<byte>) { |sig| <= MAX_SIGNATURE_LEN && ParseAll(sig, 0).Ok? }

  predicate ValidSingle(sig: seq<byte>, allowDict: bool) {
    && |sig| <= MAX_SIGNATURE_LEN && ParseOne(sig, 0, 0, 0, allowDict).Ok?
    && ParseOne(sig, 0, 0, 0, allowDict).value.next == |sig|
  }

  lemma {:induction false} ParseAllSound(b: seq<byte>, pos: nat)
    requires pos <= |b| && ParseAll(b, pos).Ok?
    ensures var ts := ParseAll(b, pos).value;
      AllLegal(ts, 0, 0) && At(b, pos, PrintAll(ts)) && |b| == pos + |PrintAll(ts)|
    decreases |b| - pos
  {
    if pos < |b| {
      ParseOneSound(b, pos, 0, 0, false);
      var p := ParseOne(b, pos, 0, 0, false).value;
      ParseAllSound(b, p.next);
      var ts := ParseAll(b, p.next).value;
      assert ([p.t] + ts)[1..] == ts;
      AtParts(b, pos, Print(p.t), PrintAll(ts));
    }
  }

  lemma {:induction false} ParseAllComplete(b: seq<byte>, pos: nat, ts: seq<Type>)
    requires AllSolid(ts) && At(b, pos, PrintAll(ts)) && |b| == pos + |PrintAll(ts)|
    ensures if AllLegal(ts, 0, 0) then ParseAll(b, pos) == Ok(ts) else ParseAll(b, pos).Err?
    decreases ts
  {
    if ts != [] {
      hide ParseOne, Legal, Solid;
      AtParts(b, pos, Print(ts[0]), PrintAll(ts[1..]));
      ParseOneComplete(b, pos, ts[0], 0, 0, false);
      ParseAllComplete(b, pos + |Print(ts[0])|, ts[1..]);
      assert ts == [ts[0]] + ts[1..];
    }
  }

  /** A signature is valid exactly when it is the printing of some legal types. */
  lemma ValidIffPrinted(sig: seq<byte>)
    ensures ValidSignature(sig)
      <==> |sig| <= MAX_SIGNATURE_LEN && exists ts :: AllLegal(ts, 0, 0) && sig == PrintAll(ts)
  {
    if ValidSignature(sig) {
      ParseAllSound(sig, 0);
      AtSlice(sig, 0, PrintAll(ParseAll(sig, 0).value));
    }
    forall ts | AllLegal(ts, 0, 0) && sig == PrintAll(ts)
      ensures ParseAll(sig, 0).Ok?
    {
      AtSelf(sig);
      AllLegalIsSolid(ts, 0, 0);
      ParseAllComplete(sig, 0, ts);
    }
  }

  /** The same for a single complete type. */
  lemma SingleIffPrinted(sig: seq<byte>, allowDict: bool)
    ensures ValidSingle(sig, allowDict)
      <==> |sig| <= MAX_SIGNATURE_LEN && exists t :: Legal(t, 0, 0, allowDict) && sig == Print(t)
  {
    if ValidSingle(sig, allowDict) {
      ParseOneSound(sig, 0, 0, 0, allowDict);
      AtSlice(sig, 0, Print(ParseOne(sig, 0, 0, 0, allowDict).value.t));
    }
    forall t | Legal(t, 0, 0, allowDict) && sig == Print(t)
      ensures ParseOne(sig, 0, 0, 0, allowDict) == Ok(Parsed(t, |sig|))
    {
      LegalIsSolid(t, 0, 0, allowDict);
      SingleOfPrinted(t, allowDict);
    }
  }

  /** Checking the printing of a type checks the type. */
  lemma SingleOfPrinted(t: Type, allowDict: bool)
    requires Solid(t)
    ensures ValidSingle(Print(t), allowDict) <==> |Print(t)| <= MAX_SIGNATURE_LEN && Legal(t, 0, 0, allowDict)
    ensures Legal(t, 0, 0, allowDict) ==> ParseOne(Print(t), 0, 0, 0, allowDict) == Ok(Parsed(t, |Print(t)|))
  {
    hide ParseOne, Legal, Solid;
    AtSelf(Print(t));
    ParseOneComplete(Print(t), 0, t, 0, 0, allowDict);
  }

  lemma SingleIsSignature(sig: seq<byte>)
    requires ValidSingle(sig, false)
    ensures ValidSignature(sig)
  {
    assert ParseAll(sig, |sig|) == Ok([]);
  }

  // ----- The recursive descent as the source runs it -----

  /** Where parsing stops, or why it fails. */
  function End(r: Result<Parsed, ParseError>): Result<nat, ParseError> {
    if r.Ok? then Ok(r.value.next) else Err(r.error)
  }

  method ParseType(b: seq<byte>, pos: nat, arrays: nat, structs: nat, allowDict: bool) returns (r: Result<nat,
      ParseError>)
    ensures r == End(ParseOne(b, pos, arrays, structs, allowDict))
    decreases |b| - pos
  {
    if pos >= |b| {
      return Err(Truncated);
    }
    var code := b[pos];
    if IsBasic(code) || code == VARIANT {
      return Ok(pos + 1);
    }
    if code == ARRAY {
      if arrays >= MAX_ARRAY_DEPTH {
        return Err(Depth);
      }
      r := ParseType(b, pos + 1, arrays + 1, structs, true);
      return;
    }
    if code == STRUCT_OPEN {
      r := ParseStruct(b, pos, arrays, structs);
      return;
    }
    if code != DICT_OPEN || !allowDict {
      return Err(Invalid);
    }
    if structs >= MAX_STRUCT_DEPTH {
      return Err(Depth);
    }
    if pos + 1 >= |b| {
      return Err(Truncated);
    }
    if !IsBasic(b[pos + 1]) {
      return Err(Invalid);
    }
    var key := ParseType(b, pos + 1, arrays, structs + 1, false);
    var value := ParseType(b, pos + 2, arrays, structs + 1, false);
    if value.Err? {
      return value;
    }
    if value.value >= |b| {
      return Err(Truncated);
    }
    if b[value.value] != DICT_CLOSE {
      return Err(Invalid);
    }
    r := Ok(value.value + 1);
  }

  /** The loop over the fields of a struct. */
  method ParseStruct(b: seq<byte>, pos: nat, arrays: nat, structs: nat) returns (r: Result<nat, ParseError>)
    requires pos < |b| && b[pos] == STRUCT_OPEN
    ensures r == End(ParseOne(b, pos, arrays, structs, false))
    decreases |b| - pos, 0
  {
    if structs >= MAX_STRUCT_DEPTH {
      return Err(Depth);
    }
    var at, fields := pos + 1, 0;
    ghost var done: seq<Type> := [];
    PutInFrontOfNothing(ParseFields(b, at, arrays, structs + 1));
    while at < |b| && b[at] != STRUCT_CLOSE
      invariant pos < at && |done| == fields
      invariant ParseFields(b, pos + 1, arrays, structs + 1) == PutInFront(done,
        ParseFields(b, at, arrays, structs + 1))
      decreases |b| - at
    {
      var field := ParseType(b, at, arrays, structs + 1, false);
      if field.Err? {
        return field;
      }
      ghost var t := ParseOne(b, at, arrays, structs + 1, false).value.t;
      PutInFrontMore(done, t, ParseFields(b, field.value, arrays, structs + 1));
      done := done + [t];
      at, fields := field.value, fields + 1;
    }
    if at >= |b| {
      return Err(Truncated);
    }
    assert done + [] == done;
    if fields == 0 {
      return Err(Invalid);
    }
    r := Ok(at + 1);
  }

  function PutInFront(front: seq<Type>, r: Result<Fields, ParseError>): Result<Fields, ParseError> {
    if r.Ok? then Ok(Fields(front + r.value.ts, r.value.next)) else r
  }

  lemma PutInFrontOfNothing(r: Result<Fields, ParseError>)
    ensures PutInFront([], r) == r
  {
    assert r.Ok? ==> [] + r.value.ts == r.value.ts;
  }

  lemma PutInFrontMore(front: seq<Type>, t: Type, r: Result<Fields, ParseError>)
    ensures PutInFront(front, PutInFront([t], r)) == PutInFront(front + [t], r)
  {
    assert r.Ok? ==> front + ([t] + r.value.ts) == front + [t] + r.value.ts;
  }

  /** Validates a whole signature. */
  method CheckSignature(sig: seq<byte>) returns (ok: bool)
    ensures ok == ValidSignature(sig)
  {
    if |sig| > MAX_SIGNATURE_LEN {
      return false;
    }
    var pos := 0;
    while pos < |sig|
      invariant 0 <= pos <= |sig|
      invariant ParseAll(sig, 0).Ok? == ParseAll(sig, pos).Ok?
      decreases |sig| - pos
    {
      var next := ParseType(sig, pos, 0, 0, false);
      if next.Err? {
        return false;
      }
      pos := next.value;
    }
    ok := true;
  }

  /** Validates a signature of exactly one type; `allowDict` for the element type of an array. */
  method CheckSingle(sig: seq<byte>, allowDict: bool) returns (ok: bool)
    ensures ok == ValidSingle(sig, allowDict)
  {
    if |sig| > MAX_SIGNATURE_LEN {
      return false;
    }
    var next := ParseType(sig, 0, 0, 0, allowDict);
    ok := next == Ok(|sig|);
  }

  /** Walks over the complete types of a signature. */
  class SignatureIter {
    var rest: seq<byte>

    constructor (sig: seq<byte>)
      ensures rest == sig
    {
      rest := sig;
    }

    /** Splits off the first complete type; stops at the end or at anything invalid. */
    method Next() returns (item: Option<seq<byte>>)
      modifies this
      ensures item == NextItem(old(rest))
      ensures rest == AfterItem(old(rest))
    {
      var next := ParseType(rest, 0, 0, 0, false);
      if next.Err? {
        return None;
      }
      item := Some(rest[..next.value]);
      rest := rest[next.value..];
    }
  }

  function NextItem(rest: seq<byte>): Option<seq<byte>> {
    var p := ParseOne(rest, 0, 0, 0, false);
    if p.Ok? then Some(rest[..p.value.next]) else None
  }

  function AfterItem(rest: seq<byte>): (r: seq<byte>)
    ensures NextItem(rest).Some? ==> |r| < |rest|
  {
    var p := ParseOne(rest, 0, 0, 0, false);
    if p.Ok? then rest[p.value.next..] else rest
  }

  /** Everything the iterator delivers. */
  function Items(rest: seq<byte>): seq<seq<byte>>
    decreases |rest|
  {
    match NextItem(rest)
    case None => []
    case Some(item) => [item] + Items(AfterItem(rest))
  }

  function PrintEach(ts: seq<Type>): seq<seq<byte>> {
    if ts == [] then [] else [Print(ts[0])] + PrintEach(ts[1..])
  }

  lemma {:induction false} FirstItem(t: Type, more: seq<byte>)
    requires Legal(t, 0, 0, false)
    ensures NextItem(Print(t) + more) == Some(Print(t)) && AfterItem(Print(t) + more) == more
  {
    var s := Print(t) + more;
    AtSelf(s);
    AtParts(s, 0, Print(t), more);
    LegalIsSolid(t, 0, 0, false);
    ParseOneComplete(s, 0, t, 0, 0, false);
  }

  /** The iterator partitions a valid signature into the printings of its types. */
  lemma {:induction false} ItemsPartition(ts: seq<Type>)
    requires AllLegal(ts, 0, 0)
    ensures Items(PrintAll(ts)) == PrintEach(ts)
  {
    if ts != [] {
      FirstItem(ts[0], PrintAll(ts[1..]));
      ItemsPartition(ts[1..]);
    }
  }
}
