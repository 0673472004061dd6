/** The cursor over marshalled bytes, advanced in place. */
module DbusReader {
  import opened Bytes
  import opened DbusNames
  import opened Utf8
  import opened DbusSignature
  import opened DbusWire
  import opened DbusRead

  class Reader {
    const s: Source
    const end: nat
    var pos: nat

    ghost predicate Valid()
      reads this
    {
      Within(s, pos, end)
    }

    /** A cursor over the range from `start` to `end` of a buffer. */
    constructor (s: Source, start: nat, end: nat)
      requires Within(s, start, end)
      ensures this.s == s && this.pos == start && this.end == end && Valid()
    {
      this.s, this.end, this.pos := s, end, start;
    }

    /** What a read did: it returned the value and moved past it, or failed. */
    ghost predicate Did<T>(r: Result<T, DbusError>, spec: Read<T>)
      reads this
    {
      Valid() && match spec case Ok(g) => r == Ok(g.value) && pos == g.next case Err(e) => r == Err(e)
    }

    method Align(alignment: nat) returns (err: Option<DbusError>)
      requires Valid() && alignment > 0
      modifies this
      ensures Valid()
      ensures var r := ReadAlign(old(pos), end, alignment); if r.Ok? then err.None?
        && pos == r.value else err == Some(r.error)
    {
      var padding := (alignment - pos % alignment) % alignment;
      GapFormula(pos, alignment);
      if pos + padding > end {
        return Some(InvalidMessage);
      }
      pos := pos + padding;
      err := None;
    }

    method Bytes(n: nat) returns (r: Result<seq<byte>, DbusError>)
      requires Valid()
      modifies this
      ensures Did(r, ReadBytes(s, old(pos), end, n))
    {
      if pos + n > end {
        return Err(InvalidMessage);
      }
      r := Ok(s.data[pos..pos + n]);
      pos := pos + n;
    }

    method Int(n: nat) returns (r: Result<nat, DbusError>)
      requires Valid() && n > 0
      modifies this
      ensures Did(r, ReadInt(s, old(pos), end, n))
    {
      hide Gap, FromInt;
      var err := Align(n);
      if err.Some? {
        return Err(err.value);
      }
      var b := Bytes(n);
      if b.Err? {
        return Err(b.error);
      }
      r := Ok(FromInt(s.order, b.value));
    }

    method Terminated(n: nat) returns (r: Result<seq<byte>, DbusError>)
      requires Valid()
      modifies this
      ensures Did(r, ReadTerminated(s, old(pos), end, n))
    {
      r := Bytes(n);
      if r.Err? {
        return;
      }
      var nul := Bytes(1);
      if nul.Err? {
        return Err(nul.error);
      }
      if nul.value[0] != 0 {
        return Err(InvalidMessage);
      }
    }

    method Str() returns (r: Result<seq<byte>, DbusError>)
      requires Valid()
      modifies this
      ensures Did(r, ReadStr(s, old(pos), end))
    {
      hide ReadInt, ReadTerminated, IsUtf8;
      var n := Int(4);
      if n.Err? {
        return Err(n.error);
      }
      r := Terminated(n.value);
      if r.Ok? && (0 in r.value || !IsUtf8(r.value)) {
        return Err(InvalidMessage);
      }
    }

    method ObjectPath() returns (r: Result<seq<byte>, DbusError>)
      requires Valid()
      modifies this
      ensures Did(r, ReadPath(s, old(pos), end))
    {
      hide ReadStr, ValidPath;
      r := Str();
      if r.Ok? {
        var ok := CheckPath(r.value);
        if !ok {
          return Err(InvalidName);
        }
      }
    }

    method Signature() returns (r: Result<seq<byte>, DbusError>)
      requires Valid()
      modifies this
      ensures Did(r, ReadSig(s, old(pos), end))
    {
      hide ReadTerminated, IsUtf8, ParseAll;
      var n := Bytes(1);
      if n.Err? {
        return n;
      }
      r := Terminated(n.value[0]);
      if r.Err? {
        return;
      }
      if !IsUtf8(r.value) {
        return Err(InvalidMessage);
      }
      var ok := CheckSignature(r.value);
      if !ok {
        return Err(InvalidSignature);
      }
    }

    method VariantSignature() returns (r: Result<seq<byte>, DbusError>)
      requires Valid()
      modifies this
      ensures Did(r, ReadVariantSig(s, old(pos), end))
    {
      hide ReadSig, ParseOne;
      r := Signature();
      if r.Ok? {
        var ok := CheckSingle(r.value, false);
        if !ok {
          return Err(InvalidSignature);
        }
      }
    }

    /** Moves past an array and hands out its range. */
    method ArrayRange(alignment: nat) returns (r: Result<Range, DbusError>)
      requires Valid() && alignment > 0
      modifies this
      ensures Valid() && r == ReadArray(s, old(pos), end, alignment)
      ensures r.Ok? ==> pos == r.value.end
    {
      hide Gap, ReadInt;
      var err := Align(8);
      if err.Some? {
        return Err(err.value);
      }
      var n := Int(4);
      if n.Err? {
        return Err(n.error);
      }
      if n.value > MAX_ARRAY_LEN {
        return Err(InvalidMessage);
      }
      err := Align(alignment);
      if err.Some? {
        return Err(err.value);
      }
      var start := pos;
      if start + n.value > end {
        return Err(InvalidMessage);
      }
      pos := start + n.value;
      r := Ok(Range(start, start + n.value));
    }

    /** What skipping did. */
    ghost predicate Skipped(err: Option<DbusError>, spec: Result<nat, DbusError>)
      reads this
    {
      Valid() && if spec.Ok? then err.None? && pos == spec.value else err == Some(spec.error)
    }

    /** Skips a value, guided by the bytes of its signature alone. */
    method SkipValue(sig: seq<byte>, ghost t: Type) returns (err: Option<DbusError>)
      requires Valid() && Legal(t, 0, 0, true) && sig == Print(t)
      modifies this
      ensures Solid(t) && Skipped(err, Skip(s, old(pos), end, t))
      decreases end - pos, t, 1
    {
      LegalIsSolid(t, 0, 0, true);
      BracketsAreNotBasic();
      var code := sig[0];
      if IsBasic(code) {
        err := SkipCode(code);
      } else if code == VARIANT {
        err := SkipVariant();
      } else if code == ARRAY {
        err := SkipArray(sig, t.elem);
      } else if code == STRUCT_OPEN {
        err := SkipStruct(sig, t.fields);
      } else {
        err := SkipEntry(sig, t.key, t.value);
      }
    }

    method SkipCode(code: byte) returns (err: Option<DbusError>)
      requires Valid() && IsBasic(code)
      modifies this
      ensures Skipped(err, SkipBasic(s, old(pos), end, code))
    {
      hide ReadInt, ReadSig, ReadStr;
      if IsFixed(code) {
        var r := Int(Width(code));
        return if r.Ok? then None else Some(r.error);
      } else if code == SIGNATURE {
        var r := Signature();
        return if r.Ok? then None else Some(r.error);
      } else {
        var r := Str();
        return if r.Ok? then None else Some(r.error);
      }
    }

    method SkipVariant() returns (err: Option<DbusError>)
      requires Valid()
      modifies this
      ensures Skipped(err, Skip(s, old(pos), end, Variant))
      decreases end - pos, Variant, 0
    {
      hide ReadVariantSig;
      var sig := VariantSignature();
      if sig.Err? {
        return Some(sig.error);
      }
      ghost var t := TypeIn(sig.value);
      LegalShallower(t, 0, 0, false, 0, 0);
      err := SkipValue(sig.value, t);
    }

    method SkipArray(sig: seq<byte>, ghost t: Type) returns (err: Option<DbusError>)
      requires Valid() && Legal(Array(t), 0, 0, true) && sig == Print(Array(t))
      modifies this
      ensures Solid(t) && Skipped(err, Skip(s, old(pos), end, Array(t)))
      decreases end - pos, t, 1
    {
      hide ReadArray, Solid, Legal;
      var element := sig[1..];
      ElementIsLegal(t);
      var a := Alignment(element[0]);
      var alignment := if a.Some? then a.value else 8;
      var range := ArrayRange(alignment);
      if range.Err? {
        return Some(range.error);
      }
      var elements := new Reader(s, range.value.start, range.value.end);
      while elements.pos < elements.end
        invariant elements.Valid() && fresh(elements) && pos == range.value.end
        invariant elements.s == s && elements.end == range.value.end
        invariant range.value.start <= elements.pos
        invariant SkipItems(s, range.value.start, elements.end, t) == SkipItems(s, elements.pos, elements.end, t)
        decreases elements.end - elements.pos
      {
        err := elements.SkipValue(element, t);
        if err.Some? {
          return;
        }
      }
      err := None;
    }

    method SkipStruct(sig: seq<byte>, ghost ts: seq<Type>) returns (err: Option<DbusError>)
      requires Valid() && Legal(Struct(ts), 0, 0, true) && sig == Print(Struct(ts))
      modifies this
      ensures Solid(Struct(ts)) && Skipped(err, Skip(s, old(pos), end, Struct(ts)))
      decreases end - pos, ts, 2
    {
      hide Gap, Legal, Solid, PrintAll, ParseOne;
      FieldsAreLegal(ts);
      err := Align(8);
      if err.Some? {
        return;
      }
      var inner := sig[1..|sig| - 1];
      assert inner == PrintAll(ts);
      var fields := new SignatureIter(inner);
      ghost var start, left := pos, ts;
      var field := fields.Next();
      ItemOf(left);
      while field.Some?
        invariant Valid() && fresh(fields) && start <= pos
        invariant AllLegal(left, 0, 0) && AllSolid(left) && |left| <= |ts|
        invariant pos > start || left == ts
        invariant SkipFields(s, start, end, ts) == SkipFields(s, pos, end, left)
        invariant field == if left == [] then None else Some(Print(left[0]))
        invariant left != [] ==> fields.rest == PrintAll(left[1..])
        decreases |left|
      {
        LegalShallower(left[0], 0, 0, false, 0, 0);
        err := SkipValue(field.value, left[0]);
        if err.Some? {
          return;
        }
        left := left[1..];
        field := fields.Next();
        ItemOf(left);
      }
      err := None;
    }

    method SkipEntry(sig: seq<byte>, ghost k: byte, ghost v: Type) returns (err: Option<DbusError>)
      requires Valid() && Legal(Dict(k, v), 0, 0, true) && sig == Print(Dict(k, v))
      modifies this
      ensures Solid(v) && Skipped(err, Skip(s, old(pos), end, Dict(k, v)))
      decreases end - pos, v, 2
    {
      hide Gap, ParseOne, ReadInt, ReadStr, ReadSig, SkipBasic;
      LegalShallower(v, 0, 1, false, 0, 0);
      LegalIsSolid(v, 0, 1, false);
      err := Align(8);
      if err.Some? {
        return;
      }
      var inner := sig[1..|sig| - 1];
      assert inner == Print(Basic(k)) + Print(v) && Print(v) == Print(v) + [];
      FirstItem(Basic(k), Print(v));
      FirstItem(v, []);
      var parts := new SignatureIter(inner);
      var key := parts.Next();
      var value := parts.Next();
      err := SkipCode(key.value[0]);
      if err.Some? {
        return;
      }
      err := SkipValue(value.value, v);
    }
  }

  lemma GapFormula(pos: nat, alignment: nat)
    requires alignment > 0
    ensures (alignment - pos % alignment) % alignment == Gap(pos, alignment)
  {
    if pos % alignment == 0 {
      RemainderIs(alignment, alignment, 1, 0);
    } else {
      RemainderIs(alignment - pos % alignment, alignment, 0, alignment - pos % alignment);
    }
  }

  lemma ElementIsLegal(t: Type)
    requires Legal(Array(t), 0, 0, true)
    ensures Legal(t, 0, 0, true) && Solid(t) && Solid(Array(t)) && Print(Array(t))[1..] == Print(t)
  {
    LegalShallower(t, 1, 0, true, 0, 0);
    LegalIsSolid(t, 0, 0, true);
  }

  lemma FieldsAreLegal(ts: seq<Type>)
    requires Legal(Struct(ts), 0, 0, true)
    ensures AllLegal(ts, 0, 0) && AllSolid(ts) && ts != [] && Solid(Struct(ts))
    ensures Print(Struct(ts)) == [STRUCT_OPEN] + PrintAll(ts) + [STRUCT_CLOSE]
  {
    AllLegalShallower(ts, 0, 1, 0, 0);
    AllLegalIsSolid(ts, 0, 0);
  }

  lemma ItemOf(ts: seq<Type>)
    requires AllLegal(ts, 0, 0)
    ensures NextItem(PrintAll(ts)) == if ts == [] then None else Some(Print(ts[0]))
    ensures ts != [] ==> AfterItem(PrintAll(ts)) == PrintAll(ts[1..])
  {
    if ts != [] {
      FirstItem(ts[0], PrintAll(ts[1..]));
    }
  }
}
