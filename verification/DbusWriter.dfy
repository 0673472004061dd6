/** The marshalling buffer and the body builder, updated in place. */
module DbusWriter {
  import opened Bytes
  import opened DbusNames
  import opened Utf8
  import opened DbusSignature
  import opened DbusWire

  /** Appends marshalled bytes to a buffer. */
  class Writer {
    var data: seq<byte>
    const order: ByteOrder

    constructor (order: ByteOrder)
      ensures data == [] && this.order == order
    {
      data := [];
      this.order := order;
    }

    method Align(alignment: nat)
      modifies this
      ensures data == old(data) + if alignment == 0 then [] else Pad(|old(data)|, alignment)
    {
      if alignment == 0 {
        return;
      }
      var n := |data|;
      GapIsLeast(n, alignment, 0);
      while |data| % alignment != 0
        invariant n <= |data| <= n + Gap(n, alignment)
        invariant |data| % alignment == 0 <==> |data| == n + Gap(n, alignment)
        invariant data == old(data) + Pad(n, alignment)[..|data| - n]
        decreases n + Gap(n, alignment) - |data|
      {
        GapIsLeast(n, alignment, |data| + 1 - n);
        data := data + [0];
      }
    }

    /** An aligned integer of `n` bytes, its high bits cut off. */
    method WriteInt(v: nat, n: nat)
      requires n > 0
      modifies this
      ensures data == old(data) + (Pad(|old(data)|, n) + IntBytes(order, v, n))
    {
      hide LeBytes;
      Align(n);
      data := data + IntBytes(order, v, n);
    }

    method WriteStr(text: seq<byte>) returns (err: Option<DbusError>)
      modifies this
      ensures err == if 0 in text then Some(InvalidMessage) else None
      ensures data == old(data) + if err.Some? then [] else StrBytes(order, text, |old(data)|)
    {
      hide LeBytes;
      if 0 in text {
        return Some(InvalidMessage);
      }
      WriteInt(|text|, 4);
      data := data + text;
      data := data + [0];
      err := None;
    }

    method WriteObjectPath(path: seq<byte>) returns (err: Option<DbusError>)
      modifies this
      ensures Outcome(err, old(data), MarshalText(order, OBJECT_PATH, path, |old(data)|))
    {
      hide StrBytes;
      var ok := CheckPath(path);
      if !ok {
        return Some(InvalidName);
      }
      err := WriteStr(path);
    }

    method WriteSignature(sig: seq<byte>) returns (err: Option<DbusError>)
      modifies this
      ensures Outcome(err, old(data), MarshalText(order, SIGNATURE, sig, |old(data)|))
    {
      var ok := CheckSignature(sig);
      if !ok {
        return Some(InvalidSignature);
      }
      data := data + [|sig|];
      data := data + sig;
      data := data + [0];
      err := None;
    }

    /** Overwrites the four bytes at `position`. */
    method PatchU32(position: nat, v: nat) returns (err: Option<DbusError>)
      modifies this
      ensures err == if position + 4 > |old(data)| then Some(InvalidMessage) else None
      ensures data == if err.Some? then old(data)
        else old(data)[..position] + IntBytes(order, v, 4) + old(data)[position + 4..]
    {
      hide LeBytes;
      if position + 4 > |data| {
        return Some(InvalidMessage);
      }
      data := data[..position] + IntBytes(order, v, 4) + data[position + 4..];
      err := None;
    }

    /** The start of an array: a place for its length, aligned, and padding up to its first item. */
    method OpenArray(alignment: nat) returns (lengthPos: nat, start: nat, ghost gap: seq<byte>)
      requires alignment > 0
      modifies this
      ensures var pos := |old(data)|;
        && lengthPos == pos + Gap(pos, 8) && start == |data| && |gap| == 4
        && data == old(data) + Pad(pos, 8) + gap + Pad(pos + Gap(pos, 8) + 4, alignment)
    {
      hide IntBytes, Gap, Pad;
      ghost var pos := |data|;
      AlignedEight(pos);
      Align(8);
      lengthPos := |data|;
      WriteInt(0, 4);
      gap := data[lengthPos..];
      Align(alignment);
      start := |data|;
    }

    /** The end of an array: its length is patched in, unless it is too long. */
    method CloseArray(lengthPos: nat, start: nat) returns (err: Option<DbusError>)
      requires lengthPos + 4 <= start <= |data|
      modifies this
      ensures var length := |old(data)| - start;
        if length > MAX_ARRAY_LEN then err == Some(InvalidMessage)
        else err.None? && data == old(data)[..lengthPos] + IntBytes(order, length, 4) + old(data)[lengthPos + 4..]
    {
      hide IntBytes;
      var length := |data| - start;
      if length > MAX_ARRAY_LEN {
        return Some(InvalidMessage);
      }
      err := PatchU32(lengthPos, length);
    }

    /** What a write did: it appended the bytes of `b`, or failed with its error. */
    ghost predicate Outcome(err: Option<DbusError>, before: seq<byte>, b: Bits)
      reads this
    {
      match b
      case Ok(bytes) => err.None? && data == before + bytes
      case Err(e) => err == Some(e)
    }
  }

  lemma PatchFillsIn(before: seq<byte>, p8: seq<byte>, gap: seq<byte>, length: seq<byte>, p: seq<byte>, body: seq<byte>)
    requires |gap| == 4 && |length| == 4
    ensures var s := before + p8 + gap + p + body; var i := |before + p8|;
      s[..i] + length + s[i + 4..] == before + (p8 + length + p + body)
  {
    var s := before + p8 + gap + p + body;
    var i := |before + p8|;
    assert s[..i] == before + p8;
    assert s[i + 4..] == p + body;
  }

  lemma ItemsFollow(before: seq<byte>, t: Type, gap: seq<byte>)
    requires |gap| == 4
    ensures var pos := |before|;
      |before + Pad(pos, 8) + gap + Pad(pos + Gap(pos, 8) + 4, AlignmentOf(t))| == ItemsStart(pos, t)
  {
    hide Gap, Pad, AlignmentOf;
  }

  /** Once its length is patched in, what was written is the array. */
  lemma ArrayIsWritten(order: ByteOrder, t: Type, before: seq<byte>, gap: seq<byte>, body: seq<byte>)
    requires |gap| == 4
    ensures var pos := |before|; var i := pos + Gap(pos, 8);
      var s := before + Pad(pos, 8) + gap + Pad(pos + Gap(pos, 8) + 4, AlignmentOf(t)) + body;
      i + 4 <= |s| && s[..i] + IntBytes(order, |body|, 4) + s[i + 4..] == before + ArrayBytes(order, t, body, pos)
  {
    hide Gap, Pad, AlignmentOf, IntBytes;
    var pos := |before|;
    PatchFillsIn(before, Pad(pos, 8), gap, IntBytes(order, |body|, 4), Pad(pos + Gap(pos, 8) + 4, AlignmentOf(t)),
      body);
  }

  /** Records the signature of a body while it is written. */
  class BodyWriter {
    const writer: Writer
    var signature: seq<byte>
    var recording: bool

    constructor (order: ByteOrder)
      ensures fresh(writer) && writer.data == [] && writer.order == order && signature == [] && recording
    {
      writer := new Writer(order);
      signature := [];
      recording := true;
    }

    method Record(sig: seq<byte>)
      modifies this
      ensures recording == old(recording) && signature == old(signature) + if recording then sig else []
    {
      if recording {
        signature := signature + sig;
      }
    }

    /** Writes any value the way a caller does, one builder call per node of the value. */
    method Write(v: Value) returns (err: Option<DbusError>)
      requires Typed(v) && (recording ==> !v.Entry?)
      modifies this, writer
      ensures writer.Outcome(err, old(writer.data), Marshal(writer.order, v, |old(writer.data)|))
      ensures recording == old(recording)
      ensures err.None? ==> signature == old(signature) + if recording then Print(TypeOf(v)) else []
      ensures !recording ==> signature == old(signature)
      decreases v, 1
    {
      match v
      case Fixed(_, _) => err := WriteBasic(v);
      case Text(_, _) => err := WriteBasic(v);
      case Items(t, vs) => err := WriteArray(t, vs);
      case Record(fs) => err := WriteStruct(v, fs);
      case Entry(k, x) => err := WriteEntry(k, x);
      case Boxed(x) => err := WriteVariant(x);
    }

    method WriteBasic(v: Value) returns (err: Option<DbusError>)
      requires Typed(v) && (v.Fixed? || v.Text?)
      modifies this, writer
      ensures writer.Outcome(err, old(writer.data), MarshalBasic(writer.order, v, |old(writer.data)|))
      ensures recording == old(recording)
      ensures err.None? ==> signature == old(signature) + if recording then [v.code] else []
      ensures !recording ==> signature == old(signature)
    {
      hide IntBytes, StrBytes, ValidSignature, ValidPath, IsUtf8, Pow256;
      if v.Fixed? {
        Record([v.code]);
        writer.WriteInt(v.bits, Width(v.code));
        return None;
      }
      if v.code == SIGNATURE {
        err := writer.WriteSignature(v.text);
      } else if v.code == OBJECT_PATH {
        err := writer.WriteObjectPath(v.text);
      } else {
        err := writer.WriteStr(v.text);
      }
      if err.None? {
        Record([v.code]);
      }
    }

    /** The length of the array is patched in once its items are written. */
    method WriteArray(t: Type, vs: seq<Value>) returns (err: Option<DbusError>)
      requires Typed(Items(t, vs))
      modifies this, writer
      ensures writer.Outcome(err, old(writer.data), Marshal(writer.order, Items(t, vs), |old(writer.data)|))
      ensures recording == old(recording)
      ensures err.None? ==> signature == old(signature) + if recording then [ARRAY] + Print(t) else []
      ensures !recording ==> signature == old(signature)
      decreases vs, 2
    {
      hide IntBytes, Print, Typed, AllOf, Solid, ParseOne, Marshal, MarshalAll, Gap, Pad, ArrayBytes, ItemsStart;
      TypedItems(t, vs);
      var ok := CheckSingle(Print(t), true);
      ghost var before, pos := writer.data, |writer.data|;
      MarshalItemsIs(writer.order, t, vs, pos);
      if !ok {
        return Some(InvalidSignature);
      }
      Record([ARRAY] + Print(t));
      var lengthPos, start, gap := writer.OpenArray(AlignmentOf(t));
      ItemsFollow(before, t, gap);
      var was := recording;
      recording := false;
      err := WriteAll(vs);
      recording := was;
      if err.Some? {
        return;
      }
      ArrayIsWritten(writer.order, t, before, gap, MarshalAll(writer.order, vs, start).value);
      err := writer.CloseArray(lengthPos, start);
    }

    method WriteStruct(ghost v: Value, fs: seq<Value>) returns (err: Option<DbusError>)
      requires v == Value.Record(fs) && Typed(v)
      modifies this, writer
      ensures writer.Outcome(err, old(writer.data), Marshal(writer.order, v, |old(writer.data)|))
      ensures recording == old(recording)
      ensures err.None? ==> signature == old(signature) + if recording then Print(TypeOf(v)) else []
      ensures !recording ==> signature == old(signature)
      decreases fs, 2
    {
      hide PrintAll, MarshalAll, ParseAll, Gap, Pad;
      var inner := PrintAll(TypesOf(fs));
      var ok := CheckSignature(inner);
      if fs == [] || !ok {
        return Some(InvalidSignature);
      }
      Record([STRUCT_OPEN] + inner + [STRUCT_CLOSE]);
      writer.Align(8);
      var was := recording;
      recording := false;
      err := WriteAll(fs);
      recording := was;
    }

    /** A dict entry: the struct call of a key and a value, inside an array. */
    method WriteEntry(k: Value, x: Value) returns (err: Option<DbusError>)
      requires Typed(Entry(k, x)) && !recording
      modifies this, writer
      ensures writer.Outcome(err, old(writer.data), Marshal(writer.order, Entry(k, x), |old(writer.data)|))
      ensures recording == old(recording) && signature == old(signature)
      decreases x, 2
    {
      hide PrintAll, Marshal, MarshalBasic, ParseAll, Gap, Pad, Typed;
      TypedEntry(k, x);
      MarshalEntryIs(writer.order, k, x, |writer.data|);
      var ok := CheckSignature(PrintAll([TypeOf(k), TypeOf(x)]));
      if !ok {
        return Some(InvalidSignature);
      }
      writer.Align(8);
      err := WriteBasic(k);
      if err.None? {
        err := Write(x);
      }
    }

    method WriteVariant(x: Value) returns (err: Option<DbusError>)
      requires Typed(x)
      modifies this, writer
      ensures writer.Outcome(err, old(writer.data), Marshal(writer.order, Boxed(x), |old(writer.data)|))
      ensures recording == old(recording)
      ensures err.None? ==> signature == old(signature) + if recording then [VARIANT] else []
      ensures !recording ==> signature == old(signature)
      decreases x, 2
    {
      hide Print, TypeOf, ParseOne, ParseAll, Typed, Marshal, SigBytes;
      var sig := Print(TypeOf(x));
      MarshalBoxedIs(writer.order, x, |writer.data|);
      var ok := CheckSingle(sig, false);
      if !ok {
        return Some(InvalidSignature);
      }
      SingleIsSignature(sig);
      Record([VARIANT]);
      err := writer.WriteSignature(sig);
      var was := recording;
      recording := false;
      err := Write(x);
      recording := was;
    }

    /** The body of a container: its values in order. */
    method WriteAll(vs: seq<Value>) returns (err: Option<DbusError>)
      requires AllTyped(vs) && !recording
      modifies this, writer
      ensures writer.Outcome(err, old(writer.data), MarshalAll(writer.order, vs, |old(writer.data)|))
      ensures recording == old(recording) && signature == old(signature)
      decreases vs, 0
    {
      hide Marshal, Typed;
      err := None;
      if vs != [] {
        err := Write(vs[0]);
        if err.None? {
          err := WriteAll(vs[1..]);
        }
      }
    }
  }

  lemma TypedEntry(k: Value, x: Value)
    requires Typed(Entry(k, x))
    ensures Typed(k) && Typed(x) && (k.Fixed? || k.Text?)
  {
  }

  lemma MarshalEntryIs(order: ByteOrder, k: Value, x: Value, pos: nat)
    ensures var p := pos + Gap(pos, 8); var key := MarshalBasic(order, k, p);
      Marshal(order, Entry(k, x), pos) ==
      if !ValidSignature(PrintAll([TypeOf(k), TypeOf(x)])) then Err(InvalidSignature)
      else if key.Err? then Err(key.error)
      else Padded(pos, Following(key.value, Marshal(order, x, p + |key.value|)))
  {
    hide MarshalBasic, MarshalAll, Following, Gap, Pad, ValidSignature, PrintAll, TypeOf;
  }

  lemma MarshalBoxedIs(order: ByteOrder, x: Value, pos: nat)
    ensures var sig := Print(TypeOf(x));
      Marshal(order, Boxed(x), pos) ==
      if !ValidSingle(sig, false) then Err(InvalidSignature) else Following(SigBytes(sig),
        Marshal(order, x, pos + |SigBytes(sig)|))
  {
    hide Print, TypeOf, ValidSingle, SigBytes, MarshalBasic, MarshalAll, Following, ItemsStart, ArrayBytes;
  }

  lemma TypedItems(t: Type, vs: seq<Value>)
    requires Typed(Items(t, vs))
    ensures AllTyped(vs)
  {
  }

  lemma MarshalItemsIs(order: ByteOrder, t: Type, vs: seq<Value>, pos: nat)
    ensures Marshal(order, Items(t, vs), pos) ==
      if !ValidSingle(Print(t), true) then Err(InvalidSignature)
      else
        var b := MarshalAll(order, vs, ItemsStart(pos, t));
        if b.Err? then b
        else if |b.value| > MAX_ARRAY_LEN then Err(InvalidMessage)
        else Ok(ArrayBytes(order, t, b.value, pos))
  {
    hide Print, ValidSingle, ItemsStart, ArrayBytes, MarshalAll;
  }
}
