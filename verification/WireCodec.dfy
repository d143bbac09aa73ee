/** The reader and the writer of values and messages, which work on a stream and on a list of bytes in place. */
module WireCodec {
  import opened Wrappers
  import opened Serial
  import opened Protocol
  import opened Leb128
  import opened WireSpec

  /** The list that the write routines append to. */
  class ByteList {
    var data: seq<Byte>

    constructor ()
      ensures data == []
    {
      data := [];
    }

    method Append(bytes: seq<Byte>)
      modifies this
      ensures data == old(data) + bytes
    {
      data := data + bytes;
    }
  }

  /** A read consumed what the specification says, or failed as it does. */
  ghost predicate Reads<T>(d: Parsed<T>, r: Result<T, WireError>, left: seq<Byte>) {
    if d.Ok? then r == Ok(d.value.0) && left == d.value.1 else r == Err(d.error)
  }

  /** A write appended what the specification says, or failed as it does. */
  ghost predicate Writes(w: Written, r: Outcome<WireError>, before: seq<Byte>, after: seq<Byte>) {
    if w.Ok? then r == Pass && after == before + w.value else r == Fail(w.error)
  }

  class WireCodec {
    var rev: Rev

    constructor (rev: Rev)
      ensures this.rev == rev
    {
      this.rev := rev;
    }

    // ---------------------------------------------------------------- reading

    method ReadNumber(stream: ByteStream) returns (r: Result<U16, WireError>)
      modifies stream
      ensures Reads(ReadU16(old(stream.data)), r, stream.data)
    {
      var b :- stream.Read(2);
      r := Ok((b[0] as int) * 256 + b[1] as int);
    }

    method ReadSigned(stream: ByteStream) returns (r: Result<int, WireError>)
      modifies stream
      ensures Reads(ReadI8(old(stream.data)), r, stream.data)
    {
      var b :- stream.Read(1);
      r := Ok(if b[0] < 128 then b[0] as int else b[0] as int - 256);
    }

    method ReadByte(stream: ByteStream) returns (r: Result<Byte, WireError>)
      modifies stream
      ensures Reads(ReadLength(old(stream.data)), r, stream.data)
    {
      var b :- stream.Read(1);
      r := Ok(b[0]);
    }

    method ReadText(stream: ByteStream, rev: Rev) returns (r: Result<Text, WireError>)
      modifies stream
      ensures Reads(ReadString(rev, old(stream.data)), r, stream.data)
    {
      hide Decoded;
      var length: nat;
      if rev.V2? {
        length :- ReadNumber(stream);
      } else {
        length :- ReadUleb128(stream);
      }
      r := stream.Read(length);
    }

    method ReadBoolArray(stream: ByteStream, length: nat) returns (r: Result<seq<bool>, WireError>)
      modifies stream
      ensures Reads(ReadBools(length, old(stream.data)), r, stream.data)
    {
      var a: seq<bool> := [];
      PrefixStart(ReadBools(length, stream.data));
      for i := 0 to length
        invariant Prefixed(a, ReadBools(length - i, stream.data), ReadBools(length, old(stream.data)))
      {
        ghost var was := stream.data;
        var b :- stream.Read(1);
        PrefixStep(a, b[0] != 0, ReadBools(length - i - 1, stream.data), ReadBools(length, old(stream.data)));
        a := a + [b[0] != 0];
      }
      assert a + [] == a;
      r := Ok(a);
    }

    method ReadDoubleArray(stream: ByteStream, length: nat) returns (r: Result<seq<Double>, WireError>)
      modifies stream
      ensures Reads(ReadDoubles(length, old(stream.data)), r, stream.data)
    {
      var a: seq<Double> := [];
      PrefixStart(ReadDoubles(length, stream.data));
      for i := 0 to length
        invariant Prefixed(a, ReadDoubles(length - i, stream.data), ReadDoubles(length, old(stream.data)))
      {
        var d :- stream.Read(8);
        PrefixStep<Double>(a, d, ReadDoubles(length - i - 1, stream.data), ReadDoubles(length, old(stream.data)));
        a := a + [d];
      }
      assert a + [] == a;
      r := Ok(a);
    }

    method ReadStringArray(stream: ByteStream, length: nat) returns (r: Result<seq<Text>, WireError>)
      modifies stream
      ensures Reads(ReadStrings(rev, length, old(stream.data)), r, stream.data)
    {
      hide ReadString;
      var a: seq<Text> := [];
      PrefixStart(ReadStrings(rev, length, stream.data));
      for i := 0 to length
        invariant Prefixed(a, ReadStrings(rev, length - i, stream.data), ReadStrings(rev, length, old(stream.data)))
      {
        var s :- ReadText(stream, rev);
        PrefixStep(a, s, ReadStrings(rev, length - i - 1, stream.data), ReadStrings(rev, length, old(stream.data)));
        a := a + [s];
      }
      assert a + [] == a;
      r := Ok(a);
    }

    method ReadTyped(t: Option<ValueType>, stream: ByteStream) returns (r: Result<Value, WireError>)
      modifies stream
      ensures Reads(ReadValue(rev, t, old(stream.data)), r, stream.data)
    {
      hide Decoded, ReadString, ReadBools, ReadDoubles, ReadStrings;
      if t == Some(BooleanType) {
        var b :- stream.Read(1);
        r := Ok(Boolean(b[0] != 0));
      } else if t == Some(DoubleType) {
        var d :- stream.Read(8);
        r := Ok(Number(d));
      } else if t == Some(StringType) {
        var s :- ReadText(stream, rev);
        r := Ok(String(s));
      } else if t == Some(BooleanArrayType) {
        var length :- ReadByte(stream);
        var a :- ReadBoolArray(stream, length);
        r := Ok(BooleanArray(a));
      } else if t == Some(DoubleArrayType) {
        var length :- ReadByte(stream);
        var a :- ReadDoubleArray(stream, length);
        r := Ok(DoubleArray(a));
      } else if t == Some(StringArrayType) {
        var length :- ReadByte(stream);
        var a :- ReadStringArray(stream, length);
        r := Ok(StringArray(a));
      } else if rev.V3? && t == Some(RawType) {
        var length :- ReadUleb128(stream);
        var raw :- stream.Read(length);
        r := Ok(Raw(raw));
      } else if rev.V3? && t == Some(RpcType) {
        var s :- ReadText(stream, rev);
        r := Ok(Rpc(s));
      } else {
        r := Err(BadValueType);
      }
    }

    /** `types` is what `get_entry_type` answers for the ids that the storage knows. */
    method ReadNext(types: map<nat, ValueType>, stream: ByteStream) returns (r: Result<Message, WireError>)
      modifies stream
      ensures Reads(ReadMessage(rev, types, old(stream.data)), r, stream.data)
    {
      hide Decoded, ReadString, ReadValue, ReadU16, ReadI8, ReadLength, ReadV3Body, FromCode;
      var kind :- stream.Read(1);
      if kind[0] == 0x00 {
        r := Ok(KeepAlive);
      } else if kind[0] == 0x03 {
        r := Ok(ServerHelloDone);
      } else if kind[0] == 0x05 {
        r := Ok(ClientHelloDone);
      } else if kind[0] == 0x11 {
        var id :- ReadNumber(stream);
        var seqNum :- ReadNumber(stream);
        var t: Option<ValueType>;
        if rev.V3? {
          var c :- ReadByte(stream);
          t := FromCode(c);
        } else {
          t := if id in types then Some(types[id]) else None;
        }
        var value :- ReadTyped(t, stream);
        r := Ok(EntryUpdate(id, seqNum, value));
      } else if kind[0] == 0x01 {
        var protoRev :- ReadNumber(stream);
        var identity: Option<Text> := None;
        if protoRev >= PROTO_3 {
          var s :- ReadText(stream, V3);
          identity := Some(s);
        }
        r := Ok(ClientHello(protoRev, identity));
      } else if kind[0] == 0x02 {
        var protoRev :- ReadNumber(stream);
        r := Ok(ProtoUnsup(protoRev));
      } else if kind[0] == 0x04 {
        if rev.V2? {
          return Err(Unsupported);
        }
        var flags :- ReadSigned(stream);
        var s :- ReadText(stream, rev);
        r := Ok(ServerHello(flags, s));
      } else if kind[0] == 0x10 {
        var name :- ReadText(stream, rev);
        var c :- ReadByte(stream);
        var id :- ReadNumber(stream);
        var seqNum :- ReadNumber(stream);
        var flags := 0;
        if rev.V3? {
          flags :- ReadSigned(stream);
        }
        var value :- ReadTyped(FromCode(c), stream);
        r := Ok(EntryAssign(name, id, seqNum, value, flags));
      } else if kind[0] == 0x12 || kind[0] == 0x13 || kind[0] == 0x14 || kind[0] == 0x20 || kind[0] == 0x21 {
        if rev.V2? {
          return Err(Unsupported);
        }
        r := ReadNewer(kind[0], stream);
      } else {
        r := Err(BadMessageType);
      }
    }

    /** The messages that only protocol 3.0 has. */
    method ReadNewer(kind: Byte, stream: ByteStream) returns (r: Result<Message, WireError>)
      requires kind == 0x12 || kind == 0x13 || kind == 0x14 || kind == 0x20 || kind == 0x21
      modifies stream
      ensures Reads(ReadV3Body(kind, old(stream.data)), r, stream.data)
    {
      hide Decoded, ReadString, ReadU16, ReadI8;
      if kind == 0x12 {
        var id :- ReadNumber(stream);
        var flags :- ReadSigned(stream);
        r := Ok(FlagsUpdate(id, flags));
      } else if kind == 0x13 {
        var id :- ReadNumber(stream);
        r := Ok(EntryDelete(id));
      } else if kind == 0x14 {
        var magic :- stream.Read(4);
        if magic != MAGIC {
          return Err(BadMagic);
        }
        r := Ok(ClearEntries);
      } else {
        var id :- ReadNumber(stream);
        var uid :- ReadNumber(stream);
        var s :- ReadText(stream, V3);
        r := Ok(if kind == 0x20 then ExecuteRpc(id, uid, s) else RpcResponse(id, uid, s));
      }
    }

    // ---------------------------------------------------------------- writing

    method PutText(rev: Rev, s: Text, out: ByteList)
      modifies out
      ensures out.data == old(out.data) + WriteString(rev, s)
    {
      if rev.V2? {
        out.Append(PackU16(Min(|s|, 0xFFFF)).value);
        out.Append(s[..Min(|s|, 0xFFFF)]);
      } else {
        var length := EncodeUleb128(|s|);
        out.Append(length);
        out.Append(s);
      }
    }

    method PutLength(length: nat, out: ByteList) returns (sent: nat)
      modifies out
      ensures sent == Min(length, 0xFF) && out.data == old(out.data) + [sent]
    {
      sent := Min(length, 0xFF);
      out.Append([sent]);
    }

    method PutBools(a: seq<bool>, out: ByteList)
      modifies out
      ensures out.data == old(out.data) + WriteBools(a)
    {
      for i := 0 to |a|
        invariant out.data + WriteBools(a[i..]) == old(out.data) + WriteBools(a)
      {
        ghost var was := out.data;
        out.Append(PackBool(a[i]));
        assert a[i..][1..] == a[i + 1..];
        assert was + WriteBools(a[i..]) == out.data + WriteBools(a[i + 1..]);
      }
    }

    method PutDoubles(a: seq<Double>, out: ByteList)
      modifies out
      ensures out.data == old(out.data) + WriteDoubles(a)
    {
      for i := 0 to |a|
        invariant out.data + WriteDoubles(a[i..]) == old(out.data) + WriteDoubles(a)
      {
        ghost var was := out.data;
        out.Append(a[i]);
        assert a[i..][1..] == a[i + 1..];
        assert was + WriteDoubles(a[i..]) == out.data + WriteDoubles(a[i + 1..]);
      }
    }

    method PutStrings(a: seq<Text>, out: ByteList)
      modifies out
      ensures out.data == old(out.data) + WriteStrings(rev, a)
    {
      hide WriteString;
      for i := 0 to |a|
        invariant out.data + WriteStrings(rev, a[i..]) == old(out.data) + WriteStrings(rev, a)
      {
        ghost var was := out.data;
        PutText(rev, a[i], out);
        assert a[i..][1..] == a[i + 1..];
        assert was + WriteStrings(rev, a[i..]) == out.data + WriteStrings(rev, a[i + 1..]);
      }
    }

    method PutValue(v: Value, out: ByteList) returns (r: Outcome<WireError>)
      modifies out
      ensures Writes(WriteValue(rev, v), r, old(out.data), out.data)
    {
      hide Encoded, WriteString, WriteBools, WriteDoubles, WriteStrings;
      r := Pass;
      match v {
        case Boolean(b) => out.Append(PackBool(b));
        case Number(d) => out.Append(d);
        case String(s) => PutText(rev, s, out);
        case BooleanArray(a) =>
          var n := PutLength(|a|, out);
          PutBools(a[..n], out);
        case DoubleArray(a) =>
          var n := PutLength(|a|, out);
          PutDoubles(a[..n], out);
        case StringArray(a) =>
          var n := PutLength(|a|, out);
          PutStrings(a[..n], out);
        case Rpc(d) =>
          if rev.V2? { return Fail(BadValueType); }
          PutText(rev, d, out);
        case Raw(raw) =>
          if rev.V2? { return Fail(BadValueType); }
          var length := EncodeUleb128(|raw|);
          out.Append(length);
          out.Append(raw);
      }
    }

    method PutNumber(x: int, out: ByteList) returns (r: Outcome<WireError>)
      modifies out
      ensures Writes(PackU16(x), r, old(out.data), out.data)
    {
      if !(0 <= x < 0x1_0000) {
        return Fail(OutOfRange);
      }
      out.Append([x / 256, x % 256]);
      r := Pass;
    }

    method PutSigned(x: int, out: ByteList) returns (r: Outcome<WireError>)
      modifies out
      ensures Writes(PackI8(x), r, old(out.data), out.data)
    {
      if !(-128 <= x < 128) {
        return Fail(OutOfRange);
      }
      out.Append([x % 256]);
      r := Pass;
    }

    method PutMessage(m: Message, out: ByteList) returns (r: Outcome<WireError>)
      modifies out
      ensures Writes(WriteMessage(rev, m), r, old(out.data), out.data)
    {
      hide WriteString, WriteValue, PackU16, PackI8;
      r := Pass;
      match m {
        case KeepAlive => out.Append([0x00]);
        case ServerHelloDone => out.Append([0x03]);
        case ClientHelloDone => out.Append([0x05]);
        case ClientHello(protoRev, identity) =>
          out.Append([0x01]);
          :- PutNumber(protoRev, out);
          if protoRev >= PROTO_3 {
            if identity.None? { return Fail(Unsupported); }
            PutText(V3, identity.value, out);
          }
        case ProtoUnsup(protoRev) =>
          out.Append([0x02]);
          r := PutNumber(protoRev, out);
        case ServerHello(flags, self) =>
          if rev.V3? {
            out.Append([0x04]);
            :- PutSigned(flags, out);
            PutText(rev, self, out);
          }
        case EntryAssign(name, id, seqNum, value, flags) => r := PutAssign(m, out);
        case EntryUpdate(id, seqNum, value) => r := PutUpdate(m, out);
        case FlagsUpdate(id, flags) =>
          if rev.V3? {
            out.Append([0x12]);
            :- PutNumber(id, out);
            r := PutSigned(flags, out);
          }
        case EntryDelete(id) =>
          if rev.V3? {
            out.Append([0x13]);
            r := PutNumber(id, out);
          }
        case ClearEntries =>
          if rev.V3? {
            out.Append([0x14] + MAGIC);
          }
        case ExecuteRpc(id, uid, params) => r := PutCall(0x20, id, uid, params, out);
        case RpcResponse(id, uid, result) => r := PutCall(0x21, id, uid, result, out);
      }
    }

    method PutAssign(m: Message, out: ByteList) returns (r: Outcome<WireError>)
      requires m.EntryAssign?
      modifies out
      ensures Writes(WriteMessage(rev, m), r, old(out.data), out.data)
    {
      hide WriteString, WriteValue, PackU16, PackI8;
      out.Append([0x10]);
      PutText(rev, m.name, out);
      out.Append([Code(m.value.Type())]);
      :- PutNumber(m.id, out);
      :- PutNumber(m.seqNum, out);
      if rev.V3? {
        :- PutSigned(m.flags, out);
      }
      r := PutValue(m.value, out);
    }

    method PutUpdate(m: Message, out: ByteList) returns (r: Outcome<WireError>)
      requires m.EntryUpdate?
      modifies out
      ensures Writes(WriteMessage(rev, m), r, old(out.data), out.data)
    {
      hide WriteString, WriteValue, PackU16, PackI8;
      out.Append([0x11]);
      :- PutNumber(m.id, out);
      :- PutNumber(m.seqNum, out);
      if rev.V3? {
        out.Append([Code(m.value.Type())]);
      }
      r := PutValue(m.value, out);
    }

    method PutCall(kind: Byte, id: nat, uid: U16, params: Text, out: ByteList) returns (r: Outcome<WireError>)
      requires kind == 0x20 || kind == 0x21
      modifies out
      ensures var m := if kind == 0x20 then ExecuteRpc(id, uid, params) else RpcResponse(id, uid, params);
              Writes(WriteMessage(rev, m), r, old(out.data), out.data)
    {
      hide WriteString, WriteValue, PackU16, PackI8;
      r := Pass;
      if rev.V3? {
        out.Append([kind]);
        :- PutNumber(id, out);
        :- PutNumber(uid, out);
        PutText(rev, params, out);
      }
    }

    /** The loop of the write thread over one batch. */
    method PutBatch(ms: seq<Message>, out: ByteList) returns (r: Outcome<WireError>)
      modifies out
      ensures Writes(WriteAll(rev, ms), r, old(out.data), out.data)
    {
      hide WriteMessage;
      for i := 0 to |ms|
        invariant BatchSoFar(old(out.data), out.data, WriteAll(rev, ms[i..]), WriteAll(rev, ms))
      {
        ghost var was := out.data;
        assert ms[i..][1..] == ms[i + 1..];
        :- PutMessage(ms[i], out);
        BatchStep(old(out.data), was, WriteMessage(rev, ms[i]).value, WriteAll(rev, ms[i + 1..]), WriteAll(rev, ms));
      }
      assert out.data + [] == out.data;
      r := Pass;
    }
  }

  /** The bytes written so far, followed by those of the rest of the batch, are those of the whole batch. */
  ghost predicate BatchSoFar(start: seq<Byte>, now: seq<Byte>, rest: Written, whole: Written) {
    if rest.Ok? then whole.Ok? && start + whole.value == now + rest.value else whole == rest
  }

  lemma BatchStep(start: seq<Byte>, now: seq<Byte>, first: seq<Byte>, rest: Written, whole: Written)
    requires BatchSoFar(start, now, if rest.Ok? then Ok(first + rest.value) else rest, whole)
    ensures BatchSoFar(start, now + first, rest, whole)
  {
    if rest.Ok? {
      assert now + (first + rest.value) == now + first + rest.value;
    }
  }

  /** The elements read so far, followed by those that the rest of the stream gives, are the whole array. */
  ghost predicate Prefixed<T>(soFar: seq<T>, rest: Parsed<seq<T>>, whole: Parsed<seq<T>>) {
    if rest.Ok? then whole == Ok((soFar + rest.value.0, rest.value.1)) else whole == rest
  }

  lemma PrefixStart<T>(whole: Parsed<seq<T>>)
    ensures Prefixed([], whole, whole)
  {
    if whole.Ok? {
      assert [] + whole.value.0 == whole.value.0;
    }
  }

  lemma PrefixStep<T>(soFar: seq<T>, x: T, rest: Parsed<seq<T>>, whole: Parsed<seq<T>>)
    requires Prefixed(soFar, if rest.Ok? then Ok(([x] + rest.value.0, rest.value.1)) else rest, whole)
    ensures Prefixed(soFar + [x], rest, whole)
  {
    if rest.Ok? {
      assert soFar + ([x] + rest.value.0) == soFar + [x] + rest.value.0;
    }
  }
}
