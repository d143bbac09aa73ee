/** The bytes of values and messages in the two revisions of the protocol. */
module WireSpec {
  import opened Wrappers
  import opened Serial
  import opened Protocol
  import opened Leb128

  datatype Rev = V2 | V3

  type Written = Result<seq<Byte>, WireError>

  // ---------------------------------------------------------------- fixed-size fields

  /** `struct.pack` raises an error for a number that does not fit. */
  function PackU16(x: int): Written {
    if 0 <= x < 0x1_0000 then Ok([x / 256, x % 256]) else Err(OutOfRange)
  }

  function PackI8(x: int): Written {
    if -128 <= x < 128 then Ok([x % 256]) else Err(OutOfRange)
  }

  function PackBool(b: bool): seq<Byte> {
    if b then [1] else [0]
  }

  function Take(bs: seq<Byte>, n: nat): (r: Parsed<seq<Byte>>)
    ensures r.Ok? ==> |r.value.0| == n && r.value.0 + r.value.1 == bs
  {
    if n <= |bs| then Ok((bs[..n], bs[n..])) else Err(EndOfStream)
  }

  function ReadU16(bs: seq<Byte>): (r: Parsed<U16>)
    ensures r.Ok? ==> |r.value.1| <= |bs|
  {
    var (b, rest) :- Take(bs, 2);
    Ok(((b[0] as int) * 256 + b[1] as int, rest))
  }

  function ReadI8(bs: seq<Byte>): (r: Parsed<int>)
    ensures r.Ok? ==> |r.value.1| <= |bs|
  {
    var (b, rest) :- Take(bs, 1);
    Ok((if b[0] < 128 then b[0] as int else b[0] as int - 256, rest))
  }

  function ReadBool(bs: seq<Byte>): (r: Parsed<bool>)
    ensures r.Ok? ==> |r.value.1| <= |bs|
  {
    var (b, rest) :- Take(bs, 1);
    Ok((b[0] != 0, rest))
  }

  function ReadDouble(bs: seq<Byte>): (r: Parsed<Double>)
    ensures r.Ok? ==> |r.value.1| <= |bs|
  {
    var (b, rest) :- Take(bs, 8);
    Ok((b, rest))
  }

  // ---------------------------------------------------------------- strings

  function Min(a: nat, b: nat): nat {
    if a < b then a else b
  }

  /** A string of protocol 2.0 is cut after 65535 bytes. */
  function ReceivedString(rev: Rev, s: Text): Text {
    if rev.V2? then s[..Min(|s|, 0xFFFF)] else s
  }

  function WriteString(rev: Rev, s: Text): seq<Byte> {
    if rev.V2? then PackU16(Min(|s|, 0xFFFF)).value + s[..Min(|s|, 0xFFFF)] else Encoded(|s|) + s
  }

  function ReadString(rev: Rev, bs: seq<Byte>): (r: Parsed<Text>)
    ensures r.Ok? ==> |r.value.1| <= |bs|
  {
    if rev.V2? then
      var (n, rest) :- ReadU16(bs);
      Take(rest, n)
    else
      var (n, rest) :- Decoded(bs);
      Take(rest, n)
  }

  // ---------------------------------------------------------------- values

  /** The type codes on the wire. */
  function Code(t: ValueType): Byte {
    match t
    case BooleanType => 0x00
    case DoubleType => 0x01
    case StringType => 0x02
    case RawType => 0x03
    case BooleanArrayType => 0x10
    case DoubleArrayType => 0x11
    case StringArrayType => 0x12
    case RpcType => 0x20
  }

  function FromCode(b: Byte): Option<ValueType> {
    if b == 0x00 then Some(BooleanType)
    else if b == 0x01 then Some(DoubleType)
    else if b == 0x02 then Some(StringType)
    else if b == 0x03 then Some(RawType)
    else if b == 0x10 then Some(BooleanArrayType)
    else if b == 0x11 then Some(DoubleArrayType)
    else if b == 0x12 then Some(StringArrayType)
    else if b == 0x20 then Some(RpcType)
    else None
  }

  function WriteBools(bs: seq<bool>): seq<Byte> {
    if bs == [] then [] else PackBool(bs[0]) + WriteBools(bs[1..])
  }

  function WriteDoubles(ds: seq<Double>): seq<Byte> {
    if ds == [] then [] else ds[0] + WriteDoubles(ds[1..])
  }

  function WriteStrings(rev: Rev, ss: seq<Text>): seq<Byte> {
    if ss == [] then [] else WriteString(rev, ss[0]) + WriteStrings(rev, ss[1..])
  }

  function ReadBools(n: nat, bs: seq<Byte>): (r: Parsed<seq<bool>>)
    ensures r.Ok? ==> |r.value.1| <= |bs|
  {
    if n == 0 then Ok(([], bs))
    else
      var (b, rest) :- ReadBool(bs);
      var (more, rest') :- ReadBools(n - 1, rest);
      Ok(([b] + more, rest'))
  }

  function ReadDoubles(n: nat, bs: seq<Byte>): (r: Parsed<seq<Double>>)
    ensures r.Ok? ==> |r.value.1| <= |bs|
  {
    if n == 0 then Ok(([], bs))
    else
      var (d, rest) :- ReadDouble(bs);
      var (more, rest') :- ReadDoubles(n - 1, rest);
      Ok(([d] + more, rest'))
  }

  function ReadStrings(rev: Rev, n: nat, bs: seq<Byte>): (r: Parsed<seq<Text>>)
    ensures r.Ok? ==> |r.value.1| <= |bs|
  {
    if n == 0 then Ok(([], bs))
    else
      var (s, rest) :- ReadString(rev, bs);
      var (more, rest') :- ReadStrings(rev, n - 1, rest);
      Ok(([s] + more, rest'))
  }

  /** The elements of an array beyond the 255th are not sent. */
  function Sent<T>(a: seq<T>): seq<T> {
    a[..Min(|a|, 0xFF)]
  }

  function WriteValue(rev: Rev, v: Value): Written {
    match v
    case Boolean(b) => Ok(PackBool(b))
    case Number(d) => Ok(d)
    case String(s) => Ok(WriteString(rev, s))
    case BooleanArray(bs) => Ok([Min(|bs|, 0xFF)] + WriteBools(Sent(bs)))
    case DoubleArray(ds) => Ok([Min(|ds|, 0xFF)] + WriteDoubles(Sent(ds)))
    case StringArray(ss) => Ok([Min(|ss|, 0xFF)] + WriteStrings(rev, Sent(ss)))
    case Raw(raw) => if rev.V3? then Ok(Encoded(|raw|) + raw) else Err(BadValueType)
    case Rpc(d) => if rev.V3? then Ok(WriteString(rev, d)) else Err(BadValueType)
  }

  function ReadLength(bs: seq<Byte>): (r: Parsed<Byte>)
    ensures r.Ok? ==> |r.value.1| <= |bs|
  {
    var (b, rest) :- Take(bs, 1);
    Ok((b[0], rest))
  }

  function ReadValue(rev: Rev, t: Option<ValueType>, bs: seq<Byte>): (r: Parsed<Value>)
    ensures r.Ok? ==> |r.value.1| <= |bs|
  {
    if t.None? then Err(BadValueType)
    else
      match t.value
      case BooleanType => var (b, rest) :- ReadBool(bs); Ok((Boolean(b), rest))
      case DoubleType => var (d, rest) :- ReadDouble(bs); Ok((Number(d), rest))
      case StringType => var (s, rest) :- ReadString(rev, bs); Ok((String(s), rest))
      case BooleanArrayType =>
        var (n, rest) :- ReadLength(bs);
        var (a, rest') :- ReadBools(n, rest);
        Ok((BooleanArray(a), rest'))
      case DoubleArrayType =>
        var (n, rest) :- ReadLength(bs);
        var (a, rest') :- ReadDoubles(n, rest);
        Ok((DoubleArray(a), rest'))
      case StringArrayType =>
        var (n, rest) :- ReadLength(bs);
        var (a, rest') :- ReadStrings(rev, n, rest);
        Ok((StringArray(a), rest'))
      case RawType =>
        if rev.V2? then Err(BadValueType)
        else
          var (n, rest) :- Decoded(bs);
          var (raw, rest') :- Take(rest, n);
          Ok((Raw(raw), rest'))
      case RpcType =>
        if rev.V2? then Err(BadValueType)
        else
          var (s, rest) :- ReadString(rev, bs);
          Ok((Rpc(s), rest))
  }

  /** What the peer reads of a value. */
  function ReceivedValue(rev: Rev, v: Value): Value {
    match v
    case String(s) => String(ReceivedString(rev, s))
    case BooleanArray(bs) => BooleanArray(Sent(bs))
    case DoubleArray(ds) => DoubleArray(Sent(ds))
    case StringArray(ss) =>
      var sent := Sent(ss);
      StringArray(seq(|sent|, i requires 0 <= i < |sent| => ReceivedString(rev, sent[i])))
    case _ => v
  }

  // ---------------------------------------------------------------- messages

  /** The bytes of `kClearAllMagic`. */
  const MAGIC: seq<Byte> := [0xD0, 0x6C, 0xB2, 0x7A]

  function WriteMessage(rev: Rev, m: Message): Written {
    match m
    case KeepAlive => Ok([0x00])
    case ServerHelloDone => Ok([0x03])
    case ClientHelloDone => Ok([0x05])
    case ClientHello(protoRev, identity) =>
      var b :- PackU16(protoRev);
      if protoRev < PROTO_3 then Ok([0x01] + b)
      else if identity.None? then Err(Unsupported)
      else Ok([0x01] + b + WriteString(V3, identity.value))
    case ProtoUnsup(protoRev) =>
      var b :- PackU16(protoRev);
      Ok([0x02] + b)
    case ServerHello(flags, self) =>
      if rev.V2? then Ok([])
      else
        var b :- PackI8(flags);
        Ok([0x04] + b + WriteString(rev, self))
    case EntryAssign(name, id, seqNum, value, flags) =>
      var i :- PackU16(id);
      var s :- PackU16(seqNum);
      var f :- (if rev.V3? then PackI8(flags) else Ok([]));
      var v :- WriteValue(rev, value);
      Ok([0x10] + WriteString(rev, name) + [Code(value.Type())] + i + s + f + v)
    case EntryUpdate(id, seqNum, value) =>
      var i :- PackU16(id);
      var s :- PackU16(seqNum);
      var v :- WriteValue(rev, value);
      Ok([0x11] + i + s + (if rev.V3? then [Code(value.Type())] else []) + v)
    case FlagsUpdate(id, flags) =>
      if rev.V2? then Ok([])
      else
        var i :- PackU16(id);
        var f :- PackI8(flags);
        Ok([0x12] + i + f)
    case EntryDelete(id) =>
      if rev.V2? then Ok([])
      else
        var i :- PackU16(id);
        Ok([0x13] + i)
    case ClearEntries => if rev.V2? then Ok([]) else Ok([0x14] + MAGIC)
    case ExecuteRpc(id, uid, params) =>
      if rev.V2? then Ok([])
      else
        var i :- PackU16(id);
        var u :- PackU16(uid);
        Ok([0x20] + i + u + WriteString(rev, params))
    case RpcResponse(id, uid, result) =>
      if rev.V2? then Ok([])
      else
        var i :- PackU16(id);
        var u :- PackU16(uid);
        Ok([0x21] + i + u + WriteString(rev, result))
  }

  /** The fields of a message after its type byte; `types` gives the type of an entry that the reader knows. */
  function ReadBody(rev: Rev, types: map<nat, ValueType>, kind: Byte, bs: seq<Byte>): (r: Parsed<Message>)
    ensures r.Ok? ==> |r.value.1| <= |bs|
  {
    if kind == 0x00 then Ok((KeepAlive, bs))
    else if kind == 0x03 then Ok((ServerHelloDone, bs))
    else if kind == 0x05 then Ok((ClientHelloDone, bs))
    else if kind == 0x11 then
      var (id, r1) :- ReadU16(bs);
      var (seqNum, r2) :- ReadU16(r1);
      if rev.V3? then
        var (c, r3) :- ReadLength(r2);
        var (v, r4) :- ReadValue(rev, FromCode(c), r3);
        Ok((EntryUpdate(id, seqNum, v), r4))
      else
        var (v, r3) :- ReadValue(rev, if id in types then Some(types[id]) else None, r2);
        Ok((EntryUpdate(id, seqNum, v), r3))
    else if kind == 0x01 then
      var (protoRev, r1) :- ReadU16(bs);
      if protoRev < PROTO_3 then Ok((ClientHello(protoRev, None), r1))
      else
        var (s, r2) :- ReadString(V3, r1);
        Ok((ClientHello(protoRev, Some(s)), r2))
    else if kind == 0x02 then
      var (protoRev, r1) :- ReadU16(bs);
      Ok((ProtoUnsup(protoRev), r1))
    else if kind == 0x04 then
      if rev.V2? then Err(Unsupported)
      else
        var (flags, r1) :- ReadI8(bs);
        var (s, r2) :- ReadString(rev, r1);
        Ok((ServerHello(flags, s), r2))
    else if kind == 0x10 then
      var (name, r1) :- ReadString(rev, bs);
      var (c, r2) :- ReadLength(r1);
      var (id, r3) :- ReadU16(r2);
      var (seqNum, r4) :- ReadU16(r3);
      var (flags, r5) :- (if rev.V3? then ReadI8(r4) else Ok((0, r4)));
      var (v, r6) :- ReadValue(rev, FromCode(c), r5);
      Ok((EntryAssign(name, id, seqNum, v, flags), r6))
    else if kind == 0x12 || kind == 0x13 || kind == 0x14 || kind == 0x20 || kind == 0x21 then
      if rev.V2? then Err(Unsupported) else ReadV3Body(kind, bs)
    else Err(BadMessageType)
  }

  /** The kinds of messages that only protocol 3.0 has. */
  function ReadV3Body(kind: Byte, bs: seq<Byte>): (r: Parsed<Message>)
    ensures r.Ok? ==> |r.value.1| <= |bs|
  {
    if kind == 0x14 then
      var (magic, r1) :- Take(bs, 4);
      if magic == MAGIC then Ok((ClearEntries, r1)) else Err(BadMagic)
    else
      var (id, r1) :- ReadU16(bs);
      if kind == 0x13 then Ok((EntryDelete(id), r1))
      else if kind == 0x12 then
        var (flags, r2) :- ReadI8(r1);
        Ok((FlagsUpdate(id, flags), r2))
      else
        var (uid, r2) :- ReadU16(r1);
        var (s, r3) :- ReadString(V3, r2);
        Ok((if kind == 0x20 then ExecuteRpc(id, uid, s) else RpcResponse(id, uid, s), r3))
  }

  function ReadMessage(rev: Rev, types: map<nat, ValueType>, bs: seq<Byte>): (r: Parsed<Message>)
    ensures r.Ok? ==> |r.value.1| < |bs|
  {
    if bs == [] then Err(EndOfStream) else ReadBody(rev, types, bs[0], bs[1..])
  }

  /** What the peer reads of a message. */
  function ReceivedMessage(rev: Rev, m: Message): Message {
    match m
    case ClientHello(protoRev, identity) => ClientHello(protoRev, if protoRev < PROTO_3 then None else identity)
    case EntryAssign(name, id, seqNum, value, flags) =>
      EntryAssign(ReceivedString(rev, name), id, seqNum, ReceivedValue(rev, value), if rev.V3? then flags else 0)
    case EntryUpdate(id, seqNum, value) => EntryUpdate(id, seqNum, ReceivedValue(rev, value))
    case _ => m
  }

  /** The kinds of messages that protocol 2.0 does not have. */
  predicate OnlyV3(m: Message) {
    m.ServerHello? || m.FlagsUpdate? || m.EntryDelete? || m.ClearEntries? || m.ExecuteRpc? || m.RpcResponse?
  }

  function WriteAll(rev: Rev, ms: seq<Message>): Written {
    if ms == [] then Ok([])
    else
      var first :- WriteMessage(rev, ms[0]);
      var more :- WriteAll(rev, ms[1..]);
      Ok(first + more)
  }

  function ReceivedAll(rev: Rev, ms: seq<Message>): seq<Message> {
    if ms == [] then []
    else (if rev.V2? && OnlyV3(ms[0]) then [] else [ReceivedMessage(rev, ms[0])]) + ReceivedAll(rev, ms[1..])
  }
}
