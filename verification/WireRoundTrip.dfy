/** Reading what was written gives it back and leaves the stream in step. */
module WireRoundTrip {
  import opened Wrappers
  import opened Protocol
  import opened Leb128
  import opened WireSpec

  // ---------------------------------------------------------------- fields

  lemma TakeFirst(a: seq<Byte>, rest: seq<Byte>)
    ensures Take(a + rest, |a|) == Ok((a, rest))
  {
  }

  lemma U16RoundTrip(x: int, rest: seq<Byte>)
    ensures PackU16(x).Ok? ==> ReadU16(PackU16(x).value + rest) == Ok((x, rest))
  {
    if PackU16(x).Ok? {
      TakeFirst(PackU16(x).value, rest);
    }
  }

  lemma I8RoundTrip(x: int, rest: seq<Byte>)
    ensures PackI8(x).Ok? ==> ReadI8(PackI8(x).value + rest) == Ok((x, rest))
  {
    if PackI8(x).Ok? {
      TakeFirst(PackI8(x).value, rest);
    }
  }

  lemma ByteRoundTrip(b: Byte, rest: seq<Byte>)
    ensures ReadLength([b] + rest) == Ok((b, rest))
  {
    TakeFirst([b], rest);
  }

  lemma BoolRoundTrip(b: bool, rest: seq<Byte>)
    ensures ReadBool(PackBool(b) + rest) == Ok((b, rest))
  {
    TakeFirst(PackBool(b), rest);
  }

  lemma StringRoundTrip(rev: Rev, s: Text, rest: seq<Byte>)
    ensures ReadString(rev, WriteString(rev, s) + rest) == Ok((ReceivedString(rev, s), rest))
  {
    hide Encoded, Decoded, Take, ReadU16, PackU16;
    var sent := ReceivedString(rev, s);
    TakeFirst(sent, rest);
    if rev.V2? {
      PackedLength(|sent|);
      U16RoundTrip(|sent|, sent + rest);
      assert WriteString(rev, s) + rest == PackU16(|sent|).value + (sent + rest);
    } else {
      RoundTrip(|s|, s + rest);
      assert WriteString(rev, s) + rest == Encoded(|s|) + (s + rest);
    }
  }

  lemma PackedLength(n: nat)
    requires n <= 0xFFFF
    ensures PackU16(n).Ok?
  {
  }

  // ---------------------------------------------------------------- arrays

  lemma {:induction false} BoolsRoundTrip(a: seq<bool>, rest: seq<Byte>)
    ensures ReadBools(|a|, WriteBools(a) + rest) == Ok((a, rest))
    decreases |a|
  {
    hide ReadBool, PackBool;
    if a != [] {
      BoolsRoundTrip(a[1..], rest);
      BoolRoundTrip(a[0], WriteBools(a[1..]) + rest);
      assert WriteBools(a) + rest == PackBool(a[0]) + (WriteBools(a[1..]) + rest);
      assert [a[0]] + a[1..] == a;
    } else {
      assert WriteBools(a) + rest == rest;
    }
  }

  lemma {:induction false} DoublesRoundTrip(a: seq<Double>, rest: seq<Byte>)
    ensures ReadDoubles(|a|, WriteDoubles(a) + rest) == Ok((a, rest))
    decreases |a|
  {
    hide Take;
    if a != [] {
      DoublesRoundTrip(a[1..], rest);
      TakeFirst(a[0], WriteDoubles(a[1..]) + rest);
      assert WriteDoubles(a) + rest == a[0] + (WriteDoubles(a[1..]) + rest);
      assert [a[0]] + a[1..] == a;
    } else {
      assert WriteDoubles(a) + rest == rest;
    }
  }

  function ReceivedStrings(rev: Rev, a: seq<Text>): seq<Text> {
    seq(|a|, i requires 0 <= i < |a| => ReceivedString(rev, a[i]))
  }

  lemma ReceivedFirst(rev: Rev, a: seq<Text>)
    requires a != []
    ensures ReceivedStrings(rev, a) == [ReceivedString(rev, a[0])] + ReceivedStrings(rev, a[1..])
  {
  }

  lemma NoneReceived(rev: Rev)
    ensures ReceivedStrings(rev, []) == []
  {
  }

  lemma {:induction false} StringsRoundTrip(rev: Rev, a: seq<Text>, rest: seq<Byte>)
    ensures ReadStrings(rev, |a|, WriteStrings(rev, a) + rest) == Ok((ReceivedStrings(rev, a), rest))
    decreases |a|
  {
    hide ReadString, WriteString, ReceivedString, ReceivedStrings;
    if a != [] {
      StringsRoundTrip(rev, a[1..], rest);
      StringRoundTrip(rev, a[0], WriteStrings(rev, a[1..]) + rest);
      assert WriteStrings(rev, a) + rest == WriteString(rev, a[0]) + (WriteStrings(rev, a[1..]) + rest);
      ReceivedFirst(rev, a);
    } else {
      assert WriteStrings(rev, a) + rest == rest;
      NoneReceived(rev);
    }
  }

  // ---------------------------------------------------------------- values

  lemma CodeRoundTrip(t: ValueType)
    ensures FromCode(Code(t)) == Some(t)
  {
  }

  lemma ValueRoundTrip(rev: Rev, v: Value, rest: seq<Byte>)
    ensures WriteValue(rev, v).Ok? ==>
              ReadValue(rev, Some(v.Type()), WriteValue(rev, v).value + rest) == Ok((ReceivedValue(rev, v), rest))
  {
    hide ReadBool, PackBool, ReadString, WriteString, ReadBools, WriteBools, ReadDoubles, WriteDoubles, ReadStrings,
         WriteStrings, Encoded, Decoded, Take, Min, Sent;
    match v
    case Boolean(b) => BoolRoundTrip(b, rest);
    case Number(d) => TakeFirst(d, rest);
    case String(s) => StringRoundTrip(rev, s, rest);
    case BooleanArray(a) =>
      SentLength(a);
      BoolsRoundTrip(Sent(a), rest);
      ByteRoundTrip(|Sent(a)|, WriteBools(Sent(a)) + rest);
      assert WriteValue(rev, v).value + rest == [|Sent(a)|] + (WriteBools(Sent(a)) + rest);
    case DoubleArray(a) =>
      SentLength(a);
      DoublesRoundTrip(Sent(a), rest);
      ByteRoundTrip(|Sent(a)|, WriteDoubles(Sent(a)) + rest);
      assert WriteValue(rev, v).value + rest == [|Sent(a)|] + (WriteDoubles(Sent(a)) + rest);
    case StringArray(a) =>
      SentLength(a);
      StringsRoundTrip(rev, Sent(a), rest);
      ByteRoundTrip(|Sent(a)|, WriteStrings(rev, Sent(a)) + rest);
      assert WriteValue(rev, v).value + rest == [|Sent(a)|] + (WriteStrings(rev, Sent(a)) + rest);
    case Raw(raw) =>
      if rev.V3? {
        TakeFirst(raw, rest);
        RoundTrip(|raw|, raw + rest);
        assert WriteValue(rev, v).value + rest == Encoded(|raw|) + (raw + rest);
      }
    case Rpc(d) => StringRoundTrip(rev, d, rest);
  }

  lemma SentLength<T>(a: seq<T>)
    ensures |Sent(a)| == Min(|a|, 0xFF) <= 0xFF
  {
  }

  // ---------------------------------------------------------------- messages

  /** Without type codes the reader has to know the type of an updated entry. */
  predicate TypesAgree(rev: Rev, types: map<nat, ValueType>, m: Message) {
    rev.V2? && m.EntryUpdate? ==> m.id in types && types[m.id] == m.value.Type()
  }

  /** A message whose type byte is followed by a body. */
  lemma ReadAfterKind(rev: Rev, types: map<nat, ValueType>, kind: Byte, body: seq<Byte>)
    ensures ReadMessage(rev, types, [kind] + body) == ReadBody(rev, types, kind, body)
  {
    assert ([kind] + body)[1..] == body;
  }

  /** The bytes of an assignment after its name. */
  function AfterName(rev: Rev, m: Message, rest: seq<Byte>): seq<Byte>
    requires m.EntryAssign? && PackU16(m.id).Ok? && PackU16(m.seqNum).Ok? && WriteValue(rev, m.value).Ok?
    requires rev.V3? ==> PackI8(m.flags).Ok?
  {
    [Code(m.value.Type())]
    + (PackU16(m.id).value
       + (PackU16(m.seqNum).value
           + ((if rev.V3? then PackI8(m.flags).value else []) + (WriteValue(rev, m.value).value + rest))))
  }

  lemma AssignBytes(rev: Rev, m: Message, rest: seq<Byte>)
    requires m.EntryAssign? && WriteMessage(rev, m).Ok?
    ensures PackU16(m.id).Ok? && PackU16(m.seqNum).Ok? && WriteValue(rev, m.value).Ok?
              && (rev.V3? ==> PackI8(m.flags).Ok?)
    ensures WriteMessage(rev, m).value + rest == [0x10] + (WriteString(rev, m.name) + AfterName(rev, m, rest))
  {
    hide WriteString, WriteValue, PackU16, PackI8, Code;
  }

  lemma AssignRoundTrip(rev: Rev, types: map<nat, ValueType>, m: Message, rest: seq<Byte>)
    requires m.EntryAssign? && WriteMessage(rev, m).Ok?
    ensures ReadMessage(rev, types, WriteMessage(rev, m).value + rest) == Ok((ReceivedMessage(rev, m), rest))
  {
    hide ReadString, WriteString, ReadValue, WriteValue, ReadU16, PackU16, ReadI8, PackI8, ReadLength, Code, FromCode,
         Take, ReceivedValue, ReceivedString, ReadMessage, ReadV3Body, WriteMessage;
    AssignBytes(rev, m, rest);
    var f := if rev.V3? then PackI8(m.flags).value else [];
    var code := Code(m.value.Type());
    var r5 := WriteValue(rev, m.value).value + rest;
    var r4 := f + r5;
    var r3 := PackU16(m.seqNum).value + r4;
    var r2 := PackU16(m.id).value + r3;
    ValueRoundTrip(rev, m.value, rest);
    I8RoundTrip(m.flags, r5);
    assert rev.V2? ==> r4 == r5;
    U16RoundTrip(m.seqNum, r4);
    U16RoundTrip(m.id, r3);
    ByteRoundTrip(code, r2);
    CodeRoundTrip(m.value.Type());
    StringRoundTrip(rev, m.name, [code] + r2);
    ReadAfterKind(rev, types, 0x10, WriteString(rev, m.name) + ([code] + r2));
  }

  lemma UpdateRoundTrip(rev: Rev, types: map<nat, ValueType>, m: Message, rest: seq<Byte>)
    requires m.EntryUpdate? && WriteMessage(rev, m).Ok? && TypesAgree(rev, types, m)
    ensures ReadMessage(rev, types, WriteMessage(rev, m).value + rest) == Ok((ReceivedMessage(rev, m), rest))
  {
    hide ReadString, WriteString, ReadValue, WriteValue, ReadU16, PackU16, ReadI8, PackI8, ReadLength, Code, FromCode,
         Take, ReceivedValue, ReadMessage, ReadV3Body;
    var i, s, v := PackU16(m.id).value, PackU16(m.seqNum).value, WriteValue(rev, m.value).value;
    var r2 := (if rev.V3? then [Code(m.value.Type())] else []) + v + rest;
    U16RoundTrip(m.seqNum, r2);
    U16RoundTrip(m.id, s + r2);
    UpdateTail(rev, types, m, rest);
    assert WriteMessage(rev, m).value + rest == [0x11] + (i + (s + r2));
    ReadAfterKind(rev, types, 0x11, i + (s + r2));
  }

  /** The value of an update, behind its type code in protocol 3.0. */
  lemma UpdateTail(rev: Rev, types: map<nat, ValueType>, m: Message, rest: seq<Byte>)
    requires m.EntryUpdate? && WriteValue(rev, m.value).Ok? && TypesAgree(rev, types, m)
    ensures var v := WriteValue(rev, m.value).value;
            if rev.V3? then
              var tail := [Code(m.value.Type())] + v + rest;
              && ReadLength(tail) == Ok((Code(m.value.Type()), v + rest))
              && ReadValue(rev, FromCode(Code(m.value.Type())), v + rest) == Ok((ReceivedValue(rev, m.value), rest))
            else
              && [] + v + rest == v + rest
              && ReadValue(rev, Some(types[m.id]), v + rest) == Ok((ReceivedValue(rev, m.value), rest))
  {
    hide ReadValue, WriteValue, ReceivedValue, ReadLength;
    var v := WriteValue(rev, m.value).value;
    ValueRoundTrip(rev, m.value, rest);
    CodeRoundTrip(m.value.Type());
    ByteRoundTrip(Code(m.value.Type()), v + rest);
    assert [Code(m.value.Type())] + v + rest == [Code(m.value.Type())] + (v + rest);
  }

  lemma ClientHelloRoundTrip(rev: Rev, types: map<nat, ValueType>, m: Message, rest: seq<Byte>)
    requires m.ClientHello? && WriteMessage(rev, m).Ok?
    ensures ReadMessage(rev, types, WriteMessage(rev, m).value + rest) == Ok((ReceivedMessage(rev, m), rest))
  {
    hide ReadString, WriteString, ReadU16, PackU16, ReadMessage, ReadValue, ReadI8, ReadV3Body;
    var b := PackU16(m.protoRev).value;
    if m.protoRev < PROTO_3 {
      U16RoundTrip(m.protoRev, rest);
      assert WriteMessage(rev, m).value + rest == [0x01] + (b + rest);
      ReadAfterKind(rev, types, 0x01, b + rest);
    } else {
      var tail := WriteString(V3, m.identity.value) + rest;
      U16RoundTrip(m.protoRev, tail);
      StringRoundTrip(V3, m.identity.value, rest);
      assert WriteMessage(rev, m).value + rest == [0x01] + (b + tail);
      ReadAfterKind(rev, types, 0x01, b + tail);
    }
  }

  lemma ProtoUnsupRoundTrip(rev: Rev, types: map<nat, ValueType>, m: Message, rest: seq<Byte>)
    requires m.ProtoUnsup? && WriteMessage(rev, m).Ok?
    ensures ReadMessage(rev, types, WriteMessage(rev, m).value + rest) == Ok((m, rest))
  {
    hide ReadString, WriteString, ReadU16, PackU16, ReadMessage, ReadValue, ReadI8, ReadV3Body;
    var b := PackU16(m.protoRev).value;
    U16RoundTrip(m.protoRev, rest);
    assert WriteMessage(rev, m).value + rest == [0x02] + (b + rest);
    ReadAfterKind(rev, types, 0x02, b + rest);
  }

  lemma ServerHelloRoundTrip(types: map<nat, ValueType>, m: Message, rest: seq<Byte>)
    requires m.ServerHello? && WriteMessage(V3, m).Ok?
    ensures ReadMessage(V3, types, WriteMessage(V3, m).value + rest) == Ok((m, rest))
  {
    hide ReadString, WriteString, ReadU16, ReadI8, PackI8, ReadMessage, ReadValue, ReadV3Body;
    var b := PackI8(m.flags).value;
    var tail := WriteString(V3, m.self) + rest;
    I8RoundTrip(m.flags, tail);
    StringRoundTrip(V3, m.self, rest);
    assert WriteMessage(V3, m).value + rest == [0x04] + (b + tail);
    ReadAfterKind(V3, types, 0x04, b + tail);
  }

  lemma ClearRoundTrip(types: map<nat, ValueType>, rest: seq<Byte>)
    ensures ReadMessage(V3, types, WriteMessage(V3, ClearEntries).value + rest) == Ok((ClearEntries, rest))
  {
    hide Take, ReadMessage, ReadString, ReadValue, ReadU16, ReadI8;
    TakeFirst(MAGIC, rest);
    assert WriteMessage(V3, ClearEntries).value + rest == [0x14] + (MAGIC + rest);
    ReadAfterKind(V3, types, 0x14, MAGIC + rest);
  }

  lemma V3OnlyRoundTrip(types: map<nat, ValueType>, m: Message, rest: seq<Byte>)
    requires OnlyV3(m) && !m.ServerHello? && !m.ClearEntries? && WriteMessage(V3, m).Ok?
    ensures ReadMessage(V3, types, WriteMessage(V3, m).value + rest) == Ok((m, rest))
  {
    hide ReadString, WriteString, ReadU16, PackU16, ReadI8, PackI8, Take, ReadMessage, ReadValue;
    var kind: Byte := if m.FlagsUpdate? then 0x12 else if m.EntryDelete? then 0x13 else if m.ExecuteRpc? then 0x20
        else 0x21;
    var i := PackU16(m.id).value;
    var tail;
    if m.FlagsUpdate? {
      tail := PackI8(m.flags).value + rest;
      I8RoundTrip(m.flags, rest);
    } else if m.EntryDelete? {
      tail := rest;
    } else {
      var s := if m.ExecuteRpc? then m.params else m.result;
      tail := PackU16(m.uid).value + (WriteString(V3, s) + rest);
      U16RoundTrip(m.uid, WriteString(V3, s) + rest);
      StringRoundTrip(V3, s, rest);
    }
    U16RoundTrip(m.id, tail);
    assert WriteMessage(V3, m).value + rest == [kind] + (i + tail);
    ReadAfterKind(V3, types, kind, i + tail);
  }

  /** One message: every message that can be written, in both revisions. */
  lemma MessageRoundTrip(rev: Rev, types: map<nat, ValueType>, m: Message, rest: seq<Byte>)
    requires WriteMessage(rev, m).Ok? && TypesAgree(rev, types, m)
    ensures rev.V2? && OnlyV3(m) ==> WriteMessage(rev, m).value == []
    ensures !(rev.V2? && OnlyV3(m)) ==>
              && WriteMessage(rev, m).value != []
              && ReadMessage(rev, types, WriteMessage(rev, m).value + rest) == Ok((ReceivedMessage(rev, m), rest))
  {
    hide ReadMessage;
    if rev.V2? && OnlyV3(m) {
      WritesSomething(rev, m);
    } else {
      if m.EntryAssign? { AssignRoundTrip(rev, types, m, rest); }
      else if m.EntryUpdate? { UpdateRoundTrip(rev, types, m, rest); }
      else if m.ClientHello? { ClientHelloRoundTrip(rev, types, m, rest); }
      else if m.ProtoUnsup? { ProtoUnsupRoundTrip(rev, types, m, rest); }
      else if m.ServerHello? { ServerHelloRoundTrip(types, m, rest); }
      else if m.ClearEntries? { ClearRoundTrip(types, rest); }
      else if OnlyV3(m) { V3OnlyRoundTrip(types, m, rest); }
      else { ReadAfterKind(rev, types, WriteMessage(rev, m).value[0], rest); }
      WritesSomething(rev, m);
    }
  }

  lemma ReadValueHasType(rev: Rev, t: Option<ValueType>, bs: seq<Byte>)
    ensures var r := ReadValue(rev, t, bs); r.Ok? ==> t == Some(r.value.0.Type())
  {
    hide Decoded, ReadString, ReadBools, ReadDoubles, ReadStrings;
  }

  /** In protocol 2.0 an update is read as it was sent exactly if the reader's entry has the type of the value. */
  lemma UpdateReadIff(types: map<nat, ValueType>, m: Message, rest: seq<Byte>)
    requires m.EntryUpdate? && WriteMessage(V2, m).Ok?
    ensures ReadMessage(V2, types, WriteMessage(V2, m).value + rest) == Ok((ReceivedMessage(V2, m), rest))
            <==> TypesAgree(V2, types, m)
  {
    hide ReadMessage, WriteMessage, ReceivedMessage;
    if TypesAgree(V2, types, m) {
      MessageRoundTrip(V2, types, m, rest);
    } else {
      ReadUpdateHasType(types, m, rest);
    }
  }

  lemma ReadUpdateHasType(types: map<nat, ValueType>, m: Message, rest: seq<Byte>)
    requires m.EntryUpdate? && WriteMessage(V2, m).Ok?
    ensures var r := ReceivedMessage(V2, m); r.EntryUpdate? && r.id == m.id && r.value.Type() == m.value.Type()
    ensures var r := ReadMessage(V2, types, WriteMessage(V2, m).value + rest);
            r.Ok? && r.value.0.EntryUpdate? && r.value.0.id == m.id ==>
                m.id in types && types[m.id] == r.value.0.value.Type()
  {
    hide ReadValue, ReadU16;
    var bs := WriteMessage(V2, m).value + rest;
    assert bs[0] == 0x11;
    var body := bs[1..];
    ReadAfterKind(V2, types, 0x11, body);
    assert bs == [0x11] + body;
    if ReadU16(body).Ok? && ReadU16(ReadU16(body).value.1).Ok? {
      var id, tail := ReadU16(body).value.0, ReadU16(ReadU16(body).value.1).value.1;
      ReadValueHasType(V2, if id in types then Some(types[id]) else None, tail);
    }
  }

  lemma WritesSomething(rev: Rev, m: Message)
    requires WriteMessage(rev, m).Ok?
    ensures WriteMessage(rev, m).value == [] <==> rev.V2? && OnlyV3(m)
  {
    hide WriteString, WriteValue, PackU16, PackI8;
  }

  // ---------------------------------------------------------------- streams

  /** Messages are read until the stream is empty. */
  function ReadAll(rev: Rev, types: map<nat, ValueType>, bs: seq<Byte>): Result<seq<Message>, WireError>
    decreases |bs|
  {
    if bs == [] then Ok([])
    else
      var (m, rest) :- ReadMessage(rev, types, bs);
      var more :- ReadAll(rev, types, rest);
      Ok([m] + more)
  }

  /** A whole stream: reading the bytes of many messages gives what each of them is received as. */
  lemma {:induction false} StreamRoundTrip(rev: Rev, types: map<nat, ValueType>, ms: seq<Message>)
    requires WriteAll(rev, ms).Ok? && forall m :: m in ms ==> TypesAgree(rev, types, m)
    ensures ReadAll(rev, types, WriteAll(rev, ms).value) == Ok(ReceivedAll(rev, ms))
    decreases |ms|
  {
    hide ReadMessage, WriteMessage, ReceivedMessage, TypesAgree, OnlyV3;
    if ms != [] {
      var more := WriteAll(rev, ms[1..]).value;
      var first := WriteMessage(rev, ms[0]).value;
      StreamRoundTrip(rev, types, ms[1..]);
      MessageRoundTrip(rev, types, ms[0], more);
      assert WriteAll(rev, ms).value == first + more;
      if rev.V2? && OnlyV3(ms[0]) {
        assert first + more == more;
        assert ReceivedAll(rev, ms) == ReceivedAll(rev, ms[1..]);
      } else {
        assert ReadMessage(rev, types, first + more) == Ok((ReceivedMessage(rev, ms[0]), more));
      }
    }
  }

  /** In range for the wire: nothing is cut off or left out. */
  predicate Lossless(m: Message) {
    && WriteMessage(V3, m).Ok?
    && (m.ClientHello? && m.protoRev < PROTO_3 ==> m.identity.None?)
    && (m.EntryAssign? || m.EntryUpdate? ==> Short(m.value))
  }

  predicate Short(v: Value) {
    && (v.BooleanArray? ==> |v.bs| <= 255)
    && (v.DoubleArray? ==> |v.ds| <= 255)
    && (v.StringArray? ==> |v.ss| <= 255)
  }

  lemma LosslessIsReceived(m: Message)
    requires Lossless(m)
    ensures ReceivedMessage(V3, m) == m
  {
    if m.EntryAssign? || m.EntryUpdate? {
      if m.value.StringArray? { assert ReceivedValue(V3, m.value).ss == m.value.ss; }
      assert ReceivedValue(V3, m.value) == m.value;
    }
  }

  lemma {:induction false} LosslessStream(types: map<nat, ValueType>, ms: seq<Message>)
    requires forall m :: m in ms ==> Lossless(m)
    ensures WriteAll(V3, ms).Ok? && ReceivedAll(V3, ms) == ms
    decreases |ms|
  {
    hide WriteMessage, ReceivedMessage;
    if ms != [] {
      LosslessStream(types, ms[1..]);
      LosslessIsReceived(ms[0]);
    }
  }

  /** Protocol 3.0, messages in range: the stream gives back the list, with nothing left over. */
  lemma StreamRoundTripV3(types: map<nat, ValueType>, ms: seq<Message>)
    requires forall m :: m in ms ==> Lossless(m)
    ensures WriteAll(V3, ms).Ok? && ReadAll(V3, types, WriteAll(V3, ms).value) == Ok(ms)
  {
    hide WriteAll, ReadAll, ReceivedAll, Lossless;
    LosslessStream(types, ms);
    StreamsAreWritable(ms);
    StreamRoundTrip(V3, types, ms);
  }

  lemma StreamsAreWritable(ms: seq<Message>)
    ensures forall m, types :: m in ms ==> TypesAgree(V3, types, m)
  {
  }
}
