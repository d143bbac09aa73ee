/**
 What the reader of messages refuses: whatever has not arrived as a whole, and whatever the protocol does not have.
 */
module WireRefusal {
  import opened Wrappers
  import opened Protocol
  import opened Leb128
  import opened WireSpec
  import opened WireLayout

  /**
   More bytes at the end do not change what has been read, nor an error; only the end of the stream can become something
   else.
   */
  predicate Steady<T(==)>(a: Parsed<T>, b: Parsed<T>, q: seq<Byte>) {
    && (a.Ok? ==> b == Ok((a.value.0, a.value.1 + q)))
    && (a.Err? && a.error != EndOfStream ==> b == a)
  }

  lemma TakeSteady(p: seq<Byte>, n: nat, q: seq<Byte>)
    ensures Steady(Take(p, n), Take(p + q, n), q)
  {
    if n <= |p| {
      assert (p + q)[..n] == p[..n] && (p + q)[n..] == p[n..] + q;
    }
  }

  lemma U16Steady(p: seq<Byte>, q: seq<Byte>)
    ensures Steady(ReadU16(p), ReadU16(p + q), q)
  {
    TakeSteady(p, 2, q);
  }

  lemma I8Steady(p: seq<Byte>, q: seq<Byte>)
    ensures Steady(ReadI8(p), ReadI8(p + q), q) && Steady(ReadLength(p), ReadLength(p + q), q)
    ensures Steady(ReadBool(p), ReadBool(p + q), q)
  {
    TakeSteady(p, 1, q);
  }

  lemma DoubleSteady(p: seq<Byte>, q: seq<Byte>)
    ensures Steady(ReadDouble(p), ReadDouble(p + q), q)
  {
    TakeSteady(p, 8, q);
  }

  lemma {:induction false} DecodedSteady(p: seq<Byte>, q: seq<Byte>)
    ensures Steady(Decoded(p), Decoded(p + q), q)
    decreases |p|
  {
    if p != [] {
      assert (p + q)[1..] == p[1..] + q;
      DecodedSteady(p[1..], q);
    }
  }

  lemma StringSteady(rev: Rev, p: seq<Byte>, q: seq<Byte>)
    ensures Steady(ReadString(rev, p), ReadString(rev, p + q), q)
  {
    hide Take, Decoded, ReadU16;
    U16Steady(p, q);
    DecodedSteady(p, q);
    if rev.V2? && ReadU16(p).Ok? { TakeSteady(ReadU16(p).value.1, ReadU16(p).value.0, q); }
    if rev.V3? && Decoded(p).Ok? { TakeSteady(Decoded(p).value.1, Decoded(p).value.0, q); }
  }

  lemma {:induction false} BoolsSteady(n: nat, p: seq<Byte>, q: seq<Byte>)
    ensures Steady(ReadBools(n, p), ReadBools(n, p + q), q)
    decreases n
  {
    hide ReadBool;
    I8Steady(p, q);
    if n != 0 && ReadBool(p).Ok? { BoolsSteady(n - 1, ReadBool(p).value.1, q); }
  }

  lemma {:induction false} DoublesSteady(n: nat, p: seq<Byte>, q: seq<Byte>)
    ensures Steady(ReadDoubles(n, p), ReadDoubles(n, p + q), q)
    decreases n
  {
    hide ReadDouble;
    DoubleSteady(p, q);
    if n != 0 && ReadDouble(p).Ok? { DoublesSteady(n - 1, ReadDouble(p).value.1, q); }
  }

  lemma {:induction false} StringsSteady(rev: Rev, n: nat, p: seq<Byte>, q: seq<Byte>)
    ensures Steady(ReadStrings(rev, n, p), ReadStrings(rev, n, p + q), q)
    decreases n
  {
    hide ReadString;
    StringSteady(rev, p, q);
    if n != 0 && ReadString(rev, p).Ok? { StringsSteady(rev, n - 1, ReadString(rev, p).value.1, q); }
  }

  lemma ValueSteady(rev: Rev, t: Option<ValueType>, p: seq<Byte>, q: seq<Byte>)
    ensures Steady(ReadValue(rev, t, p), ReadValue(rev, t, p + q), q)
  {
    hide ReadBool, ReadDouble, ReadString, ReadBools, ReadDoubles, ReadStrings, ReadLength, Take, Decoded;
    if t.Some? {
      I8Steady(p, q);
      match t.value
      case BooleanType =>
      case DoubleType => DoubleSteady(p, q);
      case StringType => StringSteady(rev, p, q);
      case RpcType => StringSteady(rev, p, q);
      case RawType =>
        DecodedSteady(p, q);
        if Decoded(p).Ok? { TakeSteady(Decoded(p).value.1, Decoded(p).value.0, q); }
      case BooleanArrayType =>
        if ReadLength(p).Ok? { BoolsSteady(ReadLength(p).value.0, ReadLength(p).value.1, q); }
      case DoubleArrayType =>
        if ReadLength(p).Ok? { DoublesSteady(ReadLength(p).value.0, ReadLength(p).value.1, q); }
      case StringArrayType =>
        if ReadLength(p).Ok? { StringsSteady(rev, ReadLength(p).value.0, ReadLength(p).value.1, q); }
    }
  }

  // ---------------------------------------------------------------- messages

  lemma UpdateSteady(rev: Rev, types: map<nat, ValueType>, p: seq<Byte>, q: seq<Byte>)
    ensures Steady(ReadBody(rev, types, 0x11, p), ReadBody(rev, types, 0x11, p + q), q)
  {
    hide ReadU16, ReadLength, ReadValue, FromCode;
    U16Steady(p, q);
    if ReadU16(p).Ok? {
      var r1 := ReadU16(p).value.1;
      U16Steady(r1, q);
      if ReadU16(r1).Ok? {
        var id, r2 := ReadU16(p).value.0, ReadU16(r1).value.1;
        I8Steady(r2, q);
        ValueSteady(rev, if id in types then Some(types[id]) else None, r2, q);
        if ReadLength(r2).Ok? { ValueSteady(rev, FromCode(ReadLength(r2).value.0), ReadLength(r2).value.1, q); }
      }
    }
  }

  /** The flags of an assignment, which protocol 2.0 does not have. */
  function ReadFlags(rev: Rev, bs: seq<Byte>): Parsed<int> {
    if rev.V3? then ReadI8(bs) else Ok((0, bs))
  }

  /** The fields of an assignment after its name and its type. */
  function ReadAssigned(rev: Rev, name: Text, c: Byte, bs: seq<Byte>): Parsed<Message> {
    var (id, r3) :- ReadU16(bs);
    var (seqNum, r4) :- ReadU16(r3);
    var (flags, r5) :- ReadFlags(rev, r4);
    var (v, r6) :- ReadValue(rev, FromCode(c), r5);
    Ok((EntryAssign(name, id, seqNum, v, flags), r6))
  }

  lemma AssignedSteady(rev: Rev, name: Text, c: Byte, p: seq<Byte>, q: seq<Byte>)
    ensures Steady(ReadAssigned(rev, name, c, p), ReadAssigned(rev, name, c, p + q), q)
  {
    hide ReadU16, ReadI8, ReadValue, FromCode;
    U16Steady(p, q);
    if ReadU16(p).Ok? {
      var r3 := ReadU16(p).value.1;
      U16Steady(r3, q);
      if ReadU16(r3).Ok? {
        var r4 := ReadU16(r3).value.1;
        I8Steady(r4, q);
        if ReadFlags(rev, r4).Ok? { ValueSteady(rev, FromCode(c), ReadFlags(rev, r4).value.1, q); }
      }
    }
  }

  lemma AssignIsRead(rev: Rev, types: map<nat, ValueType>, bs: seq<Byte>)
    ensures ReadBody(rev, types, 0x10, bs)
            == var s := ReadString(rev, bs);
               if s.Err? then Err(s.error)
               else
                 var c := ReadLength(s.value.1);
                 if c.Err? then Err(c.error) else ReadAssigned(rev, s.value.0, c.value.0, c.value.1)
  {
    hide ReadU16, ReadI8, ReadValue, ReadString, ReadLength, FromCode;
  }

  lemma AssignSteady(rev: Rev, types: map<nat, ValueType>, p: seq<Byte>, q: seq<Byte>)
    ensures Steady(ReadBody(rev, types, 0x10, p), ReadBody(rev, types, 0x10, p + q), q)
  {
    hide ReadBody, ReadString, ReadLength, ReadAssigned;
    AssignIsRead(rev, types, p);
    AssignIsRead(rev, types, p + q);
    StringSteady(rev, p, q);
    if ReadString(rev, p).Ok? {
      var r1 := ReadString(rev, p).value.1;
      I8Steady(r1, q);
      if ReadLength(r1).Ok? {
        AssignedSteady(rev, ReadString(rev, p).value.0, ReadLength(r1).value.0, ReadLength(r1).value.1, q);
      }
    }
  }

  lemma MagicSteady(p: seq<Byte>, q: seq<Byte>)
    ensures Steady(ReadV3Body(0x14, p), ReadV3Body(0x14, p + q), q)
  {
    hide Take, ReadU16;
    TakeSteady(p, 4, q);
  }

  lemma ShortBodySteady(kind: Byte, p: seq<Byte>, q: seq<Byte>)
    requires kind == 0x12 || kind == 0x13
    ensures Steady(ReadV3Body(kind, p), ReadV3Body(kind, p + q), q)
  {
    hide Take, ReadU16, ReadI8;
    U16Steady(p, q);
    if ReadU16(p).Ok? { I8Steady(ReadU16(p).value.1, q); }
  }

  lemma RpcBodySteady(kind: Byte, p: seq<Byte>, q: seq<Byte>)
    requires kind != 0x12 && kind != 0x13 && kind != 0x14
    ensures Steady(ReadV3Body(kind, p), ReadV3Body(kind, p + q), q)
  {
    hide Take, ReadU16, ReadI8, ReadString;
    U16Steady(p, q);
    if ReadU16(p).Ok? {
      var r1 := ReadU16(p).value.1;
      U16Steady(r1, q);
      if ReadU16(r1).Ok? { StringSteady(V3, ReadU16(r1).value.1, q); }
    }
  }

  lemma V3BodySteady(kind: Byte, p: seq<Byte>, q: seq<Byte>)
    ensures Steady(ReadV3Body(kind, p), ReadV3Body(kind, p + q), q)
  {
    hide ReadV3Body;
    if kind == 0x14 { MagicSteady(p, q); }
    else if kind == 0x12 || kind == 0x13 { ShortBodySteady(kind, p, q); }
    else { RpcBodySteady(kind, p, q); }
  }

  lemma HelloSteady(rev: Rev, types: map<nat, ValueType>, kind: Byte, p: seq<Byte>, q: seq<Byte>)
    requires kind == 0x01 || kind == 0x02 || kind == 0x04
    ensures Steady(ReadBody(rev, types, kind, p), ReadBody(rev, types, kind, p + q), q)
  {
    hide ReadU16, ReadI8, ReadString;
    U16Steady(p, q);
    I8Steady(p, q);
    if ReadU16(p).Ok? { StringSteady(V3, ReadU16(p).value.1, q); }
    if ReadI8(p).Ok? { StringSteady(rev, ReadI8(p).value.1, q); }
  }

  lemma BodySteady(rev: Rev, types: map<nat, ValueType>, kind: Byte, p: seq<Byte>, q: seq<Byte>)
    ensures Steady(ReadBody(rev, types, kind, p), ReadBody(rev, types, kind, p + q), q)
  {
    if kind == 0x11 { UpdateSteady(rev, types, p, q); }
    else if kind == 0x10 { AssignSteady(rev, types, p, q); }
    else if kind == 0x01 || kind == 0x02 || kind == 0x04 { HelloSteady(rev, types, kind, p, q); }
    else { OtherSteady(rev, types, kind, p, q); }
  }

  lemma OtherSteady(rev: Rev, types: map<nat, ValueType>, kind: Byte, p: seq<Byte>, q: seq<Byte>)
    requires kind != 0x11 && kind != 0x10 && kind != 0x01 && kind != 0x02 && kind != 0x04
    ensures Steady(ReadBody(rev, types, kind, p), ReadBody(rev, types, kind, p + q), q)
  {
    hide ReadV3Body;
    V3BodySteady(kind, p, q);
  }

  lemma MessageSteady(rev: Rev, types: map<nat, ValueType>, p: seq<Byte>, q: seq<Byte>)
    ensures Steady(ReadMessage(rev, types, p), ReadMessage(rev, types, p + q), q)
  {
    hide ReadBody;
    if p != [] {
      assert (p + q)[1..] == p[1..] + q;
      BodySteady(rev, types, p[0], p[1..], q);
    }
  }

  /**
   A message that has not arrived as a whole is never taken for another one, nor for an error: however the bytes are
   cut, the reader waits for more.
   */
  lemma PrefixWaits(rev: Rev, types: map<nat, ValueType>, bs: seq<Byte>, k: nat)
    requires ReadMessage(rev, types, bs).Ok? && k < |bs| - |ReadMessage(rev, types, bs).value.1|
    ensures ReadMessage(rev, types, bs[..k]) == Err(EndOfStream)
  {
    hide ReadMessage;
    MessageSteady(rev, types, bs[..k], bs[k..]);
    assert bs[..k] + bs[k..] == bs;
  }

  // ---------------------------------------------------------------- what is read is what is there

  /** The type and the numbers of an assignment are after its name, which ends at k. */
  predicate AssignAt(rev: Rev, m: Message, p: seq<Byte>, k: nat) {
    && m.EntryAssign? && k <= |p| - 5 && p[k] as int == TypeByte(m.value.Type())
    && TwoNumbers(m.id, m.seqNum, p[k + 1..])
    && (if rev.V3? then |p| >= k + 6 && Number8(m.flags, p[k + 5]) else m.flags == 0)
  }

  /** The fixed fields of a message, at their places after the first byte. */
  ghost predicate FieldsThere(rev: Rev, types: map<nat, ValueType>, m: Message, p: seq<Byte>) {
    match m
    case ClientHello(protoRev, identity) =>
      |p| >= 2 && Number16(protoRev, p[0], p[1]) && (identity.Some? <==> protoRev >= 0x0300)
    case ProtoUnsup(protoRev) => |p| >= 2 && Number16(protoRev, p[0], p[1])
    case ServerHello(flags, _) => p != [] && Number8(flags, p[0])
    case EntryUpdate(id, seqNum, v) =>
      && TwoNumbers(id, seqNum, p)
      && (if rev.V2? then id in types && types[id] == v.Type() else |p| >= 5 && p[4] as int == TypeByte(v.Type()))
    case FlagsUpdate(id, flags) => |p| >= 3 && Number16(id, p[0], p[1]) && Number8(flags, p[2])
    case EntryDelete(id) => |p| >= 2 && Number16(id, p[0], p[1])
    case ClearEntries => [0xD0, 0x6C, 0xB2, 0x7A] <= p
    case ExecuteRpc(id, uid, _) => TwoNumbers(id, uid, p)
    case RpcResponse(id, uid, _) => TwoNumbers(id, uid, p)
    case EntryAssign(_, _, _, _, _) => exists k :: AssignAt(rev, m, p, k)
    case _ => true
  }

  lemma CodeIsTypeByte(c: Byte)
    ensures FromCode(c).Some? ==> TypeByte(FromCode(c).value) == c as int
  {
  }

  lemma ReadValueFits(rev: Rev, t: Option<ValueType>, bs: seq<Byte>)
    ensures ReadValue(rev, t, bs).Ok? ==>
              t.Some? && ReadValue(rev, t, bs).value.0.Type() == t.value && HasType(rev, ReadValue(rev, t, bs).value.0)
  {
    hide ReadBool, ReadDouble, ReadString, ReadBools, ReadDoubles, ReadStrings, ReadLength, Take, Decoded;
  }

  lemma NumberThere(p: seq<Byte>)
    ensures ReadU16(p).Ok? ==> |p| >= 2 && Number16(ReadU16(p).value.0, p[0], p[1]) && ReadU16(p).value.1 == p[2..]
    ensures ReadI8(p).Ok? ==> |p| >= 1 && Number8(ReadI8(p).value.0, p[0]) && ReadI8(p).value.1 == p[1..]
    ensures ReadLength(p).Ok? ==> |p| >= 1 && ReadLength(p).value.0 == p[0] && ReadLength(p).value.1 == p[1..]
  {
  }

  lemma {:induction false} DecodedSuffix(bs: seq<Byte>)
    ensures Decoded(bs).Ok? ==> Decoded(bs).value.1 == bs[|bs| - |Decoded(bs).value.1|..]
    decreases |bs|
  {
    if bs != [] { DecodedSuffix(bs[1..]); }
  }

  lemma StringSuffix(rev: Rev, bs: seq<Byte>)
    ensures ReadString(rev, bs).Ok? ==> ReadString(rev, bs).value.1 == bs[|bs| - |ReadString(rev, bs).value.1|..]
  {
    hide Decoded, ReadU16;
    DecodedSuffix(bs);
    NumberThere(bs);
  }

  lemma UpdateThere(rev: Rev, types: map<nat, ValueType>, p: seq<Byte>)
    ensures var r := ReadBody(rev, types, 0x11, p);
            r.Ok? ==> r.value.0.EntryUpdate? && FieldsThere(rev, types, r.value.0, p) && Writable(rev, r.value.0)
  {
    hide ReadU16, ReadLength, ReadValue, FromCode, TypeByte, Number16, HasType;
    NumberThere(p);
    if ReadU16(p).Ok? {
      NumberThere(p[2..]);
      if ReadU16(p[2..]).Ok? {
        var id, r2 := ReadU16(p).value.0, p[2..][2..];
        NumberThere(r2);
        assert r2 == p[4..] && p[2..][0] == p[2] && p[2..][1] == p[3] && (r2 != [] ==> r2[0] == p[4]);
        ReadValueFits(rev, if id in types then Some(types[id]) else None, r2);
        if ReadLength(r2).Ok? {
          ReadValueFits(rev, FromCode(r2[0]), r2[1..]);
          CodeIsTypeByte(r2[0]);
        }
      }
    }
  }

  lemma AssignedThere(rev: Rev, name: Text, c: Byte, q: seq<Byte>)
    ensures var r := ReadAssigned(rev, name, c, q);
            r.Ok? ==>
              && r.value.0.EntryAssign? && Writable(rev, r.value.0) && c as int == TypeByte(r.value.0.value.Type())
              && TwoNumbers(r.value.0.id, r.value.0.seqNum, q)
              && (if rev.V3? then |q| >= 5 && Number8(r.value.0.flags, q[4]) else r.value.0.flags == 0)
  {
    hide ReadU16, ReadI8, ReadValue, FromCode, TypeByte, Number16, HasType;
    NumberThere(q);
    if ReadU16(q).Ok? {
      NumberThere(q[2..]);
      if ReadU16(q[2..]).Ok? {
        var r4 := q[2..][2..];
        NumberThere(r4);
        assert r4 == q[4..] && q[2..][0] == q[2] && q[2..][1] == q[3] && (r4 != [] ==> r4[0] == q[4]);
        CodeIsTypeByte(c);
        if ReadFlags(rev, r4).Ok? { ReadValueFits(rev, FromCode(c), ReadFlags(rev, r4).value.1); }
      }
    }
  }

  lemma AssignThere(rev: Rev, types: map<nat, ValueType>, p: seq<Byte>)
    ensures var r := ReadBody(rev, types, 0x10, p);
            r.Ok? ==> r.value.0.EntryAssign? && FieldsThere(rev, types, r.value.0, p) && Writable(rev, r.value.0)
  {
    hide ReadBody, ReadString, ReadLength, ReadAssigned, TypeByte, Number16, Number8, Writable;
    AssignIsRead(rev, types, p);
    StringSuffix(rev, p);
    var r := ReadBody(rev, types, 0x10, p);
    if r.Ok? {
      var s := ReadString(rev, p).value;
      var k := |p| - |s.1|;
      NumberThere(s.1);
      AssignedThere(rev, s.0, s.1[0], s.1[1..]);
      var q := s.1[1..];
      assert q == p[k + 1..] && p[k] == s.1[0] && (|q| >= 5 ==> q[4] == p[k + 5]);
      assert AssignAt(rev, r.value.0, p, k);
    }
  }

  lemma V3BodyThere(types: map<nat, ValueType>, kind: Byte, p: seq<Byte>)
    requires kind == 0x12 || kind == 0x13 || kind == 0x14 || kind == 0x20 || kind == 0x21
    ensures var r := ReadV3Body(kind, p);
            r.Ok? ==> KindByte(r.value.0) == kind as int && FieldsThere(V3, types, r.value.0, p)
                      && Writable(V3, r.value.0)
  {
    hide ReadU16, ReadI8, ReadString, Number16;
    NumberThere(p);
    if ReadU16(p).Ok? {
      NumberThere(p[2..]);
      assert |p| > 2 ==> p[2..][0] == p[2];
      assert |p| > 3 ==> p[2..][1] == p[3];
    }
    MagicThere(p);
  }

  lemma MagicThere(p: seq<Byte>)
    ensures Take(p, 4).Ok? && Take(p, 4).value.0 == MAGIC ==> [0xD0, 0x6C, 0xB2, 0x7A] <= p
  {
  }

  lemma HelloThere(rev: Rev, types: map<nat, ValueType>, kind: Byte, p: seq<Byte>)
    requires kind == 0x01 || kind == 0x02 || kind == 0x04
    ensures var r := ReadBody(rev, types, kind, p);
            r.Ok? ==> KindByte(r.value.0) == kind as int && FieldsThere(rev, types, r.value.0, p)
                      && Writable(rev, r.value.0) && (kind == 0x04 ==> rev.V3?)
  {
    hide ReadU16, ReadI8, ReadString, Number16;
    NumberThere(p);
  }

  lemma BodyThere(rev: Rev, types: map<nat, ValueType>, kind: Byte, p: seq<Byte>)
    ensures var r := ReadBody(rev, types, kind, p);
            r.Ok? ==> KindByte(r.value.0) == kind as int && FieldsThere(rev, types, r.value.0, p)
                      && Writable(rev, r.value.0) && (rev.V2? ==> InOldProtocol(r.value.0))
  {
    if kind == 0x11 { UpdateThere(rev, types, p); }
    else if kind == 0x10 { AssignThere(rev, types, p); }
    else if kind == 0x01 || kind == 0x02 || kind == 0x04 { HelloThere(rev, types, kind, p); }
    else if kind == 0x12 || kind == 0x13 || kind == 0x14 || kind == 0x20 || kind == 0x21 {
      OnlyNewProtocol(rev, types, kind, p);
      V3BodyThere(types, kind, p);
    }
    else { PlainThere(rev, types, kind, p); }
  }

  lemma OnlyNewProtocol(rev: Rev, types: map<nat, ValueType>, kind: Byte, p: seq<Byte>)
    requires kind == 0x12 || kind == 0x13 || kind == 0x14 || kind == 0x20 || kind == 0x21
    ensures ReadBody(rev, types, kind, p).Ok? ==> rev.V3? && ReadBody(rev, types, kind, p) == ReadV3Body(kind, p)
  {
    hide ReadV3Body;
  }

  lemma PlainThere(rev: Rev, types: map<nat, ValueType>, kind: Byte, p: seq<Byte>)
    requires kind !in {0x01, 0x02, 0x04, 0x10, 0x11, 0x12, 0x13, 0x14, 0x20, 0x21}
    ensures var r := ReadBody(rev, types, kind, p);
            r.Ok? ==> KindByte(r.value.0) == kind as int && InOldProtocol(r.value.0) && Writable(rev, r.value.0)
                      && FieldsThere(rev, types, r.value.0, p)
  {
  }

  /**
   Whatever is read is a message of this protocol, with its kind and its fields where they belong, and could have been
   written: nothing else is accepted.
   */
  lemma ReadIsThere(rev: Rev, types: map<nat, ValueType>, bs: seq<Byte>)
    requires ReadMessage(rev, types, bs).Ok?
    ensures var m := ReadMessage(rev, types, bs).value.0;
            && bs != [] && KindByte(m) == bs[0] as int && FieldsThere(rev, types, m, bs[1..])
            && WriteMessage(rev, m).Ok? && (rev.V2? ==> InOldProtocol(m))
  {
    hide ReadBody, WriteMessage, FieldsThere, Writable, InOldProtocol, KindByte;
    BodyThere(rev, types, bs[0], bs[1..]);
    WritableIff(rev, ReadMessage(rev, types, bs).value.0);
  }

  /** Any byte but 0 is read as true. */
  lemma {:induction false} BoolsThere(n: nat, bs: seq<Byte>)
    ensures ReadBools(n, bs).Ok? <==> n <= |bs|
    ensures n <= |bs| ==> |ReadBools(n, bs).value.0| == n && ReadBools(n, bs).value.1 == bs[n..]
                          && forall i :: 0 <= i < n ==> (ReadBools(n, bs).value.0[i] <==> bs[i] != 0)
    decreases n
  {
    if n != 0 && bs != [] {
      BoolsThere(n - 1, bs[1..]);
    }
  }
}
