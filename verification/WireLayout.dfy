/**
 The bytes on the wire, field by field, told without the writer: what a peer that knows only the protocol would look
 for. And which messages can be written at all.
 */
module WireLayout {
  import opened Wrappers
  import opened Serial
  import opened Protocol
  import opened Leb128
  import opened WireSpec

  // ---------------------------------------------------------------- fields

  /** The number in two bytes, the higher one first. */
  predicate Number16(x: int, hi: Byte, lo: Byte) {
    x == hi as int * 0x100 + lo as int
  }

  /** The number in one byte, from -128 to 127. */
  predicate Number8(x: int, b: Byte) {
    x == if b < 0x80 then b as int else b as int - 0x100
  }

  /** Groups of seven bits, the lowest first. */
  function Groups(p: seq<Byte>): nat {
    if p == [] then 0 else p[0] % 128 + 128 * Groups(p[1..])
  }

  /** All bytes but the last have their highest bit set, and no group is there for nothing. */
  predicate LebLayout(n: nat, p: seq<Byte>) {
    && p != [] && Groups(p) == n
    && (forall i :: 0 <= i < |p| ==> (p[i] >= 0x80 <==> i < |p| - 1))
    && (|p| > 1 ==> p[|p| - 1] != 0)
  }

  lemma {:induction false} EncodedHasLayout(n: nat)
    ensures LebLayout(n, Encoded(n))
  {
    var p := Encoded(n);
    if n >= 128 {
      EncodedHasLayout(n / 128);
      assert p[1..] == Encoded(n / 128);
    } else {
      assert p[1..] == [];
    }
  }

  // ---------------------------------------------------------------- values

  /** A length and then the bytes; in protocol 2.0 at most 65535 of them. */
  predicate StringLayout(rev: Rev, s: Text, p: seq<Byte>) {
    match rev
    case V2 =>
      |p| >= 2 && Number16(|p| - 2, p[0], p[1]) && p[2..] <= s
      && (|p| == 2 + |s| || (|s| > 0xFFFF && |p| == 2 + 0xFFFF))
    case V3 => exists k :: 0 <= k <= |p| && LebLayout(|s|, p[..k]) && p[k..] == s
  }

  predicate StringsLayout(rev: Rev, ss: seq<Text>, p: seq<Byte>) {
    if ss == [] then p == []
    else exists k :: 0 <= k <= |p| && StringLayout(rev, ss[0], p[..k]) && StringsLayout(rev, ss[1..], p[k..])
  }

  /** An array begins with its length, and has at most 255 elements. */
  predicate CountLayout(n: nat, p: seq<Byte>) {
    p != [] && p[0] as int == if n <= 0xFF then n else 0xFF
  }

  predicate ValueLayout(rev: Rev, v: Value, p: seq<Byte>) {
    match v
    case Boolean(b) => p == [if b then 1 else 0]
    case Number(d) => p == d
    case String(s) => StringLayout(rev, s, p)
    case Raw(raw) => rev.V3? && StringLayout(V3, raw, p)
    case BooleanArray(bs) =>
      CountLayout(|bs|, p) && |p| == 1 + p[0] as int && p[0] as int <= |bs|
      && forall i :: 0 <= i < p[0] as int ==> p[1 + i] == if bs[i] then 1 else 0
    case DoubleArray(ds) =>
      CountLayout(|ds|, p) && |p| == 1 + 8 * p[0] as int && p[0] as int <= |ds|
      && forall i :: 0 <= i < p[0] as int ==> p[1 + 8 * i..9 + 8 * i] == ds[i]
    case StringArray(ss) =>
      CountLayout(|ss|, p) && p[0] as int <= |ss| && StringsLayout(rev, ss[..p[0]], p[1..])
    case Rpc(d) => rev.V3? && StringLayout(V3, d, p)
  }

  function TypeByte(t: ValueType): int {
    match t
    case BooleanType => 0
    case DoubleType => 1
    case StringType => 2
    case RawType => 3
    case BooleanArrayType => 16
    case DoubleArrayType => 17
    case StringArrayType => 18
    case RpcType => 32
  }

  lemma StringHasLayout(rev: Rev, s: Text)
    ensures StringLayout(rev, s, WriteString(rev, s))
  {
    var p := WriteString(rev, s);
    if rev.V2? {
      assert p[2..] == s[..Min(|s|, 0xFFFF)];
    } else {
      EncodedHasLayout(|s|);
      assert p[..|Encoded(|s|)|] == Encoded(|s|) && p[|Encoded(|s|)|..] == s;
    }
  }

  lemma {:induction false} StringsHaveLayout(rev: Rev, ss: seq<Text>)
    ensures StringsLayout(rev, ss, WriteStrings(rev, ss))
  {
    hide StringLayout, WriteString;
    if ss != [] {
      StringHasLayout(rev, ss[0]);
      StringsHaveLayout(rev, ss[1..]);
      var p, k := WriteStrings(rev, ss), |WriteString(rev, ss[0])|;
      assert p[..k] == WriteString(rev, ss[0]) && p[k..] == WriteStrings(rev, ss[1..]);
    }
  }

  lemma {:induction false} BoolsHaveLayout(bs: seq<bool>)
    ensures |WriteBools(bs)| == |bs|
    ensures forall i :: 0 <= i < |bs| ==> WriteBools(bs)[i] == if bs[i] then 1 else 0
  {
    if bs != [] {
      BoolsHaveLayout(bs[1..]);
    }
  }

  lemma {:induction false} DoublesHaveLayout(ds: seq<Double>)
    ensures |WriteDoubles(ds)| == 8 * |ds|
    ensures forall i :: 0 <= i < |ds| ==> WriteDoubles(ds)[8 * i..8 * i + 8] == ds[i]
  {
    if ds != [] {
      DoublesHaveLayout(ds[1..]);
      var p := WriteDoubles(ds);
      forall i | 0 <= i < |ds| ensures p[8 * i..8 * i + 8] == ds[i] {
        if i > 0 { assert p[8 * i..8 * i + 8] == WriteDoubles(ds[1..])[8 * (i - 1)..8 * (i - 1) + 8]; }
      }
    }
  }

  lemma ValueHasLayout(rev: Rev, v: Value)
    requires WriteValue(rev, v).Ok?
    ensures ValueLayout(rev, v, WriteValue(rev, v).value)
  {
    hide StringLayout, StringsLayout, WriteBools, WriteDoubles, WriteStrings;
    var p := WriteValue(rev, v).value;
    match v
    case String(s) => StringHasLayout(rev, s);
    case Raw(raw) => StringHasLayout(V3, raw);
    case Rpc(d) => StringHasLayout(V3, d);
    case BooleanArray(bs) => BoolsHaveLayout(Sent(bs));
    case DoubleArray(ds) =>
      DoublesHaveLayout(Sent(ds));
      forall i | 0 <= i < p[0] as int ensures p[1 + 8 * i..9 + 8 * i] == ds[i] {
        assert p[1 + 8 * i..9 + 8 * i] == WriteDoubles(Sent(ds))[8 * i..8 * i + 8];
      }
    case StringArray(ss) =>
      StringsHaveLayout(rev, Sent(ss));
      assert p[1..] == WriteStrings(rev, Sent(ss));
    case _ =>
  }

  // ---------------------------------------------------------------- messages

  /** The first byte of each kind of message. */
  function KindByte(m: Message): int {
    match m
    case KeepAlive => 0
    case ClientHello(_, _) => 1
    case ProtoUnsup(_) => 2
    case ServerHelloDone => 3
    case ServerHello(_, _) => 4
    case ClientHelloDone => 5
    case EntryAssign(_, _, _, _, _) => 16
    case EntryUpdate(_, _, _) => 17
    case FlagsUpdate(_, _) => 18
    case EntryDelete(_) => 19
    case ClearEntries => 20
    case ExecuteRpc(_, _, _) => 32
    case RpcResponse(_, _, _) => 33
  }

  /** Two numbers of two bytes each. */
  predicate TwoNumbers(x: int, y: int, p: seq<Byte>) {
    |p| >= 4 && Number16(x, p[0], p[1]) && Number16(y, p[2], p[3])
  }

  /** What follows the name of an assignment. */
  predicate AssignLayout(rev: Rev, id: nat, seqNum: U16, v: Value, flags: int, p: seq<Byte>) {
    && p != [] && p[0] as int == TypeByte(v.Type()) && TwoNumbers(id, seqNum, p[1..])
    && match rev
       case V2 => ValueLayout(rev, v, p[5..])
       case V3 => |p| >= 6 && Number8(flags, p[5]) && ValueLayout(rev, v, p[6..])
  }

  /** What follows the first byte. */
  predicate BodyLayout(rev: Rev, m: Message, p: seq<Byte>) {
    match m
    case ClientHello(protoRev, identity) =>
      && |p| >= 2 && Number16(protoRev, p[0], p[1])
      && (if protoRev < 0x0300 then |p| == 2 else identity.Some? && StringLayout(V3, identity.value, p[2..]))
    case ProtoUnsup(protoRev) => |p| == 2 && Number16(protoRev, p[0], p[1])
    case ServerHello(flags, self) => p != [] && Number8(flags, p[0]) && StringLayout(V3, self, p[1..])
    case EntryAssign(name, id, seqNum, v, flags) =>
      exists k :: 0 <= k <= |p| && StringLayout(rev, name, p[..k]) && AssignLayout(rev, id, seqNum, v, flags, p[k..])
    case EntryUpdate(id, seqNum, v) =>
      && TwoNumbers(id, seqNum, p)
      && (match rev
          case V2 => ValueLayout(rev, v, p[4..])
          case V3 => |p| >= 5 && p[4] as int == TypeByte(v.Type()) && ValueLayout(rev, v, p[5..]))
    case FlagsUpdate(id, flags) => |p| == 3 && Number16(id, p[0], p[1]) && Number8(flags, p[2])
    case EntryDelete(id) => |p| == 2 && Number16(id, p[0], p[1])
    case ClearEntries => p == [0xD0, 0x6C, 0xB2, 0x7A]
    case ExecuteRpc(id, uid, params) => TwoNumbers(id, uid, p) && StringLayout(V3, params, p[4..])
    case RpcResponse(id, uid, result) => TwoNumbers(id, uid, p) && StringLayout(V3, result, p[4..])
    case _ => p == []
  }

  /** The messages that protocol 2.0 has a way to say. */
  predicate InOldProtocol(m: Message) {
    m.KeepAlive? || m.ClientHello? || m.ProtoUnsup? || m.ServerHelloDone? || m.ClientHelloDone? || m.EntryAssign?
    || m.EntryUpdate?
  }

  predicate InWord(x: int) {
    0 <= x <= 0xFFFF
  }

  predicate InByte(x: int) {
    -0x80 <= x <= 0x7F
  }

  /** Protocol 2.0 has neither raw bytes nor RPC definitions. */
  predicate HasType(rev: Rev, v: Value) {
    rev.V3? || !(v.Raw? || v.Rpc?)
  }

  /** Which messages can be written: in protocol 2.0 the others are passed over, not refused. */
  predicate Writable(rev: Rev, m: Message) {
    match m
    case ClientHello(protoRev, identity) => InWord(protoRev) && (protoRev >= 0x0300 ==> identity.Some?)
    case ProtoUnsup(protoRev) => InWord(protoRev)
    case EntryAssign(_, id, seqNum, v, flags) => InWord(id) && (rev.V3? ==> InByte(flags)) && HasType(rev, v)
    case EntryUpdate(id, seqNum, v) => InWord(id) && HasType(rev, v)
    case ServerHello(flags, _) => rev.V3? ==> InByte(flags)
    case FlagsUpdate(id, flags) => rev.V3? ==> InWord(id) && InByte(flags)
    case EntryDelete(id) => rev.V3? ==> InWord(id)
    case ExecuteRpc(id, _, _) => rev.V3? ==> InWord(id)
    case RpcResponse(id, _, _) => rev.V3? ==> InWord(id)
    case _ => true
  }

  /** A message is written if and only if its fields are in range; otherwise there is an error and no message. */
  lemma WritableIff(rev: Rev, m: Message)
    ensures WriteMessage(rev, m).Ok? <==> Writable(rev, m)
  {
    hide WriteString, WriteBools, WriteDoubles, WriteStrings, Encoded;
  }

  /** The first byte and the rest; what protocol 2.0 has no way to say takes no bytes. */
  predicate MessageLayout(rev: Rev, m: Message, p: seq<Byte>) {
    if rev.V2? && !InOldProtocol(m) then p == []
    else p != [] && p[0] as int == KindByte(m) && BodyLayout(rev, m, p[1..])
  }

  lemma AssignTail(rev: Rev, name: Text, id: nat, seqNum: U16, v: Value, flags: int)
    requires WriteMessage(rev, EntryAssign(name, id, seqNum, v, flags)).Ok?
    ensures var p, k := WriteMessage(rev, EntryAssign(name, id, seqNum, v, flags)).value, |WriteString(rev, name)|;
            && k + 1 <= |p| && p[0] == 0x10 && p[1..][..k] == WriteString(rev, name)
            && AssignLayout(rev, id, seqNum, v, flags, p[1..][k..])
  {
    hide WriteString, WriteValue, ValueLayout;
    var p, k := WriteMessage(rev, EntryAssign(name, id, seqNum, v, flags)).value, |WriteString(rev, name)|;
    ValueHasLayout(rev, v);
    var q := p[1..][k..];
    var f := if rev.V3? then PackI8(flags).value else [];
    assert q == [Code(v.Type())] + PackU16(id).value + PackU16(seqNum).value + f + WriteValue(rev, v).value;
    assert q[1..][0] == q[1] && q[1..][1] == q[2] && q[1..][2] == q[3] && q[1..][3] == q[4];
    assert q[5 + |f|..] == WriteValue(rev, v).value;
  }

  lemma AssignHasLayout(rev: Rev, m: Message)
    requires m.EntryAssign? && WriteMessage(rev, m).Ok?
    ensures MessageLayout(rev, m, WriteMessage(rev, m).value)
  {
    hide WriteString, WriteValue, WriteMessage, ValueLayout, StringLayout, AssignLayout;
    StringHasLayout(rev, m.name);
    AssignTail(rev, m.name, m.id, m.seqNum, m.value, m.flags);
  }

  lemma UpdateHasLayout(rev: Rev, m: Message)
    requires m.EntryUpdate? && WriteMessage(rev, m).Ok?
    ensures MessageLayout(rev, m, WriteMessage(rev, m).value)
  {
    hide WriteValue, ValueLayout;
    ValueHasLayout(rev, m.value);
    var p := WriteMessage(rev, m).value;
    assert p[1..][if rev.V3? then 5 else 4..] == WriteValue(rev, m.value).value;
  }

  lemma ClientHelloHasLayout(rev: Rev, m: Message)
    requires m.ClientHello? && WriteMessage(rev, m).Ok?
    ensures MessageLayout(rev, m, WriteMessage(rev, m).value)
  {
    hide WriteString, StringLayout;
    if m.protoRev >= 0x0300 {
      StringHasLayout(V3, m.identity.value);
      assert WriteMessage(rev, m).value[1..][2..] == WriteString(V3, m.identity.value);
    }
  }

  lemma SignedByte(x: int)
    requires PackI8(x).Ok?
    ensures |PackI8(x).value| == 1 && Number8(x, PackI8(x).value[0])
  {
  }

  lemma ServerHelloHasLayout(rev: Rev, m: Message)
    requires m.ServerHello? && WriteMessage(rev, m).Ok?
    ensures MessageLayout(rev, m, WriteMessage(rev, m).value)
  {
    hide WriteString, StringLayout, PackI8, Number8;
    if rev.V3? {
      StringHasLayout(V3, m.self);
      SignedByte(m.flags);
      var p := WriteMessage(rev, m).value;
      assert p == [0x04] + PackI8(m.flags).value + WriteString(V3, m.self);
      assert p[1..][1..] == WriteString(V3, m.self) && p[1..][0] == PackI8(m.flags).value[0];
    }
  }

  lemma RpcHasLayout(rev: Rev, m: Message)
    requires (m.ExecuteRpc? || m.RpcResponse?) && WriteMessage(rev, m).Ok?
    ensures MessageLayout(rev, m, WriteMessage(rev, m).value)
  {
    hide WriteString, StringLayout;
    if rev.V3? {
      var text := if m.ExecuteRpc? then m.params else m.result;
      StringHasLayout(V3, text);
      assert WriteMessage(rev, m).value[1..][4..] == WriteString(V3, text);
    }
  }

  lemma ShortHasLayout(rev: Rev, m: Message)
    requires !m.ClientHello? && !m.ServerHello? && !m.EntryAssign? && !m.EntryUpdate?
    requires !m.ExecuteRpc? && !m.RpcResponse?
    requires WriteMessage(rev, m).Ok?
    ensures MessageLayout(rev, m, WriteMessage(rev, m).value)
  {
  }

  /** Every message that is written has its bytes where the protocol says. */
  lemma MessageHasLayout(rev: Rev, m: Message)
    requires WriteMessage(rev, m).Ok?
    ensures MessageLayout(rev, m, WriteMessage(rev, m).value)
  {
    hide WriteMessage, MessageLayout;
    match m
    case ClientHello(_, _) => ClientHelloHasLayout(rev, m);
    case ServerHello(_, _) => ServerHelloHasLayout(rev, m);
    case EntryAssign(_, _, _, _, _) => AssignHasLayout(rev, m);
    case EntryUpdate(_, _, _) => UpdateHasLayout(rev, m);
    case ExecuteRpc(_, _, _) => RpcHasLayout(rev, m);
    case RpcResponse(_, _, _) => RpcHasLayout(rev, m);
    case _ => ShortHasLayout(rev, m);
  }
}
