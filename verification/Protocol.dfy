/** Values and messages of the NetworkTables protocol. */
module Protocol {
  import opened Wrappers
  import opened Serial

  type Byte = x: int | 0 <= x < 256

  /** A string, as the bytes of its UTF-8 encoding. */
  type Text = seq<Byte>

  /** An IEEE double, as its eight bytes in network order. */
  type Double = s: seq<Byte> | |s| == 8 witness [0, 0, 0, 0, 0, 0, 0, 0]

  datatype ValueType =
    | BooleanType | DoubleType | StringType | RawType
    | BooleanArrayType | DoubleArrayType | StringArrayType | RpcType

  datatype Value =
    | Boolean(b: bool)
    | Number(d: Double)
    | String(s: Text)
    | Raw(raw: seq<Byte>)
    | BooleanArray(bs: seq<bool>)
    | DoubleArray(ds: seq<Double>)
    | StringArray(ss: seq<Text>)
    | Rpc(definition: Text)
  {
    function Type(): ValueType {
      match this
      case Boolean(_) => BooleanType
      case Number(_) => DoubleType
      case String(_) => StringType
      case Raw(_) => RawType
      case BooleanArray(_) => BooleanArrayType
      case DoubleArray(_) => DoubleArrayType
      case StringArray(_) => StringArrayType
      case Rpc(_) => RpcType
    }
  }

  /** The id of an entry that the server has not numbered yet. */
  const UNASSIGNED := 0xFFFF

  const PROTO_2 := 0x0200
  const PROTO_3 := 0x0300

  /** Bit 0 of the flags, which are a signed byte on the wire. */
  predicate Persistent(flags: int) {
    flags % 2 == 1
  }

  datatype Message =
    | KeepAlive
    | ClientHello(protoRev: nat, identity: Option<Text>)
    | ProtoUnsup(protoRev: nat)
    | ServerHelloDone
    | ServerHello(flags: int, self: Text)
    | ClientHelloDone
    | EntryAssign(name: Text, id: nat, seqNum: U16, value: Value, flags: int)
    | EntryUpdate(id: nat, seqNum: U16, value: Value)
    | FlagsUpdate(id: nat, flags: int)
    | EntryDelete(id: nat)
    | ClearEntries
    | ExecuteRpc(id: nat, uid: U16, params: Text)
    | RpcResponse(id: nat, uid: U16, result: Text)
}
