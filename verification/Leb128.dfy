/** Unsigned LEB128, as in section 7.6 and Appendix C of DWARF 3. */
module Leb128 {
  import opened Wrappers
  import opened Protocol

  datatype WireError = EndOfStream | BadValueType | BadMessageType | BadMagic | OutOfRange | Unsupported

  /** What is read, and the bytes that remain. */
  type Parsed<+T> = Result<(T, seq<Byte>), WireError>

  function Encoded(n: nat): seq<Byte> {
    if n < 128 then [n] else [n % 128 + 128] + Encoded(n / 128)
  }

  function Decoded(bs: seq<Byte>): (r: Parsed<nat>)
    ensures r.Ok? ==> |r.value.1| < |bs|
  {
    if bs == [] then Err(EndOfStream)
    else if bs[0] < 128 then Ok((bs[0], bs[1..]))
    else
      var (n, rest) :- Decoded(bs[1..]);
      Ok((bs[0] - 128 + 128 * n, rest))
  }

  function Size(n: nat): nat {
    if n < 128 then 1 else 1 + Size(n / 128)
  }

  lemma DecodedMore(t: seq<Byte>)
    requires t != [] && t[0] >= 128
    ensures var d := Decoded(t[1..]);
            Decoded(t) == if d.Ok? then Ok((t[0] - 128 + 128 * d.value.0, d.value.1)) else d
  {
  }

  lemma DecodedLast(t: seq<Byte>)
    requires t != [] && t[0] < 128
    ensures Decoded(t) == Ok((t[0], t[1..]))
  {
  }

  /** Reading an encoding gives the number back and leaves exactly what follows. */
  lemma {:induction false} RoundTrip(n: nat, rest: seq<Byte>)
    ensures Decoded(Encoded(n) + rest) == Ok((n, rest))
  {
    hide Decoded;
    var t := Encoded(n) + rest;
    if n < 128 {
      assert t[1..] == rest;
      DecodedLast(t);
    } else {
      RoundTrip(n / 128, rest);
      assert t[1..] == Encoded(n / 128) + rest;
      DecodedMore(t);
    }
  }

  lemma {:induction false} SizeIsLength(n: nat)
    ensures |Encoded(n)| == Size(n)
  {
    if n >= 128 {
      SizeIsLength(n / 128);
    }
  }

  /** No shorter byte string reads as n. */
  lemma {:induction false} EncodingIsMinimal(n: nat, bs: seq<Byte>)
    requires Decoded(bs) == Ok((n, []))
    ensures |Encoded(n)| <= |bs|
    decreases |bs|
  {
    if bs[0] >= 128 {
      var m := Decoded(bs[1..]).value.0;
      assert n / 128 == m;
      EncodingIsMinimal(m, bs[1..]);
    }
  }

  // ---------------------------------------------------------------- the loops

  class ByteStream {
    var data: seq<Byte>

    constructor (data: seq<Byte>)
      ensures this.data == data
    {
      this.data := data;
    }

    /** Reads exactly so many bytes, or fails. */
    method Read(size: nat) returns (r: Result<seq<Byte>, WireError>)
      modifies this
      ensures size <= |old(data)| ==> r == Ok(old(data)[..size]) && data == old(data)[size..]
      ensures size > |old(data)| ==> r == Err(EndOfStream)
    {
      if size > |data| {
        return Err(EndOfStream);
      }
      r := Ok(data[..size]);
      data := data[size..];
    }
  }

  method SizeUleb128(value: nat) returns (count: nat)
    ensures count == Size(value)
  {
    var v: nat := value;
    count := 0;
    while true
      invariant count + Size(v) == Size(value)
      decreases v
    {
      v := v / 128;
      count := count + 1;
      if v == 0 {
        return;
      }
    }
  }

  method EncodeUleb128(value: nat) returns (out: seq<Byte>)
    ensures out == Encoded(value)
  {
    var v: nat := value;
    out := [];
    while true
      invariant out + Encoded(v) == Encoded(value)
      decreases v
    {
      var byte := v % 128;
      var was := v;
      v := v / 128;
      if v != 0 {
        byte := byte + 128;
      }
      out := out + [byte];
      if v == 0 {
        assert Encoded(was) == [byte];
        return;
      }
      assert Encoded(was) == [byte] + Encoded(v);
    }
  }

  /** The seven-bit groups do not overlap, so the source's `|` and `<<` are a sum and a product. */
  method ReadUleb128(stream: ByteStream) returns (r: Result<nat, WireError>)
    modifies stream
    ensures var d := Decoded(old(stream.data));
            if d.Ok? then r == Ok(d.value.0) && stream.data == d.value.1 else r == Err(d.error)
  {
    var result: nat, scale: nat := 0, 1;
    while true
      invariant var d, d' := Decoded(old(stream.data)), Decoded(stream.data);
                if d'.Ok? then d == Ok((result + scale * d'.value.0, d'.value.1)) else d == d'
      decreases |stream.data|
    {
      ghost var was := stream.data;
      var b := stream.Read(1);
      if b.Err? {
        return Err(b.error);
      }
      var byte := b.value[0];
      assert was[..1][0] == was[0];
      result := result + (byte % 128) * scale;
      if byte < 128 {
        assert scale * byte == byte * scale;
        return Ok(result);
      }
      Regroup(scale, byte - 128, if Decoded(stream.data).Ok? then Decoded(stream.data).value.0 else 0);
      scale := scale * 128;
    }
  }

  lemma Regroup(scale: nat, low: nat, high: nat)
    ensures scale * (low + 128 * high) == low * scale + scale * 128 * high
  {
  }
}
