/** The RPC header on the wire (src/protocol/serializer.c, include/protocol/protocol_defs.h). */
module Serializer {

  import opened Bytes

  const RPC_MAGIC: nat := 0xCAFEBABE
  const ID_SIZE: nat := 37
  const HEADER_SIZE: nat := 90   // 4 + 2 + 2 + 8 + 37 + 37

  datatype RpcHeader = RpcHeader(magic: nat, version: nat, command: nat, payloadLen: nat,
                                 origin: seq<byte>, request: seq<byte>)

  // The C struct: fixed-width fields.
  ghost predicate Fits(h: RpcHeader) {
    && h.magic < Pow256(4) && h.version < Pow256(2) && h.command < Pow256(2) && h.payloadLen < Pow256(8)
    && |h.origin| == ID_SIZE && |h.request| == ID_SIZE
  }

  function Packed(h: RpcHeader): seq<byte> {
    ToBigEndian(h.magic, 4) + ToBigEndian(h.version, 2) + ToBigEndian(h.command, 2) + ToBigEndian(h.payloadLen, 8)
    + h.origin + h.request
  }

  function Unpacked(b: seq<byte>): RpcHeader
    requires |b| == HEADER_SIZE
  {
    RpcHeader(FromBigEndian(b[..4]), FromBigEndian(b[4..6]), FromBigEndian(b[6..8]), FromBigEndian(b[8..16]),
              b[16..53], b[53..90])
  }

  lemma PackedSize(h: RpcHeader)
    requires |h.origin| == ID_SIZE && |h.request| == ID_SIZE
    ensures |Packed(h)| == HEADER_SIZE
  {
    hide ToBigEndian;
  }

  /** Where the fields are: each integer big-endian, the ids as they are. */
  lemma FieldPositions(h: RpcHeader, rest: seq<byte>)
    requires |h.origin| == ID_SIZE && |h.request| == ID_SIZE
    ensures var s := Packed(h) + rest;
      && |s| == 90 + |rest|
      && s[..4] == ToBigEndian(h.magic, 4) && s[4..6] == ToBigEndian(h.version, 2) && s[6..8] == ToBigEndian(h.command, 2)
      && s[8..16] == ToBigEndian(h.payloadLen, 8) && s[16..53] == h.origin && s[53..90] == h.request && s[90..] == rest
  {
    hide ToBigEndian;
    PackedSize(h);
  }

  /** Unpacking gives back every header. */
  lemma UnpackPacked(h: RpcHeader)
    requires Fits(h)
    ensures |Packed(h)| == HEADER_SIZE && Unpacked(Packed(h)) == h
  {
    hide ToBigEndian, FromBigEndian, Pow256;
    var b := Packed(h);
    assert b[..4] == ToBigEndian(h.magic, 4);
    assert b[4..6] == ToBigEndian(h.version, 2);
    assert b[6..8] == ToBigEndian(h.command, 2);
    assert b[8..16] == ToBigEndian(h.payloadLen, 8);
    assert b[16..53] == h.origin && b[53..90] == h.request;
    BigEndianRoundTrip(h.magic, 4);
    BigEndianRoundTrip(h.version, 2);
    BigEndianRoundTrip(h.command, 2);
    BigEndianRoundTrip(h.payloadLen, 8);
  }

  lemma FieldRoundTrip(s: seq<byte>)
    ensures ToBigEndian(FromBigEndian(s), |s|) == s && FromBigEndian(s) < Pow256(|s|)
  {
    hide ToBigEndian, FromBigEndian;
    FromBigEndianBound(s);
    BigEndianRoundTrip(FromBigEndian(s), |s|);
    BigEndianInjective(ToBigEndian(FromBigEndian(s), |s|), s);
  }

  /** And every 90 bytes are the packing of the header read from them. */
  lemma PackUnpacked(b: seq<byte>)
    requires |b| == HEADER_SIZE
    ensures Fits(Unpacked(b)) && Packed(Unpacked(b)) == b
  {
    hide ToBigEndian, FromBigEndian, Pow256;
    FieldRoundTrip(b[..4]);
    FieldRoundTrip(b[4..6]);
    FieldRoundTrip(b[6..8]);
    FieldRoundTrip(b[8..16]);
    assert b == b[..4] + b[4..6] + b[6..8] + b[8..16] + b[16..53] + b[53..90];
  }

  /** memcpy of src to dest + offset. */
  method CopyInto(dest: array<byte>, offset: nat, src: seq<byte>)
    requires offset + |src| <= dest.Length
    modifies dest
    ensures dest[..offset + |src|] == old(dest[..offset]) + src
    ensures dest[offset + |src|..] == old(dest[offset + |src|..])
  {
    for i := 0 to |src|
      invariant dest[..offset + i] == old(dest[..offset]) + src[..i]
      invariant dest[offset + i..] == old(dest[offset + i..])
    {
      dest[offset + i] := src[i];
    }
    assert src[..|src|] == src;
  }

  // CopyInto, said of a buffer filled so far with prefix and beyond that still as at the start.
  method CopyNext(dest: array<byte>, offset: nat, src: seq<byte>, ghost start: seq<byte>, ghost prefix: seq<byte>)
    requires |prefix| == offset && offset + |src| <= dest.Length == |start|
    requires dest[..] == prefix + start[offset..]
    modifies dest
    ensures dest[..] == prefix + src + start[offset + |src|..]
  {
    CopyInto(dest, offset, src);
  }

  /** serializer_pack_rpc: field after field at a running offset; the rest of dest is untouched. */
  method PackRpc(h: RpcHeader, dest: array<byte>)
    requires |h.origin| == ID_SIZE && |h.request| == ID_SIZE && dest.Length >= HEADER_SIZE
    modifies dest
    ensures dest[..] == Packed(h) + old(dest[HEADER_SIZE..])
  {
    hide ToBigEndian;
    ghost var start := dest[..];
    var magic, version := ToBigEndian(h.magic, 4), ToBigEndian(h.version, 2);
    var command, length := ToBigEndian(h.command, 2), ToBigEndian(h.payloadLen, 8);
    var offset := 0;
    CopyNext(dest, offset, magic, start, []);
    offset := offset + 4;
    assert [] + magic == magic;
    CopyNext(dest, offset, version, start, magic);
    offset := offset + 2;
    CopyNext(dest, offset, command, start, magic + version);
    offset := offset + 2;
    CopyNext(dest, offset, length, start, magic + version + command);
    offset := offset + 8;
    CopyNext(dest, offset, h.origin, start, magic + version + command + length);
    offset := offset + ID_SIZE;
    CopyNext(dest, offset, h.request, start, magic + version + command + length + h.origin);
  }
}
