/** The Node.js `Buffer` operations the chunk store uses: a single unsigned byte write and a
    little-endian 32-bit write and read. Node throws a range error when an offset falls
    outside the buffer or a value outside the field's range; here such a call reports
    failure and leaves the buffer as it was. */
module Bytes {
  import opened Js

  type uint8 = x: int | 0 <= x < 256

  const TWO32: int := 0x1_0000_0000

  /** The four bytes of `v`, least significant first. */
  function Le32(v: int): (b: seq<uint8>)
    requires 0 <= v < TWO32
    ensures |b| == 4
  {
    [v % 256, (v / 256) % 256, (v / 65536) % 256, v / 16777216]
  }

  /** The number four little-endian bytes stand for. */
  function Le32Value(b: seq<uint8>): (v: int)
    requires |b| == 4
    ensures 0 <= v < TWO32
  {
    b[0] as int + 256 * b[1] as int + 65536 * b[2] as int + 16777216 * b[3] as int
  }

  /** `buf.readUint32LE(offset)`: fails unless four bytes are available at `offset`. */
  function ReadUInt32LE(buf: seq<uint8>, offset: int): Option<int>
  {
    if 0 <= offset && offset + 4 <= |buf| then Some(Le32Value(buf[offset..offset + 4])) else None
  }

  /** Encoding then decoding a 32-bit value gives it back. */
  lemma Le32RoundTrip(v: int)
    requires 0 <= v < TWO32
    ensures Le32Value(Le32(v)) == v
  {
    var b0, q0 := v % 256, v / 256;
    var b1, q1 := q0 % 256, q0 / 256;
    var b2, b3 := q1 % 256, q1 / 256;
    assert v == b0 + 256 * q0;
    assert q0 == b1 + 256 * q1;
    assert q1 == b2 + 256 * b3;
    assert (v / 256) / 256 == v / 65536;
    assert ((v / 256) / 256) / 256 == v / 16777216;
  }

  /** Decoding then encoding four bytes gives them back. */
  lemma Le32Bytes(b: seq<uint8>)
    requires |b| == 4
    ensures Le32(Le32Value(b)) == b
  {
    var v := Le32Value(b);
    assert v % 256 == b[0] && v / 256 == b[1] as int + 256 * b[2] as int + 65536 * b[3] as int;
    var q0 := v / 256;
    assert q0 % 256 == b[1] && q0 / 256 == b[2] as int + 256 * b[3] as int;
    assert v / 65536 == q0 / 256;
    assert v / 16777216 == (q0 / 256) / 256;
  }

  /** Reading back the trailer a write stored gives the stored value. */
  lemma ReadAfterWrite(pre: seq<uint8>, v: int, post: seq<uint8>)
    requires 0 <= v < TWO32
    ensures ReadUInt32LE(pre + Le32(v) + post, |pre|) == Some(v)
  {
    var s := pre + Le32(v) + post;
    assert s[|pre|..|pre| + 4] == Le32(v);
    Le32RoundTrip(v);
  }

  /** `buf.writeUInt8(value, offset)`. A NaN value passes Node's range check and is stored
      as 0; an integer outside 0..255 or an offset outside the buffer throws. */
  method WriteUInt8(buf: array<uint8>, value: Num, offset: int) returns (ok: bool)
    modifies buf
    ensures ok <==> (value.NaN? || 0 <= value.value < 256) && 0 <= offset < buf.Length
    ensures ok ==> buf[..] == old(buf[..])[offset := if value.NaN? then 0 else value.value]
    ensures !ok ==> buf[..] == old(buf[..])
  {
    if (value.Int? && !(0 <= value.value < 256)) || !(0 <= offset < buf.Length) {
      return false;
    }
    buf[offset] := if value.NaN? then 0 else value.value;
    ok := true;
  }

  /** `buf.writeUint32LE(value, offset)`: throws unless the value fits 32 bits and four bytes
      are available at `offset`. */
  method WriteUInt32LE(buf: array<uint8>, value: int, offset: int) returns (ok: bool)
    modifies buf
    ensures ok <==> 0 <= value < TWO32 && 0 <= offset && offset + 4 <= buf.Length
    ensures ok ==> buf[..] == old(buf[..])[..offset] + Le32(value) + old(buf[..])[offset + 4..]
    ensures !ok ==> buf[..] == old(buf[..])
  {
    if !(0 <= value < TWO32 && 0 <= offset && offset + 4 <= buf.Length) {
      return false;
    }
    var b := Le32(value);
    buf[offset] := b[0];
    buf[offset + 1] := b[1];
    buf[offset + 2] := b[2];
    buf[offset + 3] := b[3];
    ok := true;
  }
}
