/** Byte-level building blocks and the fixed 48-byte NTP header exchanged by
    fetchtime (the packet layout of section 7.3 of RFC 5905).

    Every multi-byte field of an `NtpMsg` holds the number its bytes spell in
    network byte order, i.e. the value `ntohl`/`ntohs` yields for it.  Bitwise
    equality of two fields in host memory is then equality of these values. */
module NtpWire {

  type byte = b: int | 0 <= b < 0x100
  type u16 = v: int | 0 <= v < 0x1_0000
  type u32 = v: int | 0 <= v < 0x1_0000_0000

  /** The header size, `sizeof(struct ntp_msg)`. */
  const MSG_SIZE: nat := 48

  /** Mode numbers and the protocol version (section 7.3 of RFC 5905). */
  const MODE_CLIENT: byte := 3
  const MODE_SERVER: byte := 4
  const NTP_VERSION: byte := 4

  /** A whole header as it travels on the wire. */
  type Packet = s: seq<byte> | |s| == MSG_SIZE witness seq(48, i => 0)

  /** 32-bit short format (root delay, root dispersion). */
  datatype ShortTime = ShortTime(seconds: u16, fraction: u16)

  /** 64-bit timestamp format: seconds since 1900 and a binary fraction. */
  datatype Timestamp = Timestamp(seconds: u32, fraction: u32)

  /** `struct ntp_msg`: the packet header, field for field. */
  datatype NtpMsg = NtpMsg(
    status: byte,        // leap indicator (2 bits), version (3 bits), mode (3 bits)
    stratum: byte,
    ppoll: byte,
    precision: byte,     // a signed byte, kept as its bit pattern
    rootdelay: ShortTime,
    dispersion: ShortTime,
    refid: u32,
    reftime: Timestamp,
    orgtime: Timestamp,
    rectime: Timestamp,
    xmttime: Timestamp)

  /** The all-zero header that `memset(query, 0, sizeof(struct ntp_msg))` leaves. */
  function ZeroMsg(): (m: NtpMsg)
    ensures Serialize(m) == seq(MSG_SIZE, i => 0)
  {
    var z := Timestamp(0, 0);
    var m := NtpMsg(0, 0, 0, 0, ShortTime(0, 0), ShortTime(0, 0), 0, z, z, z, z);
    assert Serialize(m) == seq(MSG_SIZE, i => 0);
    m
  }

  // ---------------------------------------------------------------------------
  // Big-endian encodings of 16- and 32-bit values

  function Be16(v: u16): (b: seq<byte>)
    ensures |b| == 2
  {
    [v / 0x100, v % 0x100]
  }

  function Unbe16(b: seq<byte>): u16
    requires |b| == 2
  {
    b[0] as int * 0x100 + b[1] as int
  }

  function Be32(v: u32): (b: seq<byte>)
    ensures |b| == 4
  {
    Be16(v / 0x1_0000) + Be16(v % 0x1_0000)
  }

  function Unbe32(b: seq<byte>): u32
    requires |b| == 4
  {
    Unbe16(b[..2]) * 0x1_0000 + Unbe16(b[2..])
  }

  lemma Be16RoundTrip(v: u16)
    ensures Unbe16(Be16(v)) == v
  {
  }

  lemma Unbe16RoundTrip(b: seq<byte>)
    requires |b| == 2
    ensures Be16(Unbe16(b)) == b
  {
  }

  lemma Be32RoundTrip(v: u32)
    ensures Unbe32(Be32(v)) == v
  {
    var hi, lo := v / 0x1_0000, v % 0x1_0000;
    Be16RoundTrip(hi);
    Be16RoundTrip(lo);
    assert Be32(v)[..2] == Be16(hi) && Be32(v)[2..] == Be16(lo);
  }

  lemma Unbe32RoundTrip(b: seq<byte>)
    requires |b| == 4
    ensures Be32(Unbe32(b)) == b
  {
    var hi, lo := Unbe16(b[..2]), Unbe16(b[2..]);
    Unbe16RoundTrip(b[..2]);
    Unbe16RoundTrip(b[2..]);
    assert Unbe32(b) / 0x1_0000 == hi && Unbe32(b) % 0x1_0000 == lo;
    assert b == b[..2] + b[2..];
  }

  // ---------------------------------------------------------------------------
  // The header on the wire

  function ShortBytes(t: ShortTime): (b: seq<byte>)
    ensures |b| == 4
  {
    Be16(t.seconds) + Be16(t.fraction)
  }

  function TimestampBytes(t: Timestamp): (b: seq<byte>)
    ensures |b| == 8
  {
    Be32(t.seconds) + Be32(t.fraction)
  }

  /** The bytes `send` puts on the wire for a header.  The status byte comes
      first, the origin timestamp sits at offset 24 and the transmit timestamp
      at offset 40. */
  function Serialize(m: NtpMsg): (p: Packet)
    ensures p[0] == m.status
    ensures p[24..32] == TimestampBytes(m.orgtime)
    ensures p[40..48] == TimestampBytes(m.xmttime)
  {
    var p := [m.status, m.stratum, m.ppoll, m.precision]
      + ShortBytes(m.rootdelay) + ShortBytes(m.dispersion)
      + Be32(m.refid)
      + TimestampBytes(m.reftime) + TimestampBytes(m.orgtime)
      + TimestampBytes(m.rectime) + TimestampBytes(m.xmttime);
    assert p[24..32] == TimestampBytes(m.orgtime);
    assert p[40..48] == TimestampBytes(m.xmttime);
    p
  }

  function ShortAt(p: Packet, off: nat): ShortTime
    requires off + 4 <= MSG_SIZE
  {
    ShortTime(Unbe16(p[off..off + 2]), Unbe16(p[off + 2..off + 4]))
  }

  function TimestampAt(p: Packet, off: nat): Timestamp
    requires off + 8 <= MSG_SIZE
  {
    Timestamp(Unbe32(p[off..off + 4]), Unbe32(p[off + 4..off + 8]))
  }

  /** The header a received packet holds. */
  function Deserialize(p: Packet): (m: NtpMsg)
    ensures m.status == p[0]
  {
    NtpMsg(p[0], p[1], p[2], p[3], ShortAt(p, 4), ShortAt(p, 8),
      Unbe32(p[12..16]),
      TimestampAt(p, 16), TimestampAt(p, 24), TimestampAt(p, 32), TimestampAt(p, 40))
  }

  /** Reading back a serialized header gives every field back. */
  lemma {:induction false} DeserializeSerialize(m: NtpMsg)
    ensures Deserialize(Serialize(m)) == m
  {
    var p := Serialize(m);
    Be16RoundTrip(m.rootdelay.seconds);
    Be16RoundTrip(m.rootdelay.fraction);
    Be16RoundTrip(m.dispersion.seconds);
    Be16RoundTrip(m.dispersion.fraction);
    Be32RoundTrip(m.refid);
    Be32RoundTrip(m.reftime.seconds);
    Be32RoundTrip(m.reftime.fraction);
    Be32RoundTrip(m.orgtime.seconds);
    Be32RoundTrip(m.orgtime.fraction);
    Be32RoundTrip(m.rectime.seconds);
    Be32RoundTrip(m.rectime.fraction);
    Be32RoundTrip(m.xmttime.seconds);
    Be32RoundTrip(m.xmttime.fraction);
    assert p[4..6] == Be16(m.rootdelay.seconds);
    assert p[6..8] == Be16(m.rootdelay.fraction);
    assert p[8..10] == Be16(m.dispersion.seconds);
    assert p[10..12] == Be16(m.dispersion.fraction);
    assert p[12..16] == Be32(m.refid);
    assert p[16..20] == Be32(m.reftime.seconds);
    assert p[20..24] == Be32(m.reftime.fraction);
    assert p[24..28] == Be32(m.orgtime.seconds);
    assert p[28..32] == Be32(m.orgtime.fraction);
    assert p[32..36] == Be32(m.rectime.seconds);
    assert p[36..40] == Be32(m.rectime.fraction);
    assert p[40..44] == Be32(m.xmttime.seconds);
    assert p[44..48] == Be32(m.xmttime.fraction);
  }

  lemma ShortAtRoundTrip(p: Packet, off: nat)
    requires off + 4 <= MSG_SIZE
    ensures ShortBytes(ShortAt(p, off)) == p[off..off + 4]
  {
    Unbe16RoundTrip(p[off..off + 2]);
    Unbe16RoundTrip(p[off + 2..off + 4]);
    assert p[off..off + 4] == p[off..off + 2] + p[off + 2..off + 4];
  }

  lemma TimestampAtRoundTrip(p: Packet, off: nat)
    requires off + 8 <= MSG_SIZE
    ensures TimestampBytes(TimestampAt(p, off)) == p[off..off + 8]
  {
    Unbe32RoundTrip(p[off..off + 4]);
    Unbe32RoundTrip(p[off + 4..off + 8]);
    assert p[off..off + 8] == p[off..off + 4] + p[off + 4..off + 8];
  }

  lemma JoinSlices(p: seq<byte>, i: nat, j: nat, k: nat)
    requires i <= j <= k <= |p|
    ensures p[i..j] + p[j..k] == p[i..k]
  {
  }

  /** Serializing a received header gives back the very bytes received. */
  lemma {:induction false} SerializeDeserialize(p: Packet)
    ensures Serialize(Deserialize(p)) == p
  {
    var m := Deserialize(p);
    ShortAtRoundTrip(p, 4);
    ShortAtRoundTrip(p, 8);
    Unbe32RoundTrip(p[12..16]);
    TimestampAtRoundTrip(p, 16);
    TimestampAtRoundTrip(p, 24);
    TimestampAtRoundTrip(p, 32);
    TimestampAtRoundTrip(p, 40);
    assert [m.status, m.stratum, m.ppoll, m.precision] == p[..4];
    JoinSlices(p, 0, 4, 8);
    JoinSlices(p, 0, 8, 12);
    JoinSlices(p, 0, 12, 16);
    JoinSlices(p, 0, 16, 24);
    JoinSlices(p, 0, 24, 32);
    JoinSlices(p, 0, 32, 40);
    JoinSlices(p, 0, 40, 48);
    assert p[0..48] == p;
  }
}
