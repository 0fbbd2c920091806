/** Binary packets between operators' peers: `kernel/operator_peer/packet.go`, and their framing on a
    connection in `kernel/operator_peer/server.go`. A packet is a 28-byte header and its payload. */
module PacketCodec {

  newtype byte = x: int | 0 <= x < 256

  type u32 = x: int | 0 <= x < 0x1_0000_0000

  const MAGIC: u32 := 0x50503250
  const MAX: int := 8 * 1024 * 1024
  const HEADER: int := 28

  datatype Packet = Packet(
    magic: u32, version: byte, kind: byte, flags: byte, length: u32, trace: seq<byte>, payload: seq<byte>)

  /** TraceID is an array of 16 bytes. */
  predicate WellFormed(p: Packet) {
    |p.trace| == 16
  }

  datatype DecodeResult = Decoded(packet: Packet) | TooShort | BadMagic | Truncated | SliceOutOfRange

  datatype ReadResult = Read(packet: Packet) | NoHeader | TooLarge | NoPayload

  // ------------------------------------------------------------------------------------------
  // Specification
  // ------------------------------------------------------------------------------------------

  function BigEndian(n: u32): (s: seq<byte>)
    ensures |s| == 4
  {
    [(n / 0x100_0000) as byte, (n / 0x1_0000 % 0x100) as byte, (n / 0x100 % 0x100) as byte, (n % 0x100) as byte]
  }

  function FromBigEndian(s: seq<byte>): u32
    requires |s| == 4
  {
    s[0] as int * 0x100_0000 + s[1] as int * 0x1_0000 + s[2] as int * 0x100 + s[3] as int
  }

  function Header(p: Packet): (s: seq<byte>)
    requires WellFormed(p) && |p.payload| <= MAX
    ensures |s| == HEADER
  {
    BigEndian(MAGIC) + [p.version, p.kind, p.flags, 0] + BigEndian(|p.payload|) + p.trace
  }

  function Encoding(p: Packet): seq<byte>
    requires WellFormed(p) && |p.payload| <= MAX
  {
    Header(p) + p.payload
  }

  function LengthField(data: seq<byte>): u32
    requires |data| >= HEADER
  {
    FromBigEndian(data[8..12])
  }

  /** The packet framed at the start of `data`. */
  function Framed(data: seq<byte>, magic: u32): (p: Packet)
    requires |data| >= HEADER + if |data| >= HEADER then LengthField(data) else 0
    ensures WellFormed(p)
  {
    var n := LengthField(data);
    Packet(magic, data[4], data[5], data[6], n, data[12..28], data[28..28 + n])
  }

  /** DecodePacket. The end of its payload slice is computed in 32 bits; where that wraps around the
      slice is out of range. */
  function Decoding(data: seq<byte>): DecodeResult {
    if |data| < HEADER then TooShort
    else if FromBigEndian(data[0..4]) != MAGIC then BadMagic
    else if |data| < HEADER + LengthField(data) then Truncated
    else if HEADER + LengthField(data) >= 0x1_0000_0000 then SliceOutOfRange
    else Decoded(Framed(data, MAGIC))
  }

  /** ReadPacket: the result and what is left on the connection. The magic number is not looked at. */
  function Reading(data: seq<byte>): (ReadResult, seq<byte>) {
    if |data| < HEADER then (NoHeader, [])
    else if LengthField(data) > MAX then (TooLarge, data[28..])
    else if |data| < HEADER + LengthField(data) then (NoPayload, [])
    else (Read(Framed(data, 0)), data[28 + LengthField(data)..])
  }

  // ------------------------------------------------------------------------------------------
  // The code
  // ------------------------------------------------------------------------------------------

  method PutUint32(data: array<byte>, at: nat, n: u32)
    requires at + 4 <= data.Length
    modifies data
    ensures data[..] == old(data[..at]) + BigEndian(n) + old(data[at + 4..])
  {
    data[at] := (n / 0x100_0000) as byte;
    data[at + 1] := (n / 0x1_0000 % 0x100) as byte;
    data[at + 2] := (n / 0x100 % 0x100) as byte;
    data[at + 3] := (n % 0x100) as byte;
  }

  method CopyInto(data: array<byte>, at: nat, src: seq<byte>)
    requires at + |src| <= data.Length
    modifies data
    ensures data[..] == old(data[..at]) + src + old(data[at + |src|..])
  {
    for i := 0 to |src|
      invariant data[..] == old(data[..at]) + src[..i] + old(data[at + i..])
    {
      data[at + i] := src[i];
    }
  }

  method Encode(p: Packet) returns (ok: bool, data: array<byte>)
    requires WellFormed(p)
    ensures ok == (|p.payload| <= MAX)
    ensures fresh(data)
    ensures ok ==> data[..] == Encoding(p)
  {
    if |p.payload| > MAX {
      return false, new byte[0];
    }
    ok := true;
    data := new byte[28 + |p.payload|];
    PutUint32(data, 0, MAGIC);
    data[4] := p.version;
    data[5] := p.kind;
    data[6] := p.flags;
    data[7] := 0;
    assert data[..8] == BigEndian(MAGIC) + [p.version, p.kind, p.flags, 0];
    PutUint32(data, 8, |p.payload|);
    assert data[..12] == BigEndian(MAGIC) + [p.version, p.kind, p.flags, 0] + BigEndian(|p.payload|);
    CopyInto(data, 12, p.trace);
    assert data[..28] == Header(p);
    CopyInto(data, 28, p.payload);
  }

  method DecodePacket(data: array<byte>) returns (r: DecodeResult)
    ensures r == Decoding(data[..])
  {
    if data.Length < 28 {
      return TooShort;
    }
    assert data[..][0..4] == data[0..4] && data[..][8..12] == data[8..12];
    var magic := FromBigEndian(data[0..4]);
    if magic != MAGIC {
      return BadMagic;
    }
    var length: int := FromBigEndian(data[8..12]);
    if data.Length < 28 + length {
      return Truncated;
    }
    var end := (28 + length) % 0x1_0000_0000;
    if end < 28 {
      return SliceOutOfRange;
    }
    assert data[..][12..28] == data[12..28] && data[..][28..28 + length] == data[28..end];
    return Decoded(Packet(magic, data[4], data[5], data[6], length, data[12..28], data[28..end]));
  }

  /** NewPacket: the trace id is cut or padded to 16 bytes. */
  function Padded(s: seq<byte>): (t: seq<byte>)
    ensures |t| == 16 && forall i | 0 <= i < 16 :: t[i] == if i < |s| then s[i] else 0
  {
    if |s| >= 16 then s[..16] else s + seq(16 - |s|, _ => 0)
  }

  function NewPacket(kind: byte, trace: seq<byte>, payload: seq<byte>): (p: Packet)
    ensures WellFormed(p)
  {
    Packet(MAGIC, 1, kind, 0, |payload| % 0x1_0000_0000, Padded(trace), payload)
  }

  /** One end of a connection: what has arrived and what was written. */
  class Conn {
    var incoming: seq<byte>
    var written: seq<byte>

    constructor (arrived: seq<byte>)
      ensures incoming == arrived && written == []
    {
      incoming, written := arrived, [];
    }

    /** io.ReadFull at the end of what the peer has sent. */
    method ReadFull(n: nat) returns (ok: bool, data: seq<byte>)
      modifies `incoming
      ensures ok == (|old(incoming)| >= n)
      ensures ok ==> data == old(incoming)[..n] && incoming == old(incoming)[n..]
      ensures !ok ==> incoming == []
    {
      if |incoming| < n {
        data, incoming := incoming, [];
        return false, data;
      }
      data, incoming := incoming[..n], incoming[n..];
      return true, data;
    }

    method ReadPacket() returns (r: ReadResult)
      modifies `incoming
      ensures (r, incoming) == Reading(old(incoming))
    {
      var ok, header := ReadFull(28);
      if !ok {
        return NoHeader;
      }
      assert header[8..12] == old(incoming)[8..12] && header[12..28] == old(incoming)[12..28];
      var length := FromBigEndian(header[8..12]);
      if length > MAX {
        return TooLarge;
      }
      var payload;
      ok, payload := ReadFull(length);
      if !ok {
        return NoPayload;
      }
      assert old(incoming)[28..][..length] == old(incoming)[28..28 + length];
      assert old(incoming)[28..][length..] == old(incoming)[28 + length..];
      return Read(Packet(0, header[4], header[5], header[6], length, header[12..28], payload));
    }

    method WritePacket(p: Packet) returns (ok: bool)
      requires WellFormed(p)
      modifies `written
      ensures ok == (|p.payload| <= MAX)
      ensures written == old(written) + if ok then Encoding(p) else []
    {
      var data;
      ok, data := Encode(p);
      if ok {
        written := written + data[..];
      }
    }
  }

  // ------------------------------------------------------------------------------------------
  // Round trips
  // ------------------------------------------------------------------------------------------

  /** Taking off one byte at a time. */
  lemma Shifts(n: u32)
    ensures n / 0x1_0000 == n / 0x100 / 0x100 && n / 0x100_0000 == n / 0x1_0000 / 0x100
  {
  }

  lemma BigEndianInverse(n: u32)
    ensures FromBigEndian(BigEndian(n)) == n
  {
    Shifts(n);
    var a, b := n / 0x100, n / 0x1_0000;
    var s := BigEndian(n);
    assert s[0] as int == b / 0x100 && s[1] as int == b % 0x100 && s[2] as int == a % 0x100 && s[3] as int == n % 0x100;
    hide BigEndian;
  }

  lemma BigEndianOnto(s: seq<byte>)
    requires |s| == 4
    ensures BigEndian(FromBigEndian(s)) == s
  {
    var n := FromBigEndian(s);
    var a := s[0] as int * 0x1_0000 + s[1] as int * 0x100 + s[2] as int;
    var b := s[0] as int * 0x100 + s[1] as int;
    assert n == a * 0x100 + s[3] as int && a == b * 0x100 + s[2] as int;
    assert n / 0x100 == a && a / 0x100 == b && b / 0x100 == s[0] as int;
    Shifts(n);
  }

  /** The packet as it comes out of a frame. */
  function Normal(p: Packet, magic: u32): Packet
    requires |p.payload| <= MAX
  {
    p.(magic := magic, length := |p.payload|)
  }

  lemma EncodingParts(p: Packet, rest: seq<byte>)
    requires WellFormed(p) && |p.payload| <= MAX
    ensures var s := Encoding(p) + rest;
      && |s| >= HEADER + |p.payload| && s[0..4] == BigEndian(MAGIC) && s[8..12] == BigEndian(|p.payload|)
      && s[4] == p.version && s[5] == p.kind && s[6] == p.flags && s[7] == 0
      && s[12..28] == p.trace && s[28..28 + |p.payload|] == p.payload && s[28 + |p.payload|..] == rest
  {
    hide BigEndian;
  }

  lemma EncodingFramed(p: Packet, rest: seq<byte>, magic: u32)
    requires WellFormed(p) && |p.payload| <= MAX
    ensures var s := Encoding(p) + rest;
      && |s| >= HEADER && FromBigEndian(s[0..4]) == MAGIC && LengthField(s) == |p.payload|
      && |s| >= HEADER + |p.payload| && Framed(s, magic) == Normal(p, magic) && s[28 + |p.payload|..] == rest
  {
    EncodingParts(p, rest);
    BigEndianInverse(MAGIC);
    BigEndianInverse(|p.payload|);
    hide Encoding, BigEndian, FromBigEndian;
  }

  /** DecodePacket undoes Encode for every payload up to 8 MB. */
  lemma DecodeUndoesEncode(p: Packet)
    requires WellFormed(p) && |p.payload| <= MAX
    ensures Decoding(Encoding(p)) == Decoded(Normal(p, MAGIC))
  {
    EncodingFramed(p, [], MAGIC);
    assert Encoding(p) + [] == Encoding(p);
    hide Encoding, FromBigEndian, Framed;
  }

  lemma HeaderRebuilt(data: seq<byte>, p: Packet)
    requires Decoding(data) == Decoded(p) && |p.payload| <= MAX
    ensures |data| >= HEADER + |p.payload| && |p.payload| == LengthField(data)
    ensures Header(p) == data[0..4] + [data[4], data[5], data[6], 0] + data[8..12] + data[12..28]
  {
    BigEndianOnto(data[0..4]);
    BigEndianOnto(data[8..12]);
    hide BigEndian, FromBigEndian;
  }

  /** Encode undoes DecodePacket exactly where the reserved byte is zero. */
  lemma EncodeUndoesDecode(data: seq<byte>, p: Packet)
    requires Decoding(data) == Decoded(p) && |p.payload| <= MAX
    ensures |data| >= HEADER + |p.payload|
    ensures Encoding(p) == data[..28 + |p.payload|] <==> data[7] == 0
  {
    HeaderRebuilt(data, p);
    var n := |p.payload|;
    var t := data[..28 + n];
    assert p.payload == data[28..28 + n];
    assert Encoding(p)[7] == 0 && t[7] == data[7];
    hide Decoding, Header, LengthField;
    assert t == data[0..4] + [data[4], data[5], data[6], data[7]] + data[8..12] + data[12..28] + data[28..28 + n];
  }

  /** The reader and the decoder agree wherever both accept; the decoder also wants the magic number
      and the reader the size limit. */
  lemma ReaderAndDecoderAgree(data: seq<byte>)
    ensures Reading(data).0.Read? <==>
      |data| >= HEADER && LengthField(data) <= MAX && |data| >= HEADER + LengthField(data)
    ensures Decoding(data).Decoded? && LengthField(data) <= MAX ==>
      Reading(data) == (Read(Decoding(data).packet.(magic := 0)), data[28 + LengthField(data)..])
    ensures Reading(data).0.Read? ==>
      (Decoding(data) == Decoded(Reading(data).0.packet.(magic := MAGIC)) <==> FromBigEndian(data[0..4]) == MAGIC)
  {
    hide FromBigEndian;
  }

  // ------------------------------------------------------------------------------------------
  // The bytes on the wire
  // ------------------------------------------------------------------------------------------

  /** Four bytes as a number, the first one counting most. */
  function Number(a: byte, b: byte, c: byte, d: byte): int {
    ((a as int * 256 + b as int) * 256 + c as int) * 256 + d as int
  }

  lemma BigEndianMeans(n: u32)
    ensures var s := BigEndian(n); Number(s[0], s[1], s[2], s[3]) == n
  {
    BigEndianInverse(n);
  }

  lemma FromBigEndianMeans(s: seq<byte>)
    requires |s| == 4
    ensures FromBigEndian(s) == Number(s[0], s[1], s[2], s[3])
  {
  }

  lemma NumberFixesBytes(a: byte, b: byte, c: byte, d: byte)
    ensures Number(a, b, c, d) == 0x50503250 <==> [a, b, c, d] == [0x50, 0x50, 0x32, 0x50]
  {
    BigEndianOnto([a, b, c, d]);
    var s := [a, b, c, d];
    assert s[0] == a && s[1] == b && s[2] == c && s[3] == d;
  }

  /** Every encoding byte by byte: the four bytes PP2P in ASCII order, version, type, flags, a zero, the
      length of the payload with the most significant byte first, the trace id, the payload. */
  lemma WireFormat(p: Packet)
    requires WellFormed(p) && |p.payload| <= 8388608
    ensures var s := Encoding(p);
      && |s| == 28 + |p.payload|
      && s[0] == 0x50 && s[1] == 0x50 && s[2] == 0x32 && s[3] == 0x50
      && s[4] == p.version && s[5] == p.kind && s[6] == p.flags && s[7] == 0
      && Number(s[8], s[9], s[10], s[11]) == |p.payload|
      && s[12..28] == p.trace && s[28..] == p.payload
  {
    var s := Encoding(p);
    EncodingParts(p, []);
    assert s + [] == s;
    BigEndianMeans(MAGIC);
    BigEndianMeans(|p.payload|);
    hide Encoding, BigEndian;
    FourBytes(s, 0);
    FourBytes(s, 8);
    NumberFixesBytes(s[0], s[1], s[2], s[3]);
    assert [s[0], s[1], s[2], s[3]][0] == 0x50 && [s[0], s[1], s[2], s[3]][1] == 0x50;
    assert [s[0], s[1], s[2], s[3]][2] == 0x32 && [s[0], s[1], s[2], s[3]][3] == 0x50;
    assert s[28..] == s[28..28 + |p.payload|];
  }

  lemma FourBytes(s: seq<byte>, at: nat)
    requires at + 4 <= |s|
    ensures var t := s[at..at + 4]; t[0] == s[at] && t[1] == s[at + 1] && t[2] == s[at + 2] && t[3] == s[at + 3]
  {
  }

  /** The payload length that a header announces. */
  function Announced(data: seq<byte>): int
    requires |data| >= 28
  {
    Number(data[8], data[9], data[10], data[11])
  }

  /** DecodePacket accepts exactly data that begin with PP2P and are as long as they announce, if that end
      is a 32-bit number, and takes the fields from those places. */
  lemma DecodesExactly(data: seq<byte>)
    ensures Decoding(data).Decoded? <==>
      && |data| >= 28 && data[0] == 0x50 && data[1] == 0x50 && data[2] == 0x32 && data[3] == 0x50
      && |data| >= 28 + Announced(data) && 28 + Announced(data) < 0x1_0000_0000
    ensures Decoding(data).Decoded? ==>
      var p, n := Decoding(data).packet, Announced(data);
      && p.magic == 0x50503250 && p.version == data[4] && p.kind == data[5] && p.flags == data[6] && p.length == n
      && p.trace == data[12..28] && p.payload == data[28..28 + n]
  {
    if |data| >= 28 {
      FromBigEndianMeans(data[0..4]);
      FromBigEndianMeans(data[8..12]);
      FourBytes(data, 0);
      FourBytes(data, 8);
      NumberFixesBytes(data[0], data[1], data[2], data[3]);
      var four := [data[0], data[1], data[2], data[3]];
      assert four[0] == data[0] && four[1] == data[1] && four[2] == data[2] && four[3] == data[3];
      hide FromBigEndian, Number;
    }
  }

  /** ReadPacket accepts exactly data that hold a header announcing at most 8 MB and that payload; what is
      left is what follows, and on an error what had not been read yet. */
  lemma ReadsExactly(data: seq<byte>)
    ensures Reading(data).0.Read? <==> |data| >= 28 && Announced(data) <= 8388608 && |data| >= 28 + Announced(data)
    ensures Reading(data).0.Read? ==>
      var p, n := Reading(data).0.packet, Announced(data);
      && p.version == data[4] && p.kind == data[5] && p.flags == data[6] && p.length == n
      && p.trace == data[12..28] && p.payload == data[28..28 + n] && Reading(data).1 == data[28 + n..]
    ensures !Reading(data).0.Read? ==>
      Reading(data).1 == if |data| >= 28 && Announced(data) > 8388608 then data[28..] else []
  {
    if |data| >= 28 {
      FromBigEndianMeans(data[8..12]);
      FourBytes(data, 8);
      hide FromBigEndian, Number;
    }
  }

  /** A packet made for sending, on the wire. */
  lemma NewPacketOnTheWire(kind: byte, trace: seq<byte>, payload: seq<byte>)
    requires |payload| <= 8388608
    ensures var s := Encoding(NewPacket(kind, trace, payload));
      && |s| == 28 + |payload| && s[4] == 1 && s[5] == kind && s[6] == 0 && s[28..] == payload
      && forall i | 0 <= i < 16 :: s[12..28][i] == if i < |trace| then trace[i] else 0
  {
    WireFormat(NewPacket(kind, trace, payload));
    hide Encoding;
  }

  // ------------------------------------------------------------------------------------------
  // Streams
  // ------------------------------------------------------------------------------------------

  predicate Writable(ps: seq<Packet>) {
    forall i | 0 <= i < |ps| :: WellFormed(ps[i]) && |ps[i].payload| <= MAX
  }

  /** The bytes of some packets written one after the other. */
  function Stream(ps: seq<Packet>): seq<byte>
    requires Writable(ps)
  {
    if ps == [] then [] else Encoding(ps[0]) + Stream(ps[1..])
  }

  /** Reads up to n packets, stopping at the first error. */
  function ReadMany(data: seq<byte>, n: nat): (seq<Packet>, seq<byte>) {
    if n == 0 then ([], data)
    else match Reading(data)
      case (Read(p), rest) => var (ps, left) := ReadMany(rest, n - 1); ([p] + ps, left)
      case (_, rest) => ([], rest)
  }

  function AsRead(ps: seq<Packet>): seq<Packet>
    requires Writable(ps)
  {
    seq(|ps|, i requires 0 <= i < |ps| => Normal(ps[i], 0))
  }

  lemma ReadFirst(p: Packet, rest: seq<byte>)
    requires WellFormed(p) && |p.payload| <= MAX
    ensures Reading(Encoding(p) + rest) == (Read(Normal(p, 0)), rest)
  {
    EncodingFramed(p, rest, 0);
    hide Encoding, FromBigEndian, Framed;
  }

  /** A stream of any packets the writer accepts is read back as exactly those packets in order, and
      whatever follows is left alone. */
  lemma {:induction false} StreamReadsBack(ps: seq<Packet>, rest: seq<byte>)
    requires Writable(ps)
    ensures ReadMany(Stream(ps) + rest, |ps|) == (AsRead(ps), rest)
  {
    if ps == [] {
      assert Stream(ps) + rest == rest;
    } else {
      hide Encoding, Reading;
      var more := Stream(ps[1..]) + rest;
      assert Stream(ps) + rest == Encoding(ps[0]) + more;
      ReadFirst(ps[0], more);
      StreamReadsBack(ps[1..], rest);
      assert [Normal(ps[0], 0)] + AsRead(ps[1..]) == AsRead(ps);
    }
  }

  /** So a stream determines its packets, and how many they are. */
  lemma {:induction false} StreamFixesPackets(ps: seq<Packet>, qs: seq<Packet>)
    requires Writable(ps) && Writable(qs) && Stream(ps) == Stream(qs)
    ensures AsRead(ps) == AsRead(qs)
  {
    hide Encoding, Reading;
    if ps == [] || qs == [] {
      if ps != [] {
        NotEmpty(ps);
      }
      if qs != [] {
        NotEmpty(qs);
      }
    } else {
      ReadFirst(ps[0], Stream(ps[1..]));
      ReadFirst(qs[0], Stream(qs[1..]));
      StreamFixesPackets(ps[1..], qs[1..]);
      assert AsRead(ps) == [Normal(ps[0], 0)] + AsRead(ps[1..]) && AsRead(qs) == [Normal(qs[0], 0)] + AsRead(qs[1..]);
    }
  }

  lemma NotEmpty(ps: seq<Packet>)
    requires Writable(ps) && ps != []
    ensures Stream(ps) != []
  {
    assert |Encoding(ps[0])| >= HEADER;
  }
}
