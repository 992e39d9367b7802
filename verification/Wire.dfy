/** UGSP records on the control socket: `send_record` and `receive_record`. */
module Wire {
  import opened Common

  type u16 = x: int | 0 <= x < 0x1_0000
  type u32 = x: int | 0 <= x < 0x1_0000_0000

  /** A descriptor number as the kernel hands it out. */
  type Fd = nat

  const HEADER_LENGTH := 20
  const MAX_RECORD_LENGTH := 1024 * 1024
  const MAX_TRANSFERRED_FDS := 32
  const MAGIC: seq<byte> := [85, 71, 83, 80]

  datatype Record = Record(kind: byte, generation: u32, requestId: u32, body: seq<byte>, fds: seq<Fd>)

  /** What one recvmsg delivers: the bytes, the truncation flags, the descriptors. */
  datatype Datagram = Datagram(bytes: seq<byte>, truncated: bool, fds: seq<Fd>)

  datatype Refusal = BadHeader | BadLength | TooManyDescriptors | CountMismatch

  datatype Received = Got(record: Record) | PeerClosed | Refused(why: Refusal)

  function Be16(b: seq<byte>): u16
    requires |b| == 2
  {
    var high: int, low: int := b[0], b[1];
    high * 0x100 + low
  }

  function Be32(b: seq<byte>): u32
    requires |b| == 4
  {
    var high: int, low: int := Be16(b[..2]), Be16(b[2..]);
    high * 0x1_0000 + low
  }

  function ToBe16(v: u16): (b: seq<byte>)
    ensures |b| == 2 && Be16(b) == v
  {
    [v / 0x100, v % 0x100]
  }

  function ToBe32(v: u32): (b: seq<byte>)
    ensures |b| == 4 && Be32(b) == v
  {
    var b := ToBe16(v / 0x1_0000) + ToBe16(v % 0x1_0000);
    assert b[..2] == ToBe16(v / 0x1_0000) && b[2..] == ToBe16(v % 0x1_0000);
    b
  }

  lemma Be16Injective(b: seq<byte>)
    requires |b| == 2
    ensures ToBe16(Be16(b)) == b
  {}

  lemma Be32Injective(b: seq<byte>)
    requires |b| == 4
    ensures ToBe32(Be32(b)) == b
  {
    Be16Injective(b[..2]);
    Be16Injective(b[2..]);
    var high: int, low: int := Be16(b[..2]), Be16(b[2..]);
    assert Be32(b) / 0x1_0000 == high && Be32(b) % 0x1_0000 == low;
    assert b == b[..2] + b[2..];
  }

  /** The value of four bytes, most significant first. */
  function Word(b0: byte, b1: byte, b2: byte, b3: byte): nat {
    var i0: int, i1: int, i2: int, i3: int := b0, b1, b2, b3;
    i0 * 0x100_0000 + i1 * 0x1_0000 + i2 * 0x100 + i3
  }

  lemma WordsAreBigEndian(b: seq<byte>)
    ensures |b| == 2 ==> Be16(b) == Word(0, 0, b[0], b[1])
    ensures |b| == 4 ==> Be32(b) == Word(b[0], b[1], b[2], b[3])
  {
    if |b| == 4 {
      assert b[..2][0] == b[0] && b[..2][1] == b[1] && b[2..][0] == b[2] && b[2..][1] == b[3];
    }
  }

  /** The wire image of a record that announces `fdCount` descriptors. */
  function Frame(kind: byte, fdCount: u16, generation: u32, requestId: u32, body: seq<byte>): (p: seq<byte>)
    requires |body| <= MAX_RECORD_LENGTH
    ensures |p| == HEADER_LENGTH + |body|
  {
    MAGIC + [1, kind] + ToBe16(fdCount) + ToBe32(generation) + ToBe32(requestId) + ToBe32(|body|) + body
  }

  predicate GoodHeader(p: seq<byte>) {
    |p| >= HEADER_LENGTH && p[..4] == MAGIC && p[4] == 1
  }

  /** The checks of receive_record, in its order. */
  function Decode(d: Datagram): Received {
    var p := d.bytes;
    if |p| == 0 then PeerClosed
    else if d.truncated || !GoodHeader(p) then Refused(BadHeader)
    else if Be32(p[16..20]) > MAX_RECORD_LENGTH || |p| != HEADER_LENGTH + Be32(p[16..20])
            || Be16(p[6..8]) > MAX_TRANSFERRED_FDS then Refused(BadLength)
    else if |d.fds| > MAX_TRANSFERRED_FDS then Refused(TooManyDescriptors)
    else if |d.fds| != Be16(p[6..8]) then Refused(CountMismatch)
    else Got(Record(p[5], Be32(p[8..12]), Be32(p[12..16]), p[HEADER_LENGTH..], d.fds))
  }

  /** Where each field of an accepted record stands: the letters "UGSP", version 1, the kind, the
      number of descriptors, generation, request id and body length, all big-endian, and the
      body from byte 20 on. */
  lemma DecodedByteByByte(d: Datagram)
    requires Decode(d).Got?
    ensures var p, r := d.bytes, Decode(d).record;
      && |p| == 20 + |r.body| && p[0] == 85 && p[1] == 71 && p[2] == 83 && p[3] == 80 && p[4] == 1
      && r.kind == p[5] && |r.fds| == Word(0, 0, p[6], p[7]) <= 32 && r.fds == d.fds
      && r.generation == Word(p[8], p[9], p[10], p[11]) && r.requestId == Word(p[12], p[13], p[14], p[15])
      && |r.body| == Word(p[16], p[17], p[18], p[19]) <= 1024 * 1024
      && forall i :: 0 <= i < |r.body| ==> r.body[i] == p[20 + i]
  {
    var p := d.bytes;
    WordsAreBigEndian(p[6..8]);
    WordsAreBigEndian(p[8..12]);
    WordsAreBigEndian(p[12..16]);
    WordsAreBigEndian(p[16..20]);
    var magic := p[..4];
    assert magic[0] == p[0] && magic[1] == p[1] && magic[2] == p[2] && magic[3] == p[3];
  }

  lemma FrameFields(kind: byte, fdCount: u16, generation: u32, requestId: u32, body: seq<byte>)
    requires |body| <= MAX_RECORD_LENGTH
    ensures var p := Frame(kind, fdCount, generation, requestId, body);
      && GoodHeader(p) && p[5] == kind
      && p[6..8] == ToBe16(fdCount)
      && p[8..12] == ToBe32(generation)
      && p[12..16] == ToBe32(requestId)
      && p[16..20] == ToBe32(|body|)
      && p[HEADER_LENGTH..] == body
  {}

  /** receive_record accepts exactly the untruncated frames whose announced count
      matches the at most 32 descriptors that came along, and loses nothing. */
  lemma DecodeAcceptsExactlyFrames(d: Datagram, r: Record)
    ensures Decode(d) == Got(r) <==>
      && !d.truncated && d.fds == r.fds && |r.fds| <= MAX_TRANSFERRED_FDS && |r.body| <= MAX_RECORD_LENGTH
      && d.bytes == Frame(r.kind, |r.fds|, r.generation, r.requestId, r.body)
  {
    if |r.body| <= MAX_RECORD_LENGTH && |r.fds| <= MAX_TRANSFERRED_FDS {
      FrameFields(r.kind, |r.fds|, r.generation, r.requestId, r.body);
    }
    if Decode(d) == Got(r) {
      var p := d.bytes;
      Be16Injective(p[6..8]);
      Be32Injective(p[8..12]);
      Be32Injective(p[12..16]);
      Be32Injective(p[16..20]);
      assert p == p[..4] + [p[4], p[5]] + p[6..8] + p[8..12] + p[12..16] + p[16..20] + p[20..];
    }
  }

  /** What send_record puts on the wire decodes to the same record. */
  lemma RecordRoundTrip(kind: byte, generation: u32, requestId: u32, body: seq<byte>)
    requires |body| <= MAX_RECORD_LENGTH
    ensures Decode(Datagram(Frame(kind, 0, generation, requestId, body), false, []))
      == Got(Record(kind, generation, requestId, body, []))
  {
    DecodeAcceptsExactlyFrames(Datagram(Frame(kind, 0, generation, requestId, body), false, []),
                               Record(kind, generation, requestId, body, []));
  }

  /** put_be16 */
  method PutBe16(bytes: array<byte>, at: nat, v: u16)
    requires at + 2 <= bytes.Length
    modifies bytes
    ensures bytes[at..at + 2] == ToBe16(v)
    ensures bytes[..at] == old(bytes[..at]) && bytes[at + 2..] == old(bytes[at + 2..])
  {
    bytes[at] := v / 0x100;
    bytes[at + 1] := v % 0x100;
  }

  /** put_be32 */
  method PutBe32(bytes: array<byte>, at: nat, v: u32)
    requires at + 4 <= bytes.Length
    modifies bytes
    ensures bytes[at..at + 4] == ToBe32(v)
    ensures bytes[..at] == old(bytes[..at]) && bytes[at + 4..] == old(bytes[at + 4..])
  {
    ShiftsAreBytes(v);
    var image: seq<byte> := [v / 0x100_0000, v / 0x1_0000 % 0x100, v / 0x100 % 0x100, v % 0x100];
    bytes[at], bytes[at + 1], bytes[at + 2], bytes[at + 3] := image[0], image[1], image[2], image[3];
  }

  /** Shifting and masking a word gives its big-endian bytes. */
  lemma ShiftsAreBytes(v: u32)
    ensures v / 0x100_0000 < 0x100
    ensures ToBe32(v) == [v / 0x100_0000, v / 0x1_0000 % 0x100, v / 0x100 % 0x100, v % 0x100]
  {
    var q := v / 0x100;
    var h := q / 0x100;
    var a: int, b: int, c: int, d: int := h / 0x100, h % 0x100, q % 0x100, v % 0x100;
    assert v == a * 0x100_0000 + b * 0x1_0000 + c * 0x100 + d;
    assert v / 0x1_0000 == a * 0x100 + b && v % 0x1_0000 == c * 0x100 + d;
    assert v / 0x100_0000 == a && v / 0x100 % 0x100 == c;
  }

  /** The header fields of send_record. */
  method PutHeader(p: array<byte>, kind: byte, generation: u32, requestId: u32, bodyLength: u32)
    requires p.Length >= HEADER_LENGTH
    modifies p
    ensures p[..HEADER_LENGTH] ==
      MAGIC + [1, kind] + ToBe16(0) + ToBe32(generation) + ToBe32(requestId) + ToBe32(bodyLength)
  {
    p[0], p[1], p[2], p[3] := 85, 71, 83, 80;
    p[4] := 1;
    p[5] := kind;
    assert p[..6] == MAGIC + [1, kind];
    PutBe16(p, 6, 0);
    assert p[..8] == p[..6] + p[6..8];
    PutBe32(p, 8, generation);
    assert p[..12] == p[..8] + p[8..12];
    PutBe32(p, 12, requestId);
    assert p[..16] == p[..12] + p[12..16];
    PutBe32(p, 16, bodyLength);
    assert p[..20] == p[..16] + p[16..20];
  }

  /** send_record up to the `send`: the packet handed to the socket, or no packet
      when the body is too long and the process exits instead. */
  method SendRecord(kind: byte, generation: u32, requestId: u32, body: seq<byte>) returns (packet: Option<array<byte>>)
    ensures packet.Some? <==> |body| <= MAX_RECORD_LENGTH
    ensures packet.Some? ==> packet.value[..] == Frame(kind, 0, generation, requestId, body)
  {
    if |body| > MAX_RECORD_LENGTH {
      return None;
    }
    var p := new byte[HEADER_LENGTH + |body|](_ => 0);
    PutHeader(p, kind, generation, requestId, |body|);
    ghost var header := p[..HEADER_LENGTH];
    forall i | 0 <= i < |body| {
      p[HEADER_LENGTH + i] := body[i];
    }
    assert p[..HEADER_LENGTH] == header && p[HEADER_LENGTH..] == body;
    assert p[..] == header + body;
    return Some(p);
  }

  /** receive_record after recvmsg has filled `packet` with `length` bytes. */
  method ReceiveRecord(packet: array<byte>, length: nat, truncated: bool, fds: seq<Fd>) returns (r: Received)
    requires length <= packet.Length
    ensures r == Decode(Datagram(packet[..length], truncated, fds))
  {
    ghost var p := packet[..length];
    if length == 0 {
      return PeerClosed;
    }
    if truncated || length < HEADER_LENGTH {
      return Refused(BadHeader);
    }
    if packet[0] != 85 || packet[1] != 71 || packet[2] != 83 || packet[3] != 80 || packet[4] != 1 {
      assert p[..4] == MAGIC ==> p[0] == 85 && p[1] == 71 && p[2] == 83 && p[3] == 80;
      return Refused(BadHeader);
    }
    assert p[..4] == MAGIC;
    var bodyLength := Be32(packet[16..20]);
    var declared := Be16(packet[6..8]);
    assert p[16..20] == packet[16..20] && p[6..8] == packet[6..8];
    if bodyLength > MAX_RECORD_LENGTH || length != HEADER_LENGTH + bodyLength || declared > MAX_TRANSFERRED_FDS {
      return Refused(BadLength);
    }
    if |fds| > MAX_TRANSFERRED_FDS {
      return Refused(TooManyDescriptors);
    }
    if |fds| != declared {
      return Refused(CountMismatch);
    }
    assert p[8..12] == packet[8..12] && p[12..16] == packet[12..16];
    return Got(Record(packet[5], Be32(packet[8..12]), Be32(packet[12..16]), packet[HEADER_LENGTH..length], fds));
  }
}
