/** The 15-byte decision packet: drone/src/dynlink/wire.cpp and the ground
    station's encoder in gs/fpvdgs/dynlink/wire.py. */
module Wire {
  import opened Common
  import opened Crc

  const MAGIC := 0x444C4B31
  const VERSION := 3
  const PAYLOAD_SIZE := 11
  const ON_WIRE := 15
  const TWO32 := 0x1_0000_0000

  type U32 = v: int | 0 <= v < TWO32

  /** The drone's decision record.  The wire carries flags, sequence and mcs; the
      drone fills the rest.  A record whose magic is not MAGIC is a blank baseline. */
  datatype Decision = Decision(
    magic: U32, version: Byte, flags: Byte, sequence: U32, mcs: Byte,
    bandwidth: int, txPowerDbm: int, k: int, n: int, bitrateKbps: int, fps: int)

  const BLANK := Decision(0, 0, 0, 0, 0, 0, 0, 0, 0, 0, 0)

  datatype DecodeResult = Ok | Short | BadMagic | BadVersion | BadCrc

  // ---- big-endian words --------------------------------------------------------

  function PutBytes(v: nat, n: nat): (p: seq<Byte>)
    ensures |p| == n
    decreases n
  {
    if n == 0 then [] else PutBytes(v / 256, n - 1) + [v % 256]
  }

  function GetBytes(p: seq<Byte>): nat {
    if p == [] then 0 else 256 * GetBytes(p[..|p| - 1]) + p[|p| - 1] as int
  }

  // 256^n
  function Span(n: nat): nat {
    if n == 0 then 1 else 256 * Span(n - 1)
  }

  lemma {:induction false} GetPutBytes(v: nat, n: nat)
    requires v < Span(n)
    ensures GetBytes(PutBytes(v, n)) == v
    decreases n
  {
    if n > 0 {
      GetPutBytes(v / 256, n - 1);
      assert PutBytes(v, n)[..n - 1] == PutBytes(v / 256, n - 1);
    }
  }

  lemma {:induction false} PutGetBytes(p: seq<Byte>)
    ensures GetBytes(p) < Span(|p|)
    ensures PutBytes(GetBytes(p), |p|) == p
  {
    if p != [] {
      var m := |p| - 1;
      PutGetBytes(p[..m]);
      assert p == p[..m] + [p[m]];
    }
  }

  function PutU32(v: U32): (p: seq<Byte>)
    ensures |p| == 4
    ensures GetBytes(p) == v
  {
    GetPutBytes(v, 4);
    PutBytes(v, 4)
  }

  function GetU32(p: seq<Byte>): (v: U32)
    requires |p| == 4
    ensures PutU32(v) == p
  {
    PutGetBytes(p);
    GetBytes(p)
  }

  // ---- packets -------------------------------------------------------------------

  function Payload(flags: Byte, sequence: U32, mcs: Byte): (p: seq<Byte>)
    ensures |p| == PAYLOAD_SIZE
  {
    PutU32(MAGIC) + [VERSION, flags] + PutU32(sequence) + [mcs]
  }

  function CrcWord(payload: seq<Byte>): U32 {
    BitsOfValue(Checksum(payload));
    Pow2At32();
    Value(Checksum(payload))
  }

  lemma Pow2At32()
    ensures Pow2(32) == TWO32
  {
    assert Pow2(8) == 256;
    assert Pow2(16) == 0x1_0000;
    assert Pow2(24) == 0x100_0000;
  }

  function Packet(flags: Byte, sequence: U32, mcs: Byte): (p: seq<Byte>)
    ensures |p| == ON_WIRE
  {
    var payload := Payload(flags, sequence, mcs);
    payload + PutU32(CrcWord(payload))
  }

  lemma CrcWordValue(payload: seq<Byte>)
    ensures Value(Checksum(payload)) == CrcWord(payload)
  {
  }

  lemma PacketParts(flags: Byte, sequence: U32, mcs: Byte)
    ensures var p := Payload(flags, sequence, mcs); Packet(flags, sequence, mcs) == p + PutU32(CrcWord(p))
  {
  }

  // What decoding a datagram means, in the order the checks are made.
  function Verdict(buf: seq<Byte>): DecodeResult {
    if |buf| < ON_WIRE then Short
    else if GetU32(buf[0..4]) != MAGIC then BadMagic
    else if buf[4] != VERSION then BadVersion
    else if GetU32(buf[11..15]) != CrcWord(buf[..PAYLOAD_SIZE]) then BadCrc
    else Ok
  }

  function Decoded(buf: seq<Byte>): Decision
    requires |buf| >= ON_WIRE
  {
    BLANK.(magic := GetU32(buf[0..4]), version := buf[4], flags := buf[5],
           sequence := GetU32(buf[6..10]), mcs := buf[10])
  }

  predicate IsDecisionKind(buf: seq<Byte>) {
    |buf| >= 4 && GetU32(buf[0..4]) == MAGIC
  }

  method StoreU32(buf: array<Byte>, at: nat, v: U32)
    requires at + 4 <= buf.Length
    modifies buf
    ensures buf[..] == old(buf[..at]) + PutU32(v) + old(buf[at + 4..])
  {
    ghost var before := buf[..];
    var word := PutU32(v);
    buf[at], buf[at + 1], buf[at + 2], buf[at + 3] := word[0], word[1], word[2], word[3];
    assert buf[..] == before[..at] + word + before[at + 4..];
  }

  method StorePayload(d: Decision, buf: array<Byte>)
    requires buf.Length >= PAYLOAD_SIZE
    modifies buf
    ensures buf[..] == Payload(d.flags, d.sequence, d.mcs) + old(buf[PAYLOAD_SIZE..])
  {
    hide PutU32, GetBytes, PutBytes;
    ghost var tail := buf[PAYLOAD_SIZE..];
    StoreU32(buf, 0, MAGIC);
    assert buf[0..4] == PutU32(MAGIC);
    assert buf[PAYLOAD_SIZE..] == tail;
    buf[4] := VERSION;
    buf[5] := d.flags;
    ghost var head := buf[..6];
    assert buf[PAYLOAD_SIZE..] == tail;
    StoreU32(buf, 6, d.sequence);
    assert buf[..6] == head;
    assert buf[6..10] == PutU32(d.sequence);
    assert buf[PAYLOAD_SIZE..] == tail;
    buf[10] := d.mcs;
    assert buf[..6] == head;
    assert buf[0..4] == head[0..4];
    PayloadAt(buf[..], d);
    assert buf[PAYLOAD_SIZE..] == tail;
    assert buf[..] == buf[..PAYLOAD_SIZE] + buf[PAYLOAD_SIZE..];
  }

  lemma PayloadAt(b: seq<Byte>, d: Decision)
    requires |b| >= PAYLOAD_SIZE
    requires b[0..4] == PutU32(MAGIC) && b[4] == VERSION && b[5] == d.flags
    requires b[6..10] == PutU32(d.sequence) && b[10] == d.mcs
    ensures b[..PAYLOAD_SIZE] == Payload(d.flags, d.sequence, d.mcs)
  {
    assert b[..PAYLOAD_SIZE] == b[0..4] + [b[4], b[5]] + b[6..10] + [b[10]];
  }

  lemma Assembled(s0: seq<Byte>, p: seq<Byte>, w: seq<Byte>, s1: seq<Byte>, s2: seq<Byte>)
    requires |s0| >= ON_WIRE && |p| == PAYLOAD_SIZE && |w| == 4
    requires s1 == p + s0[PAYLOAD_SIZE..] && s2 == s1[..PAYLOAD_SIZE] + w + s1[ON_WIRE..]
    ensures s1[..PAYLOAD_SIZE] == p && s2[..ON_WIRE] == p + w && s2[ON_WIRE..] == s0[ON_WIRE..]
  {
  }

  /** Fills the caller's buffer in place; a buffer that is too small is left alone. */
  method EncodeDecision(d: Decision, buf: array<Byte>) returns (written: nat)
    modifies buf
    ensures written == if buf.Length < ON_WIRE then 0 else ON_WIRE
    ensures buf[..written] == if written == 0 then [] else Packet(d.flags, d.sequence, d.mcs)
    ensures buf[written..] == old(buf[..])[written..]
  {
    if buf.Length < ON_WIRE {
      return 0;
    }
    hide PutU32, GetBytes, PutBytes, Payload, Packet, CrcWord, Checksum, Value, IsRemainder, Dividend, MessageBits, Xor;
    ghost var s0 := buf[..];
    StorePayload(d, buf);
    ghost var s1 := buf[..];
    var payload := buf[..PAYLOAD_SIZE];
    var crc := Crc32(payload);
    CrcWordValue(payload);
    StoreU32(buf, PAYLOAD_SIZE, Value(crc));
    Assembled(s0, Payload(d.flags, d.sequence, d.mcs), PutU32(CrcWord(payload)), s1, buf[..]);
    PacketParts(d.flags, d.sequence, d.mcs);
    assert buf[..ON_WIRE] == buf[..][..ON_WIRE] && buf[ON_WIRE..] == buf[..][ON_WIRE..];
    written := ON_WIRE;
  }

  method DecodeDecision(buf: seq<Byte>) returns (r: DecodeResult, d: Decision)
    ensures r == Verdict(buf)
    ensures r.Ok? ==> |buf| >= ON_WIRE && d == Decoded(buf)
    ensures r.Ok? ==> buf[..ON_WIRE] == Packet(d.flags, d.sequence, d.mcs)
  {
    d := BLANK;
    if |buf| < ON_WIRE {
      return Short, d;
    }
    var magic := GetU32(buf[0..4]);
    if magic != MAGIC {
      return BadMagic, d;
    }
    var version := buf[4];
    if version != VERSION {
      return BadVersion, d;
    }
    var crcWire := GetU32(buf[11..15]);
    var crc := Crc32(buf[..PAYLOAD_SIZE]);
    if crcWire != Value(crc) {
      return BadCrc, d;
    }
    d := BLANK.(magic := magic, version := version, flags := buf[5],
                sequence := GetU32(buf[6..10]), mcs := buf[10]);
    OnlyPacketsDecode(buf);
    r := Ok;
  }

  /** The packet, byte by byte: magic, version, flags, sequence, rung and checksum, the words
      high byte first. */
  lemma PacketLayout(flags: Byte, sequence: U32, mcs: Byte)
    ensures var p := Packet(flags, sequence, mcs);
      && p[..6] == [0x44, 0x4C, 0x4B, 0x31, 3, flags] && p[10] == mcs
      && WordAt(p, 6) == sequence && WordAt(p, 11) == Value(Checksum(p[..11]))
  {
    hide CrcWord, Checksum, PutU32, GetBytes, Payload, Packet;
    var payload := Payload(flags, sequence, mcs);
    var m, q, c := PutU32(MAGIC), PutU32(sequence), PutU32(CrcWord(payload));
    PacketParts(flags, sequence, mcs);
    PayloadParts(flags, sequence, mcs);
    CrcWordValue(payload);
    WordBytes(m);
    WordBytes(q);
    WordBytes(c);
    Digits(m[0], m[1], m[2], m[3]);
    Laid(m, flags, q, mcs, c);
  }

  lemma PayloadParts(flags: Byte, sequence: U32, mcs: Byte)
    ensures Payload(flags, sequence, mcs) == PutU32(MAGIC) + [VERSION, flags] + PutU32(sequence) + [mcs]
  {
  }

  // Where the parts of a packet lie.
  lemma Laid(m: seq<Byte>, flags: Byte, q: seq<Byte>, mcs: Byte, c: seq<Byte>)
    requires |m| == |q| == |c| == 4
    ensures var payload := m + [VERSION, flags] + q + [mcs];
      var p := payload + c;
      && p[..6] == [m[0], m[1], m[2], m[3], VERSION, flags] && p[10] == mcs && p[..11] == payload
      && WordAt(p, 6) == WordAt(q, 0) && WordAt(p, 11) == WordAt(c, 0)
  {
  }

  // A big-endian word.
  function WordAt(p: seq<Byte>, at: nat): int
    requires at + 4 <= |p|
  {
    0x100_0000 * p[at] as int + 0x1_0000 * p[at + 1] as int + 0x100 * p[at + 2] as int + p[at + 3] as int
  }

  lemma WordBytes(w: seq<Byte>)
    requires |w| == 4
    ensures GetBytes(w) == WordAt(w, 0)
  {
    assert w[..3][..2] == w[..2] && w[..2][..1] == w[..1] && w[..1][..0] == [];
    assert GetBytes(w[..1]) == w[0] as int;
    assert GetBytes(w[..2]) == 256 * w[0] as int + w[1] as int;
    assert GetBytes(w[..3]) == 0x1_0000 * w[0] as int + 256 * w[1] as int + w[2] as int;
  }

  lemma Digits(a: Byte, b: Byte, c: Byte, d: Byte)
    requires 0x100_0000 * a as int + 0x1_0000 * b as int + 0x100 * c as int + d as int == 0x444C4B31
    ensures a == 0x44 && b == 0x4C && c == 0x4B && d == 0x31
  {
  }

  /** The verdicts, on the bytes: short, then magic, then version, then checksum. */
  lemma VerdictExactly(buf: seq<Byte>)
    ensures Verdict(buf) ==
      if |buf| < 15 then Short
      else if WordAt(buf, 0) != 0x444C4B31 then BadMagic
      else if buf[4] != 3 then BadVersion
      else if WordAt(buf, 11) != Value(Checksum(buf[..11])) then BadCrc
      else Ok
    ensures |buf| >= 15 ==> var d := Decoded(buf);
      d.magic == WordAt(buf, 0) && d.version == buf[4] && d.flags == buf[5] && d.sequence == WordAt(buf, 6) && d.mcs == buf[10]
  {
    hide CrcWord, Checksum, GetBytes;
    if |buf| >= 15 {
      CrcWordValue(buf[..11]);
      WordBytes(buf[0..4]);
      WordBytes(buf[6..10]);
      WordBytes(buf[11..15]);
    }
  }

  /** Every packet decodes, whatever follows it in the datagram. */
  lemma RoundTrip(flags: Byte, sequence: U32, mcs: Byte, rest: seq<Byte>)
    ensures var buf := Packet(flags, sequence, mcs) + rest;
      && Verdict(buf) == Ok
      && Decoded(buf) == BLANK.(magic := MAGIC, version := VERSION, flags := flags, sequence := sequence, mcs := mcs)
  {
    hide PutBytes, GetBytes, Checksum, Value, Register, CrcWord;
    var payload := Payload(flags, sequence, mcs);
    var buf := Packet(flags, sequence, mcs) + rest;
    assert buf[..PAYLOAD_SIZE] == payload;
    assert buf[0..4] == PutU32(MAGIC);
    assert buf[6..10] == PutU32(sequence);
    assert buf[11..15] == PutU32(CrcWord(payload));
  }

  lemma PacketFields(buf: seq<Byte>)
    requires |buf| >= ON_WIRE
    ensures buf[..PAYLOAD_SIZE] == buf[0..4] + [buf[4], buf[5]] + buf[6..10] + [buf[10]]
    ensures buf[..ON_WIRE] == buf[..PAYLOAD_SIZE] + buf[11..15]
  {
  }

  /** And nothing else does: an accepted datagram starts with the packet of the
      decision it decodes to. */
  lemma OnlyPacketsDecode(buf: seq<Byte>)
    requires Verdict(buf) == Ok
    ensures var d := Decoded(buf); buf[..ON_WIRE] == Packet(d.flags, d.sequence, d.mcs)
  {
    PacketFields(buf);
  }

  // ---- corruption --------------------------------------------------------------------

  lemma {:induction false} MessageBitsConcat(a: seq<Byte>, b: seq<Byte>)
    ensures MessageBits(a + b) == MessageBits(a) + MessageBits(b)
  {
    if b == [] {
      assert a + b == a;
    } else {
      var m := |b| - 1;
      MessageBitsConcat(a, b[..m]);
      assert (a + b)[..|a| + m] == a + b[..m];
    }
  }

  lemma {:induction false} MessageBitsInjective(a: seq<Byte>, b: seq<Byte>)
    requires |a| == |b| && MessageBits(a) == MessageBits(b)
    ensures a == b
  {
    if a != [] {
      var m := |a| - 1;
      var sa, sb := MessageBits(a), MessageBits(b);
      assert sa[..8 * m] == MessageBits(a[..m]) && sb[..8 * m] == MessageBits(b[..m]);
      assert sa[8 * m..] == BitsOf(a[m], 8) && sb[8 * m..] == BitsOf(b[m], 8);
      MessageBitsInjective(a[..m], b[..m]);
      ByteBitsInjective(a[m], b[m]);
      assert a == a[..m] + [a[m]] && b == b[..m] + [b[m]];
    }
  }

  lemma CrcDiffers(a: seq<Byte>, b: seq<Byte>)
    requires Register(Ones(), a) != Register(Ones(), b)
    ensures CrcWord(a) != CrcWord(b)
  {
    if CrcWord(a) == CrcWord(b) {
      BitsOfValue(Checksum(a));
      BitsOfValue(Checksum(b));
      XorCancelOnes(Register(Ones(), a), Register(Ones(), b));
    }
  }

  lemma XorCancelOnes(a: Word, b: Word)
    requires Xor(a, Ones()) == Xor(b, Ones())
    ensures a == b
  {
  }

  lemma ForeignCrcRejected(payload: seq<Byte>, crc: U32, rest: seq<Byte>)
    requires |payload| == PAYLOAD_SIZE && crc != CrcWord(payload)
    ensures Verdict(payload + PutU32(crc) + rest) != Ok
  {
    hide PutBytes, GetBytes, Checksum, Value, Register, CrcWord;
    var buf := payload + PutU32(crc) + rest;
    assert buf[..PAYLOAD_SIZE] == payload;
    assert buf[11..15] == PutU32(crc);
  }

  /** A burst of at most 32 bits in the payload of a packet, at any alignment,
      never decodes. */
  lemma BurstRejected(flags: Byte, sequence: U32, mcs: Byte, corrupted: seq<Byte>, rest: seq<Byte>,
                      pre: Bits, x: Bits, y: Bits, post: Bits)
    requires |corrupted| == PAYLOAD_SIZE
    requires MessageBits(Payload(flags, sequence, mcs)) == pre + x + post
    requires MessageBits(corrupted) == pre + y + post
    requires |x| == |y| <= 32 && x != y
    ensures Verdict(corrupted + Packet(flags, sequence, mcs)[PAYLOAD_SIZE..] + rest) != Ok
  {
    var payload := Payload(flags, sequence, mcs);
    BurstDetected(pre, x, y, post);
    RegisterIsFeed(Ones(), payload);
    RegisterIsFeed(Ones(), corrupted);
    CrcDiffers(payload, corrupted);
    ForeignCrcRejected(corrupted, CrcWord(payload), rest);
    assert Packet(flags, sequence, mcs)[PAYLOAD_SIZE..] == PutU32(CrcWord(payload));
  }

  /** Changing any bytes inside a window of four consecutive payload bytes never
      decodes. */
  lemma WindowRejected(flags: Byte, sequence: U32, mcs: Byte, corrupted: seq<Byte>, rest: seq<Byte>, at: nat)
    requires at + 4 <= PAYLOAD_SIZE && |corrupted| == PAYLOAD_SIZE
    requires var p := Payload(flags, sequence, mcs);
      corrupted != p && corrupted[..at] == p[..at] && corrupted[at + 4..] == p[at + 4..]
    ensures Verdict(corrupted + Packet(flags, sequence, mcs)[PAYLOAD_SIZE..] + rest) != Ok
  {
    hide *;
    var p := Payload(flags, sequence, mcs);
    var x, y := MessageBits(p[at..at + 4]), MessageBits(corrupted[at..at + 4]);
    var pre, post := MessageBits(p[..at]), MessageBits(p[at + 4..]);
    assert p == p[..at] + p[at..at + 4] + p[at + 4..];
    assert corrupted == p[..at] + corrupted[at..at + 4] + p[at + 4..];
    MessageBitsConcat(p[..at] + p[at..at + 4], p[at + 4..]);
    MessageBitsConcat(p[..at], p[at..at + 4]);
    MessageBitsConcat(p[..at] + corrupted[at..at + 4], p[at + 4..]);
    MessageBitsConcat(p[..at], corrupted[at..at + 4]);
    if x == y {
      MessageBitsInjective(p[at..at + 4], corrupted[at..at + 4]);
    }
    BurstRejected(flags, sequence, mcs, corrupted, rest, pre, x, y, post);
  }

  // ---- the ground station's encoder -----------------------------------------------------

  /** Serialises decisions under a 32-bit counter that wraps. */
  class Encoder {
    var seqno: U32

    constructor (start: U32)
      ensures seqno == start
    {
      seqno := start;
    }

    // An explicit number is used as it is and leaves the counter alone.
    method Encode(mcs: Byte, explicit: Option<U32>) returns (packet: seq<Byte>)
      modifies this
      ensures packet == Packet(0, if explicit.Some? then explicit.value else old(seqno), mcs)
      ensures seqno == if explicit.Some? then old(seqno) else (old(seqno) + 1) % TWO32
    {
      var sequence := seqno;
      if explicit.Some? {
        sequence := explicit.value;
      } else {
        seqno := (seqno + 1) % TWO32;
      }
      hide *;
      var payload := Payload(0, sequence, mcs);
      var crc := Crc32(payload);
      CrcWordValue(payload);
      packet := payload + PutU32(Value(crc));
      PacketParts(0, sequence, mcs);
    }
  }
}
