/** MAVLink framing on the ground station: the resumable framer, the one-shot splitter and
    the injected RADIO_STATUS frame. */
module Mavlink {
  import opened Common

  const V1 := 0xFE
  const V2 := 0xFD
  const HEADER := 8
  const LONGEST := 280  // a signed version-2 frame with a full payload

  // ---- the specification: a scan from the left ---------------------------------------------

  datatype Piece = Frame(bytes: seq<Byte>) | Junk(byte: Byte)
  datatype Scanned = Scanned(pieces: seq<Piece>, rest: seq<Byte>)

  predicate Magic(b: Byte) { b == V1 || b == V2 }

  // The length the header announces; bit 0 of the version-2 flags adds a signature.
  function Announced(s: seq<Byte>): nat
    requires |s| >= HEADER && Magic(s[0])
  {
    if s[0] == V1 then 8 + s[1] as int else s[1] as int + if s[2] % 2 == 1 then 25 else 12
  }

  predicate WellFormed(f: seq<Byte>) {
    |f| >= HEADER && Magic(f[0]) && |f| == Announced(f)
  }

  /** Header, payload and checksum: 6 + n + 2 bytes in version 1; 10 + n + 2 in version 2, and 13
      more when bit 0 of the flags says it is signed. */
  lemma FrameLayout(f: seq<Byte>)
    ensures WellFormed(f) <==>
      && |f| >= 8
      && (|| (f[0] == 0xFE && |f| == 6 + f[1] as int + 2)
          || (f[0] == 0xFD && |f| == 10 + f[1] as int + 2 + if f[2] % 2 == 1 then 13 else 0))
  {
  }

  function Scan(s: seq<Byte>): Scanned {
    if |s| < HEADER then Scanned([], s)
    else if !Magic(s[0]) then
      var r := Scan(s[1..]);
      Scanned([Junk(s[0])] + r.pieces, r.rest)
    else if |s| < Announced(s) then Scanned([], s)
    else
      var r := Scan(s[Announced(s)..]);
      Scanned([Frame(s[..Announced(s)])] + r.pieces, r.rest)
  }

  function BytesOf(ps: seq<Piece>): seq<Byte> {
    if ps == [] then [] else (if ps[0].Frame? then ps[0].bytes else [ps[0].byte]) + BytesOf(ps[1..])
  }

  function FramesOf(ps: seq<Piece>): seq<seq<Byte>> {
    if ps == [] then [] else (if ps[0].Frame? then [ps[0].bytes] else []) + FramesOf(ps[1..])
  }

  // ---- every byte is accounted for ---------------------------------------------------------------

  predicate Genuine(p: Piece) { if p.Frame? then WellFormed(p.bytes) else !Magic(p.byte) }

  predicate AllGenuine(ps: seq<Piece>) { forall i :: 0 <= i < |ps| ==> Genuine(ps[i]) }

  lemma PiecesCons(p: Piece, ps: seq<Piece>)
    ensures BytesOf([p] + ps) == (if p.Frame? then p.bytes else [p.byte]) + BytesOf(ps)
    ensures FramesOf([p] + ps) == (if p.Frame? then [p.bytes] else []) + FramesOf(ps)
    ensures AllGenuine([p] + ps) <==> Genuine(p) && AllGenuine(ps)
  {
  }

  /** Framed, skipped or retained: nothing is lost or invented, what is retained is under
      280 bytes, and what is framed is well formed. */
  lemma {:induction false} ScanAccounts(s: seq<Byte>)
    ensures BytesOf(Scan(s).pieces) + Scan(s).rest == s
    ensures |Scan(s).rest| < LONGEST && AllGenuine(Scan(s).pieces)
    decreases |s|
  {
    hide Scan, AllGenuine, BytesOf;
    if |s| >= HEADER && !Magic(s[0]) {
      ScanAccounts(s[1..]);
      ScanJunk(s);
      PiecesCons(Junk(s[0]), Scan(s[1..]).pieces);
    } else if |s| >= HEADER && |s| >= Announced(s) {
      var n := Announced(s);
      ScanAccounts(s[n..]);
      ScanFrame(s);
      PiecesCons(Frame(s[..n]), Scan(s[n..]).pieces);
    } else {
      ScanWaits(s);
    }
  }

  // ---- chunking does not matter --------------------------------------------------------------------

  /** Feeding a and then b finds what feeding a + b finds. */
  lemma {:induction false} ScanResumes(a: seq<Byte>, b: seq<Byte>)
    ensures Scan(a + b) == Resumed(Scan(a), b)
    decreases |a|
  {
    hide Scan;
    if |a| >= HEADER && !Magic(a[0]) {
      ScanResumes(a[1..], b);
      assert (a + b)[1..] == a[1..] + b;
      ScanJunk(a);
      ScanJunk(a + b);
    } else if |a| >= HEADER && |a| >= Announced(a) {
      var n := Announced(a);
      ScanResumes(a[n..], b);
      assert (a + b)[n..] == a[n..] + b && (a + b)[..n] == a[..n];
      ScanFrame(a);
      ScanFrame(a + b);
    } else {
      ScanWaits(a);
    }
  }

  function Resumed(first: Scanned, b: seq<Byte>): Scanned {
    var second := Scan(first.rest + b);
    Scanned(first.pieces + second.pieces, second.rest)
  }

  lemma ScanWaits(s: seq<Byte>)
    requires |s| < HEADER || (Magic(s[0]) && |s| < Announced(s))
    ensures Scan(s) == Scanned([], s)
    ensures BytesOf([]) == [] && FramesOf([]) == [] && AllGenuine([])
  {
  }

  lemma ScanJunk(s: seq<Byte>)
    requires |s| >= HEADER && !Magic(s[0])
    ensures Scan(s) == Scanned([Junk(s[0])] + Scan(s[1..]).pieces, Scan(s[1..]).rest)
    ensures FramesOf(Scan(s).pieces) == FramesOf(Scan(s[1..]).pieces)
  {
  }

  lemma ScanFrame(s: seq<Byte>)
    requires |s| >= HEADER && Magic(s[0]) && |s| >= Announced(s)
    ensures var n := Announced(s);
      && Scan(s) == Scanned([Frame(s[..n])] + Scan(s[n..]).pieces, Scan(s[n..]).rest)
      && FramesOf(Scan(s).pieces) == [s[..n]] + FramesOf(Scan(s[n..]).pieces)
  {
  }

  lemma RestSettled(s: seq<Byte>)
    ensures Scan(Scan(s).rest) == Scanned([], Scan(s).rest)
  {
  }

  lemma Regroup<T>(a: seq<T>, b: seq<T>, c: seq<T>)
    ensures a + (b + c) == (a + b) + c
  {
  }

  lemma {:induction false} FramesConcat(p: seq<Piece>, q: seq<Piece>)
    ensures FramesOf(p + q) == FramesOf(p) + FramesOf(q)
  {
    if p == [] {
      assert p + q == q;
    } else {
      hide FramesOf, BytesOf, AllGenuine;
      FramesConcat(p[1..], q);
      PiecesCons(p[0], p[1..]);
      PiecesCons(p[0], p[1..] + q);
      assert p == [p[0]] + p[1..] && p + q == [p[0]] + (p[1..] + q);
      Regroup(if p[0].Frame? then [p[0].bytes] else [], FramesOf(p[1..]), FramesOf(q));
    }
  }

  function Joined(chunks: seq<seq<Byte>>): seq<Byte> {
    if chunks == [] then [] else Joined(chunks[..|chunks| - 1]) + chunks[|chunks| - 1]
  }

  datatype Fed = Fed(frames: seq<seq<Byte>>, held: seq<Byte>)

  // One call of the parser's Send, and a run of them.
  function Feed(before: Fed, chunk: seq<Byte>): Fed {
    var r := Scan(before.held + chunk);
    Fed(before.frames + FramesOf(r.pieces), r.rest)
  }

  function FeedAll(chunks: seq<seq<Byte>>): Fed {
    if chunks == [] then Fed([], []) else Feed(FeedAll(chunks[..|chunks| - 1]), chunks[|chunks| - 1])
  }

  function Whole(s: seq<Byte>): Fed { Fed(FramesOf(Scan(s).pieces), Scan(s).rest) }

  /** However the stream is cut into chunks, the parser finds what one scan of the whole
      stream finds. */
  lemma {:induction false} ChunksIrrelevant(chunks: seq<seq<Byte>>)
    ensures FeedAll(chunks) == Whole(Joined(chunks))
  {
    hide Scan, FramesOf;
    if chunks == [] {
      ScanWaits([]);
    } else {
      var front, last := chunks[..|chunks| - 1], chunks[|chunks| - 1];
      ChunksIrrelevant(front);
      ScanResumes(Joined(front), last);
      FramesConcat(Scan(Joined(front)).pieces, Scan(Scan(Joined(front)).rest + last).pieces);
    }
  }

  // ---- whole frames come out whole --------------------------------------------------------------------

  function Flat(fs: seq<seq<Byte>>): seq<Byte> { if fs == [] then [] else fs[0] + Flat(fs[1..]) }

  predicate AllWellFormed(fs: seq<seq<Byte>>) { forall i :: 0 <= i < |fs| ==> WellFormed(fs[i]) }

  lemma {:induction false} FlatSplits(fs: seq<seq<Byte>>)
    requires AllWellFormed(fs)
    ensures FramesOf(Scan(Flat(fs)).pieces) == fs && Scan(Flat(fs)).rest == []
  {
    if fs != [] {
      var f, s := fs[0], Flat(fs);
      FlatSplits(fs[1..]);
      assert s[..|f|] == f && s[|f|..] == Flat(fs[1..]);
      assert Announced(s) == Announced(f);
      ScanFrame(s);
    }
  }

  /** Whole frames after any run of bytes that are not start markers come out exactly. */
  lemma {:induction false} Resynchronises(noise: seq<Byte>, fs: seq<seq<Byte>>)
    requires AllWellFormed(fs) && fs != [] && forall i :: 0 <= i < |noise| ==> !Magic(noise[i])
    ensures FramesOf(Scan(noise + Flat(fs)).pieces) == fs && Scan(noise + Flat(fs)).rest == []
  {
    if noise == [] {
      assert noise + Flat(fs) == Flat(fs);
      FlatSplits(fs);
    } else {
      var s := noise + Flat(fs);
      Resynchronises(noise[1..], fs);
      assert s[1..] == noise[1..] + Flat(fs);
      assert |Flat(fs)| >= |fs[0]|;
      ScanJunk(s);
    }
  }

  // ---- the parser ----------------------------------------------------------------------------------------

  class Parser {
    const threshold: nat
    var buffer: seq<Byte>
    var skip: nat

    ghost predicate Valid() reads this {
      skip <= |buffer| && Scan(Held()) == Scanned([], Held())
    }

    ghost function Held(): seq<Byte> reads this requires skip <= |buffer| { buffer[skip..] }

    constructor (threshold: nat)
      ensures Valid() && Held() == [] && this.threshold == threshold
    {
      this.threshold := threshold;
      buffer, skip := [], 0;
    }

    method Send(data: seq<Byte>) returns (frames: seq<seq<Byte>>)
      requires Valid()
      modifies this
      ensures Valid()
      ensures frames == FramesOf(Scan(old(Held()) + data).pieces) && Held() == Scan(old(Held()) + data).rest
    {
      frames := [];
      if data != [] {
        frames := Drain(data);
      } else {
        assert Held() + data == Held();
      }
      if skip > threshold {
        buffer, skip := buffer[skip..], 0;
      }
    }

    // Extends the buffer and takes frames until the next one is incomplete.
    method Drain(data: seq<Byte>) returns (frames: seq<seq<Byte>>)
      requires skip <= |buffer|
      modifies this
      ensures Valid()
      ensures frames == FramesOf(Scan(old(Held()) + data).pieces) && Held() == Scan(old(Held()) + data).rest
    {
      hide Scan, FramesOf;
      ghost var whole := Held() + data;
      buffer, frames := buffer + data, [];
      assert Held() == whole;
      RestSettled(whole);
      while |buffer| - skip >= HEADER
        invariant skip <= |buffer|
        invariant frames + FramesOf(Scan(Held()).pieces) == FramesOf(Scan(whole).pieces)
        invariant Scan(Held()).rest == Scan(whole).rest
        decreases |buffer| - skip
      {
        ghost var held := Held();
        var n: nat;
        if buffer[skip] == V1 {
          n := 8 + buffer[skip + 1] as int;
        } else if buffer[skip] == V2 {
          n := buffer[skip + 1] as int + if buffer[skip + 2] % 2 == 1 then 25 else 12;
        } else {
          Cut(buffer, skip, 1);
          skip := skip + 1;
          ScanJunk(held);
          continue;
        }
        assert n == Announced(held);
        if |buffer| - skip < n {
          ScanWaits(held);
          break;
        }
        Cut(buffer, skip, n);
        ScanFrame(held);
        Regroup(frames, [held[..n]], FramesOf(Scan(held[n..]).pieces));
        frames := frames + [buffer[skip..skip + n]];
        skip := skip + n;
      }
      ScanWaits(Held());
    }
  }

  /** A batch of whole frames is split into exactly those frames. */
  method SplitFrames(data: seq<Byte>) returns (frames: seq<seq<Byte>>)
    ensures frames == FramesOf(Scan(data).pieces)
    ensures forall fs :: AllWellFormed(fs) && data == Flat(fs) ==> frames == fs
  {
    var parser := new Parser(4096);
    frames := parser.Send(data);
    assert [] + data == data;
    forall fs | AllWellFormed(fs) && data == Flat(fs) ensures frames == fs {
      FlatSplits(fs);
    }
  }

  // ---- RADIO_STATUS ---------------------------------------------------------------------------------------

  const RADIO_STATUS_ID: Byte := 109
  const CRC_EXTRA: Byte := 185

  // The byte is folded into the low half first.
  function Fold(crc: bv16, b: bv8): bv16 { crc ^ (b as bv16) }

  function X25Step(x: bv16): bv16 {
    var low := x & 0xFF;
    var tmp := (low ^ (low << 4)) & 0xFF;
    (x >> 8) ^ (tmp << 8) ^ (tmp << 3) ^ (tmp >> 4)
  }

  // One bit of the reflected CCITT polynomial.
  function BitStep(x: bv16): bv16 {
    (x >> 1) ^ (if x & 1 == 1 then 0x8408 else 0)
  }

  function NibbleStep(x: bv16): bv16 {
    (x >> 4) ^ ((x & 0xF) << 12) ^ ((x & 0xF) << 7) ^ (x & 0xF)
  }

  // The same step without a test: the low bit, spread to the polynomial's three terms.
  function BitSpread(x: bv16): bv16 {
    (x >> 1) ^ ((x & 1) << 15) ^ ((x & 1) << 10) ^ ((x & 1) << 3)
  }

  lemma LowBit(x: bv16)
    ensures x & 1 == 0 || x & 1 == 1
  {
  }

  lemma BitSpreads(x: bv16)
    ensures BitStep(x) == BitSpread(x)
  {
    LowBit(x);
    var b := x & 1;
    if b == 1 {
      assert (b << 15) ^ (b << 10) ^ (b << 3) == 0x8408;
      SpreadOut(x >> 1, b << 15, b << 10, b << 3);
    } else {
      assert b << 15 == 0 && b << 10 == 0 && b << 3 == 0;
    }
  }

  lemma SpreadOut(a: bv16, b: bv16, c: bv16, d: bv16)
    ensures a ^ b ^ c ^ d == a ^ (b ^ c ^ d)
  {
  }

  lemma NibbleSpreads(x: bv16)
    ensures NibbleStep(x) == BitSpread(BitSpread(BitSpread(BitSpread(x))))
  {
  }

  lemma NibbleIsBitwise(x: bv16)
    ensures NibbleStep(x) == BitStep(BitStep(BitStep(BitStep(x))))
  {
    hide NibbleStep, BitStep, BitSpread;
    NibbleSpreads(x);
    BitSpreads(x);
    BitSpreads(BitStep(x));
    BitSpreads(BitStep(BitStep(x)));
    BitSpreads(BitStep(BitStep(BitStep(x))));
  }

  lemma ByteIsNibbles(x: bv16)
    ensures X25Step(x) == NibbleStep(NibbleStep(x))
  {
  }

  /** The byte-wise update is eight bit-wise divisions by the CCITT polynomial. */
  lemma X25IsBitwise(x: bv16)
    ensures X25Step(x) == BitStep(BitStep(BitStep(BitStep(BitStep(BitStep(BitStep(BitStep(x))))))))
  {
    hide X25Step, NibbleStep, BitStep;
    NibbleIsBitwise(x);
    NibbleIsBitwise(NibbleStep(x));
    ByteIsNibbles(x);
  }

  function X25(data: seq<Byte>): bv16 {
    if data == [] then 0xFFFF
    else X25Step(Fold(X25(data[..|data| - 1]), data[|data| - 1] as bv8))
  }

  lemma X25Grows(data: seq<Byte>, b: Byte, next: seq<Byte>, x: bv16, y: bv16)
    requires X25(data) == x && X25Step(Fold(x, b as bv8)) == y && next == data + [b]
    ensures X25(next) == y
  {
    hide X25Step, Fold;
    assert next[..|data|] == data;
  }

  lemma X25Three()
    ensures X25([0x31, 0x32, 0x33]) == 0x634B
  {
    assert X25Step(Fold(0xFFFF, 0x31)) == 0x2F8D;
    assert X25Step(Fold(0x2F8D, 0x32)) == 0x4D53;
    assert X25Step(Fold(0x4D53, 0x33)) == 0x634B;
    hide *;
    X25None();
    X25Grows([], 0x31, [0x31], 0xFFFF, 0x2F8D);
    X25Grows([0x31], 0x32, [0x31, 0x32], 0x2F8D, 0x4D53);
    X25Grows([0x31, 0x32], 0x33, [0x31, 0x32, 0x33], 0x4D53, 0x634B);
  }

  lemma X25Six()
    ensures X25([0x31, 0x32, 0x33, 0x34, 0x35, 0x36]) == 0x198D
  {
    assert X25Step(Fold(0x634B, 0x34)) == 0x8B13;
    assert X25Step(Fold(0x8B13, 0x35)) == 0x44BF;
    assert X25Step(Fold(0x44BF, 0x36)) == 0x198D;
    hide *;
    X25Three();
    X25Grows([0x31, 0x32, 0x33], 0x34, [0x31, 0x32, 0x33, 0x34], 0x634B, 0x8B13);
    X25Grows([0x31, 0x32, 0x33, 0x34], 0x35, [0x31, 0x32, 0x33, 0x34, 0x35], 0x8B13, 0x44BF);
    X25Grows([0x31, 0x32, 0x33, 0x34, 0x35], 0x36, [0x31, 0x32, 0x33, 0x34, 0x35, 0x36], 0x44BF, 0x198D);
  }

  /** The check value of CRC-16/MCRF4XX: the checksum of "123456789". */
  lemma X25Check()
    ensures X25([0x31, 0x32, 0x33, 0x34, 0x35, 0x36, 0x37, 0x38, 0x39]) == 0x6F91
  {
    assert X25Step(Fold(0x198D, 0x37)) == 0x1AC8;
    assert X25Step(Fold(0x1AC8, 0x38)) == 0xF795;
    assert X25Step(Fold(0xF795, 0x39)) == 0x6F91;
    hide *;
    X25Six();
    X25Grows([0x31, 0x32, 0x33, 0x34, 0x35, 0x36], 0x37, [0x31, 0x32, 0x33, 0x34, 0x35, 0x36, 0x37], 0x198D, 0x1AC8);
    X25Grows([0x31, 0x32, 0x33, 0x34, 0x35, 0x36, 0x37], 0x38, [0x31, 0x32, 0x33, 0x34, 0x35, 0x36, 0x37, 0x38], 0x1AC8, 0xF795);
    X25Grows([0x31, 0x32, 0x33, 0x34, 0x35, 0x36, 0x37, 0x38], 0x39, [0x31, 0x32, 0x33, 0x34, 0x35, 0x36, 0x37, 0x38, 0x39], 0xF795, 0x6F91);
  }

  lemma X25None()
    ensures X25([]) == 0xFFFF
  {
  }

  method X25Crc(data: seq<Byte>) returns (crc: bv16)
    ensures crc == X25(data)
  {
    hide X25Step;
    crc := 0xFFFF;
    for i := 0 to |data|
      invariant crc == X25(data[..i])
    {
      assert data[..i + 1][..i] == data[..i];
      crc := X25Step(Fold(crc, data[i] as bv8));
    }
    assert data[..|data|] == data;
  }

  function Pair(x: int): seq<Byte> { [x % 256, x / 256 % 256] }

  datatype Status = Status(rssi: int, remrssi: int, txbuf: int, noise: int, remnoise: int, rxErrors: int, corrected: int)

  function Payload(st: Status): seq<Byte> {
    Pair(st.rxErrors) + Pair(st.corrected)
    + [st.rssi % 256, st.remrssi % 256, st.txbuf % 256, st.noise % 256, st.remnoise % 256]
  }

  // The checksum covers everything after the start marker, and a byte that names the layout.
  predicate ChecksumHolds(f: seq<Byte>, extra: Byte)
    requires WellFormed(f) && f[0] == V1
  {
    f[|f| - 2..] == Pair(X25(f[1..|f| - 2] + [extra]) as int)
  }

  /** The injected frame is one whole well-formed frame that the splitter passes unchanged. */
  method PackRadioStatus(seqNo: int, sysId: Byte, compId: Byte, st: Status) returns (f: seq<Byte>)
    ensures WellFormed(f) && FramesOf(Scan(f).pieces) == [f] && Scan(f).rest == []
    ensures f[..6] == [V1, 9, seqNo % 256, sysId, compId, RADIO_STATUS_ID] && f[6..15] == Payload(st)
    ensures ChecksumHolds(f, CRC_EXTRA)
  {
    hide Scan, X25;
    var payload := Payload(st);
    var hdr: seq<Byte> := [V1, |payload|, seqNo % 256, sysId, compId, RADIO_STATUS_ID];
    var crc := X25Crc(hdr[1..] + payload + [CRC_EXTRA]);
    f := hdr + payload + Pair(crc as int);
    assert |f| == 17;
    assert f[1..15] == hdr[1..] + payload;
    assert f[1..15] + [CRC_EXTRA] == hdr[1..] + payload + [CRC_EXTRA];
    OneFrame(f);
  }

  lemma OneFrame(f: seq<Byte>)
    requires WellFormed(f)
    ensures FramesOf(Scan(f).pieces) == [f] && Scan(f).rest == []
  {
    var fs := [f];
    assert fs[1..] == [] && Flat([]) == [];
    assert Flat(fs) == f + Flat(fs[1..]) == f;
    FlatSplits(fs);
  }
}
