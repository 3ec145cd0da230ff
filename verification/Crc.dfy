/** CRC-32 of the decision packet: the masked bit-serial register of
    drone/src/dynlink/wire.cpp, and its meaning as division of the message
    polynomial over GF(2) by the generator of clause 3.2.9 of IEEE 802.3.

    A machine word is modelled by its bits, least significant first.  Read as a
    polynomial, bit i of the reflected register is the coefficient of x^(31-i),
    so the same sequence is also "coefficients, highest power first". */
module Crc {
  import opened Common

  type Bits = seq<bool>
  type Word = w: Bits | |w| == 32 witness Zeros(32)

  // ---- bits ----------------------------------------------------------------

  function Zeros(n: nat): (z: Bits)
    ensures |z| == n && forall i :: 0 <= i < n ==> !z[i]
  {
    seq(n, _ => false)
  }

  // Exclusive or; also addition of polynomials over GF(2).
  function Xor(a: Bits, b: Bits): (c: Bits)
    requires |a| == |b|
    ensures |c| == |a| && forall i :: 0 <= i < |a| ==> c[i] == (a[i] != b[i])
  {
    seq(|a|, i requires 0 <= i < |a| => a[i] != b[i])
  }

  // And with a word that is all c: the bits of p, or zeros.
  function Mask(c: bool, p: Bits): (r: Bits)
    ensures |r| == |p| && forall i :: 0 <= i < |p| ==> r[i] == (c && p[i])
  {
    if c then p else Zeros(|p|)
  }

  // The n low bits of a number.
  function BitsOf(v: nat, n: nat): (s: Bits)
    ensures |s| == n
  {
    if n == 0 then [] else [v % 2 == 1] + BitsOf(v / 2, n - 1)
  }

  function Value(s: Bits): nat {
    if s == [] then 0 else (if s[0] then 1 else 0) + 2 * Value(s[1..])
  }

  function Pow2(n: nat): (p: nat)
    ensures p >= 1
  {
    if n == 0 then 1 else 2 * Pow2(n - 1)
  }

  lemma {:induction false} ValueOfBits(v: nat, n: nat)
    requires v < Pow2(n)
    ensures Value(BitsOf(v, n)) == v
  {
    if n > 0 {
      ValueOfBits(v / 2, n - 1);
      assert BitsOf(v, n)[1..] == BitsOf(v / 2, n - 1);
    }
  }

  lemma {:induction false} BitsOfValue(s: Bits)
    ensures Value(s) < Pow2(|s|)
    ensures BitsOf(Value(s), |s|) == s
  {
    if s != [] {
      BitsOfValue(s[1..]);
      assert s == [s[0]] + s[1..];
    }
  }

  lemma ByteBitsInjective(a: Byte, b: Byte)
    requires BitsOf(a, 8) == BitsOf(b, 8)
    ensures a == b
  {
    assert Pow2(8) == 256;
    ValueOfBits(a, 8);
    ValueOfBits(b, 8);
  }

  // ---- the register, as the source computes it -------------------------------

  // 0xEDB88320: hexadecimal digits 0, 2, 3, 8, 8, B, D, E from the low end.
  function Poly(): Word {
    [false, false, false, false] + [false, true, false, false] +
    [true, true, false, false] + [false, false, false, true] +
    [false, false, false, true] + [true, true, false, true] +
    [true, false, true, true] + [false, true, true, true]
  }

  // 0xFFFFFFFF
  function Ones(): (w: Word)
    ensures forall i :: 0 <= i < 32 ==> w[i]
  {
    seq(32, _ => true)
  }

  function ShiftRight(w: Word): Word {
    w[1..] + [false]
  }

  // One round of the inner loop: multiply by x and reduce.
  function Round(r: Word): Word {
    Xor(ShiftRight(r), Mask(r[0], Poly()))
  }

  function Rounds(r: Word, n: nat): Word
    decreases n
  {
    if n == 0 then r else Rounds(Round(r), n - 1)
  }

  function Absorb(r: Word, b: Byte): Word {
    Rounds(Xor(r, BitsOf(b, 32)), 8)
  }

  function Register(r: Word, buf: seq<Byte>): Word {
    if buf == [] then r else Absorb(Register(r, buf[..|buf| - 1]), buf[|buf| - 1])
  }

  function Checksum(buf: seq<Byte>): Word {
    Xor(Register(Ones(), buf), Ones())
  }

  lemma {:induction false} RoundsSnoc(r: Word, n: nat)
    ensures Rounds(r, n + 1) == Round(Rounds(r, n))
    decreases n
  {
    if n > 0 {
      RoundsSnoc(Round(r), n - 1);
    }
  }

  /** The table-free loop of the source.  The mask is all ones exactly when the
      low bit is set, so the round needs no branch. */
  method Crc32(buf: seq<Byte>) returns (crc: Word)
    ensures crc == Checksum(buf)
    ensures IsRemainder(Dividend(MessageBits(buf)), Xor(crc, Ones()))
  {
    crc := Ones();
    for i := 0 to |buf|
      invariant crc == Register(Ones(), buf[..i])
    {
      assert buf[..i + 1][..i] == buf[..i];
      crc := Xor(crc, BitsOf(buf[i], 32));
      ghost var entry := crc;
      for b := 0 to 8
        invariant crc == Rounds(entry, b)
      {
        var mask := crc[0];
        crc := Xor(ShiftRight(crc), Mask(mask, Poly()));
        RoundsSnoc(entry, b);
      }
    }
    assert buf[..|buf|] == buf;
    crc := Xor(crc, Ones());
    ChecksumIsDivision(buf);
  }

  // ---- polynomials ------------------------------------------------------------

  // The message in transmission order: each byte, least significant bit first.
  function MessageBits(buf: seq<Byte>): (s: Bits)
    ensures |s| == 8 * |buf|
  {
    if buf == [] then [] else MessageBits(buf[..|buf| - 1]) + BitsOf(buf[|buf| - 1], 8)
  }

  // x^32 + x^26 + x^23 + x^22 + x^16 + x^12 + x^11 + x^10 + x^8 + x^7 + x^5 + x^4 + x^2 + x + 1
  function Generator(): (g: Bits)
    ensures |g| == 33 && g[0]
  {
    seq(33, i => 32 - i in {32, 26, 23, 22, 16, 12, 11, 10, 8, 7, 5, 4, 2, 1, 0})
  }

  // The product q(x) * Generator(x), by Horner's rule.
  function TimesGenerator(q: Bits): (p: Bits)
    ensures |p| == |q| + 32
  {
    if q == [] then Zeros(32)
    else
      Xor(TimesGenerator(q[..|q| - 1]) + [false], Zeros(|q| - 1) + Mask(q[|q| - 1], Generator()))
  }

  // The message times x^32, its first 32 coefficients complemented.
  function Dividend(bits: Bits): (d: Bits)
    ensures |d| == |bits| + 32
  {
    Xor(bits + Zeros(32), Ones() + Zeros(|bits|))
  }

  // d = q * Generator + r for some q, with r of degree below 32.
  ghost predicate IsRemainder(d: Bits, r: Bits) {
    |r| == 32 && |d| >= 32 &&
    exists q: Bits :: |q| == |d| - 32 && IsQuotient(d, q, r)
  }

  ghost predicate IsQuotient(d: Bits, q: Bits, r: Bits)
    requires |r| == 32 && |d| == |q| + 32
  {
    d == Xor(TimesGenerator(q), Zeros(|q|) + r)
  }

  lemma PolyIsGenerator()
    ensures Generator() == [true] + Poly()
  {
  }

  // ---- one bit at a time -------------------------------------------------------

  function BitWord(b: bool): Word {
    [b] + Zeros(31)
  }

  // Feed message bits to the register one by one.
  function Feed(r: Word, bits: Bits): Word
    decreases |bits|
  {
    if bits == [] then r else Feed(Round(Xor(r, BitWord(bits[0]))), bits[1..])
  }

  lemma {:induction false} FeedConcat(r: Word, a: Bits, b: Bits)
    ensures Feed(r, a + b) == Feed(Feed(r, a), b)
    decreases |a|
  {
    hide Round, Xor, BitWord;
    if a == [] {
      assert a + b == b;
    } else {
      FeedConcat(Round(Xor(r, BitWord(a[0]))), a[1..], b);
      assert (a + b)[1..] == a[1..] + b;
    }
  }

  lemma {:induction false} BitsOfLonger(v: nat, n: nat, extra: nat)
    requires v < Pow2(n)
    ensures BitsOf(v, n + extra) == BitsOf(v, n) + Zeros(extra)
  {
    if n > 0 {
      BitsOfLonger(v / 2, n - 1, extra);
    } else if extra > 0 {
      BitsOfLonger(v / 2, 0, extra - 1);
      assert [false] + Zeros(extra - 1) == Zeros(extra);
    }
  }

  // A round commutes with adding bits that have not reached the low end yet.
  lemma RoundAdd(r: Word, y: Bits)
    requires |y| <= 31
    ensures Round(Xor(r, [false] + y + Zeros(31 - |y|))) == Xor(Round(r), y + Zeros(32 - |y|))
  {
  }

  /** Adding up to 32 message bits at once and shifting them out afterwards is
      feeding them one at a time. */
  lemma {:induction false} FeedIsRounds(r: Word, y: Bits)
    requires |y| <= 32
    ensures Feed(r, y) == Rounds(Xor(r, y + Zeros(32 - |y|)), |y|)
    decreases |y|
  {
    if y == [] {
      assert Xor(r, y + Zeros(32)) == r;
    } else {
      var r0 := Xor(r, BitWord(y[0]));
      var t := y[1..];
      FeedIsRounds(Round(r0), t);
      RoundAdd(r0, t);
      assert Xor(r0, [false] + t + Zeros(31 - |t|)) == Xor(r, y + Zeros(32 - |y|));
    }
  }

  lemma AbsorbIsFeed(r: Word, b: Byte)
    ensures Absorb(r, b) == Feed(r, BitsOf(b, 8))
  {
    assert Pow2(8) == 256;
    BitsOfLonger(b, 8, 24);
    FeedIsRounds(r, BitsOf(b, 8));
  }

  lemma {:induction false} RegisterIsFeed(r: Word, buf: seq<Byte>)
    ensures Register(r, buf) == Feed(r, MessageBits(buf))
  {
    if buf != [] {
      var m := |buf| - 1;
      RegisterIsFeed(r, buf[..m]);
      AbsorbIsFeed(Register(r, buf[..m]), buf[m]);
      FeedConcat(r, MessageBits(buf[..m]), BitsOf(buf[m], 8));
    }
  }

  // ---- the register is the remainder ---------------------------------------------

  lemma DividendSnoc(bits: Bits, b: bool)
    ensures Dividend(bits + [b]) == Xor(Dividend(bits) + [false], Zeros(|bits|) + BitWord(b) + [false])
  {
  }

  // Schoolbook step: bring down a bit; subtract the generator if the top is one.
  lemma DivisionStep(x: Word)
    ensures x + [false] == Xor(Mask(x[0], Generator()), [false] + Round(x))
  {
    PolyIsGenerator();
    var a := x + [false];
    var b := Xor(Mask(x[0], Generator()), [false] + Round(x));
    assert forall i :: 1 <= i < 33 ==> Generator()[i] == Poly()[i - 1];
    assert forall i :: 0 <= i < 33 ==> a[i] == b[i];
  }

  lemma TimesSnoc(q: Bits, c: bool)
    ensures TimesGenerator(q + [c]) == Xor(TimesGenerator(q) + [false], Zeros(|q|) + Mask(c, Generator()))
  {
  }

  // Division so far: the quotient bits are the bits that left the register.
  lemma {:induction false} DivisionInvariant(bits: Bits) returns (q: Bits)
    ensures |q| == |bits|
    ensures IsQuotient(Dividend(bits), q, Feed(Ones(), bits))
  {
    if bits == [] {
      q := [];
      assert Dividend([]) == Xor(Zeros(32), Zeros(0) + Ones());
    } else {
      var m := |bits| - 1;
      var q0 := DivisionInvariant(bits[..m]);
      q := DivisionExtends(bits[..m], bits[m], q0);
      assert bits == bits[..m] + [bits[m]];
    }
  }

  lemma DivisionExtends(front: Bits, b: bool, q0: Bits) returns (q: Bits)
    requires |q0| == |front| && IsQuotient(Dividend(front), q0, Feed(Ones(), front))
    ensures |q| == |front| + 1 && IsQuotient(Dividend(front + [b]), q, Feed(Ones(), front + [b]))
  {
    hide Round, Poly, Dividend, Feed, Generator, TimesGenerator, Mask;
    var r0 := Feed(Ones(), front);
    var x := Xor(r0, BitWord(b));
    FeedSnoc(Ones(), front, b);
    q := q0 + [x[0]];
    DividendSnoc(front, b);
    TimesSnoc(q0, x[0]);
    DivisionStep(x);
    QuotientStep(TimesGenerator(q0), r0, b, Mask(x[0], Generator()), Round(x));
  }

  lemma FeedSnoc(r: Word, front: Bits, b: bool)
    ensures Feed(r, front + [b]) == Round(Xor(Feed(r, front), BitWord(b)))
  {
    hide Round, Xor, BitWord;
    FeedConcat(r, front, [b]);
    assert [b][1..] == [];
  }

  // The bookkeeping of one step, coefficient by coefficient.
  lemma QuotientStep(p: Bits, r0: Word, b: bool, g: Bits, r1: Word)
    requires |p| >= 32 && |g| == 33
    requires Xor(r0, BitWord(b)) + [false] == Xor(g, [false] + r1)
    ensures var m := |p| - 32;
      Xor(Xor(p, Zeros(m) + r0) + [false], Zeros(m) + BitWord(b) + [false])
        == Xor(Xor(p + [false], Zeros(m) + g), Zeros(m + 1) + r1)
  {
  }

  /** The transmitted checksum is the complement of the remainder of the
      complemented, shifted message. */
  lemma ChecksumIsDivision(buf: seq<Byte>)
    ensures IsRemainder(Dividend(MessageBits(buf)), Xor(Checksum(buf), Ones()))
  {
    RegisterIsFeed(Ones(), buf);
    var q := DivisionInvariant(MessageBits(buf));
    assert Xor(Checksum(buf), Ones()) == Register(Ones(), buf);
  }

  // ---- the remainder is unique -----------------------------------------------------

  lemma {:induction false} TimesAdds(q: Bits, p: Bits)
    requires |q| == |p|
    ensures TimesGenerator(Xor(q, p)) == Xor(TimesGenerator(q), TimesGenerator(p))
  {
    if q == [] {
      assert Xor(q, p) == [];
      assert Xor(Zeros(32), Zeros(32)) == Zeros(32);
    } else {
      var m := |q| - 1;
      TimesAdds(q[..m], p[..m]);
      assert Xor(q, p)[..m] == Xor(q[..m], p[..m]);
      hide TimesGenerator, Generator;
      TimesStep(q);
      TimesStep(p);
      TimesStep(Xor(q, p));
      TermsAdd(TimesGenerator(q[..m]), TimesGenerator(p[..m]), q[m], p[m], Generator());
    }
  }

  lemma TimesStep(q: Bits)
    requires q != []
    ensures var m := |q| - 1;
      TimesGenerator(q) == Xor(TimesGenerator(q[..m]) + [false], Zeros(m) + Mask(q[m], Generator()))
  {
  }

  lemma TermsAdd(a: Bits, b: Bits, c: bool, d: bool, g: Bits)
    requires |a| == |b| >= 32 && |g| == 33
    ensures var z := Zeros(|a| - 32);
      Xor(Xor(a, b) + [false], z + Mask(c != d, g)) == Xor(Xor(a + [false], z + Mask(c, g)), Xor(b + [false], z + Mask(d, g)))
  {
  }

  // A product whose high part vanishes has a zero quotient.
  lemma {:induction false} TimesHighPart(q: Bits)
    requires forall i :: 0 <= i < |q| ==> !TimesGenerator(q)[i]
    ensures q == Zeros(|q|)
  {
    if q != [] {
      var m := |q| - 1;
      assert forall i :: 0 <= i < m ==> !TimesGenerator(q[..m])[i] by {
        forall i | 0 <= i < m ensures !TimesGenerator(q[..m])[i] { assert !TimesGenerator(q)[i]; }
      }
      TimesHighPart(q[..m]);
      assert !TimesGenerator(q)[m];
      TimesZero(m);
      assert q == q[..m] + [q[m]];
    }
  }

  lemma {:induction false} TimesZero(n: nat)
    ensures TimesGenerator(Zeros(n)) == Zeros(n + 32)
  {
    if n > 0 {
      TimesZero(n - 1);
      assert Zeros(n)[..n - 1] == Zeros(n - 1);
    }
  }

  /** There is only one remainder, so IsRemainder determines the checksum. */
  lemma RemainderUnique(d: Bits, r: Bits, s: Bits)
    requires IsRemainder(d, r) && IsRemainder(d, s)
    ensures r == s
  {
    hide TimesGenerator;
    var q :| |q| == |d| - 32 && IsQuotient(d, q, r);
    var p :| |p| == |d| - 32 && IsQuotient(d, p, s);
    TimesAdds(q, p);
    var t := Xor(q, p);
    forall i | 0 <= i < |t| ensures !TimesGenerator(t)[i] {
      assert d[i] == TimesGenerator(q)[i] == TimesGenerator(p)[i];
    }
    TimesHighPart(t);
    assert q == p by {
      assert forall i :: 0 <= i < |q| ==> !t[i];
    }
    forall i | 0 <= i < 32 ensures r[i] == s[i] {
      assert d[|q| + i] == (TimesGenerator(q)[|q| + i] != r[i]);
      assert d[|q| + i] == (TimesGenerator(q)[|q| + i] != s[i]);
    }
  }

  // ---- what a burst does to the register --------------------------------------------

  // The generator has a constant term, so a round loses nothing.
  lemma RoundInjective(a: Word, b: Word)
    requires Round(a) == Round(b)
    ensures a == b
  {
    assert Round(a)[31] == a[0] && Round(b)[31] == b[0];
    forall i | 0 <= i < 32 ensures a[i] == b[i] {
      if i > 0 {
        assert Round(a)[i - 1] == (a[i] != (a[0] && Poly()[i - 1]));
        assert Round(b)[i - 1] == (b[i] != (b[0] && Poly()[i - 1]));
      }
    }
  }

  lemma {:induction false} RoundsInjective(a: Word, b: Word, n: nat)
    requires Rounds(a, n) == Rounds(b, n)
    ensures a == b
    decreases n
  {
    if n > 0 {
      RoundsInjective(Round(a), Round(b), n - 1);
      RoundInjective(a, b);
    }
  }

  lemma XorCancel(r: Bits, a: Bits, b: Bits)
    requires |r| == |a| == |b| && Xor(r, a) == Xor(r, b)
    ensures a == b
  {
  }

  // Same bits fed to different registers leave them different.
  lemma {:induction false} FeedInjective(r: Word, s: Word, bits: Bits)
    requires Feed(r, bits) == Feed(s, bits)
    ensures r == s
    decreases |bits|
  {
    if bits != [] {
      var w := BitWord(bits[0]);
      FeedInjective(Round(Xor(r, w)), Round(Xor(s, w)), bits[1..]);
      RoundInjective(Xor(r, w), Xor(s, w));
      assert Xor(w, r) == Xor(r, w) && Xor(w, s) == Xor(s, w);
      XorCancel(w, r, s);
    }
  }

  // Different bit strings of at most 32 bits drive one register apart.
  lemma BurstInjective(r: Word, x: Bits, y: Bits)
    requires |x| == |y| <= 32
    requires Feed(r, x) == Feed(r, y)
    ensures x == y
  {
    FeedIsRounds(r, x);
    FeedIsRounds(r, y);
    var z := Zeros(32 - |x|);
    RoundsInjective(Xor(r, x + z), Xor(r, y + z), |x|);
    XorCancel(r, x + z, y + z);
    assert x == (x + z)[..|x|] && y == (y + z)[..|x|];
  }

  /** A burst of at most 32 bits, anywhere in a message of any length and at any
      alignment, changes the register. */
  lemma BurstDetected(pre: Bits, x: Bits, y: Bits, post: Bits)
    requires |x| == |y| <= 32 && x != y
    ensures Feed(Ones(), pre + x + post) != Feed(Ones(), pre + y + post)
  {
    var r := Feed(Ones(), pre);
    FeedConcat(Ones(), pre + x, post);
    FeedConcat(Ones(), pre, x);
    FeedConcat(Ones(), pre + y, post);
    FeedConcat(Ones(), pre, y);
    if Feed(Ones(), pre + x + post) == Feed(Ones(), pre + y + post) {
      FeedInjective(Feed(r, x), Feed(r, y), post);
      BurstInjective(r, x, y);
    }
  }
}
