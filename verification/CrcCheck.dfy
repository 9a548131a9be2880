/** Which checksums these are: the generators that the standards print, and the published checksums of
    "123456789". The register is worked out on machine words. */
module CrcCheck {
  import opened KeyOrder
  import opened Crc
  import opened CrcCombine

  // Machine words

  lemma HalfXor(a: bv64, b: bv64)
    ensures Half(a ^ b) == Half(a) ^ Half(b)
  {
  }

  lemma LowXor(a: bv64, b: bv64)
    ensures (a ^ b) & 1 == 1 <==> (a & 1 == 1) != (b & 1 == 1)
  {
  }

  lemma {:induction false} XorBit(a: bv64, b: bv64, c: bv64, i: nat)
    requires c == a ^ b
    ensures BitAt(c, i) == (BitAt(a, i) != BitAt(b, i))
    decreases i
  {
    if i == 0 {
      LowXor(a, b);
    } else {
      HalfXor(a, b);
      XorBit(Half(a), Half(b), Half(c), i - 1);
    }
  }

  lemma XorIs(a: Word, b: Word, c: Word)
    requires |a| == |b| == |c| && forall i :: 0 <= i < |a| ==> c[i] == (a[i] != b[i])
    ensures Xor(a, b) == c
  {
  }

  lemma XorWord(a: bv64, b: bv64, c: bv64, w: nat)
    requires c == a ^ b
    ensures Xor(WordOf(a, w), WordOf(b, w)) == WordOf(c, w)
  {
    forall i | 0 <= i < w ensures BitAt(c, i) == (BitAt(a, i) != BitAt(b, i)) { XorBit(a, b, c, i); }
    XorIs(WordOf(a, w), WordOf(b, w), WordOf(c, w));
  }

  /** What is left of a word after so many shifts. */
  function Drained(v: bv64, n: nat): bv64 { if n == 0 then v else Drained(Half(v), n - 1) }

  lemma {:induction false} ZeroBit(v: bv64, most: bv64, i: nat)
    requires v <= most && Drained(most, i) == 0
    ensures !BitAt(v, i)
    decreases i
  {
    if i > 0 { ZeroBit(Half(v), Half(most), i - 1); }
  }

  /** The greatest word of `w` bits. */
  predicate Greatest(most: bv64, w: nat) { most & (most + 1) == 0 && Drained(most, w) == 0 }

  lemma DrainsBit(v: bv64, rest: bv64, n: nat)
    requires rest == Half(v) && Drained(rest, n) == 0
    ensures Drained(v, n + 1) == 0
  {
  }

  lemma ByteDrains(v: bv64, rest: bv64, n: nat)
    requires rest == v >> 8 && Drained(rest, n) == 0
    ensures Drained(v, 8 + n) == 0
  {
    DrainsBit(v >> 7, rest, n);
    DrainsBit(v >> 6, v >> 7, n + 1);
    DrainsBit(v >> 5, v >> 6, n + 2);
    DrainsBit(v >> 4, v >> 5, n + 3);
    DrainsBit(v >> 3, v >> 4, n + 4);
    DrainsBit(v >> 2, v >> 3, n + 5);
    DrainsBit(v >> 1, v >> 2, n + 6);
    DrainsBit(v, v >> 1, n + 7);
  }

  lemma Widths()
    ensures Greatest(0xffff_ffff, 32) && Greatest(0xffff_ffff_ffff_ffff, 64)
  {
    assert Drained(0, 0) == 0;
    ByteDrains(0xff, 0, 0);
    ByteDrains(0xffff, 0xff, 8);
    ByteDrains(0xff_ffff, 0xffff, 16);
    ByteDrains(0xffff_ffff, 0xff_ffff, 24);
    ByteDrains(0xff_ffff_ffff, 0xffff_ffff, 32);
    ByteDrains(0xffff_ffff_ffff, 0xff_ffff_ffff, 40);
    ByteDrains(0xff_ffff_ffff_ffff, 0xffff_ffff_ffff, 48);
    ByteDrains(0xffff_ffff_ffff_ffff, 0xff_ffff_ffff_ffff, 56);
  }

  // The register

  function Stepped(p: bv64, v: bv64): bv64 { if v & 1 == 1 then Half(v) ^ p else Half(v) }

  lemma StepFits(p: bv64, v: bv64, most: bv64)
    requires v <= most && p <= most && most & (most + 1) == 0
    ensures Stepped(p, v) <= most
  {
  }

  lemma UpperBits(v: bv64, h: bv64, i: nat)
    requires h == Half(v)
    ensures BitAt(v, i + 1) == BitAt(h, i) && BitAt(v, 0) == (v & 1 == 1)
  {
  }

  lemma StepBit(p: bv64, v: bv64, h: bv64, s: bv64, i: nat)
    requires h == Half(v) && s == Stepped(p, v)
    ensures BitAt(s, i) == (BitAt(v, i + 1) != (BitAt(v, 0) && BitAt(p, i)))
  {
    UpperBits(v, h, i);
    if v & 1 == 1 { XorBit(h, p, s, i); }
  }

  lemma StepIs(p: Word, r: Word, s: Word)
    requires |p| == |r| == |s| > 0
    requires forall i :: 0 <= i < |s| ==> s[i] == ((i + 1 < |r| && r[i + 1]) != (r[0] && p[i]))
    ensures Step(p, r) == s
  {
  }

  lemma StepWordBit(p: bv64, v: bv64, s: bv64, w: nat, i: nat)
    requires i < w && !BitAt(v, w) && s == Stepped(p, v)
    ensures BitAt(s, i) == ((i + 1 < w && BitAt(v, i + 1)) != (BitAt(v, 0) && BitAt(p, i)))
  {
    StepBit(p, v, Half(v), s, i);
  }

  lemma StepWord(p: bv64, v: bv64, s: bv64, most: bv64, w: nat)
    requires w > 0 && v <= most && Drained(most, w) == 0 && s == Stepped(p, v)
    ensures Step(WordOf(p, w), WordOf(v, w)) == WordOf(s, w)
  {
    ZeroBit(v, most, w);
    forall i | 0 <= i < w
      ensures BitAt(s, i) == ((i + 1 < w && BitAt(v, i + 1)) != (BitAt(v, 0) && BitAt(p, i)))
    {
      StepWordBit(p, v, s, w, i);
    }
    StepIs(WordOf(p, w), WordOf(v, w), WordOf(s, w));
  }

  function Steps(p: bv64, v: bv64, n: nat): bv64
    decreases n
  {
    if n == 0 then v else Steps(p, Stepped(p, v), n - 1)
  }

  lemma {:induction false} ZerosWord(p: bv64, v: bv64, most: bv64, w: nat, n: nat)
    requires w > 0 && v <= most && p <= most && Greatest(most, w)
    ensures Zeros(WordOf(p, w), WordOf(v, w), n) == WordOf(Steps(p, v, n), w)
    decreases n
  {
    if n > 0 {
      StepWord(p, v, Stepped(p, v), most, w);
      StepFits(p, v, most);
      ZerosWord(p, Stepped(p, v), most, w, n - 1);
    }
  }

  // Numbers and machine words

  predicate Same(n: nat, v: bv64, w: nat) { Bits(n, w) == WordOf(v, w) }

  lemma SameBit(n: nat, v: bv64, m: nat, h: bv64, w: nat)
    requires Same(m, h, w) && m == n / 2 && h == Half(v) && (n % 2 == 1 <==> v & 1 == 1)
    ensures Same(n, v, w + 1)
  {
    var a, b := Bits(n, w + 1), WordOf(v, w + 1);
    assert a == [n % 2 == 1] + Bits(m, w);
    forall i | 0 <= i < w ensures b[i + 1] == WordOf(h, w)[i] { UpperBits(v, h, i); }
  }

  predicate Agree(n: nat, v: bv64) { n % 2 == 1 <==> v & 1 == 1 }

  predicate NibblesAgree(n: nat, v: bv64) {
    Agree(n, v) && Agree(n / 2, v >> 1) && Agree(n / 4, v >> 2) && Agree(n / 8, v >> 3)
  }

  lemma SameNibble(n: nat, v: bv64, m: nat, h: bv64, w: nat)
    requires Same(m, h, w) && n / 16 == m && v >> 4 == h && NibblesAgree(n, v)
    ensures Same(n, v, w + 4)
  {
    SameBit(n / 8, v >> 3, m, h, w);
    SameBit(n / 4, v >> 2, n / 8, v >> 3, w + 1);
    SameBit(n / 2, v >> 1, n / 4, v >> 2, w + 2);
    SameBit(n, v, n / 2, v >> 1, w + 3);
  }

  lemma {:induction false} SameZero(w: nat)
    ensures Same(0, 0, w)
  {
    if w > 0 {
      SameZero(w - 1);
      SameBit(0, 0, 0, 0, w - 1);
    }
  }

  // The bytes of "123456789"

  const DIGITS: seq<byte> := [0x31, 0x32, 0x33, 0x34, 0x35, 0x36, 0x37, 0x38, 0x39]
  const DIGIT_WORDS: seq<bv64> := [0x31, 0x32, 0x33, 0x34, 0x35, 0x36, 0x37, 0x38, 0x39]

  lemma DigitSame(n: nat, v: bv64, w: nat)
    requires NibblesAgree(n, v) && n / 16 == 3 && v >> 4 == 3
    ensures Same(n, v, w + 8)
  {
    SameZero(w);
    SameNibble(3, 3, 0, 0, w);
    SameNibble(n, v, 3, 3, w + 4);
  }

  lemma DigitsSame(i: nat, w: nat)
    requires i < 9 && w >= 8
    ensures Same(DIGITS[i] as int, DIGIT_WORDS[i], w)
  {
    match i
    case 0 => DigitSame(0x31, 0x31, w - 8);
    case 1 => DigitSame(0x32, 0x32, w - 8);
    case 2 => DigitSame(0x33, 0x33, w - 8);
    case 3 => DigitSame(0x34, 0x34, w - 8);
    case 4 => DigitSame(0x35, 0x35, w - 8);
    case 5 => DigitSame(0x36, 0x36, w - 8);
    case 6 => DigitSame(0x37, 0x37, w - 8);
    case 7 => DigitSame(0x38, 0x38, w - 8);
    case 8 => DigitSame(0x39, 0x39, w - 8);
  }

  lemma FeedNext(poly: Word, r: Word, i: nat, bits: nat)
    requires |poly| == |r| > 0 && i < 9
    ensures Feed(poly, r, DIGITS[i..], bits)
            == Feed(poly, Zeros(poly, Xor(r, Bits(DIGITS[i] as int, |r|)), bits), DIGITS[i + 1..], bits)
  {
    assert DIGITS[i..][1..] == DIGITS[i + 1..] && DIGITS[i..][0] == DIGITS[i];
  }

  /** One of the digits through the register. */
  lemma FeedDigit(p: bv64, v: bv64, next: bv64, most: bv64, w: nat, i: nat, bits: nat)
    requires i < 9 && w >= 8 && Greatest(most, w) && p <= most && v ^ DIGIT_WORDS[i] <= most
    requires next == Steps(p, v ^ DIGIT_WORDS[i], bits)
    ensures Feed(WordOf(p, w), WordOf(v, w), DIGITS[i..], bits)
            == Feed(WordOf(p, w), WordOf(next, w), DIGITS[i + 1..], bits)
  {
    var fed := v ^ DIGIT_WORDS[i];
    FeedNext(WordOf(p, w), WordOf(v, w), i, bits);
    DigitsSame(i, w);
    XorWord(v, DIGIT_WORDS[i], fed, w);
    ZerosWord(p, fed, most, w, bits);
  }

  lemma FeedEnds(poly: Word, r: Word, bits: nat)
    requires |poly| == |r| > 0
    ensures DIGITS[0..] == DIGITS && Feed(poly, r, DIGITS[9..], bits) == r
  {
  }

  lemma OnesBit(v: bv64, h: bv64, w: nat)
    requires Ones(w) == WordOf(h, w) && h == Half(v) && v & 1 == 1
    ensures Ones(w + 1) == WordOf(v, w + 1)
  {
    var a, b := Ones(w + 1), WordOf(v, w + 1);
    forall j | 0 < j <= w ensures b[j] == a[j] {
      UpperBits(v, h, j - 1);
      assert WordOf(h, w)[j - 1] == Ones(w)[j - 1];
    }
  }

  lemma OnesByte(v: bv64, h: bv64, w: nat)
    requires Ones(w) == WordOf(h, w) && h == v >> 8 && v & 0xff == 0xff
    ensures Ones(w + 8) == WordOf(v, w + 8)
  {
    OnesBit(v >> 7, h, w);
    OnesBit(v >> 6, v >> 7, w + 1);
    OnesBit(v >> 5, v >> 6, w + 2);
    OnesBit(v >> 4, v >> 5, w + 3);
    OnesBit(v >> 3, v >> 4, w + 4);
    OnesBit(v >> 2, v >> 3, w + 5);
    OnesBit(v >> 1, v >> 2, w + 6);
    OnesBit(v, v >> 1, w + 7);
  }

  lemma AllOnes()
    ensures Ones(32) == WordOf(0xffff_ffff, 32) && Ones(64) == WordOf(0xffff_ffff_ffff_ffff, 64)
  {
    assert Ones(0) == WordOf(0, 0);
    OnesByte(0xff, 0, 0);
    OnesByte(0xffff, 0xff, 8);
    OnesByte(0xff_ffff, 0xffff, 16);
    OnesByte(0xffff_ffff, 0xff_ffff, 24);
    OnesByte(0xff_ffff_ffff, 0xffff_ffff, 32);
    OnesByte(0xffff_ffff_ffff, 0xff_ffff_ffff, 40);
    OnesByte(0xff_ffff_ffff_ffff, 0xffff_ffff_ffff, 48);
    OnesByte(0xffff_ffff_ffff_ffff, 0xff_ffff_ffff_ffff, 56);
  }

  lemma ChecksumIs(poly: Word, p: bv64, most: bv64, end: bv64, w: nat)
    requires w > 0 && poly == WordOf(p, w) && Ones(w) == WordOf(most, w)
    requires Feed(poly, WordOf(most, w), DIGITS, BITS_PER_BYTE) == WordOf(end, w)
    ensures Checksum(poly, DIGITS) == WordOf(end ^ most, w)
  {
    XorWord(end, most, end ^ most, w);
  }

  // The generators

  lemma ByteBits(v: bv64)
    ensures BitAt(v, 0) == (v & 0x01 != 0) && BitAt(v, 1) == (v & 0x02 != 0)
    ensures BitAt(v, 2) == (v & 0x04 != 0) && BitAt(v, 3) == (v & 0x08 != 0)
    ensures BitAt(v, 4) == (v & 0x10 != 0) && BitAt(v, 5) == (v & 0x20 != 0)
    ensures BitAt(v, 6) == (v & 0x40 != 0) && BitAt(v, 7) == (v & 0x80 != 0)
  {
  }

  lemma NextNibble(v: bv64, h: bv64, i: nat)
    requires h == v >> 4
    ensures BitAt(v, i + 4) == BitAt(h, i)
  {
    UpperBits(v, v >> 1, i + 3);
    UpperBits(v >> 1, v >> 2, i + 2);
    UpperBits(v >> 2, v >> 3, i + 1);
    UpperBits(v >> 3, h, i);
  }

  lemma NextByte(v: bv64, h: bv64, i: nat)
    requires h == v >> 8
    ensures BitAt(v, i + 8) == BitAt(h, i)
  {
    NextNibble(v, v >> 4, i + 4);
    NextNibble(v >> 4, h, i);
  }

  datatype Generator = Crc32C | Crc32 | Crc64Nvme

  /** The powers of the generators below the leading one, as their standards print them. */
  predicate HasPower(g: Generator, e: int) {
    match g
    case Crc32C =>
      || e == 28 || e == 27 || e == 26 || e == 25 || e == 23 || e == 22 || e == 20 || e == 19 || e == 18
      || e == 14 || e == 13 || e == 11 || e == 10 || e == 9 || e == 8 || e == 6 || e == 0
    case Crc32 =>
      || e == 26 || e == 23 || e == 22 || e == 16 || e == 12 || e == 11 || e == 10 || e == 8 || e == 7
      || e == 5 || e == 4 || e == 2 || e == 1 || e == 0
    case Crc64Nvme =>
      || e == 63 || e == 61 || e == 59 || e == 58 || e == 56 || e == 55 || e == 52 || e == 49 || e == 48
      || e == 47 || e == 46 || e == 44 || e == 41 || e == 37 || e == 36 || e == 34 || e == 32 || e == 31
      || e == 28 || e == 26 || e == 23 || e == 22 || e == 19 || e == 16 || e == 13 || e == 12 || e == 10
      || e == 9 || e == 6 || e == 4 || e == 3 || e == 0
  }

  /** The bits of a byte say which of the exponents from `at` on, in steps of `step`, are there. */
  predicate ByteSays(v: bv64, has: int -> bool, at: int, step: int) {
    && ((v & 0x01 != 0) == has(at)) && ((v & 0x02 != 0) == has(at + step))
    && ((v & 0x04 != 0) == has(at + 2 * step)) && ((v & 0x08 != 0) == has(at + 3 * step))
    && ((v & 0x10 != 0) == has(at + 4 * step)) && ((v & 0x20 != 0) == has(at + 5 * step))
    && ((v & 0x40 != 0) == has(at + 6 * step)) && ((v & 0x80 != 0) == has(at + 7 * step))
  }

  predicate BytesSay(v: bv64, n: nat, has: int -> bool, at: int, step: int)
    decreases n
  {
    n == 0 || (ByteSays(v, has, at, step) && BytesSay(v >> 8, n - 1, has, at + 8 * step, step))
  }

  lemma {:induction false} BitSays(v: bv64, n: nat, has: int -> bool, at: int, step: int, i: nat)
    requires BytesSay(v, n, has, at, step) && i < 8 * n
    ensures BitAt(v, i) <==> has(at + i * step)
    decreases n
  {
    if i < 8 {
      ByteBits(v);
      match i { case 0 => case 1 => case 2 => case 3 => case 4 => case 5 => case 6 => case _ => }
    } else {
      NextByte(v, v >> 8, i - 8);
      BitSays(v >> 8, n - 1, has, at + 8 * step, step, i - 8);
      assert at + 8 * step + (i - 8) * step == at + i * step;
    }
  }

  lemma CastagnoliBytes(n: nat)
    requires n == 4
    ensures BytesSay(0x82f63b78, n, e => HasPower(Crc32C, e), 31, -1)
  {
    assert BytesSay(0x82f63b78, 4, e => HasPower(Crc32C, e), 31, -1);
  }

  lemma IeeeBytes(n: nat)
    requires n == 4
    ensures BytesSay(0xedb88320, n, e => HasPower(Crc32, e), 31, -1)
  {
    assert BytesSay(0xedb88320, 4, e => HasPower(Crc32, e), 31, -1);
  }

  lemma NvmeBytes2(n: nat)
    requires n == 2
    ensures BytesSay(0xad93, n, e => HasPower(Crc64Nvme, e), 48, 1)
  {
    assert BytesSay(0xad, n - 1, e => HasPower(Crc64Nvme, e), 56, 1);
  }

  lemma NvmeBytes4(n: nat)
    requires n == 4
    ensures BytesSay(0xad93d235, n, e => HasPower(Crc64Nvme, e), 32, 1)
  {
    NvmeBytes2(n - 2);
    assert BytesSay(0xad93d2, n - 1, e => HasPower(Crc64Nvme, e), 40, 1);
  }

  lemma NvmeBytes6(n: nat)
    requires n == 6
    ensures BytesSay(0xad93d23594c9, n, e => HasPower(Crc64Nvme, e), 16, 1)
  {
    NvmeBytes4(n - 2);
    assert BytesSay(0xad93d23594, n - 1, e => HasPower(Crc64Nvme, e), 24, 1);
  }

  lemma NvmeBytes(n: nat)
    requires n == 8
    ensures BytesSay(0xad93d23594c93659, n, e => HasPower(Crc64Nvme, e), 0, 1)
  {
    NvmeBytes6(n - 2);
    assert BytesSay(0xad93d23594c936, n - 1, e => HasPower(Crc64Nvme, e), 8, 1);
  }

  lemma NvmeReflectedBytes2(n: nat)
    requires n == 2
    ensures BytesSay(0x9a6c, n, e => HasPower(Crc64Nvme, e), 15, -1)
  {
    assert BytesSay(0x9a, n - 1, e => HasPower(Crc64Nvme, e), 7, -1);
  }

  lemma NvmeReflectedBytes4(n: nat)
    requires n == 4
    ensures BytesSay(0x9a6c9329, n, e => HasPower(Crc64Nvme, e), 31, -1)
  {
    NvmeReflectedBytes2(n - 2);
    assert BytesSay(0x9a6c93, n - 1, e => HasPower(Crc64Nvme, e), 23, -1);
  }

  lemma NvmeReflectedBytes6(n: nat)
    requires n == 6
    ensures BytesSay(0x9a6c9329ac4b, n, e => HasPower(Crc64Nvme, e), 47, -1)
  {
    NvmeReflectedBytes4(n - 2);
    assert BytesSay(0x9a6c9329ac, n - 1, e => HasPower(Crc64Nvme, e), 39, -1);
  }

  lemma NvmeReflectedBytes(n: nat)
    requires n == 8
    ensures BytesSay(0x9a6c9329ac4bc9b5, n, e => HasPower(Crc64Nvme, e), 63, -1)
  {
    NvmeReflectedBytes6(n - 2);
    assert BytesSay(0x9a6c9329ac4bc9, n - 1, e => HasPower(Crc64Nvme, e), 55, -1);
  }

  /** Bit i of each word is the coefficient of the (w-1-i)-th power in its generator. */
  lemma CastagnoliIsGenerator(i: nat)
    requires i < 32
    ensures Castagnoli()[i] <==> HasPower(Crc32C, 31 - i)
  {
    var n := 32 / 8;
    CastagnoliBytes(n);
    BitSays(0x82f63b78, n, e => HasPower(Crc32C, e), 31, -1, i);
  }

  lemma IeeeIsGenerator(i: nat)
    requires i < 32
    ensures Ieee()[i] <==> HasPower(Crc32, 31 - i)
  {
    var n := 32 / 8;
    IeeeBytes(n);
    BitSays(0xedb88320, n, e => HasPower(Crc32, e), 31, -1, i);
  }

  lemma {:induction false} ReversedAt(a: Word, i: nat)
    requires i < |a|
    ensures Reversed(a)[i] == a[|a| - 1 - i]
  {
    if i < |a| - 1 { ReversedAt(a[1..], i); }
  }

  lemma NvmeCodeBit(i: nat)
    requires i < 64
    ensures BitAt(0xad93d23594c93659, i) <==> HasPower(Crc64Nvme, i)
  {
    var n := 64 / 8;
    NvmeBytes(n);
    BitSays(0xad93d23594c93659, n, e => HasPower(Crc64Nvme, e), 0, 1, i);
  }

  lemma NvmeIsGenerator(i: nat)
    requires i < 64
    ensures Nvme()[i] <==> HasPower(Crc64Nvme, 63 - i)
  {
    NvmeCodeBit(63 - i);
    ReversedAt(WordOf(0xad93d23594c93659, 64), i);
  }

  lemma NvmeReflectedBit(i: nat)
    requires i < 64
    ensures BitAt(0x9a6c9329ac4bc9b5, i) <==> HasPower(Crc64Nvme, 63 - i)
  {
    var n := 64 / 8;
    NvmeReflectedBytes(n);
    BitSays(0x9a6c9329ac4bc9b5, n, e => HasPower(Crc64Nvme, e), 63, -1, i);
  }

  lemma NvmeReflected()
    ensures Nvme() == WordOf(0x9a6c9329ac4bc9b5, 64)
  {
    forall i | 0 <= i < 64 ensures Nvme()[i] == WordOf(0x9a6c9329ac4bc9b5, 64)[i] {
      NvmeIsGenerator(i);
      NvmeReflectedBit(i);
    }
  }

  // The published checksums

  /** The register before each digit and after the last. */
  ghost predicate Passes(p: bv64, states: seq<bv64>, most: bv64, bits: nat) {
    && |states| == 10 && p <= most
    && forall j :: 0 <= j < 9 ==>
         states[j] ^ DIGIT_WORDS[j] <= most && states[j + 1] == Steps(p, states[j] ^ DIGIT_WORDS[j], bits)
  }

  lemma {:induction false} FeedPasses(p: bv64, states: seq<bv64>, most: bv64, w: nat, bits: nat, i: nat)
    requires i <= 9 && w >= 8 && Greatest(most, w) && Passes(p, states, most, bits)
    ensures Feed(WordOf(p, w), WordOf(states[i], w), DIGITS[i..], bits) == WordOf(states[9], w)
    decreases 9 - i
  {
    if i == 9 {
      FeedEnds(WordOf(p, w), WordOf(states[9], w), bits);
    } else {
      FeedDigit(p, states[i], states[i + 1], most, w, i, bits);
      FeedPasses(p, states, most, w, bits, i + 1);
    }
  }

  const CASTAGNOLI_REGISTER: seq<bv64> :=
    [0xffffffff, 0x6f0a661c, 0x8caa3b9f, 0xef84d04d, 0x9c50b11,
     0xe72edcca, 0xbeca8e79, 0xedbd6815, 0x9f787f65, 0x1cf96d7c]

  lemma CastagnoliPass(j: nat)
    requires j < 9
    ensures CASTAGNOLI_REGISTER[j] ^ DIGIT_WORDS[j] <= 0xffffffff
    ensures CASTAGNOLI_REGISTER[j + 1] == Steps(0x82f63b78, CASTAGNOLI_REGISTER[j] ^ DIGIT_WORDS[j], 8)
  {
    if j < 4 { CastagnoliPassFirst(j); } else { CastagnoliPassLast(j); }
  }

  lemma CastagnoliPassFirst(j: nat)
    requires j < 4
    ensures CASTAGNOLI_REGISTER[j] ^ DIGIT_WORDS[j] <= 0xffffffff
    ensures CASTAGNOLI_REGISTER[j + 1] == Steps(0x82f63b78, CASTAGNOLI_REGISTER[j] ^ DIGIT_WORDS[j], 8)
  {
    match j { case 0 => case 1 => case 2 => case _ => }
  }

  lemma CastagnoliPassLast(j: nat)
    requires 4 <= j < 9
    ensures CASTAGNOLI_REGISTER[j] ^ DIGIT_WORDS[j] <= 0xffffffff
    ensures CASTAGNOLI_REGISTER[j + 1] == Steps(0x82f63b78, CASTAGNOLI_REGISTER[j] ^ DIGIT_WORDS[j], 8)
  {
    match j { case 4 => case 5 => case 6 => case 7 => case _ => }
  }

  const IEEE_REGISTER: seq<bv64> :=
    [0xffffffff, 0x7c231048, 0xb0acbb32, 0x77b79c2d, 0x641c1f5c,
     0x340ac5e3, 0xf68d2c9e, 0xaffc9660, 0x651f2550, 0x340bc6d9]

  lemma IeeePass(j: nat)
    requires j < 9
    ensures IEEE_REGISTER[j] ^ DIGIT_WORDS[j] <= 0xffffffff
    ensures IEEE_REGISTER[j + 1] == Steps(0xedb88320, IEEE_REGISTER[j] ^ DIGIT_WORDS[j], 8)
  {
    if j < 4 { IeeePassFirst(j); } else { IeeePassLast(j); }
  }

  lemma IeeePassFirst(j: nat)
    requires j < 4
    ensures IEEE_REGISTER[j] ^ DIGIT_WORDS[j] <= 0xffffffff
    ensures IEEE_REGISTER[j + 1] == Steps(0xedb88320, IEEE_REGISTER[j] ^ DIGIT_WORDS[j], 8)
  {
    match j { case 0 => case 1 => case 2 => case _ => }
  }

  lemma IeeePassLast(j: nat)
    requires 4 <= j < 9
    ensures IEEE_REGISTER[j] ^ DIGIT_WORDS[j] <= 0xffffffff
    ensures IEEE_REGISTER[j + 1] == Steps(0xedb88320, IEEE_REGISTER[j] ^ DIGIT_WORDS[j], 8)
  {
    match j { case 4 => case 5 => case 6 => case 7 => case _ => }
  }

  const NVME_REGISTER: seq<bv64> :=
    [0xffffffffffffffff, 0xdc6a5e3cb9e4412d, 0x96f18dfa140c58b1, 0x642783343634d71f,
     0xd60a24181d008e2b, 0xe9951d48009d3507, 0xf6a66499e1f7a4cf, 0x62fd0208be125d88,
     0x132f6f673d376b6b, 0x5174eb79f5866777]

  lemma NvmePass(j: nat)
    requires j < 9
    ensures NVME_REGISTER[j] ^ DIGIT_WORDS[j] <= 0xffffffffffffffff
    ensures NVME_REGISTER[j + 1] == Steps(0x9a6c9329ac4bc9b5, NVME_REGISTER[j] ^ DIGIT_WORDS[j], 8)
  {
    if j < 4 { NvmePassFirst(j); } else { NvmePassLast(j); }
  }

  lemma NvmePassFirst(j: nat)
    requires j < 4
    ensures NVME_REGISTER[j] ^ DIGIT_WORDS[j] <= 0xffffffffffffffff
    ensures NVME_REGISTER[j + 1] == Steps(0x9a6c9329ac4bc9b5, NVME_REGISTER[j] ^ DIGIT_WORDS[j], 8)
  {
    match j { case 0 => case 1 => case 2 => case _ => }
  }

  lemma NvmePassLast(j: nat)
    requires 4 <= j < 9
    ensures NVME_REGISTER[j] ^ DIGIT_WORDS[j] <= 0xffffffffffffffff
    ensures NVME_REGISTER[j + 1] == Steps(0x9a6c9329ac4bc9b5, NVME_REGISTER[j] ^ DIGIT_WORDS[j], 8)
  {
    match j { case 4 => case 5 => case 6 => case 7 => case _ => }
  }

  lemma CastagnoliPasses(bits: nat)
    requires bits == BITS_PER_BYTE
    ensures Passes(0x82f63b78, CASTAGNOLI_REGISTER, 0xffffffff, bits)
  {
    forall j | 0 <= j < 9
      ensures CASTAGNOLI_REGISTER[j] ^ DIGIT_WORDS[j] <= 0xffffffff
      ensures CASTAGNOLI_REGISTER[j + 1] == Steps(0x82f63b78, CASTAGNOLI_REGISTER[j] ^ DIGIT_WORDS[j], bits)
    {
      CastagnoliPass(j);
    }
  }

  lemma IeeePasses(bits: nat)
    requires bits == BITS_PER_BYTE
    ensures Passes(0xedb88320, IEEE_REGISTER, 0xffffffff, bits)
  {
    forall j | 0 <= j < 9
      ensures IEEE_REGISTER[j] ^ DIGIT_WORDS[j] <= 0xffffffff
      ensures IEEE_REGISTER[j + 1] == Steps(0xedb88320, IEEE_REGISTER[j] ^ DIGIT_WORDS[j], bits)
    {
      IeeePass(j);
    }
  }

  lemma NvmePasses(bits: nat)
    requires bits == BITS_PER_BYTE
    ensures Passes(0x9a6c9329ac4bc9b5, NVME_REGISTER, 0xffffffffffffffff, bits)
  {
    forall j | 0 <= j < 9
      ensures NVME_REGISTER[j] ^ DIGIT_WORDS[j] <= 0xffffffffffffffff
      ensures NVME_REGISTER[j + 1] == Steps(0x9a6c9329ac4bc9b5, NVME_REGISTER[j] ^ DIGIT_WORDS[j], bits)
    {
      NvmePass(j);
    }
  }

  /** The CRC-32C of "123456789". */
  lemma CastagnoliCheckValue(bits: nat)
    requires bits == BITS_PER_BYTE
    ensures Checksum(Castagnoli(), DIGITS) == WordOf(0xe3069283, 32)
  {
    AllOnes();
    Widths();
    CastagnoliPasses(bits);
    FeedPasses(0x82f63b78, CASTAGNOLI_REGISTER, 0xffffffff, 32, bits, 0);
    assert DIGITS[0..] == DIGITS;
    ChecksumIs(Castagnoli(), 0x82f63b78, 0xffffffff, 0x1cf96d7c, 32);
  }

  /** The CRC-32 of "123456789". */
  lemma IeeeCheckValue(bits: nat)
    requires bits == BITS_PER_BYTE
    ensures Checksum(Ieee(), DIGITS) == WordOf(0xcbf43926, 32)
  {
    AllOnes();
    Widths();
    IeeePasses(bits);
    FeedPasses(0xedb88320, IEEE_REGISTER, 0xffffffff, 32, bits, 0);
    assert DIGITS[0..] == DIGITS;
    ChecksumIs(Ieee(), 0xedb88320, 0xffffffff, 0x340bc6d9, 32);
  }

  /** The CRC-64/NVME of "123456789". */
  lemma NvmeCheckValue(bits: nat)
    requires bits == BITS_PER_BYTE
    ensures Checksum(Nvme(), DIGITS) == WordOf(0xae8b14860a799888, 64)
  {
    AllOnes();
    Widths();
    NvmeReflected();
    NvmePasses(bits);
    FeedPasses(0x9a6c9329ac4bc9b5, NVME_REGISTER, 0xffffffffffffffff, 64, bits, 0);
    assert DIGITS[0..] == DIGITS;
    ChecksumIs(Nvme(), 0x9a6c9329ac4bc9b5, 0xffffffffffffffff, 0x5174eb79f5866777, 64);
  }

  /** The published checksums of "123456789" under the three. */
  lemma CheckValues()
    ensures Checksum(Castagnoli(), DIGITS) == WordOf(0xe3069283, 32)
    ensures Checksum(Ieee(), DIGITS) == WordOf(0xcbf43926, 32)
    ensures Checksum(Nvme(), DIGITS) == WordOf(0xae8b14860a799888, 64)
  {
    CastagnoliCheckValue(BITS_PER_BYTE);
    IeeeCheckValue(BITS_PER_BYTE);
    NvmeCheckValue(BITS_PER_BYTE);
  }
}
