/** Reflected cyclic redundancy checks, one bit at a time, over words of any width. A word is its bits,
    least significant first, so that a uint32 is a word of width 32 and a uint64 one of width 64. */
module Crc {
  import opened KeyOrder

  type Word = seq<bool>

  function Xor(a: Word, b: Word): (r: Word)
    requires |a| == |b|
    ensures |r| == |a|
  {
    seq(|a|, i requires 0 <= i < |a| => a[i] != b[i])
  }

  function Zero(w: nat): (r: Word)
    ensures |r| == w
  {
    seq(w, _ => false)
  }

  function Ones(w: nat): (r: Word)
    ensures |r| == w
  {
    seq(w, _ => true)
  }

  function Shr(a: Word): (r: Word)
    requires |a| > 0
    ensures |r| == |a|
  {
    a[1..] + [false]
  }

  function Shl(a: Word): (r: Word)
    requires |a| > 0
    ensures |r| == |a|
  {
    [false] + a[..|a| - 1]
  }

  /** The low `w` bits of a number. */
  function Bits(v: nat, w: nat): (r: Word)
    ensures |r| == w
  {
    if w == 0 then [] else [v % 2 == 1] + Bits(v / 2, w - 1)
  }

  function Half(v: bv64): bv64 { v >> 1 }

  function BitAt(v: bv64, i: nat): bool { if i == 0 then v & 1 == 1 else BitAt(Half(v), i - 1) }

  /** The low `w` bits of a machine word. */
  function WordOf(v: bv64, w: nat): (r: Word)
    ensures |r| == w
  {
    seq(w, i requires 0 <= i < w => BitAt(v, i))
  }

  function Reversed(a: Word): (r: Word)
    ensures |r| == |a|
  {
    if a == [] then [] else Reversed(a[1..]) + [a[0]]
  }

  /** One zero bit through the register: shift, and subtract the polynomial if a bit fell off. */
  function Step(poly: Word, r: Word): (s: Word)
    requires |poly| == |r| > 0
    ensures |s| == |r|
  {
    if r[0] then Xor(Shr(r), poly) else Shr(r)
  }

  /** `n` zero bits through the register. */
  function Zeros(poly: Word, r: Word, n: nat): (s: Word)
    requires |poly| == |r| > 0
    ensures |s| == |r|
    decreases n
  {
    if n == 0 then r else Zeros(poly, Step(poly, r), n - 1)
  }

  const BITS_PER_BYTE: nat := 8

  /** A byte string through the register, each byte followed by its zero bits. */
  function Feed(poly: Word, r: Word, data: seq<byte>, bits: nat): (s: Word)
    requires |poly| == |r| > 0
    ensures |s| == |r|
    decreases |data|
  {
    if data == [] then r
    else Feed(poly, Zeros(poly, Xor(r, Bits(data[0] as int, |r|)), bits), data[1..], bits)
  }

  /** The checksum of a byte string: the register starts at all ones and is inverted at the end. */
  function Checksum(poly: Word, data: seq<byte>): (s: Word)
    requires |poly| > 0
    ensures |s| == |poly|
  {
    Xor(Feed(poly, Ones(|poly|), data, BITS_PER_BYTE), Ones(|poly|))
  }

  // The register is linear in its start

  lemma XorAssociates(a: Word, b: Word, c: Word)
    requires |a| == |b| == |c|
    ensures Xor(Xor(a, b), c) == Xor(a, Xor(b, c))
  {}

  lemma XorCommutes(a: Word, b: Word)
    requires |a| == |b|
    ensures Xor(a, b) == Xor(b, a)
  {}

  lemma XorZero(a: Word)
    ensures Xor(a, Zero(|a|)) == a && Xor(Zero(|a|), a) == a && Xor(a, a) == Zero(|a|)
  {}

  lemma StepLinear(poly: Word, a: Word, b: Word)
    requires |poly| == |a| == |b| > 0
    ensures Step(poly, Xor(a, b)) == Xor(Step(poly, a), Step(poly, b))
  {
    var l, r := Step(poly, Xor(a, b)), Xor(Step(poly, a), Step(poly, b));
    assert Shr(Xor(a, b)) == Xor(Shr(a), Shr(b));
    forall i | 0 <= i < |l| ensures l[i] == r[i] {}
  }

  lemma {:induction false} ZerosLinear(poly: Word, a: Word, b: Word, n: nat)
    requires |poly| == |a| == |b| > 0
    ensures Zeros(poly, Xor(a, b), n) == Xor(Zeros(poly, a, n), Zeros(poly, b, n))
    decreases n
  {
    if n > 0 {
      StepLinear(poly, a, b);
      ZerosLinear(poly, Step(poly, a), Step(poly, b), n - 1);
    }
  }

  lemma {:induction false} ZerosAdd(poly: Word, r: Word, m: nat, n: nat)
    requires |poly| == |r| > 0
    ensures Zeros(poly, Zeros(poly, r, m), n) == Zeros(poly, r, m + n)
    decreases m
  {
    if m > 0 {
      ZerosAdd(poly, Step(poly, r), m - 1, n);
    }
  }

  lemma ZerosOfZero(poly: Word, n: nat)
    requires |poly| > 0
    ensures Zeros(poly, Zero(|poly|), n) == Zero(|poly|)
  {
    var z := Zero(|poly|);
    XorZero(z);
    ZerosLinear(poly, z, z, n);
    XorZero(Zeros(poly, z, n));
  }

  lemma ZerosAffine(poly: Word, r: Word, d: Word, x: Word, n: nat)
    requires |poly| == |r| == |d| == |x| > 0
    ensures Zeros(poly, Xor(Xor(r, d), x), n) == Xor(Zeros(poly, Xor(r, x), n), Zeros(poly, d, n))
  {
    XorAssociates(r, d, x);
    XorCommutes(d, x);
    XorAssociates(r, x, d);
    ZerosLinear(poly, Xor(r, x), d, n);
  }

  /** As many zero bytes, of `bits` bits each. */
  function ZeroBytes(poly: Word, r: Word, n: nat, bits: nat): (s: Word)
    requires |poly| == |r| > 0
    ensures |s| == |r|
    decreases n
  {
    if n == 0 then r else ZeroBytes(poly, Zeros(poly, r, bits), n - 1, bits)
  }

  lemma {:induction false} ZeroBytesAreBits(poly: Word, r: Word, n: nat, all: nat)
    requires |poly| == |r| > 0 && all == 8 * n
    ensures ZeroBytes(poly, r, n, BITS_PER_BYTE) == Zeros(poly, r, all)
    decreases n
  {
    if n > 0 {
      ZeroBytesAreBits(poly, Zeros(poly, r, BITS_PER_BYTE), n - 1, all - BITS_PER_BYTE);
      ZerosAdd(poly, r, BITS_PER_BYTE, all - BITS_PER_BYTE);
    }
  }

  /** Changing the start of the register by `d` changes its end by `d` run through as many zero bytes
      as there was data. */
  lemma {:induction false} FeedAffine(poly: Word, r: Word, d: Word, data: seq<byte>, bits: nat)
    requires |poly| == |r| == |d| > 0
    ensures Feed(poly, Xor(r, d), data, bits) == Xor(Feed(poly, r, data, bits), ZeroBytes(poly, d, |data|, bits))
    decreases |data|
  {
    if data != [] {
      var x := Bits(data[0] as int, |r|);
      ZerosAffine(poly, r, d, x, bits);
      FeedAffine(poly, Zeros(poly, Xor(r, x), bits), Zeros(poly, d, bits), data[1..], bits);
    }
  }

  lemma {:induction false} FeedConcat(poly: Word, r: Word, a: seq<byte>, b: seq<byte>, bits: nat)
    requires |poly| == |r| > 0
    ensures Feed(poly, r, a + b, bits) == Feed(poly, Feed(poly, r, a, bits), b, bits)
    decreases |a|
  {
    if a == [] {
      assert a + b == b;
    } else {
      assert (a + b)[1..] == a[1..] + b;
      FeedConcat(poly, Zeros(poly, Xor(r, Bits(a[0] as int, |r|)), bits), a[1..], b, bits);
    }
  }

  /** The checksum of a concatenation, from the checksums of its two halves and the length of the
      second alone. */
  lemma ChecksumConcat(poly: Word, a: seq<byte>, b: seq<byte>)
    requires |poly| > 0
    ensures Checksum(poly, a + b) == Xor(Zeros(poly, Checksum(poly, a), 8 * |b|), Checksum(poly, b))
  {
    var ones := Ones(|poly|);
    var ra, rb := Feed(poly, ones, a, BITS_PER_BYTE), Feed(poly, ones, b, BITS_PER_BYTE);
    var d := Xor(ra, ones);
    var z := Zeros(poly, d, 8 * |b|);
    assert Xor(ones, d) == ra;
    FeedConcat(poly, ones, a, b, BITS_PER_BYTE);
    FeedAffine(poly, ones, d, b, BITS_PER_BYTE);
    ZeroBytesAreBits(poly, d, |b|, 8 * |b|);
    assert Feed(poly, ra, b, BITS_PER_BYTE) == Xor(rb, z);
    assert Xor(Xor(rb, z), ones) == Xor(z, Xor(rb, ones));
  }
}
