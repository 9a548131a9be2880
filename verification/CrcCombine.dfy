/** Combining checksums in time logarithmic in the length of the second payload. A matrix is the image
    of each unit word under a linear operator; squaring it composes the operator with itself. */
module CrcCombine {
  import opened KeyOrder
  import opened Crc

  type Matrix = seq<Word>

  predicate Square(m: Matrix, w: nat) {
    |m| == w && forall i :: 0 <= i < w ==> |m[i]| == w
  }

  function Unit(w: nat, i: nat): (r: Word)
    ensures |r| == w
  {
    seq(w, j => j == i)
  }

  /** The sum of the rows of `m` selected by the bits of `v` from `i` up. */
  function TimesFrom(m: Matrix, v: Word, i: nat): (r: Word)
    requires Square(m, |v|) && i <= |v|
    ensures |r| == |v|
    decreases |v| - i
  {
    if i == |v| then Zero(|v|)
    else if v[i] then Xor(m[i], TimesFrom(m, v, i + 1))
    else TimesFrom(m, v, i + 1)
  }

  function Squared(m: Matrix, w: nat): (r: Matrix)
    requires Square(m, w)
    ensures Square(r, w)
  {
    seq(w, i requires 0 <= i < w => TimesFrom(m, m[i], 0))
  }

  /** `m` is the operator that appends `n` zero bits. */
  ghost predicate Appends(m: Matrix, poly: Word, n: nat)
    requires |poly| > 0
  {
    Square(m, |poly|) && forall i :: 0 <= i < |poly| ==> m[i] == Zeros(poly, Unit(|poly|, i), n)
  }

  function Above(v: Word, i: nat): (r: Word)
    ensures |r| == |v|
  {
    seq(|v|, j requires 0 <= j < |v| => j >= i && v[j])
  }

  lemma {:induction false} TimesAbove(m: Matrix, poly: Word, n: nat, v: Word, i: nat)
    requires |poly| == |v| > 0 && Appends(m, poly, n) && i <= |v|
    ensures TimesFrom(m, v, i) == Zeros(poly, Above(v, i), n)
    decreases |v| - i
  {
    if i == |v| {
      assert Above(v, i) == Zero(|v|);
      ZerosOfZero(poly, n);
    } else {
      TimesAbove(m, poly, n, v, i + 1);
      if v[i] {
        assert Above(v, i) == Xor(Unit(|v|, i), Above(v, i + 1));
        ZerosLinear(poly, Unit(|v|, i), Above(v, i + 1), n);
      } else {
        assert Above(v, i) == Above(v, i + 1);
      }
    }
  }

  /** Multiplying by the matrix applies the operator. */
  lemma TimesApplies(m: Matrix, poly: Word, n: nat, v: Word)
    requires |poly| == |v| > 0 && Appends(m, poly, n)
    ensures TimesFrom(m, v, 0) == Zeros(poly, v, n)
  {
    TimesAbove(m, poly, n, v, 0);
    assert Above(v, 0) == v;
  }

  lemma SquaredAppends(m: Matrix, poly: Word, n: nat)
    requires |poly| > 0 && Appends(m, poly, n)
    ensures Appends(Squared(m, |poly|), poly, 2 * n)
  {
    forall i | 0 <= i < |poly|
      ensures Squared(m, |poly|)[i] == Zeros(poly, Unit(|poly|, i), 2 * n)
    {
      TimesApplies(m, poly, n, m[i]);
      ZerosAdd(poly, Unit(|poly|, i), n, n);
    }
  }

  lemma {:induction false} NothingAbove(m: Matrix, v: Word, i: nat)
    requires Square(m, |v|) && i <= |v| && forall j :: i <= j < |v| ==> !v[j]
    ensures TimesFrom(m, v, i) == Zero(|v|)
    decreases |v| - i
  {
    if i < |v| { NothingAbove(m, v, i + 1); }
  }

  function Shifted(v: Word, i: nat): (r: Word)
    ensures |r| == |v|
  {
    seq(|v|, j requires 0 <= j < |v| => i + j < |v| && v[i + j])
  }

  lemma ShiftedStep(v: Word, i: nat)
    requires i < |v|
    ensures Shifted(v, i)[0] == v[i] && Shr(Shifted(v, i)) == Shifted(v, i + 1)
  {}

  lemma ShiftedOut(m: Matrix, v: Word, i: nat)
    requires Square(m, |v|) && i <= |v|
    ensures i == |v| ==> Shifted(v, i) == Zero(|v|)
    ensures Shifted(v, i) == Zero(|v|) ==> TimesFrom(m, v, i) == Zero(|v|)
  {
    if Shifted(v, i) == Zero(|v|) {
      forall j | i <= j < |v| ensures !v[j] {
        assert Shifted(v, i)[j - i] == v[j];
      }
      NothingAbove(m, v, i);
    }
  }

  lemma TimesStep(m: Matrix, v: Word, i: nat, sum: Word)
    requires Square(m, |v|) && i < |v| == |sum|
    ensures Xor(if v[i] then Xor(sum, m[i]) else sum, TimesFrom(m, v, i + 1)) == Xor(sum, TimesFrom(m, v, i))
  {
    XorAssociates(sum, m[i], TimesFrom(m, v, i + 1));
  }

  method Times(mat: array<Word>, v: Word) returns (sum: Word)
    requires Square(mat[..], |v|)
    ensures sum == TimesFrom(mat[..], v, 0)
  {
    sum := Zero(|v|);
    var vec, i := v, 0;
    ghost var m := mat[..];
    assert Shifted(v, 0) == v;
    XorZero(TimesFrom(m, v, 0));
    ShiftedOut(m, v, 0);
    while vec != Zero(|v|)
      invariant i <= |v| == |sum| && m == mat[..]
      invariant vec == Shifted(v, i)
      invariant Xor(sum, TimesFrom(m, v, i)) == TimesFrom(m, v, 0)
      decreases |v| - i
    {
      ShiftedOut(m, v, i);
      ShiftedStep(v, i);
      TimesStep(m, v, i, sum);
      if vec[0] {
        sum := Xor(sum, mat[i]);
      }
      vec := Shr(vec);
      i := i + 1;
    }
    ShiftedOut(m, v, i);
    XorZero(sum);
  }

  /** Overwrites `square` with the square of `mat`, row by row. */
  method SquareInto(square: array<Word>, mat: array<Word>)
    requires square != mat && square.Length == mat.Length && Square(mat[..], mat.Length)
    modifies square
    ensures square[..] == Squared(mat[..], mat.Length)
  {
    for i := 0 to square.Length
      invariant mat[..] == old(mat[..])
      invariant forall j :: 0 <= j < i ==> square[j] == TimesFrom(mat[..], mat[j], 0)
    {
      square[i] := Times(mat, mat[i]);
    }
  }

  /** The operator of a single zero bit: the polynomial, then the unit words shifted down by one. */
  method OneBit(poly: Word, odd: array<Word>)
    requires odd.Length == |poly| > 0
    modifies odd
    ensures Appends(odd[..], poly, 1)
  {
    var w := |poly|;
    odd[0] := poly;
    var row := Unit(w, 0);
    for i := 1 to w
      invariant row == Unit(w, i - 1)
      invariant odd[0] == poly && forall j :: 1 <= j < i ==> odd[j] == Unit(w, j - 1)
    {
      odd[i] := row;
      if i < w { assert Shl(row) == Unit(w, i); }
      row := Shl(row);
    }
    forall i | 0 <= i < w ensures odd[..][i] == Zeros(poly, Unit(w, i), 1) {
      assert Zeros(poly, Unit(w, i), 1) == Step(poly, Unit(w, i));
      if i == 0 {
        assert Shr(Unit(w, 0)) == Zero(w);
        XorZero(poly);
      } else {
        assert Shr(Unit(w, i)) == Unit(w, i - 1);
      }
    }
  }

  /** What `n` more bytes do to a checksum, and the second checksum added in. */
  function Combined(poly: Word, a: Word, b: Word, n: int): (r: Word)
    requires |poly| == |a| == |b| > 0
    ensures |r| == |poly|
  {
    if n <= 0 then a else Xor(Zeros(poly, a, 8 * n), b)
  }

  lemma Halve(m: nat, k: nat)
    ensures m * k == (if k % 2 == 1 then m else 0) + (2 * m) * (k / 2)
  {
    assert k == 2 * (k / 2) + k % 2;
    assert m * (2 * (k / 2)) == (2 * m) * (k / 2);
    if k % 2 == 1 {
      assert m * (2 * (k / 2) + 1) == m * (2 * (k / 2)) + m;
    }
  }

  /** One binary digit of the length: apply the operator if the digit is set. `bits` is what the
      operator appends, and `k` the digits still to be read. */
  method Digit(mat: array<Word>, poly: Word, ghost bits: nat, a: Word, k: nat) returns (r: Word)
    requires |poly| == |a| > 0 && Appends(mat[..], poly, bits)
    ensures |r| == |a|
    ensures Zeros(poly, r, (2 * bits) * (k / 2)) == Zeros(poly, a, bits * k)
  {
    Halve(bits, k);
    r := a;
    if k % 2 == 1 {
      r := Times(mat, a);
      TimesApplies(mat[..], poly, bits, a);
      ZerosAdd(poly, a, bits, (2 * bits) * (k / 2));
    }
  }

  /** Half a turn of the loop: square one matrix into the other, and read one digit with it. */
  method Turn(from: array<Word>, into: array<Word>, poly: Word, ghost bits: nat, a: Word, k: nat) returns (r: Word)
    requires from != into && from.Length == into.Length == |poly| == |a| > 0 && Appends(from[..], poly, bits)
    modifies into
    ensures Appends(into[..], poly, 2 * bits)
    ensures |r| == |a| && Zeros(poly, r, (2 * (2 * bits)) * (k / 2)) == Zeros(poly, a, (2 * bits) * k)
  {
    SquaredAppends(from[..], poly, bits);
    SquareInto(into, from);
    r := Digit(into, poly, 2 * bits, a, k);
  }

  /** The matrices before the loop: half a zero byte in `odd`. */
  method HalfByte(poly: Word, even: array<Word>, odd: array<Word>)
    requires even != odd && even.Length == odd.Length == |poly| > 0
    modifies even, odd
    ensures Appends(odd[..], poly, 4)
  {
    OneBit(poly, odd);
    SquaredAppends(odd[..], poly, 1);
    SquareInto(even, odd);
    SquaredAppends(even[..], poly, 2);
    SquareInto(odd, even);
  }

  method Combine(poly: Word, a: Word, b: Word, n: int) returns (r: Word)
    requires |poly| == |a| == |b| > 0
    ensures r == Combined(poly, a, b, n)
  {
    if n <= 0 {
      return a;
    }
    var even, odd := new Word[|poly|](_ => poly), new Word[|poly|](_ => poly);
    HalfByte(poly, even, odd);
    ghost var bits: nat := 4;
    var k: nat := n;
    r := a;
    while true
      invariant k > 0 && |r| == |poly|
      invariant Appends(odd[..], poly, bits)
      invariant Zeros(poly, r, (2 * bits) * k) == Zeros(poly, a, 8 * n)
      decreases k
    {
      r := Turn(odd, even, poly, bits, r, k);
      k := k / 2;
      if k == 0 { break; }
      r := Turn(even, odd, poly, 2 * bits, r, k);
      k := k / 2;
      if k == 0 { break; }
      bits := 2 * (2 * bits);
    }
    r := Xor(r, b);
  }

  /** For every polynomial and all byte strings, combining is hashing the concatenation. */
  lemma CombinedIsConcatenation(poly: Word, a: seq<byte>, b: seq<byte>)
    requires |poly| > 0
    ensures Combined(poly, Checksum(poly, a), Checksum(poly, b), |b|) == Checksum(poly, a + b)
  {
    if b == [] {
      assert a + b == a;
    } else {
      ChecksumConcat(poly, a, b);
    }
  }

  // The three algorithms S3 names

  function Castagnoli(): (r: Word) ensures |r| == 32 { WordOf(0x82f63b78, 32) }
  function Ieee(): (r: Word) ensures |r| == 32 { WordOf(0xedb88320, 32) }
  function Nvme(): (r: Word) ensures |r| == 64 { Reversed(WordOf(0xad93d23594c93659, 64)) }

  method CombineCrc32C(a: Word, b: Word, n: int) returns (r: Word)
    requires |a| == |b| == 32
    ensures r == Combined(Castagnoli(), a, b, n) && (n <= 0 ==> r == a)
    ensures forall x, y :: a == Checksum(Castagnoli(), x) && b == Checksum(Castagnoli(), y) && n == |y| ==>
              r == Checksum(Castagnoli(), x + y)
  {
    r := Combine(Castagnoli(), a, b, n);
    forall x, y | a == Checksum(Castagnoli(), x) && b == Checksum(Castagnoli(), y) && n == |y|
      ensures r == Checksum(Castagnoli(), x + y)
    {
      CombinedIsConcatenation(Castagnoli(), x, y);
    }
  }

  method CombineCrc32(a: Word, b: Word, n: int) returns (r: Word)
    requires |a| == |b| == 32
    ensures r == Combined(Ieee(), a, b, n) && (n <= 0 ==> r == a)
    ensures forall x, y :: a == Checksum(Ieee(), x) && b == Checksum(Ieee(), y) && n == |y| ==>
              r == Checksum(Ieee(), x + y)
  {
    r := Combine(Ieee(), a, b, n);
    forall x, y | a == Checksum(Ieee(), x) && b == Checksum(Ieee(), y) && n == |y|
      ensures r == Checksum(Ieee(), x + y)
    {
      CombinedIsConcatenation(Ieee(), x, y);
    }
  }

  method CombineCrc64Nvme(a: Word, b: Word, n: int) returns (r: Word)
    requires |a| == |b| == 64
    ensures r == Combined(Nvme(), a, b, n) && (n <= 0 ==> r == a)
    ensures forall x, y :: a == Checksum(Nvme(), x) && b == Checksum(Nvme(), y) && n == |y| ==>
              r == Checksum(Nvme(), x + y)
  {
    r := Combine(Nvme(), a, b, n);
    forall x, y | a == Checksum(Nvme(), x) && b == Checksum(Nvme(), y) && n == |y|
      ensures r == Checksum(Nvme(), x + y)
    {
      CombinedIsConcatenation(Nvme(), x, y);
    }
  }
}
