/** Stepping over keys: past one key, and past every key that begins with a prefix. */
module Prefix {
  import opened KeyOrder

  /** Converting a byte to a string encodes it as a character, so 0x80 and above take two bytes. */
  function Utf8(b: byte): (r: Key) {
    if b < 0x80 then [b] else [0xC0 + b / 64, 0x80 + b % 64]
  }

  function After(k: Key): Key { k + [0] }

  function PastPrefix(p: Key): Key {
    if p == [] then []
    else if p[|p| - 1] < 0xff then p[..|p| - 1] + Utf8(p[|p| - 1] + 1)
    else PastPrefix(p[..|p| - 1])
  }

  method StepPast(prefix: Key) returns (r: Key)
    ensures r == PastPrefix(prefix)
  {
    var i := |prefix|;
    assert prefix[..i] == prefix;
    while i > 0
      invariant 0 <= i <= |prefix|
      invariant PastPrefix(prefix[..i]) == PastPrefix(prefix)
    {
      i := i - 1;
      assert prefix[..i + 1][..i] == prefix[..i];
      if prefix[i] < 0xff {
        return prefix[..i] + Utf8(prefix[i] + 1);
      }
    }
    return [];
  }

  /** `k` sorts after everything that begins with `p`. */
  predicate Beyond(p: Key, k: Key) {
    Less(p, k) && !(p <= k)
  }

  /** The result separates the keys beyond the prefix from all others; an empty result means that
      there are none beyond it. */
  ghost predicate StepsExactly(p: Key) {
    if PastPrefix(p) == [] then forall k :: !Beyond(p, k)
    else forall k :: AtMost(PastPrefix(p), k) <==> Beyond(p, k)
  }

  predicate AllHigh(p: Key) {
    p == [] || (p[|p| - 1] == 0xff && AllHigh(p[..|p| - 1]))
  }

  /** The last byte below 0xff can be incremented and still be a one-byte character. */
  predicate Clean(p: Key) {
    p != [] && if p[|p| - 1] == 0xff then Clean(p[..|p| - 1]) else p[|p| - 1] < 0x7f
  }

  lemma {:induction false} LessShift(c: Key, a: Key, b: Key)
    ensures Less(c + a, c + b) <==> Less(a, b)
  {
    if c == [] {
      assert c + a == a && c + b == b;
    } else {
      assert (c + a)[1..] == c[1..] + a && (c + b)[1..] == c[1..] + b;
      LessShift(c[1..], a, b);
    }
  }

  lemma LessExtends(a: Key, b: Key)
    requires b != []
    ensures Less(a, a + b)
  {
    assert a + [] == a;
    LessShift(a, [], b);
  }

  /** A byte string is a stem, a byte that can be incremented, and a run of 0xff; or just the run. */
  lemma {:induction false} PastPrefixSplit(p: Key) returns (stem: Key, b: byte, run: Key)
    requires !AllHigh(p)
    ensures p == stem + [b] + run && b < 0xff && AllHigh(run)
    ensures PastPrefix(p) == stem + Utf8(b + 1)
    ensures Clean(p) <==> b < 0x7f
  {
    var n := |p| - 1;
    assert p == p[..n] + [p[n]];
    if p[n] < 0xff {
      stem, b, run := p[..n], p[n], [];
    } else {
      stem, b, run := PastPrefixSplit(p[..n]);
      run := run + [p[n]];
      assert run[..|run| - 1] + [p[n]] == run;
      assert p == stem + [b] + run;
    }
  }

  lemma {:induction false} AllHighPast(p: Key)
    requires AllHigh(p)
    ensures PastPrefix(p) == [] && !Clean(p) && forall i :: 0 <= i < |p| ==> p[i] == 0xff
  {
    if p != [] { AllHighPast(p[..|p| - 1]); }
  }

  lemma {:induction false} NothingBeyondHigh(p: Key, k: Key)
    requires forall i :: 0 <= i < |p| ==> p[i] == 0xff
    ensures !Beyond(p, k)
  {
    if p != [] && k != [] && k[0] == 0xff {
      NothingBeyondHigh(p[1..], k[1..]);
      BeyondTail(p, k);
    }
  }

  lemma BeyondTail(p: Key, k: Key)
    requires p != [] && k != []
    ensures Beyond(p, k) <==> p[0] < k[0] || (p[0] == k[0] && Beyond(p[1..], k[1..]))
  {
    assert p == [p[0]] + p[1..] && k == [k[0]] + k[1..];
    if p <= k { assert p[1..] <= k[1..]; }
    if p[0] == k[0] && p[1..] <= k[1..] { assert p <= k; }
  }

  lemma {:induction false} BeyondShift(c: Key, p: Key, k: Key)
    ensures Beyond(c + p, c + k) <==> Beyond(p, k)
  {
    if c == [] {
      assert c + p == p && c + k == k;
    } else {
      BeyondShift(c[1..], p, k);
      assert (c + p)[1..] == c[1..] + p && (c + k)[1..] == c[1..] + k;
      BeyondTail(c + p, c + k);
    }
  }

  lemma AtMostTail(a: Key, k: Key)
    requires a != [] && k != []
    ensures AtMost(a, k) <==> a[0] < k[0] || (a[0] == k[0] && AtMost(a[1..], k[1..]))
  {
    assert a == [a[0]] + a[1..] && k == [k[0]] + k[1..];
  }

  /** Nothing lies between a key and the one after it. */
  lemma {:induction false} AfterIsNext(k: Key, other: Key)
    ensures AtMost(After(k), other) <==> Less(k, other)
  {
    if other != [] {
      AtMostTail(After(k), other);
      if k != [] {
        assert After(k)[1..] == After(k[1..]);
        AfterIsNext(k[1..], other[1..]);
      }
    }
  }

  lemma {:induction false} IncrementSeparates(stem: Key, b: byte, run: Key, k: Key)
    requires b < 0xff && forall i :: 0 <= i < |run| ==> run[i] == 0xff
    ensures AtMost(stem + [b + 1], k) <==> Beyond(stem + [b] + run, k)
  {
    var past, p := stem + [b + 1], stem + [b] + run;
    if k != [] {
      AtMostTail(past, k);
      BeyondTail(p, k);
      if stem == [] {
        assert past[1..] == [] && p[1..] == run;
        NothingBeyondHigh(run, k[1..]);
      } else {
        assert past[1..] == stem[1..] + [b + 1] && p[1..] == stem[1..] + [b] + run;
        IncrementSeparates(stem[1..], b, run, k[1..]);
      }
    }
  }

  /** Above 0x7f the encoded byte lands too far out or too far in. */
  lemma EncodedMisses(b: byte, run: Key) returns (k: Key)
    requires 0x7f <= b < 0xff && forall i :: 0 <= i < |run| ==> run[i] == 0xff
    ensures AtMost(Utf8(b + 1), k) != Beyond([b] + run, k)
  {
    var past, p := Utf8(b + 1), [b] + run;
    LessIrreflexive(p);
    if b < past[0] {
      k := [b + 1];
      BeyondTail(p, k);
    } else if b > past[0] || run != [] {
      k := p;
      if b == past[0] { assert Less(past[1..], k[1..]) by { assert k[1..] == run; } }
    } else {
      k := past;
      assert p == [b];
    }
    AtMostTail(past, k);
  }

  /** Stepping over a prefix is exact when the byte it increments stays a one-byte character, or when
      there is none to increment, and otherwise never. */
  lemma PastPrefixExactIff(p: Key)
    ensures StepsExactly(p) <==> Clean(p) || AllHigh(p)
  {
    if AllHigh(p) {
      AllHighPast(p);
      forall k ensures !Beyond(p, k) { NothingBeyondHigh(p, k); }
    } else {
      var stem, b, run := PastPrefixSplit(p);
      AllHighPast(run);
      if b < 0x7f {
        forall k ensures AtMost(PastPrefix(p), k) <==> Beyond(p, k) { IncrementSeparates(stem, b, run, k); }
      } else {
        var k := EncodedMisses(b, run);
        LessShift(stem, Utf8(b + 1), k);
        BeyondShift(stem, [b] + run, k);
        assert stem + ([b] + run) == p;
        assert stem + Utf8(b + 1) == stem + k <==> Utf8(b + 1) == k by {
          assert (stem + k)[|stem|..] == k && (stem + Utf8(b + 1))[|stem|..] == Utf8(b + 1);
        }
        assert AtMost(PastPrefix(p), stem + k) != Beyond(p, stem + k);
      }
    }
  }

  lemma {:induction false} CleanSuffix(stem: Key, d: Key)
    requires Clean(d)
    ensures Clean(stem + d) && PastPrefix(stem + d) == stem + PastPrefix(d) && PastPrefix(d) != []
  {
    assert (stem + d)[..|stem + d| - 1] == stem + d[..|d| - 1];
    if d[|d| - 1] == 0xff { CleanSuffix(stem, d[..|d| - 1]); }
  }
}
