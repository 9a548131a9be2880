/** A completed object is its parts: their bytes in order, the checksums of the whole, and a window for
    each part that reads back exactly that part. */
module MultipartTheorems {
  import opened Basics
  import opened KeyOrder
  import opened Objects
  import opened Crc
  import opened CrcCombine
  import opened Multipart

  /** What each chunk holds. */
  type Content = string -> seq<byte>

  function Contents(chunks: seq<ChunkRef>, content: Content): (r: seq<seq<byte>>)
    ensures |r| == |chunks| && forall i :: 0 <= i < |r| ==> r[i] == content(chunks[i].id)
  {
    seq(|chunks|, i requires 0 <= i < |chunks| => content(chunks[i].id))
  }

  function Bytes(chunks: seq<ChunkRef>, content: Content): seq<byte> {
    Joined(Contents(chunks, content))
  }

  function PartBytes(ms: seq<Manifest>, content: Content): (r: seq<seq<byte>>)
    ensures |r| == |ms| && forall i :: 0 <= i < |r| ==> r[i] == Bytes(ms[i].chunks, content)
  {
    seq(|ms|, i requires 0 <= i < |ms| => Bytes(ms[i].chunks, content))
  }

  /** A manifest tells the truth about its bytes. */
  ghost predicate Describes(m: Manifest, content: Content) {
    && m.size == |Bytes(m.chunks, content)|
    && (Crc32C in m.sums ==> m.sums[Crc32C] == Checksum(Castagnoli(), Bytes(m.chunks, content)))
    && (Crc32 in m.sums ==> m.sums[Crc32] == Checksum(Ieee(), Bytes(m.chunks, content)))
    && (Crc64Nvme in m.sums ==> m.sums[Crc64Nvme] == Checksum(Nvme(), Bytes(m.chunks, content)))
  }

  lemma DescribesEach(m: Manifest, content: Content, a: Algorithm)
    requires Describes(m, content)
    ensures PartIs(Poly(a), a, m, Bytes(m.chunks, content))
  {
  }

  lemma BytesConcat(a: seq<ChunkRef>, b: seq<ChunkRef>, content: Content)
    ensures Bytes(a + b, content) == Bytes(a, content) + Bytes(b, content)
  {
    assert Contents(a + b, content) == Contents(a, content) + Contents(b, content);
    JoinedConcat(Contents(a, content), Contents(b, content));
  }

  lemma {:induction false} ChunksAreParts(ms: seq<Manifest>, content: Content)
    ensures Bytes(ChunksOf(ms), content) == Joined(PartBytes(ms, content))
  {
    if ms != [] {
      var front, m := ms[..|ms| - 1], ms[|ms| - 1];
      ChunksAreParts(front, content);
      BytesConcat(ChunksOf(front), m.chunks, content);
      assert PartBytes(ms, content)[..|ms| - 1] == PartBytes(front, content);
    }
  }

  lemma {:induction false} SizeIsLength(ms: seq<Manifest>, content: Content)
    requires forall i :: 0 <= i < |ms| ==> Describes(ms[i], content)
    ensures SizeOf(ms) == |Joined(PartBytes(ms, content))|
  {
    if ms != [] {
      SizeIsLength(ms[..|ms| - 1], content);
      assert PartBytes(ms, content)[..|ms| - 1] == PartBytes(ms[..|ms| - 1], content);
    }
  }

  /** A part of the given bytes. */
  ghost predicate PartIs(poly: Word, a: Algorithm, m: Manifest, bytes: seq<byte>)
    requires |poly| > 0
  {
    m.size == |bytes| && (a in m.sums ==> m.sums[a] == Checksum(poly, bytes))
  }

  predicate AllHave(a: Algorithm, ms: seq<Manifest>) {
    forall i :: 0 <= i < |ms| ==> a in ms[i].sums
  }

  /** A checksum is there exactly when every part has it, and then it is the given one. */
  ghost predicate SumRight(poly: Word, a: Algorithm, ms: seq<Manifest>, sum: Word)
    requires AllSized(ms) && |poly| == Width(a)
  {
    && (SumOf(poly, a, ms).Some? <==> AllHave(a, ms))
    && (SumOf(poly, a, ms).Some? ==> SumOf(poly, a, ms).value == sum)
  }

  lemma AllHaveNext(a: Algorithm, ms: seq<Manifest>, m: Manifest)
    ensures AllHave(a, ms + [m]) <==> AllHave(a, ms) && a in m.sums
  {
    assert (ms + [m])[|ms|] == m && forall i :: 0 <= i < |ms| ==> (ms + [m])[i] == ms[i];
  }

  lemma SumRightNext(poly: Word, a: Algorithm, ms: seq<Manifest>, m: Manifest, sum: Word, last: Word, joined: Word)
    requires AllSized(ms) && WellSized(m.sums) && |poly| == Width(a) && |sum| == |last| == |poly|
    requires ms != [] ==> SumRight(poly, a, ms, sum)
    requires a in m.sums ==> m.sums[a] == last
    requires joined == if ms == [] then last else Combined(poly, sum, last, m.size)
    ensures AllSized(ms + [m]) && SumRight(poly, a, ms + [m], joined)
  {
    SumNext(poly, a, ms, m);
    AllHaveNext(a, ms, m);
  }

  lemma {:induction false} SumIsChecksum(poly: Word, a: Algorithm, ms: seq<Manifest>, pieces: seq<seq<byte>>)
    requires ms != [] && AllSized(ms) && |poly| == Width(a) && |pieces| == |ms|
    requires forall i :: 0 <= i < |ms| ==> PartIs(poly, a, ms[i], pieces[i])
    ensures SumRight(poly, a, ms, Checksum(poly, Joined(pieces)))
    decreases |ms|
  {
    var n := |ms| - 1;
    assert ms == ms[..n] + [ms[n]];
    var whole, last := Joined(pieces[..n]), pieces[n];
    assert PartIs(poly, a, ms[n], last);
    if n > 0 {
      SumIsChecksum(poly, a, ms[..n], pieces[..n]);
      CombinedIsConcatenation(poly, whole, last);
    } else {
      assert whole + last == last;
    }
    SumRightNext(poly, a, ms[..n], ms[n], Checksum(poly, whole), Checksum(poly, last), Checksum(poly, whole + last));
  }

  /** Completing tells the truth about the object if the parts told it about theirs. */
  lemma CompletedDescribes(d: Digests, parts: seq<CompletedPart>, ms: seq<Manifest>, m: Manifest, content: Content)
    requires |parts| == |ms| > 0 && AllSized(ms) && Assembles(d, parts, ms, m)
    requires forall i :: 0 <= i < |ms| ==> Describes(ms[i], content)
    ensures Bytes(m.chunks, content) == Joined(PartBytes(ms, content))
    ensures Describes(m, content)
    ensures forall a :: a in m.sums <==> AllHave(a, ms)
  {
    ChunksAreParts(ms, content);
    SizeIsLength(ms, content);
    forall a ensures a in m.sums <==> AllHave(a, ms) {
      SumInWhole(d, parts, ms, m, content, a, Poly(a), Joined(PartBytes(ms, content)));
    }
    DescribesWhole(d, parts, ms, m, content);
  }

  lemma DescribesWhole(d: Digests, parts: seq<CompletedPart>, ms: seq<Manifest>, m: Manifest, content: Content)
    requires |parts| == |ms| > 0 && AllSized(ms) && Assembles(d, parts, ms, m)
    requires forall i :: 0 <= i < |ms| ==> Describes(ms[i], content)
    requires Bytes(m.chunks, content) == Joined(PartBytes(ms, content)) && m.size == |Bytes(m.chunks, content)|
    ensures Describes(m, content)
  {
    var bytes := Bytes(m.chunks, content);
    SumInWhole(d, parts, ms, m, content, Crc32C, Castagnoli(), bytes);
    SumInWhole(d, parts, ms, m, content, Crc32, Ieee(), bytes);
    SumInWhole(d, parts, ms, m, content, Crc64Nvme, Nvme(), bytes);
  }

  lemma SumInWhole(d: Digests, parts: seq<CompletedPart>, ms: seq<Manifest>, m: Manifest, content: Content,
                   a: Algorithm, poly: Word, bytes: seq<byte>)
    requires |parts| == |ms| > 0 && AllSized(ms) && Assembles(d, parts, ms, m)
    requires forall i :: 0 <= i < |ms| ==> Describes(ms[i], content)
    requires poly == Poly(a) && bytes == Joined(PartBytes(ms, content))
    ensures a in m.sums <==> AllHave(a, ms)
    ensures a in m.sums ==> m.sums[a] == Checksum(poly, bytes)
  {
    SumOfParts(ms, content, a);
    assert Get(m.sums, a) == SumOf(Poly(a), a, ms);
  }

  lemma SumOfParts(ms: seq<Manifest>, content: Content, a: Algorithm)
    requires ms != [] && AllSized(ms) && forall i :: 0 <= i < |ms| ==> Describes(ms[i], content)
    ensures SumRight(Poly(a), a, ms, Checksum(Poly(a), Joined(PartBytes(ms, content))))
  {
    forall i | 0 <= i < |ms| ensures PartIs(Poly(a), a, ms[i], PartBytes(ms, content)[i]) {
      DescribesEach(ms[i], content, a);
    }
    SumIsChecksum(Poly(a), a, ms, PartBytes(ms, content));
  }

  /** A declared checksum is confirmed when every part has one and it is that of the parts' bytes together. */
  ghost predicate Declared(declared: Sums, ms: seq<Manifest>, a: Algorithm, poly: Word, bytes: seq<byte>)
    requires |poly| > 0
  {
    a in declared ==> AllHave(a, ms) && declared[a] == Checksum(poly, bytes)
  }

  /** If parts tell the truth about their bytes, a completion is accepted exactly when it names parts, in strictly
      ascending order, each is as named, and the checksums declared are those of their bytes together. */
  lemma AcceptedIff(d: Digests, parts: seq<CompletedPart>, stored: map<int, Manifest>, declared: Sums, content: Content)
    requires forall n :: n in stored ==> WellSized(stored[n].sums) && Describes(stored[n], content)
    ensures Acceptable(d, parts, stored, declared) <==>
            && parts != [] && Multipart.Ascending(parts) && AllAsNamed(d, parts, stored, |parts|)
            && InStore(parts, stored)
            && var ms := Named(parts, stored); var bytes := Joined(PartBytes(ms, content));
            && Declared(declared, ms, Crc32C, Castagnoli(), bytes)
            && Declared(declared, ms, Crc32, Ieee(), bytes)
            && Declared(declared, ms, Crc64Nvme, Nvme(), bytes)
  {
    FaultlessIff(d, parts, stored, |parts|);
    if parts != [] && AllAsNamed(d, parts, stored, |parts|) {
      NamedInStore(d, parts, stored);
      ConfirmsIff(declared, Named(parts, stored), content);
      if Sorted(parts) { FaultlessAscends(d, parts, stored); }
      if Multipart.Ascending(parts) { AscendingSorted(parts); }
    }
  }

  lemma NamedInStore(d: Digests, parts: seq<CompletedPart>, stored: map<int, Manifest>)
    requires AllAsNamed(d, parts, stored, |parts|)
    ensures InStore(parts, stored)
  {
    forall p | p in parts ensures p.number in stored {
      var i: nat :| i < |parts| && parts[i] == p;
      assert AsNamed(d, parts, stored, i);
    }
  }

  lemma AscendingSorted(parts: seq<CompletedPart>)
    requires Multipart.Ascending(parts)
    ensures Sorted(parts)
  {
  }

  lemma ConfirmsIff(declared: Sums, ms: seq<Manifest>, content: Content)
    requires ms != [] && AllSized(ms) && forall i :: 0 <= i < |ms| ==> Describes(ms[i], content)
    ensures var bytes := Joined(PartBytes(ms, content));
            Confirms(declared, ms) <==>
            && Declared(declared, ms, Crc32C, Castagnoli(), bytes)
            && Declared(declared, ms, Crc32, Ieee(), bytes)
            && Declared(declared, ms, Crc64Nvme, Nvme(), bytes)
  {
    var bytes := Joined(PartBytes(ms, content));
    ConfirmsOne(declared, ms, content, Crc32C, Castagnoli(), bytes);
    ConfirmsOne(declared, ms, content, Crc32, Ieee(), bytes);
    ConfirmsOne(declared, ms, content, Crc64Nvme, Nvme(), bytes);
    forall a ensures a in declared && SumOf(Poly(a), a, ms) != Some(declared[a]) ==>
                       a == Crc32C || a == Crc32 || a == Crc64Nvme {
    }
  }

  lemma ConfirmsOne(declared: Sums, ms: seq<Manifest>, content: Content, a: Algorithm, poly: Word, bytes: seq<byte>)
    requires ms != [] && AllSized(ms) && forall i :: 0 <= i < |ms| ==> Describes(ms[i], content)
    requires poly == Poly(a) && bytes == Joined(PartBytes(ms, content))
    ensures (a in declared ==> SumOf(Poly(a), a, ms) == Some(declared[a])) <==> Declared(declared, ms, a, poly, bytes)
  {
    SumOfParts(ms, content, a);
  }

  /** The object's ETag is made of the parts' digests, each in its place. */
  lemma {:induction false} DigestsInOrder(d: Digests, ms: seq<Manifest>, i: nat)
    requires i < |ms| && d.raw(ms[i].etag).Some?
    ensures RawOf(d, ms) == RawOf(d, ms[..i]) + d.raw(ms[i].etag).value + RawOf(d, ms[i + 1..]) && RawOf(d, []) == []
    decreases |ms|
  {
    var front, tail := ms[..|ms| - 1], ms[i + 1..];
    if i < |front| {
      DigestsInOrder(d, front, i);
      assert front[..i] == ms[..i] && front[i + 1..] == tail[..|tail| - 1] && front[i] == ms[i];
      assert tail[|tail| - 1] == ms[|ms| - 1];
    } else {
      assert front == ms[..i] && tail == [];
    }
  }

  // Reading a part back by its number

  function SizeBefore(parts: seq<Part>, i: nat): nat
    requires i <= |parts|
  {
    if i == 0 then 0 else SizeBefore(parts, i - 1) + parts[i - 1].size
  }

  datatype Window = Window(off: nat, size: nat, part: Option<Part>, multipart: bool, ok: bool)

  /** The window of the first part with that number; without parts, part 1 is the whole object. */
  ghost predicate IsWindow(m: Manifest, n: int, w: Window) {
    if m.parts == [] then w == Window(0, m.size, None, false, n == 1)
    else if w.ok then
      exists i: nat ::
        && i < |m.parts| && m.parts[i].number == n && (forall j :: 0 <= j < i ==> m.parts[j].number != n)
        && w == Window(SizeBefore(m.parts, i), m.parts[i].size, Some(m.parts[i]), true, true)
    else
      w == Window(0, 0, None, true, false) && forall j :: 0 <= j < |m.parts| ==> m.parts[j].number != n
  }

  method PartWindow(m: Manifest, n: int) returns (w: Window)
    ensures IsWindow(m, n, w)
    ensures |m.parts| == 0 ==> w.ok == (n == 1) && w.off == 0 && w.size == m.size
    ensures |m.parts| > 0 ==> (w.ok <==> exists i :: 0 <= i < |m.parts| && m.parts[i].number == n)
  {
    if |m.parts| == 0 { return Window(0, m.size, None, false, n == 1); }
    var off := 0;
    for i := 0 to |m.parts|
      invariant off == SizeBefore(m.parts, i)
      invariant forall j :: 0 <= j < i ==> m.parts[j].number != n
    {
      if m.parts[i].number == n { return Window(off, m.parts[i].size, Some(m.parts[i]), true, true); }
      off := off + m.parts[i].size;
    }
    return Window(0, 0, None, true, false);
  }

  /** Parts of the given bytes, in order. */
  predicate Sized(parts: seq<Part>, pieces: seq<seq<byte>>) {
    |parts| == |pieces| && forall i :: 0 <= i < |parts| ==> parts[i].size == |pieces[i]|
  }

  lemma {:induction false} SizeBeforeIsLength(parts: seq<Part>, pieces: seq<seq<byte>>, i: nat)
    requires Sized(parts, pieces) && i <= |parts|
    ensures SizeBefore(parts, i) == |Joined(pieces[..i])|
  {
    if i > 0 {
      SizeBeforeIsLength(parts, pieces, i - 1);
      JoinedNext(pieces, i - 1);
    }
  }

  lemma PieceInWhole(parts: seq<Part>, pieces: seq<seq<byte>>, i: nat)
    requires Sized(parts, pieces) && i < |parts|
    ensures var off, size := SizeBefore(parts, i), parts[i].size;
            off + size <= |Joined(pieces)| && Joined(pieces)[off..off + size] == pieces[i]
    ensures SizeBefore(parts, |parts|) == |Joined(pieces)|
  {
    SizeBeforeIsLength(parts, pieces, i);
    SizeBeforeIsLength(parts, pieces, |parts|);
    assert pieces[..|parts|] == pieces;
    JoinedPrefix(pieces, i + 1);
    JoinedNext(pieces, i);
  }

  /** The windows of a completed object tile it end to end, and each holds its own part's bytes. */
  lemma WindowsTile(d: Digests, parts: seq<CompletedPart>, ms: seq<Manifest>, m: Manifest, content: Content, i: nat)
    requires |parts| == |ms| > 0 && AllSized(ms) && Assembles(d, parts, ms, m) && i < |parts|
    requires forall j :: 0 <= j < |ms| ==> Describes(ms[j], content)
    ensures SizeBefore(m.parts, 0) == 0 && SizeBefore(m.parts, |parts|) == m.size
    ensures var off, size := SizeBefore(m.parts, i), m.parts[i].size;
            && SizeBefore(m.parts, i + 1) == off + size <= m.size == |Bytes(m.chunks, content)|
            && Bytes(m.chunks, content)[off..off + size] == Bytes(ms[i].chunks, content)
  {
    CompletedDescribes(d, parts, ms, m, content);
    PieceInWhole(m.parts, PartBytes(ms, content), i);
  }

  lemma WindowOfNumber(m: Manifest, i: nat, w: Window)
    requires i < |m.parts| && IsWindow(m, m.parts[i].number, w)
    requires forall j, k :: 0 <= j < k < |m.parts| ==> m.parts[j].number < m.parts[k].number
    ensures w == Window(SizeBefore(m.parts, i), m.parts[i].size, Some(m.parts[i]), true, true)
  {
    var n := m.parts[i].number;
    assert w.ok;
    var k: nat :| && k < |m.parts| && m.parts[k].number == n
                  && w == Window(SizeBefore(m.parts, k), m.parts[k].size, Some(m.parts[k]), true, true);
    assert k == i;
  }

  lemma NumbersAscend(parts: seq<CompletedPart>, ms: seq<Manifest>, listed: seq<Part>)
    requires |parts| == |ms| && listed == PartsOf(parts, ms) && Multipart.Ascending(parts)
    ensures forall j, k :: 0 <= j < k < |listed| ==> listed[j].number < listed[k].number
    ensures forall i :: 0 <= i < |parts| ==> listed[i].number == parts[i].number
  {
  }

  /** Asking for a number finds the part that was named with it, and reads back its bytes. */
  lemma WindowReadsPart(d: Digests, parts: seq<CompletedPart>, ms: seq<Manifest>, m: Manifest, content: Content,
                        i: nat, w: Window)
    requires |parts| == |ms| > 0 && AllSized(ms) && Assembles(d, parts, ms, m) && Multipart.Ascending(parts)
    requires forall j :: 0 <= j < |ms| ==> Describes(ms[j], content)
    requires i < |parts| && IsWindow(m, parts[i].number, w)
    ensures w.ok && w.off + w.size <= |Bytes(m.chunks, content)|
    ensures Bytes(m.chunks, content)[w.off..w.off + w.size] == Bytes(ms[i].chunks, content)
  {
    WindowIsPart(d, parts, ms, m, i, w);
    WindowsTile(d, parts, ms, m, content, i);
  }

  lemma WindowIsPart(d: Digests, parts: seq<CompletedPart>, ms: seq<Manifest>, m: Manifest, i: nat, w: Window)
    requires |parts| == |ms| > 0 && AllSized(ms) && Assembles(d, parts, ms, m) && Multipart.Ascending(parts)
    requires i < |parts| && IsWindow(m, parts[i].number, w)
    ensures |m.parts| == |parts| && w.ok && w.off == SizeBefore(m.parts, i) && w.size == m.parts[i].size
  {
    NumbersAscend(parts, ms, m.parts);
    WindowOfNumber(m, i, w);
  }
}
