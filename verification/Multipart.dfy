/** Completing a multipart upload: the named parts become one object, and the object's parts can be
    read back by number. Digests of which only the value matters are parameters. */
module Multipart {
  import opened Basics
  import opened KeyOrder
  import opened Objects
  import opened Crc
  import opened CrcCombine

  datatype Algorithm = Crc32C | Crc32 | Crc64Nvme

  function Poly(a: Algorithm): (r: Word)
    ensures |r| == Width(a)
  {
    match a
    case Crc32C => Castagnoli()
    case Crc32 => Ieee()
    case Crc64Nvme => Nvme()
  }

  function Width(a: Algorithm): nat { if a == Crc64Nvme then 64 else 32 }

  /** The checksums an object carries: any of them may be missing. */
  type Sums = map<Algorithm, Word>

  predicate WellSized(sums: Sums) {
    forall a :: a in sums ==> |sums[a]| == Width(a)
  }

  datatype Coding = Coding(data: nat, parity: nat)
  datatype Part = Part(number: int, size: nat, sums: Sums)
  datatype Manifest = Manifest(size: nat, etag: string, nodes: seq<string>, coding: Coding,
                               chunks: seq<ChunkRef>, sums: Sums, parts: seq<Part>,
                               contentType: string, meta: map<string, string>)
  datatype CompletedPart = CompletedPart(number: int, etag: string)

  datatype Error = NoSuchPart | PartOrder | PartMismatch | Placement | BadETag | BadDigest
  datatype Result = Ok(manifest: Manifest) | Err(error: Error)

  /** `raw` decodes a part's ETag; `multipart` makes the object's from theirs and their number. */
  datatype Digests = Digests(raw: string -> Option<seq<byte>>, multipart: (seq<byte>, nat) -> string)

  // What each part must be

  function TrimQuotes(s: string): string {
    if s != [] && s[0] == '"' then TrimQuotes(s[1..])
    else if s != [] && s[|s| - 1] == '"' then TrimQuotes(s[..|s| - 1])
    else s
  }

  function Quotes(n: nat): (r: string)
    ensures |r| == n && forall i :: 0 <= i < n ==> r[i] == '"'
  {
    seq(n, _ => '"')
  }

  lemma {:induction false} TrimQuotesFront(n: nat, s: string)
    ensures TrimQuotes(Quotes(n) + s) == TrimQuotes(s)
  {
    var quoted := Quotes(n) + s;
    if n == 0 {
      assert quoted == s;
    } else {
      assert quoted[1..] == Quotes(n - 1) + s;
      TrimQuotesFront(n - 1, s);
    }
  }

  lemma {:induction false} TrimQuotesBack(s: string, n: nat)
    requires s != [] && s[0] != '"'
    ensures TrimQuotes(s + Quotes(n)) == TrimQuotes(s)
  {
    var quoted := s + Quotes(n);
    if n == 0 {
      assert quoted == s;
    } else {
      assert quoted[..|quoted| - 1] == s + Quotes(n - 1);
      TrimQuotesBack(s, n - 1);
    }
  }

  lemma TrimQuotesIs(m: nat, r: string, n: nat)
    requires r == [] || (r[0] != '"' && r[|r| - 1] != '"')
    ensures TrimQuotes(Quotes(m) + r + Quotes(n)) == r
  {
    assert Quotes(m) + r + Quotes(n) == Quotes(m) + (r + Quotes(n));
    TrimQuotesFront(m, r + Quotes(n));
    if r == [] {
      assert r + Quotes(n) == Quotes(n) + [];
      TrimQuotesFront(n, []);
    } else {
      TrimQuotesBack(r, n);
    }
  }

  /** An ETag without its quotes is the one string that has none at either end and that quotes alone surround. */
  lemma TrimQuotesIff(s: string, r: string)
    ensures TrimQuotes(s) == r <==>
            && (r == [] || (r[0] != '"' && r[|r| - 1] != '"'))
            && exists m: nat, n: nat :: s == Quotes(m) + r + Quotes(n)
  {
    var before, after := QuotesAround(s);
    if (r == [] || (r[0] != '"' && r[|r| - 1] != '"')) && exists m: nat, n: nat :: s == Quotes(m) + r + Quotes(n) {
      var m: nat, n: nat :| s == Quotes(m) + r + Quotes(n);
      TrimQuotesIs(m, r, n);
    }
  }

  lemma OneQuoteMore(s: string, m: nat, r: string, n: nat)
    requires s != []
    ensures s[0] == '"' && s[1..] == Quotes(m) + r + Quotes(n) ==> s == Quotes(m + 1) + r + Quotes(n)
    ensures s[|s| - 1] == '"' && s[..|s| - 1] == Quotes(m) + r + Quotes(n) ==> s == Quotes(m) + r + Quotes(n + 1)
  {
    assert Quotes(m + 1) == ['"'] + Quotes(m) && Quotes(n + 1) == Quotes(n) + ['"'];
    assert s == [s[0]] + s[1..] && s == s[..|s| - 1] + [s[|s| - 1]];
  }

  lemma {:induction false} QuotesAround(s: string) returns (m: nat, n: nat)
    ensures var r := TrimQuotes(s);
            && s == Quotes(m) + r + Quotes(n)
            && (r == [] || (r[0] != '"' && r[|r| - 1] != '"'))
    decreases |s|
  {
    if s != [] && s[0] == '"' {
      m, n := QuotesAround(s[1..]);
      OneQuoteMore(s, m, TrimQuotes(s), n);
      m := m + 1;
    } else if s != [] && s[|s| - 1] == '"' {
      m, n := QuotesAround(s[..|s| - 1]);
      OneQuoteMore(s, m, TrimQuotes(s), n);
      n := n + 1;
    } else {
      m, n := 0, 0;
    }
  }

  predicate Sorted(parts: seq<CompletedPart>) {
    forall i :: 0 <= i < |parts| - 1 ==> parts[i].number <= parts[i + 1].number
  }

  predicate Ascending(parts: seq<CompletedPart>) {
    forall i, j :: 0 <= i < j < |parts| ==> parts[i].number < parts[j].number
  }

  /** What is wrong with the i-th named part, if anything. */
  function Fault(d: Digests, parts: seq<CompletedPart>, stored: map<int, Manifest>, i: nat): Option<Error>
    requires i < |parts|
  {
    var p := parts[i];
    if i > 0 && p.number == parts[i - 1].number then Some(PartOrder)
    else if p.number !in stored then Some(NoSuchPart)
    else
      var m, want := stored[p.number], TrimQuotes(p.etag);
      if want != "" && want != m.etag then Some(PartMismatch)
      else if i > 0 && parts[0].number in stored
        && (stored[parts[0].number].nodes != m.nodes || stored[parts[0].number].coding != m.coding) then Some(Placement)
      else if d.raw(m.etag).None? then Some(BadETag)
      else None
  }

  /** A named part is as the client and the upload say: not named twice, stored, with the ETag given if one is,
      placed like the first, and with an ETag that decodes. */
  predicate AsNamed(d: Digests, parts: seq<CompletedPart>, stored: map<int, Manifest>, i: nat)
    requires i < |parts|
  {
    && (i > 0 ==> parts[i].number != parts[i - 1].number)
    && parts[i].number in stored && parts[0].number in stored
    && var m, first, want := stored[parts[i].number], stored[parts[0].number], TrimQuotes(parts[i].etag);
    && (want == "" || want == m.etag) && m.nodes == first.nodes && m.coding == first.coding && d.raw(m.etag).Some?
  }

  predicate AllAsNamed(d: Digests, parts: seq<CompletedPart>, stored: map<int, Manifest>, n: nat)
    requires n <= |parts|
  {
    forall j: nat :: j < n ==> AsNamed(d, parts, stored, j)
  }

  // What the parts add up to

  function Named(parts: seq<CompletedPart>, stored: map<int, Manifest>): (ms: seq<Manifest>)
    requires forall p :: p in parts ==> p.number in stored
    ensures |ms| == |parts| && forall i :: 0 <= i < |parts| ==> ms[i] == stored[parts[i].number]
  {
    seq(|parts|, i requires 0 <= i < |parts| => stored[parts[i].number])
  }

  function ChunksOf(ms: seq<Manifest>): seq<ChunkRef> {
    if ms == [] then [] else ChunksOf(ms[..|ms| - 1]) + ms[|ms| - 1].chunks
  }

  function SizeOf(ms: seq<Manifest>): nat {
    if ms == [] then 0 else SizeOf(ms[..|ms| - 1]) + ms[|ms| - 1].size
  }

  function RawOf(d: Digests, ms: seq<Manifest>): seq<byte> {
    if ms == [] then []
    else RawOf(d, ms[..|ms| - 1]) + if d.raw(ms[|ms| - 1].etag).Some? then d.raw(ms[|ms| - 1].etag).value else []
  }

  predicate AllSized(ms: seq<Manifest>) {
    forall i :: 0 <= i < |ms| ==> WellSized(ms[i].sums)
  }

  /** One checksum of the whole, folded from the parts'. */
  function SumOf(poly: Word, a: Algorithm, ms: seq<Manifest>): (r: Option<Word>)
    requires |poly| == Width(a) && AllSized(ms)
    ensures r.Some? ==> |r.value| == |poly|
    decreases |ms|
  {
    if ms == [] || a !in ms[|ms| - 1].sums then None
    else
      var m, front := ms[|ms| - 1], ms[..|ms| - 1];
      if front == [] then Some(m.sums[a])
      else
        match SumOf(poly, a, front)
        case None => None
        case Some(sum) => Some(Combined(poly, sum, m.sums[a], m.size))
  }

  method Fold(a: Algorithm, have: Option<Word>, m: Manifest, first: bool) returns (r: Option<Word>)
    requires WellSized(m.sums) && (have.Some? ==> |have.value| == Width(a)) && (first ==> have.None?)
    ensures r == if a !in m.sums then None
                 else if first then Some(m.sums[a])
                 else if have.None? then None
                 else Some(Combined(Poly(a), have.value, m.sums[a], m.size))
  {
    if a !in m.sums {
      return None;
    }
    if have.None? && first {
      return Some(m.sums[a]);
    }
    if have.None? {
      return None;
    }
    var sum;
    match a {
      case Crc32C => sum := CombineCrc32C(have.value, m.sums[a], m.size);
      case Crc32 => sum := CombineCrc32(have.value, m.sums[a], m.size);
      case Crc64Nvme => sum := CombineCrc64Nvme(have.value, m.sums[a], m.size);
    }
    return Some(sum);
  }

  function SumsFrom(c: Option<Word>, i: Option<Word>, n: Option<Word>): (r: Sums)
    ensures Crc32C in r <==> c.Some?
    ensures Crc32 in r <==> i.Some?
    ensures Crc64Nvme in r <==> n.Some?
    ensures (c.Some? ==> r[Crc32C] == c.value) && (i.Some? ==> r[Crc32] == i.value)
            && (n.Some? ==> r[Crc64Nvme] == n.value)
  {
    var none: Sums := map[];
    (if c.Some? then none[Crc32C := c.value] else none)
    + (if i.Some? then none[Crc32 := i.value] else none)
    + (if n.Some? then none[Crc64Nvme := n.value] else none)
  }

  function PartOf(p: CompletedPart, m: Manifest): Part { Part(p.number, m.size, m.sums) }

  function PartsOf(parts: seq<CompletedPart>, ms: seq<Manifest>): (r: seq<Part>)
    requires |parts| == |ms|
    ensures |r| == |parts| && forall i :: 0 <= i < |r| ==> r[i] == PartOf(parts[i], ms[i])
  {
    seq(|parts|, i requires 0 <= i < |parts| => PartOf(parts[i], ms[i]))
  }

  predicate Declares(declared: Sums, sums: Sums) {
    forall a :: a in declared ==> a in sums && sums[a] == declared[a]
  }

  function Get(sums: Sums, a: Algorithm): Option<Word> {
    if a in sums then Some(sums[a]) else None
  }

  /** What has been gathered from the first parts: all of the object but its ETag, and their raw
      digests in order. */
  ghost predicate Gathered(d: Digests, parts: seq<CompletedPart>, ms: seq<Manifest>, m: Manifest, raws: seq<byte>)
    requires |parts| == |ms| && AllSized(ms)
  {
    && (ms != [] ==> m.nodes == ms[0].nodes && m.coding == ms[0].coding)
    && m.chunks == ChunksOf(ms) && m.size == SizeOf(ms)
    && m.parts == PartsOf(parts, ms)
    && raws == RawOf(d, ms)
    && SumsFold(ms, m.sums)
  }

  /** The object that a list of parts makes. */
  ghost predicate Assembles(d: Digests, parts: seq<CompletedPart>, ms: seq<Manifest>, m: Manifest)
    requires |parts| == |ms| && AllSized(ms)
  {
    Gathered(d, parts, ms, m, RawOf(d, ms)) && m.etag == d.multipart(RawOf(d, ms), |parts|)
  }

  predicate Faultless(d: Digests, parts: seq<CompletedPart>, stored: map<int, Manifest>, n: nat)
    requires n <= |parts|
  {
    forall j: nat :: j < n ==> Fault(d, parts, stored, j) == None
  }

  /** The first faulty part decides the error. */
  ghost predicate Refused(d: Digests, parts: seq<CompletedPart>, stored: map<int, Manifest>, e: Error) {
    exists i: nat :: i < |parts| && Faultless(d, parts, stored, i) && Fault(d, parts, stored, i) == Some(e)
  }

  /** The checks on one part, given the placement of the first. */
  method Check(d: Digests, parts: seq<CompletedPart>, stored: map<int, Manifest>, i: nat, first: Manifest)
    returns (e: Option<Error>)
    requires i < |parts|
    requires i > 0 ==> parts[0].number in stored && first.nodes == stored[parts[0].number].nodes
                       && first.coding == stored[parts[0].number].coding
    ensures e == Fault(d, parts, stored, i)
  {
    var p := parts[i];
    if i > 0 && p.number == parts[i - 1].number { return Some(PartOrder); }
    if p.number !in stored { return Some(NoSuchPart); }
    var m, want := stored[p.number], TrimQuotes(p.etag);
    if want != "" && want != m.etag { return Some(PartMismatch); }
    if i > 0 && (first.nodes != m.nodes || first.coding != m.coding) { return Some(Placement); }
    if d.raw(m.etag).None? { return Some(BadETag); }
    return None;
  }

  lemma SumNext(poly: Word, a: Algorithm, ms: seq<Manifest>, m: Manifest)
    requires |poly| == Width(a) && AllSized(ms) && WellSized(m.sums)
    ensures AllSized(ms + [m])
    ensures SumOf(poly, a, ms + [m]) ==
              if a !in m.sums then None
              else if ms == [] then Some(m.sums[a])
              else if SumOf(poly, a, ms).None? then None
              else Some(Combined(poly, SumOf(poly, a, ms).value, m.sums[a], m.size))
  {
    assert (ms + [m])[..|ms|] == ms;
  }

  lemma ListsNext(d: Digests, ms: seq<Manifest>, m: Manifest)
    ensures ChunksOf(ms + [m]) == ChunksOf(ms) + m.chunks && SizeOf(ms + [m]) == SizeOf(ms) + m.size
    ensures RawOf(d, ms + [m]) == RawOf(d, ms) + if d.raw(m.etag).Some? then d.raw(m.etag).value else []
  {
    assert (ms + [m])[..|ms|] == ms;
  }

  ghost predicate SumsFold(ms: seq<Manifest>, sums: Sums)
    requires AllSized(ms)
  {
    forall a :: Get(sums, a) == SumOf(Poly(a), a, ms)
  }

  method FoldOne(a: Algorithm, ghost ms: seq<Manifest>, have: Option<Word>, m: Manifest, first: bool)
    returns (r: Option<Word>)
    requires AllSized(ms) && WellSized(m.sums) && first == (ms == []) && have == SumOf(Poly(a), a, ms)
    ensures AllSized(ms + [m]) && r == SumOf(Poly(a), a, ms + [m])
  {
    ghost var poly := Poly(a);
    SumNext(poly, a, ms, m);
    r := Fold(a, have, m, first);
  }

  lemma SumsFromFold(ms: seq<Manifest>, c: Option<Word>, i: Option<Word>, n: Option<Word>)
    requires AllSized(ms) && c == SumOf(Poly(Crc32C), Crc32C, ms) && i == SumOf(Poly(Crc32), Crc32, ms)
    requires n == SumOf(Poly(Crc64Nvme), Crc64Nvme, ms)
    ensures SumsFold(ms, SumsFrom(c, i, n))
  {
    forall a ensures Get(SumsFrom(c, i, n), a) == SumOf(Poly(a), a, ms) {
      if a == Crc32C {} else if a == Crc32 {} else {}
    }
  }

  method FoldSums(ghost ms: seq<Manifest>, have: Sums, m: Manifest, first: bool) returns (sums: Sums)
    requires AllSized(ms) && SumsFold(ms, have) && WellSized(m.sums) && first == (ms == [])
    ensures AllSized(ms + [m]) && SumsFold(ms + [m], sums)
  {
    var c := FoldOne(Crc32C, ms, Get(have, Crc32C), m, first);
    var i := FoldOne(Crc32, ms, Get(have, Crc32), m, first);
    var n := FoldOne(Crc64Nvme, ms, Get(have, Crc64Nvme), m, first);
    sums := SumsFrom(c, i, n);
    SumsFromFold(ms + [m], c, i, n);
  }

  lemma GatheredNext(d: Digests, parts: seq<CompletedPart>, ms: seq<Manifest>, have: Manifest, raws: seq<byte>,
                     p: CompletedPart, m: Manifest, final: Manifest)
    requires |parts| == |ms| && AllSized(ms) && Gathered(d, parts, ms, have, raws) && AllSized(ms + [m])
    requires d.raw(m.etag).Some? && SumsFold(ms + [m], final.sums)
    requires final.nodes == (if ms == [] then m.nodes else have.nodes)
    requires final.coding == (if ms == [] then m.coding else have.coding)
    requires final.size == have.size + m.size && final.chunks == have.chunks + m.chunks
    requires final.parts == have.parts + [PartOf(p, m)]
    ensures Gathered(d, parts + [p], ms + [m], final, raws + d.raw(m.etag).value)
  {
    ListsNext(d, ms, m);
    assert PartsOf(parts + [p], ms + [m]) == PartsOf(parts, ms) + [PartOf(p, m)];
  }

  /** Appending one part that passed its checks. */
  method Append(d: Digests, ghost parts: seq<CompletedPart>, ghost ms: seq<Manifest>, have: Manifest, raws: seq<byte>,
                p: CompletedPart, m: Manifest, first: bool)
    returns (final: Manifest, raws': seq<byte>)
    requires |parts| == |ms| && AllSized(ms) && Gathered(d, parts, ms, have, raws) && WellSized(m.sums)
    requires first == (ms == []) && d.raw(m.etag).Some?
    ensures AllSized(ms + [m]) && Gathered(d, parts + [p], ms + [m], final, raws')
  {
    raws' := raws + d.raw(m.etag).value;
    var sums := FoldSums(ms, have.sums, m, first);
    var nodes, coding := have.nodes, have.coding;
    if first { nodes, coding := m.nodes, m.coding; }
    final := have.(size := have.size + m.size, nodes := nodes, coding := coding, chunks := have.chunks + m.chunks,
                   sums := sums, parts := have.parts + [PartOf(p, m)]);
    GatheredNext(d, parts, ms, have, raws, p, m, final);
  }

  lemma FaultlessAscends(d: Digests, parts: seq<CompletedPart>, stored: map<int, Manifest>)
    requires Sorted(parts) && Faultless(d, parts, stored, |parts|)
    ensures Ascending(parts) && forall p :: p in parts ==> p.number in stored
  {
    forall p | p in parts ensures p.number in stored {
      var i: nat :| i < |parts| && parts[i] == p;
      assert Fault(d, parts, stored, i) == None;
    }
    assert forall i: nat :: i < |parts| ==> Fault(d, parts, stored, i) == None;
    forall i, j | 0 <= i < j < |parts| ensures parts[i].number < parts[j].number { Climbs(d, parts, stored, i, j); }
  }

  lemma {:induction false} Climbs(d: Digests, parts: seq<CompletedPart>, stored: map<int, Manifest>, i: nat, j: nat)
    requires Sorted(parts) && Faultless(d, parts, stored, |parts|) && i < j < |parts|
    ensures parts[i].number < parts[j].number
    decreases j
  {
    assert Fault(d, parts, stored, j) == None;
    assert parts[j - 1].number <= parts[j].number;
    if i < j - 1 { Climbs(d, parts, stored, i, j - 1); }
  }

  predicate InStore(parts: seq<CompletedPart>, stored: map<int, Manifest>) {
    forall p :: p in parts ==> p.number in stored
  }

  /** The first `i` parts have passed their checks and been gathered. */
  ghost predicate Reached(d: Digests, parts: seq<CompletedPart>, stored: map<int, Manifest>, i: nat, m: Manifest,
                          raws: seq<byte>)
    requires i <= |parts|
  {
    && Faultless(d, parts, stored, i)
    && InStore(parts[..i], stored)
    && AllSized(Named(parts[..i], stored))
    && Gathered(d, parts[..i], Named(parts[..i], stored), m, raws)
  }

  lemma NamedNext(parts: seq<CompletedPart>, stored: map<int, Manifest>, i: nat)
    requires i < |parts| && InStore(parts[..i], stored) && parts[i].number in stored
    ensures parts[..i + 1] == parts[..i] + [parts[i]] && InStore(parts[..i + 1], stored)
    ensures Named(parts[..i + 1], stored) == Named(parts[..i], stored) + [stored[parts[i].number]]
  {
    assert parts[..i + 1] == parts[..i] + [parts[i]];
  }

  lemma ReachedFirst(d: Digests, parts: seq<CompletedPart>, stored: map<int, Manifest>, i: nat, m: Manifest,
                     raws: seq<byte>)
    requires 0 < i <= |parts| && Reached(d, parts, stored, i, m, raws)
    ensures parts[0].number in stored
    ensures m.nodes == stored[parts[0].number].nodes && m.coding == stored[parts[0].number].coding
  {
    assert parts[..i][0] == parts[0];
    assert parts[0] in parts[..i];
    assert Named(parts[..i], stored)[0] == stored[parts[0].number];
  }

  lemma FaultlessNext(d: Digests, parts: seq<CompletedPart>, stored: map<int, Manifest>, i: nat)
    requires i < |parts| && Faultless(d, parts, stored, i)
    ensures Fault(d, parts, stored, i) == None ==> Faultless(d, parts, stored, i + 1)
    ensures Fault(d, parts, stored, i).Some? ==> Refused(d, parts, stored, Fault(d, parts, stored, i).value)
  {
  }

  /** One turn of the loop: the part's fault, or one part more. */
  method Next(d: Digests, parts: seq<CompletedPart>, stored: map<int, Manifest>, i: nat, have: Manifest,
              raws: seq<byte>)
    returns (e: Option<Error>, final: Manifest, raws': seq<byte>)
    requires forall n :: n in stored ==> WellSized(stored[n].sums)
    requires i < |parts| && Reached(d, parts, stored, i, have, raws)
    ensures e.Some? ==> Refused(d, parts, stored, e.value)
    ensures e.None? ==> Reached(d, parts, stored, i + 1, final, raws')
  {
    if i > 0 { ReachedFirst(d, parts, stored, i, have, raws); }
    final, raws' := have, raws;
    e := Check(d, parts, stored, i, have);
    FaultlessNext(d, parts, stored, i);
    if e.None? {
      var m := stored[parts[i].number];
      NamedNext(parts, stored, i);
      final, raws' := Append(d, parts[..i], Named(parts[..i], stored), have, raws, parts[i], m, i == 0);
    }
  }

  /** The loop over the named parts: the first fault, or everything they add up to. */
  method Gather(d: Digests, parts: seq<CompletedPart>, stored: map<int, Manifest>)
    returns (e: Option<Error>, final: Manifest, raws: seq<byte>)
    requires forall n :: n in stored ==> WellSized(stored[n].sums)
    ensures e.Some? ==> Refused(d, parts, stored, e.value)
    ensures e.None? ==> Reached(d, parts, stored, |parts|, final, raws)
  {
    e, final, raws := None, Manifest(0, "", [], Coding(0, 0), [], map[], [], "", map[]), [];
    for i := 0 to |parts|
      invariant e.None? && Reached(d, parts, stored, i, final, raws)
    {
      e, final, raws := Next(d, parts, stored, i, final, raws);
      if e.Some? { return; }
    }
  }

  method InOrder(parts: seq<CompletedPart>) returns (r: bool)
    ensures r == Sorted(parts)
  {
    for i := 0 to |parts|
      invariant forall j :: 0 <= j < i - 1 ==> parts[j].number <= parts[j + 1].number
    {
      if i > 0 && parts[i - 1].number > parts[i].number { return false; }
    }
    return true;
  }

  /** The parts with which nothing is wrong are those that are as named. */
  lemma {:induction false} FaultlessIff(d: Digests, parts: seq<CompletedPart>, stored: map<int, Manifest>, n: nat)
    requires n <= |parts|
    ensures Faultless(d, parts, stored, n) <==> AllAsNamed(d, parts, stored, n)
  {
    if n > 0 {
      FaultlessIff(d, parts, stored, n - 1);
      if Faultless(d, parts, stored, n) || AllAsNamed(d, parts, stored, n) {
        assert n > 1 ==> AsNamed(d, parts, stored, 0);
        assert Fault(d, parts, stored, n - 1) == None <==> AsNamed(d, parts, stored, n - 1);
      }
    }
  }

  /** The first part that is not as named decides the error, by the first of these things that is wrong with it. */
  lemma FaultDecides(d: Digests, parts: seq<CompletedPart>, stored: map<int, Manifest>, i: nat, e: Error)
    requires i < |parts| && AllAsNamed(d, parts, stored, i) && !AsNamed(d, parts, stored, i)
    ensures var p := parts[i];
            Refused(d, parts, stored, e) <==>
              if i > 0 && p.number == parts[i - 1].number then e == PartOrder
              else if p.number !in stored then e == NoSuchPart
              else if TrimQuotes(p.etag) != "" && TrimQuotes(p.etag) != stored[p.number].etag then e == PartMismatch
              else if parts[0].number in stored
                      && (|| stored[p.number].nodes != stored[parts[0].number].nodes
                          || stored[p.number].coding != stored[parts[0].number].coding) then e == Placement
              else e == BadETag
  {
    if i > 0 { assert AsNamed(d, parts, stored, 0); }
    FaultlessIff(d, parts, stored, i);
    FaultlessIff(d, parts, stored, i + 1);
    assert Faultless(d, parts, stored, i) && Fault(d, parts, stored, i).Some?;
  }

  /** Every checksum the client declared is that of the assembled parts. */
  ghost predicate Confirms(declared: Sums, ms: seq<Manifest>)
    requires AllSized(ms)
  {
    forall a :: a in declared ==> SumOf(Poly(a), a, ms) == Some(declared[a])
  }

  lemma DeclaresIff(declared: Sums, ms: seq<Manifest>, sums: Sums)
    requires AllSized(ms) && SumsFold(ms, sums)
    ensures Declares(declared, sums) <==> Confirms(declared, ms)
  {
    forall a | a in declared
      ensures (a in sums && sums[a] == declared[a]) <==> SumOf(Poly(a), a, ms) == Some(declared[a])
    {
      assert Get(sums, a) == SumOf(Poly(a), a, ms);
    }
  }

  /** Nothing is wrong with the request: it names parts in ascending order, each is as it should be, and the
      checksums the client declared are those of the parts. */
  ghost predicate Acceptable(d: Digests, parts: seq<CompletedPart>, stored: map<int, Manifest>, declared: Sums) {
    && parts != [] && Sorted(parts) && Faultless(d, parts, stored, |parts|)
    && InStore(parts, stored) && AllSized(Named(parts, stored)) && Confirms(declared, Named(parts, stored))
  }

  /** The first thing wrong with a request. */
  ghost predicate FirstWrong(d: Digests, parts: seq<CompletedPart>, stored: map<int, Manifest>, e: Error) {
    if parts == [] then e == NoSuchPart
    else if !Sorted(parts) then e == PartOrder
    else if !Faultless(d, parts, stored, |parts|) then Refused(d, parts, stored, e)
    else e == BadDigest
  }

  lemma AssembledAsNamed(d: Digests, parts: seq<CompletedPart>, stored: map<int, Manifest>, final: Manifest)
    requires InStore(parts, stored) && AllSized(Named(parts, stored)) && AllAsNamed(d, parts, stored, |parts|)
    requires Assembles(d, parts, Named(parts, stored), final)
    ensures |final.parts| == |parts| && forall i :: 0 <= i < |parts| ==>
              && parts[i].number in stored
              && var m, want := stored[parts[i].number], TrimQuotes(parts[i].etag);
              && (want == "" || want == m.etag) && d.raw(m.etag).Some?
              && final.nodes == m.nodes && final.coding == m.coding
              && final.parts[i] == Part(parts[i].number, m.size, m.sums)
  {
    var ms := Named(parts, stored);
    forall i: nat | i < |parts|
      ensures ms != [] && AsNamed(d, parts, stored, i) && final.parts[i] == PartOf(parts[i], ms[i])
    {
    }
  }

  /** A request with nothing wrong gives an object of exactly the named parts in ascending order, and any other
      the first thing wrong with it. */
  method Assemble(d: Digests, parts: seq<CompletedPart>, stored: map<int, Manifest>, declared: Sums) returns (r: Result)
    requires forall n :: n in stored ==> WellSized(stored[n].sums)
    ensures r.Ok? <==> Acceptable(d, parts, stored, declared)
    ensures r.Ok? ==> Ascending(parts) && Assembles(d, parts, Named(parts, stored), r.manifest)
    ensures r.Ok? ==> |r.manifest.parts| == |parts| && forall i :: 0 <= i < |parts| ==>
              && parts[i].number in stored
              && var m, want := stored[parts[i].number], TrimQuotes(parts[i].etag);
              && (want == "" || want == m.etag) && d.raw(m.etag).Some?
              && r.manifest.nodes == m.nodes && r.manifest.coding == m.coding
              && r.manifest.parts[i] == Part(parts[i].number, m.size, m.sums)
    ensures r.Ok? ==> r.manifest.etag == d.multipart(RawOf(d, Named(parts, stored)), |parts|)
    ensures r.Err? ==> FirstWrong(d, parts, stored, r.error)
    ensures |parts| == 0 ==> r == Err(NoSuchPart)
    ensures (exists i :: 0 < i < |parts| && parts[i - 1].number > parts[i].number) ==> r == Err(PartOrder)
    ensures Sorted(parts) && AllAsNamed(d, parts, stored, |parts|) && |parts| > 0 ==> r.Ok? || r == Err(BadDigest)
  {
    if |parts| == 0 { return Err(NoSuchPart); }
    var sorted := InOrder(parts);
    if !sorted { return Err(PartOrder); }
    FaultlessIff(d, parts, stored, |parts|);
    var e, final, raws := Gather(d, parts, stored);
    if e.Some? {
      RefusedIsFaulty(d, parts, stored, e.value);
      return Err(e.value);
    }
    FaultlessAscends(d, parts, stored);
    assert parts[..|parts|] == parts;
    final := final.(etag := d.multipart(raws, |parts|));
    DeclaresIff(declared, Named(parts, stored), final.sums);
    AssembledAsNamed(d, parts, stored, final);
    if !Declares(declared, final.sums) { return Err(BadDigest); }
    return Ok(final);
  }

  lemma RefusedIsFaulty(d: Digests, parts: seq<CompletedPart>, stored: map<int, Manifest>, e: Error)
    requires Refused(d, parts, stored, e)
    ensures !Faultless(d, parts, stored, |parts|)
  {
    var i: nat :| i < |parts| && Faultless(d, parts, stored, i) && Fault(d, parts, stored, i) == Some(e);
  }

  // The whole request

  datatype Upload = Upload(key: string, contentType: string, meta: map<string, string>)

  /** What a completion does to etcd, in order. */
  datatype Step = Commit(key: string, manifest: Manifest) | Remember(etag: string) | Forget

  datatype Answer =
    | Completed(manifest: Manifest)
    | Already(etag: string)
    | NoSuchUpload
    | Refusal(error: Error)
    | NotCommitted

  /** A completion of an upload that is gone is answered with what it produced, if that is remembered. One that
      is refused changes nothing; otherwise the object is committed first, and the upload is remembered as
      completed before it is forgotten. `commits` says whether the commit succeeds. */
  method CompleteUpload(d: Digests, upload: Option<Upload>, completed: Option<string>, parts: seq<CompletedPart>,
                        stored: map<int, Manifest>, declared: Sums, commits: bool) returns (a: Answer, steps: seq<Step>)
    requires forall n :: n in stored ==> WellSized(stored[n].sums)
    ensures upload.None? ==> steps == [] && a == if completed.Some? then Already(completed.value) else NoSuchUpload
    ensures upload.Some? && !Acceptable(d, parts, stored, declared) ==>
              steps == [] && a.Refusal? && FirstWrong(d, parts, stored, a.error)
    ensures upload.Some? && Acceptable(d, parts, stored, declared) ==>
              && steps != [] && steps[0].Commit? && steps[0].key == upload.value.key
              && var m := steps[0].manifest;
              && Assembles(d, parts, Named(parts, stored), m)
              && m.contentType == upload.value.contentType && m.meta == upload.value.meta
              && if commits then a == Completed(m) && steps == [Commit(upload.value.key, m), Remember(m.etag), Forget]
                 else a == NotCommitted && steps == [Commit(upload.value.key, m)]
  {
    if upload.None? { return if completed.Some? then Already(completed.value) else NoSuchUpload, []; }
    var r := Assemble(d, parts, stored, declared);
    if r.Err? { return Refusal(r.error), []; }
    var m := r.manifest.(contentType := upload.value.contentType, meta := upload.value.meta);
    steps := [Commit(upload.value.key, m)];
    if !commits { return NotCommitted, steps; }
    return Completed(m), steps + [Remember(m.etag), Forget];
  }
}
