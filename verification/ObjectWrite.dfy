/** Cutting a stream into chunks, and the order in which a write asks for its record and its chunks. */
module ObjectWrite {
  import opened Basics
  import opened KeyOrder
  import opened Objects
  import Crc

  const INDEX_WIDTH := 6
  const SMALL_OBJECT := 0x10_0000

  // Names

  function Decimal(n: nat): string {
    if n < 10 then ["0123456789"[n]] else Decimal(n / 10) + ["0123456789"[n % 10]]
  }

  function Padded(n: nat, width: nat): string {
    var s := Decimal(n);
    if |s| >= width then s else seq(width - |s|, _ => '0') + s
  }

  function ChunkName(prefix: string, i: nat): string { prefix + Padded(i, INDEX_WIDTH) }

  function ShardName(chunk: string, i: nat): string { chunk + "s" + Padded(i, 2) }

  function WriteId(chunk: string): string {
    if |chunk| <= INDEX_WIDTH then "" else chunk[..|chunk| - INDEX_WIDTH]
  }

  function Power10(k: nat): nat { if k == 0 then 1 else 10 * Power10(k - 1) }

  lemma {:induction false} DecimalLength(n: nat, k: nat)
    requires k > 0
    ensures |Decimal(n)| <= k <==> n < Power10(k)
    decreases k
  {
    if k == 1 {
      assert Power10(1) == 10 by { assert Power10(0) == 1; }
      if n >= 10 { assert |Decimal(n / 10)| >= 1; }
    } else if n >= 10 {
      DecimalLength(n / 10, k - 1);
    } else {
      PowerGrows(k);
    }
  }

  lemma {:induction false} PowerGrows(k: nat)
    requires k > 0
    ensures Power10(k) >= 10
  {
    if k > 1 { PowerGrows(k - 1); } else { assert Power10(0) == 1; }
  }

  /** The id of a write can be read off its chunks' names while their index fits its digits, and no
      longer; it is a prefix of them, and of their shards' names, whatever the index. */
  lemma WriteIdIff(prefix: string, i: nat, shard: nat)
    ensures WriteId(ChunkName(prefix, i)) == prefix <==> i < 1_000_000
    ensures prefix <= ChunkName(prefix, i) <= ShardName(ChunkName(prefix, i), shard)
  {
    DecimalLength(i, INDEX_WIDTH);
    assert Power10(INDEX_WIDTH) == 1_000_000;
    var name := ChunkName(prefix, i);
    assert name[..|prefix|] == prefix;
    assert name[..|name|] == name && ShardName(name, shard) == name + ("s" + Padded(shard, 2));
  }

  /** The id a write is recorded under, read off its first chunk. */
  lemma MarkedId(prefix: string)
    ensures WriteId(ChunkName(prefix, 0)) == prefix
  {
    WriteIdIff(prefix, 0, 0);
    PowerGrows(INDEX_WIDTH);
  }

  /** The number a string of digits spells, leading zeros and all. */
  function Spelt(s: string): nat {
    if s == [] then 0
    else 10 * Spelt(s[..|s| - 1]) + if '0' <= s[|s| - 1] <= '9' then (s[|s| - 1] - '0') as nat else 0
  }

  lemma {:induction false} SpeltDecimal(n: nat)
    ensures Spelt(Decimal(n)) == n
  {
    var s := Decimal(n);
    if n >= 10 {
      SpeltDecimal(n / 10);
      assert s[..|s| - 1] == Decimal(n / 10);
    } else {
      assert s[..0] == [] && Spelt([]) == 0;
    }
  }

  lemma {:induction false} SpeltZeros(k: nat, s: string)
    ensures Spelt(seq(k, _ => '0') + s) == Spelt(s)
    decreases |s|, k
  {
    var zeros := seq(k, _ => '0');
    if s != [] {
      assert (zeros + s)[..|zeros + s| - 1] == zeros + s[..|s| - 1];
      SpeltZeros(k, s[..|s| - 1]);
    } else if k > 0 {
      assert zeros + s == zeros && zeros[..k - 1] == seq(k - 1, _ => '0');
      SpeltZeros(k - 1, []);
      assert seq(k - 1, _ => '0') + [] == seq(k - 1, _ => '0');
    }
  }

  /** No two chunks of a write share a name, and no two shards of a chunk. */
  lemma NamesDiffer(prefix: string, i: nat, j: nat)
    ensures ChunkName(prefix, i) == ChunkName(prefix, j) <==> i == j
    ensures ShardName(prefix, i) == ShardName(prefix, j) <==> i == j
  {
    SpeltPadded(i, INDEX_WIDTH);
    SpeltPadded(j, INDEX_WIDTH);
    SpeltPadded(i, 2);
    SpeltPadded(j, 2);
    assert forall n :: ChunkName(prefix, n)[|prefix|..] == Padded(n, INDEX_WIDTH);
    assert forall n :: ShardName(prefix, n)[|prefix| + 1..] == Padded(n, 2);
  }

  lemma SpeltPadded(n: nat, width: nat)
    ensures Spelt(Padded(n, width)) == n
  {
    SpeltDecimal(n);
    SpeltZeros(if |Decimal(n)| >= width then 0 else width - |Decimal(n)|, Decimal(n));
  }

  function Digit(c: char): int { c as int - '0' as int }

  /** A chunk's name is its write's id and its index in six digits; a shard's is its chunk's, an "s" and its position
      in two. */
  lemma NamesSpelt(prefix: string, i: nat, j: nat)
    requires i < 1_000_000 && j < 100
    ensures var name, n := ChunkName(prefix, i), |prefix|;
            && |name| == n + 6 && name[..n] == prefix
            && i == 100_000 * Digit(name[n]) + 10_000 * Digit(name[n + 1]) + 1_000 * Digit(name[n + 2])
                    + 100 * Digit(name[n + 3]) + 10 * Digit(name[n + 4]) + Digit(name[n + 5])
    ensures var name, n := ShardName(prefix, j), |prefix|;
            && |name| == n + 3 && name[..n] == prefix && name[n] == 's'
            && j == 10 * Digit(name[n + 1]) + Digit(name[n + 2])
    ensures forall k :: |prefix| <= k < |prefix| + 6 ==> '0' <= ChunkName(prefix, i)[k] <= '9'
    ensures '0' <= ShardName(prefix, j)[|prefix| + 1] <= '9' && '0' <= ShardName(prefix, j)[|prefix| + 2] <= '9'
  {
    SixDigits(i);
    TwoDigits(j);
    var name, shard := ChunkName(prefix, i), ShardName(prefix, j);
    assert name[|prefix|..] == Padded(i, 6) && shard[|prefix| + 1..] == Padded(j, 2);
  }

  lemma {:induction false} DigitsOnly(n: nat, width: nat)
    ensures forall k :: 0 <= k < |Padded(n, width)| ==> '0' <= Padded(n, width)[k] <= '9'
    ensures forall k :: 0 <= k < |Decimal(n)| ==> '0' <= Decimal(n)[k] <= '9'
  {
    if n >= 10 { DigitsOnly(n / 10, width); }
  }

  lemma SixDigits(i: nat)
    requires i < 1_000_000
    ensures var s := Padded(i, 6);
            && |s| == 6 && (forall k :: 0 <= k < 6 ==> '0' <= s[k] <= '9')
            && i == 100_000 * Digit(s[0]) + 10_000 * Digit(s[1]) + 1_000 * Digit(s[2]) + 100 * Digit(s[3])
                    + 10 * Digit(s[4]) + Digit(s[5])
  {
    DecimalLength(i, 6);
    assert Power10(6) == 1_000_000;
    DigitsOnly(i, 6);
    SpeltPadded(i, 6);
    var s := Padded(i, 6);
    SpeltNext(s, 6);
    SpeltNext(s, 5);
    SpeltNext(s, 4);
    SpeltNext(s, 3);
    SpeltNext(s, 2);
    SpeltNext(s, 1);
    assert s[..6] == s && Spelt(s[..0]) == 0;
  }

  lemma TwoDigits(j: nat)
    requires j < 100
    ensures var s := Padded(j, 2);
            |s| == 2 && (forall k :: 0 <= k < 2 ==> '0' <= s[k] <= '9') && j == 10 * Digit(s[0]) + Digit(s[1])
  {
    DecimalLength(j, 2);
    assert Power10(2) == 100;
    DigitsOnly(j, 2);
    SpeltPadded(j, 2);
    var s := Padded(j, 2);
    SpeltNext(s, 2);
    SpeltNext(s, 1);
    assert s[..2] == s && Spelt(s[..0]) == 0;
  }

  lemma SpeltNext(s: string, k: nat)
    requires 0 < k <= |s| && '0' <= s[k - 1] <= '9'
    ensures Spelt(s[..k]) == 10 * Spelt(s[..k - 1]) + Digit(s[k - 1])
  {
    assert s[..k][..k - 1] == s[..k - 1];
  }

  /** Write ids are all of one length, so a record's id begins a chunk's or a shard's name exactly when
      it is the id of the write that made it. */
  lemma RecordNamesItsOwn(record: string, prefix: string, i: nat, shard: nat)
    requires |record| == |prefix|
    ensures record <= ChunkName(prefix, i) <==> record == prefix
    ensures record <= ShardName(ChunkName(prefix, i), shard) <==> record == prefix
  {
    WriteIdIff(prefix, i, shard);
    var name, file := ChunkName(prefix, i), ShardName(ChunkName(prefix, i), shard);
    assert name[..|prefix|] == prefix && file[..|prefix|] == prefix by { assert file[..|name|] == name; }
  }

  // Cutting

  /** The pieces of a body: full chunks, and what is left over. */
  function Cut(data: seq<byte>, size: nat): seq<seq<byte>>
    requires size > 0
  {
    if data == [] then []
    else if |data| <= size then [data]
    else [data[..size]] + Cut(data[size..], size)
  }

  lemma {:induction false} CutJoins(data: seq<byte>, size: nat)
    requires size > 0
    ensures Joined(Cut(data, size)) == data
    decreases |data|
  {
    if data == [] {
    } else if |data| <= size {
      JoinedCons(data, []);
      assert [data] + [] == [data] && data + [] == data;
    } else {
      CutJoins(data[size..], size);
      JoinedCons(data[..size], Cut(data[size..], size));
    }
  }

  predicate Full(pieces: seq<seq<byte>>, size: nat) {
    forall i :: 0 <= i < |pieces| ==> 0 < |pieces[i]| <= size && (i < |pieces| - 1 ==> |pieces[i]| == size)
  }

  lemma {:induction false} CutSizes(data: seq<byte>, size: nat)
    requires size > 0
    ensures Full(Cut(data, size), size)
    decreases |data|
  {
    if |data| > size {
      CutSizes(data[size..], size);
      FullCons(data[..size], Cut(data[size..], size), size);
    }
  }

  lemma FullCons(first: seq<byte>, rest: seq<seq<byte>>, size: nat)
    requires |first| == size > 0 && Full(rest, size)
    ensures Full([first] + rest, size)
  {
  }

  /** The pieces are the body; all but the last are exactly full and none is empty. */
  lemma CutIsBody(data: seq<byte>, size: nat)
    requires size > 0
    ensures Joined(Cut(data, size)) == data && Full(Cut(data, size), size)
  {
    CutJoins(data, size);
    CutSizes(data, size);
  }

  lemma FirstIsFull(data: seq<byte>, size: nat)
    requires size > 0
    ensures |Cut(data, size)| > 1 ==> |Cut(data, size)[0]| == size
  {
  }

  lemma CutNext(data: seq<byte>, size: nat)
    requires size > 0 && data != []
    ensures var n := Min(|data|, size); Cut(data, size) == [data[..n]] + Cut(data[n..], size)
  {
    if |data| <= size { assert data[..|data|] == data && data[|data|..] == []; }
  }

  // What a write asks for, in order

  datatype Request = Mark(write: string) | Place(chunk: ChunkRef, data: seq<byte>)

  /** The checksum that goes into a chunk's reference. */
  type Sum = seq<byte> -> Crc.Word

  function RefOf(prefix: string, sum: Sum, i: nat, piece: seq<byte>): ChunkRef {
    ChunkRef(ChunkName(prefix, i), |piece|, sum(piece))
  }

  function RefsOf(prefix: string, sum: Sum, pieces: seq<seq<byte>>): (r: seq<ChunkRef>)
    ensures |r| == |pieces| && forall i :: 0 <= i < |r| ==> r[i] == RefOf(prefix, sum, i, pieces[i])
  {
    seq(|pieces|, i requires 0 <= i < |pieces| => RefOf(prefix, sum, i, pieces[i]))
  }

  /** The requests for the first `n` pieces: a record first if the first piece is full. */
  function Requests(prefix: string, sum: Sum, pieces: seq<seq<byte>>, size: nat, n: nat): seq<Request>
    requires n <= |pieces|
  {
    if n == 0 then []
    else
      Requests(prefix, sum, pieces, size, n - 1)
      + (if n == 1 && |pieces[0]| == size then [Mark(prefix)] else [])
      + [Place(RefOf(prefix, sum, n - 1, pieces[n - 1]), pieces[n - 1])]
  }

  lemma {:induction false} RequestsGrow(prefix: string, sum: Sum, pieces: seq<seq<byte>>, size: nat, m: nat, n: nat)
    requires m <= n <= |pieces|
    ensures Requests(prefix, sum, pieces, size, m) <= Requests(prefix, sum, pieces, size, n)
    decreases n
  {
    if m < n { RequestsGrow(prefix, sum, pieces, size, m, n - 1); }
  }

  lemma {:induction false} RequestsAfterFirst(prefix: string, sum: Sum, pieces: seq<seq<byte>>, size: nat, n: nat,
                                              k: nat)
    requires n <= |pieces| && k < |Requests(prefix, sum, pieces, size, n)|
    ensures var r := Requests(prefix, sum, pieces, size, n);
            && (r[k].Mark? ==> k == 0 && |pieces[0]| == size && r[k] == Mark(prefix))
            && (r[k].Place? ==> prefix <= r[k].chunk.id && (|pieces[0]| == size ==> k > 0 && r[0] == Mark(prefix)))
    decreases n
  {
    var front := Requests(prefix, sum, pieces, size, n - 1);
    if k < |front| {
      RequestsAfterFirst(prefix, sum, pieces, size, n - 1, k);
      RequestsGrow(prefix, sum, pieces, size, n - 1, n);
    } else {
      if n > 1 {
        RequestsGrow(prefix, sum, pieces, size, 1, n);
        RequestsGrow(prefix, sum, pieces, size, 1, n - 1);
        assert Requests(prefix, sum, pieces, size, 0) == [];
      }
      WriteIdIff(prefix, n - 1, 0);
    }
  }

  /** Whatever a write has asked for when it stops, with an answer or without: a write of two chunks or
      more asked for its record before any chunk, and every chunk carries the record's id. */
  lemma MarkedBeforeFirstChunk(prefix: string, sum: Sum, data: seq<byte>, size: nat, asked: seq<Request>, k: nat)
    requires size > 0 && asked <= Requests(prefix, sum, Cut(data, size), size, |Cut(data, size)|) && k < |asked|
    ensures asked[k].Mark? ==> k == 0 && asked[k].write == prefix && |data| >= size
    ensures asked[k].Place? ==> prefix <= asked[k].chunk.id
    ensures asked[k].Place? && |Cut(data, size)| > 1 ==> k > 0 && asked[0] == Mark(prefix)
  {
    var pieces := Cut(data, size);
    CutIsBody(data, size);
    RequestsAfterFirst(prefix, sum, pieces, size, |pieces|, k);
  }

  // What the requests leave behind

  type Store = map<string, seq<byte>>

  /** The chunks there once these requests have been carried out, one after the other. */
  function CarriedOut(store: Store, asked: seq<Request>): Store {
    if asked == [] then store
    else
      var before, r := CarriedOut(store, asked[..|asked| - 1]), asked[|asked| - 1];
      if r.Place? then before[r.chunk.id := r.data] else before
  }

  lemma CarriedOutSnoc(store: Store, asked: seq<Request>, r: Request)
    ensures CarriedOut(store, asked + [r]) ==
              if r.Place? then CarriedOut(store, asked)[r.chunk.id := r.data] else CarriedOut(store, asked)
  {
    assert (asked + [r])[..|asked|] == asked;
  }

  lemma CarriedOutNext(store: Store, prefix: string, sum: Sum, pieces: seq<seq<byte>>, size: nat, n: nat, name: string)
    requires n < |pieces| && name == ChunkName(prefix, n)
    ensures CarriedOut(store, Requests(prefix, sum, pieces, size, n + 1)) ==
              CarriedOut(store, Requests(prefix, sum, pieces, size, n))[name := pieces[n]]
  {
    var asked, place := Requests(prefix, sum, pieces, size, n), Place(RefOf(prefix, sum, n, pieces[n]), pieces[n]);
    if n == 0 && |pieces[0]| == size {
      CarriedOutSnoc(store, asked, Mark(prefix));
      CarriedOutSnoc(store, asked + [Mark(prefix)], place);
    } else {
      assert asked + [] == asked;
      CarriedOutSnoc(store, asked, place);
    }
  }

  /** Whatever else was there, each of the first `n` pieces is then found under its own name. */
  lemma {:induction false} PieceUnderName(store: Store, prefix: string, sum: Sum, pieces: seq<seq<byte>>, size: nat,
                                          n: nat, i: nat, name: string)
    requires i < n <= |pieces| && name == ChunkName(prefix, i)
    ensures var after := CarriedOut(store, Requests(prefix, sum, pieces, size, n));
            name in after && after[name] == pieces[i]
    decreases n
  {
    var last := ChunkName(prefix, n - 1);
    assert name == last <==> i == n - 1 by { NamesDiffer(prefix, i, n - 1); }
    CarriedOutNext(store, prefix, sum, pieces, size, n - 1, last);
    if i < n - 1 { PieceUnderName(store, prefix, sum, pieces, size, n - 1, i, name); }
  }

  lemma NotItsName(prefix: string, i: nat, id: string)
    requires !(prefix <= id)
    ensures ChunkName(prefix, i) != id
  {
    WriteIdIff(prefix, i, 0);
  }

  /** A write touches nothing but what has its own names. */
  lemma {:induction false} OthersUntouched(store: Store, prefix: string, sum: Sum, pieces: seq<seq<byte>>, size: nat,
                                           n: nat, id: string)
    requires n <= |pieces| && !(prefix <= id)
    ensures var after := CarriedOut(store, Requests(prefix, sum, pieces, size, n));
            (id in after <==> id in store) && (id in store ==> after[id] == store[id])
    decreases n
  {
    if n > 0 {
      OthersUntouched(store, prefix, sum, pieces, size, n - 1, id);
      NotItsName(prefix, n - 1, id);
      CarriedOutNext(store, prefix, sum, pieces, size, n - 1, ChunkName(prefix, n - 1));
    }
  }

  /** The chunks of an object, looked up by the names its references give. */
  function LookedUp(store: Store, refs: seq<ChunkRef>): (r: seq<seq<byte>>)
    requires forall i :: 0 <= i < |refs| ==> refs[i].id in store
    ensures |r| == |refs| && forall i :: 0 <= i < |r| ==> r[i] == store[refs[i].id]
  {
    seq(|refs|, i requires 0 <= i < |refs| => store[refs[i].id])
  }

  /** These references find the body in a store, under names that all differ, with the right sizes and sums. */
  ghost predicate Finds(store: Store, refs: seq<ChunkRef>, sum: Sum, body: seq<byte>) {
    && (forall i, j :: 0 <= i < j < |refs| ==> refs[i].id != refs[j].id)
    && (forall i :: 0 <= i < |refs| ==>
          && refs[i].id in store
          && refs[i].size == |store[refs[i].id]| > 0 && refs[i].crc == sum(store[refs[i].id]))
    && Joined(LookedUp(store, refs)) == body
  }

  /** Carrying out a write's requests, on any store, makes its references find its body there. */
  lemma WrittenIsFound(store: Store, prefix: string, sum: Sum, data: seq<byte>, size: nat)
    requires size > 0
    ensures var pieces := Cut(data, size);
            var after := CarriedOut(store, Requests(prefix, sum, pieces, size, |pieces|));
            Finds(after, RefsOf(prefix, sum, pieces), sum, data)
  {
    var pieces := Cut(data, size);
    var refs, after := RefsOf(prefix, sum, pieces), CarriedOut(store, Requests(prefix, sum, pieces, size, |pieces|));
    CutIsBody(data, size);
    forall i, j | 0 <= i < j < |refs| ensures refs[i].id != refs[j].id { NamesDiffer(prefix, i, j); }
    forall i | 0 <= i < |refs|
      ensures refs[i].id in after && after[refs[i].id] == pieces[i] && refs[i].size == |pieces[i]| > 0
      ensures refs[i].crc == sum(pieces[i])
    {
      PieceUnderName(store, prefix, sum, pieces, size, |pieces|, i, refs[i].id);
    }
    assert LookedUp(after, refs) == pieces;
  }

  // The write itself

  /** The body of a request: what it still holds, and whether it then breaks off with an error. */
  class Source {
    var rest: seq<byte>
    const broken: bool

    constructor (rest: seq<byte>, broken: bool)
      ensures this.rest == rest && this.broken == broken
    {
      this.rest, this.broken := rest, broken;
    }
  }

  /** Fills the buffer from `from` on unless the source ends first, which is not an error. */
  method ReadOrEnd(r: Source, p: array<byte>, from: nat) returns (n: nat, ok: bool)
    requires from <= p.Length
    modifies r, p
    ensures n == Min(|old(r.rest)|, p.Length - from) && r.rest == old(r.rest)[n..]
    ensures p[..from] == old(p[..from]) && p[from..from + n] == old(r.rest)[..n]
    ensures ok == (n == p.Length - from || !r.broken)
  {
    n := Min(|r.rest|, p.Length - from);
    for i := 0 to n
      modifies p
      invariant p[..from] == old(p[..from])
      invariant p[from..from + i] == r.rest[..i]
    {
      p[from + i] := r.rest[i];
    }
    r.rest := r.rest[n..];
    ok := n == p.Length - from || !r.broken;
  }

  /** A buffer of a full chunk that holds what the small one held and one byte more. */
  method Grow(buf: array<byte>, extra: byte, size: nat) returns (grown: array<byte>)
    requires buf.Length < size
    ensures fresh(grown) && grown.Length == size && grown[..buf.Length + 1] == buf[..] + [extra]
  {
    grown := new byte[size];
    for i := 0 to buf.Length
      invariant grown[..i] == buf[..i]
    {
      grown[i] := buf[i];
    }
    grown[buf.Length] := extra;
  }

  lemma Slices(s: seq<byte>, n: nat, m: nat)
    requires n + m <= |s|
    ensures s[..n] + s[n..][..m] == s[..n + m] && s[n..][m..] == s[n + m..]
  {
  }

  /** Reads up to a chunk, into a buffer that is grown to a full chunk only once the source has proved
      to hold more than it. Fails exactly when the source breaks off inside the chunk. */
  method ReadChunk(r: Source, buf: array<byte>, size: nat) returns (n: nat, next: array<byte>, ok: bool)
    requires 0 < buf.Length <= size
    modifies r, buf
    ensures next == buf || fresh(next)
    ensures 0 < next.Length <= size && n <= next.Length
    ensures ok == !(r.broken && |old(r.rest)| < size)
    ensures ok ==> n == Min(|old(r.rest)|, size) && next[..n] == old(r.rest)[..n] && r.rest == old(r.rest)[n..]
  {
    next := buf;
    n, ok := ReadOrEnd(r, buf, 0);
    assert buf[..n] == buf[0..0 + n];
    if !ok || n < buf.Length || buf.Length == size { return; }
    ghost var all := old(r.rest);
    assert buf[..] == all[..n];
    var probe := new byte[1];
    var more;
    more, ok := ReadOrEnd(r, probe, 0);
    if !ok || more == 0 { return; }
    assert probe[0..0 + 1] == [probe[0]];
    Slices(all, n, 1);
    next := Grow(buf, probe[0], size);
    n := n + 1;
    assert next[..n] == all[..n];
    var rest;
    rest, ok := ReadOrEnd(r, next, n);
    Slices(all, n, rest);
    assert next[..n + rest] == next[..n] + next[n..n + rest];
    n := n + rest;
  }

  /** The handler each chunk is given to. `accepts` says which requests succeed. */
  class Upload {
    const size: nat
    const accepts: Request -> bool
    var writing: string
    var asked: seq<Request>

    constructor (size: nat, accepts: Request -> bool)
      ensures this.size == size && this.accepts == accepts && writing == "" && asked == []
    {
      this.size, this.accepts, writing, asked := size, accepts, "", [];
    }

    /** A full chunk may have a successor, so the write that has one says so before storing it. */
    method Commit(ref: ChunkRef, data: seq<byte>) returns (ok: bool)
      modifies this
      ensures var marks, mark := old(writing) == "" && |data| == size, Mark(WriteId(ref.id));
              && writing == (if marks then WriteId(ref.id) else old(writing))
              && asked == old(asked) + (if marks then [mark] else [])
                 + (if marks && !accepts(mark) then [] else [Place(ref, data)])
              && ok == ((marks ==> accepts(mark)) && accepts(Place(ref, data)))
    {
      if writing == "" && |data| == size {
        writing := WriteId(ref.id);
        asked := asked + [Mark(writing)];
        if !accepts(Mark(writing)) { return false; }
      }
      asked := asked + [Place(ref, data)];
      ok := accepts(Place(ref, data));
    }
  }

  predicate AllAccepted(accepts: Request -> bool, asked: seq<Request>) {
    forall r :: r in asked ==> accepts(r)
  }

  lemma AcceptedPrefix(accepts: Request -> bool, asked: seq<Request>, all: seq<Request>)
    requires asked <= all && AllAccepted(accepts, all)
    ensures AllAccepted(accepts, asked)
  {
    assert forall r :: r in asked ==> r in all;
  }

  /** After `i` pieces: what has been asked for, and that the rest of the source is the other pieces. */
  ghost predicate Writing(up: Upload, prefix: string, sum: Sum, pieces: seq<seq<byte>>, i: nat)
    requires i <= |pieces|
    reads up
  {
    && up.asked == Requests(prefix, sum, pieces, up.size, i)
    && AllAccepted(up.accepts, up.asked)
    && (up.writing == if i > 0 && |pieces[0]| == up.size then prefix else "")
  }

  /** Giving the handler one more piece. */
  method Give(up: Upload, prefix: string, sum: Sum, ghost pieces: seq<seq<byte>>, i: nat, data: seq<byte>)
    returns (ok: bool)
    requires prefix != "" && i < |pieces| && data == pieces[i] && Writing(up, prefix, sum, pieces, i)
    requires i > 0 ==> |pieces[0]| == up.size
    modifies up
    ensures ok ==> Writing(up, prefix, sum, pieces, i + 1)
    ensures up.asked <= Requests(prefix, sum, pieces, up.size, i + 1)
    ensures !ok ==> !AllAccepted(up.accepts, up.asked)
  {
    if i == 0 { MarkedId(prefix); }
    ok := up.Commit(ChunkRef(ChunkName(prefix, i), |data|, sum(data)), data);
  }

  /** Reading a chunk is reading the next piece. */
  method NextPiece(r: Source, buf: array<byte>, size: nat, ghost pieces: seq<seq<byte>>, ghost i: nat)
    returns (data: seq<byte>, next: array<byte>, ok: bool)
    requires 0 < buf.Length <= size && i <= |pieces| && Cut(r.rest, size) == pieces[i..]
    modifies r, buf
    ensures next == buf || fresh(next)
    ensures 0 < next.Length <= size
    ensures !ok ==> r.broken
    ensures ok && data == [] ==> !r.broken && i == |pieces| && r.rest == old(r.rest) == []
    ensures ok && data != [] ==> i < |pieces| && data == pieces[i] && Cut(r.rest, size) == pieces[i + 1..]
                                 && |old(r.rest)| == |data| + |r.rest|
  {
    var n;
    n, next, ok := ReadChunk(r, buf, size);
    data := next[..n];
    if ok && n > 0 {
      CutNext(old(r.rest), size);
      assert pieces[i..][0] == pieces[i] && pieces[i..][1..] == pieces[i + 1..];
    }
  }

  datatype Turn = Placed(chunk: ChunkRef) | Ended | Failed

  /** The write stands after `i` pieces: they have been asked for, and the source holds the others. */
  ghost predicate Standing(r: Source, up: Upload, prefix: string, sum: Sum, pieces: seq<seq<byte>>, i: nat)
    requires i <= |pieces|
    reads r, up
  {
    && up.size > 0 && prefix != "" && (|pieces| > 1 ==> |pieces[0]| == up.size)
    && Cut(r.rest, up.size) == pieces[i..] && Writing(up, prefix, sum, pieces, i)
  }

  /** One turn of the loop: read a piece and ask for it. */
  method WriteOne(r: Source, buf: array<byte>, up: Upload, prefix: string, sum: Sum, ghost pieces: seq<seq<byte>>,
                  i: nat)
    returns (t: Turn, next: array<byte>)
    requires 0 < buf.Length <= up.size && i <= |pieces| && Standing(r, up, prefix, sum, pieces, i)
    modifies r, up, buf
    ensures next == buf || fresh(next)
    ensures 0 < next.Length <= up.size
    ensures up.asked <= Requests(prefix, sum, pieces, up.size, |pieces|)
    ensures t.Failed? ==> r.broken || !AllAccepted(up.accepts, up.asked)
    ensures t.Ended? ==> !r.broken && i == |pieces| && r.rest == old(r.rest) == []
    ensures t.Ended? ==> Writing(up, prefix, sum, pieces, i)
    ensures t.Placed? ==>
              && i < |pieces| && t.chunk == RefOf(prefix, sum, i, pieces[i])
              && Standing(r, up, prefix, sum, pieces, i + 1)
              && |old(r.rest)| == t.chunk.size + |r.rest| && t.chunk.size > 0
  {
    RequestsGrow(prefix, sum, pieces, up.size, i, |pieces|);
    var data, read;
    data, next, read := NextPiece(r, buf, up.size, pieces, i);
    if !read { return Failed, next; }
    if |data| == 0 { return Ended, next; }
    RequestsGrow(prefix, sum, pieces, up.size, i + 1, |pieces|);
    var placed := Give(up, prefix, sum, pieces, i, data);
    if !placed { return Failed, next; }
    return Placed(ChunkRef(ChunkName(prefix, i), |data|, sum(data))), next;
  }

  /** The loop of a write, from its first buffer on. */
  method WriteAll(r: Source, first: array<byte>, up: Upload, prefix: string, sum: Sum, ghost pieces: seq<seq<byte>>)
    returns (refs: seq<ChunkRef>, total: nat, ok: bool)
    requires 0 < first.Length <= up.size && Standing(r, up, prefix, sum, pieces, 0)
    modifies r, up, first
    ensures up.asked <= Requests(prefix, sum, pieces, up.size, |pieces|)
    ensures ok ==> !r.broken && Writing(up, prefix, sum, pieces, |pieces|)
    ensures ok ==> refs == RefsOf(prefix, sum, pieces) && total == |old(r.rest)|
    ensures !ok ==> r.broken || !AllAccepted(up.accepts, up.asked)
  {
    refs, total := [], 0;
    var buf, i := first, 0;
    while true
      invariant 0 <= i <= |pieces| && Standing(r, up, prefix, sum, pieces, i) && total + |r.rest| == |old(r.rest)|
      invariant |refs| == i && forall j :: 0 <= j < i ==> refs[j] == RefOf(prefix, sum, j, pieces[j])
      invariant (buf == first || fresh(buf)) && 0 < buf.Length <= up.size
      decreases |r.rest|
    {
      var t;
      t, buf := WriteOne(r, buf, up, prefix, sum, pieces, i);
      match t {
        case Failed => return refs, total, false;
        case Ended => return refs, total, true;
        case Placed(chunk) => refs, total, i := refs + [chunk], total + chunk.size, i + 1;
      }
    }
  }

  /** Cuts the source into chunks and asks for them in order. It succeeds exactly when the source ends
      cleanly and every request is granted, and then the references find the body wherever the requests
      are carried out. */
  method Write(r: Source, size: int, hint: int, up: Upload, prefix: string, sum: Sum)
    returns (refs: seq<ChunkRef>, total: nat, ok: bool)
    requires size > 0 ==> up.size == size
    requires prefix != "" && up.asked == [] && up.writing == ""
    modifies r, up
    ensures size <= 0 ==> !ok && up.asked == [] && r.rest == old(r.rest)
    ensures size > 0 ==>
              var pieces := Cut(old(r.rest), size);
              && up.asked <= Requests(prefix, sum, pieces, size, |pieces|)
              && (ok <==> !r.broken && AllAccepted(up.accepts, Requests(prefix, sum, pieces, size, |pieces|)))
              && (ok ==> up.asked == Requests(prefix, sum, pieces, size, |pieces|))
              && (ok ==> refs == RefsOf(prefix, sum, pieces) && total == |old(r.rest)|)
              && (ok ==> forall store :: Finds(CarriedOut(store, up.asked), refs, sum, old(r.rest)))
  {
    refs, total, ok := [], 0, false;
    if size <= 0 { return; }
    var start := Min(size, SMALL_OBJECT);
    if hint > 0 { start := Min(size, hint); }
    var buf := new byte[start];
    ghost var pieces := Cut(r.rest, size);
    FirstIsFull(r.rest, size);
    refs, total, ok := WriteAll(r, buf, up, prefix, sum, pieces);
    ghost var all := Requests(prefix, sum, pieces, size, |pieces|);
    if AllAccepted(up.accepts, all) { AcceptedPrefix(up.accepts, up.asked, all); }
    forall store | ok ensures Finds(CarriedOut(store, up.asked), refs, sum, old(r.rest)) {
      WrittenIsFound(store, prefix, sum, old(r.rest), size);
    }
  }
}
