/** Streaming a window of an object out of its chunks. A chunk is known good only once it has been read
    to its end, so the last byte of each chunk's window is held back until then. */
module ObjectRead {
  import opened Basics
  import opened KeyOrder
  import opened Objects

  /** A chunk's reader: the pieces in which its bytes will arrive, and whether its checksum proves good
      when they have all been read. */
  datatype Reader = Reader(pieces: seq<seq<byte>>, verified: bool)

  const BUFFER_SIZE := 32768

  datatype Status = Going | End | Failed

  lemma JoinedHead(pieces: seq<seq<byte>>)
    requires pieces != []
    ensures Joined(pieces) == pieces[0] + Joined(pieces[1..])
  {
    JoinedCons(pieces[0], pieces[1..]);
    assert pieces == [pieces[0]] + pieces[1..];
  }

  /** One read of at most `max` bytes. The end is reported on its own, good or bad. */
  method Read(r: Reader, max: nat) returns (data: seq<byte>, status: Status, r': Reader)
    requires max > 0
    ensures data + Joined(r'.pieces) == Joined(r.pieces) && r'.verified == r.verified && |data| <= max
    ensures status == Going ==> |Joined(r'.pieces)| + |r'.pieces| < |Joined(r.pieces)| + |r.pieces|
    ensures status != Going ==> Joined(r.pieces) == [] && data == [] && status == if r.verified then End else Failed
  {
    if r.pieces == [] {
      return [], if r.verified then End else Failed, r;
    }
    var p := r.pieces[0];
    JoinedHead(r.pieces);
    if |p| <= max {
      return p, Going, r.(pieces := r.pieces[1..]);
    }
    r' := r.(pieces := [p[max..]] + r.pieces[1..]);
    JoinedHead(r'.pieces);
    assert r'.pieces[1..] == r.pieces[1..] && p == p[..max] + p[max..];
    return p[..max], Going, r';
  }

  /** Where the client's bytes go: a connection that takes `room` bytes more and then fails. */
  class Sink {
    var got: seq<byte>
    var room: nat

    method Write(p: seq<byte>) returns (ok: bool)
      modifies this
      ensures ok == (|p| <= old(room))
      ensures got == old(got) + p[..Min(|p|, old(room))] && room == old(room) - Min(|p|, old(room))
    {
      ok := |p| <= room;
      var n := if ok then |p| else room;
      got, room := got + p[..n], room - n;
    }
  }

  /** Passes writes through but keeps the most recent byte until it is released. */
  class HeldBack {
    const w: Sink
    var last: byte
    var held: bool

    constructor (w: Sink)
      ensures this.w == w && !held
    {
      this.w, last, held := w, 0, false;
    }

    function Pending(): seq<byte>
      reads this
    {
      if held then [last] else []
    }

    method Release() returns (ok: bool)
      modifies this, w
      ensures !held && ok == (|old(Pending())| <= old(w.room))
      ensures w.got == old(w.got) + if ok then old(Pending()) else []
      ensures w.room == old(w.room) - (|w.got| - |old(w.got)|)
    {
      if !held { return true; }
      held := false;
      ok := w.Write([last]);
      assert [last][..0] == [] && [last][..1] == [last];
    }

    /** All but the last byte goes through, after the byte held until now. */
    method Write(p: seq<byte>) returns (ok: bool)
      modifies this, w
      ensures ok == (p == [] || |old(Pending())| + |p| - 1 <= old(w.room))
      ensures ok ==> w.got + Pending() == old(w.got) + old(Pending()) + p
      ensures ok ==> held == (p != [] || old(held))
      ensures old(w.got) <= w.got <= old(w.got) + old(Pending()) + p && w.room == old(w.room) - (|w.got| - |old(w.got)|)
      ensures !ok ==> |w.got| < |old(w.got)| + |old(Pending())| + |p|
    {
      if |p| == 0 { return true; }
      var front := p[..|p| - 1];
      ok := Release();
      if !ok { return; }
      if |p| > 1 {
        ok := w.Write(front);
        assert front[..|front|] == front;
        if !ok { return; }
      }
      last, held := p[|p| - 1], true;
      assert p == front + [last];
    }
  }

  /** Reads `n` bytes and throws them away. */
  method Discard(r: Reader, n: nat) returns (ok: bool, r': Reader)
    ensures r'.verified == r.verified
    ensures ok == (n <= |Joined(r.pieces)|)
    ensures ok ==> Joined(r'.pieces) == Joined(r.pieces)[n..]
  {
    r' := r;
    var done := 0;
    while done < n
      invariant 0 <= done <= n && done <= |Joined(r.pieces)| && r'.verified == r.verified
      invariant Joined(r'.pieces) == Joined(r.pieces)[done..]
      decreases |Joined(r'.pieces)| + |r'.pieces|
    {
      var data, status;
      data, status, r' := Read(r', Min(n - done, BUFFER_SIZE));
      if status != Going { return false, r'; }
      done := done + |data|;
    }
    return true, r';
  }

  /** Reads to the end, which is where the checksum is known. */
  method Drain(r: Reader) returns (ok: bool)
    ensures ok == r.verified
  {
    var r' := r;
    while true
      invariant r'.verified == r.verified
      decreases |Joined(r'.pieces)| + |r'.pieces|
    {
      var data, status;
      data, status, r' := Read(r', BUFFER_SIZE);
      if status != Going { return status == End; }
    }
  }

  /** A stream has reached the writer up to `done`, the last byte of it still held back. */
  ghost predicate Passing(h: HeldBack, was: seq<byte>, room: nat, all: seq<byte>, done: nat)
    reads h, h.w
  {
    && done <= |all| && h.held == (done > 0)
    && h.w.got + h.Pending() == was + all[..done]
    && |h.w.got| + h.w.room == |was| + room
  }

  /** Writing the next piece of the stream. */
  method Pass(h: HeldBack, data: seq<byte>, ghost was: seq<byte>, ghost room: nat, ghost all: seq<byte>,
              ghost done: nat)
    returns (ok: bool)
    requires Passing(h, was, room, all, done) && was <= h.w.got
    requires done + |data| <= |all| && data == all[done..done + |data|]
    modifies h, h.w
    ensures ok ==> Passing(h, was, room, all, done + |data|)
    ensures ok == (data == [] || done + |data| <= room + 1)
    ensures was <= h.w.got && |h.w.got| + h.w.room == |was| + room && |h.w.got| - |was| <= Max(done + |data| - 1, 0)
  {
    assert all[..done] + data == all[..done + |data|];
    ghost var front := h.w.got;
    ok := h.Write(data);
    assert was <= front <= h.w.got;
  }

  /** Copies `n` bytes through the writer that holds one back. */
  method CopyHeld(h: HeldBack, r: Reader, n: nat) returns (ok: bool, r': Reader)
    requires !h.held
    modifies h, h.w
    ensures r'.verified == r.verified
    ensures ok == (n <= |Joined(r.pieces)| && n <= old(h.w.room) + 1)
    ensures ok ==> Passing(h, old(h.w.got), old(h.w.room), Joined(r.pieces), n)
    ensures ok ==> Joined(r'.pieces) == Joined(r.pieces)[n..]
    ensures old(h.w.got) <= h.w.got && |h.w.got| + h.w.room == |old(h.w.got)| + old(h.w.room)
    ensures |h.w.got| - |old(h.w.got)| <= Max(n - 1, 0)
  {
    r' := r;
    ghost var was, room, all := h.w.got, h.w.room, Joined(r.pieces);
    var done := 0;
    while done < n
      invariant 0 <= done <= n && done <= room + 1 && r'.verified == r.verified
      invariant Passing(h, was, room, all, done) && was <= h.w.got
      invariant Joined(r'.pieces) == all[done..]
      decreases |Joined(r'.pieces)| + |r'.pieces|
    {
      var data, status;
      data, status, r' := Read(r', Min(n - done, BUFFER_SIZE));
      if status != Going { return false, r'; }
      var wrote := Pass(h, data, was, room, all, done);
      if !wrote { return false, r'; }
      done := done + |data|;
    }
    return true, r';
  }

  /** Copies a window of one chunk and reads the chunk to its end. All of the window goes out when the
      chunk verified, and at least one byte less when anything failed. */
  method ReadWindow(w: Sink, r: Reader, skip: nat, take: nat) returns (n: nat, ok: bool)
    modifies w
    ensures ok == (skip + take <= |Joined(r.pieces)| && r.verified && take <= old(w.room))
    ensures ok ==> n == take && w.got == old(w.got) + Joined(r.pieces)[skip..skip + take]
    ensures old(w.got) <= w.got && |w.got| + w.room == |old(w.got)| + old(w.room)
    ensures !ok ==> |w.got| - |old(w.got)| <= Max(take - 1, 0)
  {
    var skipped, r1 := Discard(r, skip);
    if !skipped { return 0, false; }
    ghost var all := Joined(r1.pieces);
    var held := new HeldBack(w);
    var copied, r2 := CopyHeld(held, r1, take);
    if !copied { return 0, false; }
    var drained := Drain(r2);
    if !drained { return take, false; }
    ok := held.Release();
    n := take;
    assert all[..take] == Joined(r.pieces)[skip..skip + take];
  }

  // The whole window

  /** Bytes before the i-th chunk. */
  function SizeBefore(chunks: seq<ChunkRef>, i: nat): nat
    requires i <= |chunks|
  {
    if i == 0 then 0 else SizeBefore(chunks, i - 1) + chunks[i - 1].size
  }

  predicate Touched(chunks: seq<ChunkRef>, off: int, end: int, i: nat)
    requires i < |chunks|
  {
    SizeBefore(chunks, i + 1) > off && SizeBefore(chunks, i) < end
  }

  /** The contents are what the manifest's sizes say. */
  predicate Fits(chunks: seq<ChunkRef>, contents: seq<seq<byte>>) {
    |contents| == |chunks| && forall i :: 0 <= i < |chunks| ==> |contents[i]| == chunks[i].size
  }

  /** Fetching gives, for each chunk, a reader or nothing; a reader that verifies has given exactly the
      chunk, and one that does not may have given anything. */
  predicate Honest(fetched: seq<Option<Reader>>, contents: seq<seq<byte>>) {
    && |fetched| == |contents|
    && forall i :: 0 <= i < |contents| && fetched[i].Some? && fetched[i].value.verified ==>
                     Joined(fetched[i].value.pieces) == contents[i]
  }

  predicate Good(f: Option<Reader>) { f.Some? && f.value.verified }

  predicate AllGood(chunks: seq<ChunkRef>, fetched: seq<Option<Reader>>, off: int, end: int, n: nat)
    requires n <= |chunks| == |fetched|
  {
    forall i: nat :: i < n && Touched(chunks, off, end, i) ==> Good(fetched[i])
  }

  lemma {:induction false} SizeIsLength(chunks: seq<ChunkRef>, contents: seq<seq<byte>>, i: nat)
    requires Fits(chunks, contents) && i <= |chunks|
    ensures SizeBefore(chunks, i) == |Joined(contents[..i])|
  {
    if i > 0 {
      SizeIsLength(chunks, contents, i - 1);
      JoinedNext(contents, i - 1);
    }
  }

  lemma {:induction false} SizeGrows(chunks: seq<ChunkRef>, i: nat, j: nat)
    requires i <= j <= |chunks|
    ensures SizeBefore(chunks, i) <= SizeBefore(chunks, j)
    decreases j
  {
    if i < j { SizeGrows(chunks, i, j - 1); }
  }

  /** As much of a window as a string covers. */
  function Part(s: seq<byte>, off: nat, end: nat): (r: seq<byte>)
    requires off <= end
    ensures |r| == Max(0, Min(|s|, end) - off)
  {
    if |s| <= off then [] else s[off..Min(|s|, end)]
  }

  /** A chunk adds to the window what of it lies there, and nothing if it lies outside. */
  lemma PartNext(s: seq<byte>, c: seq<byte>, off: nat, end: nat)
    requires off <= end
    ensures var at, next := |s|, |s| + |c|; var skip, upto := Max(off - at, 0), Min(next, end) - at;
            if next <= off || at >= end then Part(s + c, off, end) == Part(s, off, end)
            else 0 <= skip <= upto <= |c| && Part(s + c, off, end) == Part(s, off, end) + c[skip..upto]
  {
  }

  /** The chunks before the i-th have been dealt with, and their part of the window is out. */
  ghost predicate Sent(w: Sink, was: seq<byte>, room: nat, contents: seq<seq<byte>>, off: nat, end: nat, i: nat)
    requires off <= end && i <= |contents|
    reads w
  {
    w.got == was + Part(Joined(contents[..i]), off, end) && |w.got| + w.room == |was| + room
  }

  /** One turn of the loop. */
  method ReadChunk(w: Sink, c: ChunkRef, fetched: Option<Reader>, off: nat, end: nat, at: nat,
                   ghost contents: seq<seq<byte>>, ghost i: nat, ghost was: seq<byte>, ghost room: nat)
    returns (n: nat, ok: bool)
    requires i < |contents| && off <= end && |contents[i]| == c.size && at == |Joined(contents[..i])|
    requires Good(fetched) ==> Joined(fetched.value.pieces) == contents[i]
    requires Sent(w, was, room, contents, off, end, i)
    modifies w
    ensures ok ==> Sent(w, was, room, contents, off, end, i + 1) && n == |w.got| - |old(w.got)|
    ensures var touched := at + c.size > off && at < end;
            ok == (touched ==> Good(fetched) && Min(at + c.size, end) - off <= room)
    ensures old(w.got) <= w.got && (!ok ==> off < end ==> |w.got| < |was| + (end - off))
  {
    PartNext(Joined(contents[..i]), contents[i], off, end);
    JoinedNext(contents, i);
    var next := at + c.size;
    if next <= off || at >= end { return 0, true; }
    if fetched.None? { return 0, false; }
    var skip := Max(off - at, 0);
    n, ok := ReadWindow(w, fetched.value, skip, Min(next, end) - (at + skip));
  }

  /** Delivers exactly the window when every chunk it touches verified to its end and the connection
      took it all; on any failure, fewer bytes than were promised. */
  method ReadRange(w: Sink, chunks: seq<ChunkRef>, size: nat, off: int, length: int, fetched: seq<Option<Reader>>,
                   ghost contents: seq<seq<byte>>) returns (ok: bool)
    requires Fits(chunks, contents) && Honest(fetched, contents)
    modifies w
    ensures ok <==>
            && 0 <= off && 0 <= length && off + length <= size
            && AllGood(chunks, fetched, off, off + length, |chunks|)
            && (length == 0 || off + length <= SizeBefore(chunks, |chunks|))
            && length <= old(w.room)
    ensures ok ==> w.got == old(w.got) + Part(Joined(contents), off, off + length) && |w.got| == |old(w.got)| + length
    ensures !ok && length > 0 ==> |w.got| < |old(w.got)| + length
    ensures old(w.got) <= w.got
  {
    if off < 0 || length < 0 || off + length > size { return false; }
    var end, at, total := off + length, 0, 0;
    ghost var was, room := w.got, w.room;
    for i := 0 to |chunks|
      invariant at == SizeBefore(chunks, i) == |Joined(contents[..i])|
      invariant Sent(w, was, room, contents, off, end, i) && total == |w.got| - |was| && was <= w.got
      invariant AllGood(chunks, fetched, off, end, i)
    {
      SizeIsLength(chunks, contents, i + 1);
      var n, read := ReadChunk(w, chunks[i], fetched[i], off, end, at, contents, i, was, room);
      if !read {
        SizeGrows(chunks, i + 1, |chunks|);
        return false;
      }
      total := total + n;
      at := at + chunks[i].size;
    }
    assert contents[..|chunks|] == contents;
    return total == length;
  }
}
