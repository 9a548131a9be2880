/** The reader itself, as it changes from one read to the next. */
module ChunkedReader {
  import opened Basics
  import opened KeyOrder
  import opened Chunked

  datatype Status = Going | Eof | Failed(error: Error)

  /** A connection that reports its end together with its last bytes keeps the chunk that they finish
      from being checked, so that a bad signature there shows as a body cut short. */
  predicate Ends(was: Verdict, now: Verdict, early: bool) {
    now == was || (early && was == Broken(Mismatch) && now == Broken(Payload))
  }

  lemma EndsHere(m: Mode, prev: Text, input: Text, left: nat, data: seq<byte>, want: Text)
    requires |input| <= left && left > 0
    ensures var o := Body(m, prev, input, left, data, want);
            o.bytes == input && Ends(o.verdict, Broken(Payload), true)
  {
    if |input| == left {
      assert input[..left] == input && input[left..] == [];
      assert ReadHead(m, []) == NoHead(Payload);
    }
  }

  /** Taking bytes out of the middle of a chunk leaves the rest of it. */
  lemma BodyAdvances(m: Mode, prev: Text, input: Text, left: nat, data: seq<byte>, want: Text, n: nat,
                     hashed: seq<byte>)
    requires 0 < n < left && n <= |input|
    requires hashed == if m.signed then data + input[..n] else data
    ensures var was, now := Body(m, prev, input, left, data, want), Body(m, prev, input[n..], left - n, hashed, want);
            was.bytes == input[..n] + now.bytes && was.verdict == now.verdict
  {
    if |input| < left {
      assert input == input[..n] + input[n..];
    } else {
      assert input[..left] == input[..n] + input[n..][..left - n];
      assert data + input[..left] == data + input[..n] + input[n..][..left - n];
      assert input[left..] == input[n..][left - n..];
    }
  }

  lemma FramesFromHead(m: Mode, prev: Text, input: Text, size: nat, want: Text, rest: Text)
    requires ReadHead(m, input) == Head(size, want, rest)
    ensures Frames(m, prev, input) ==
              if size > 0 then Body(m, prev, rest, size, [], want)
              else if Sealed(m, prev, [], want) then Outcome([], ReadTrailers(m, rest))
              else Outcome([], Broken(Mismatch))
  {
  }

  lemma BodyEnds(m: Mode, prev: Text, input: Text, left: nat, data: seq<byte>, want: Text, hashed: seq<byte>)
    requires 0 < left <= |input| && hashed == if m.signed then data + input[..left] else data
    ensures var was := Body(m, prev, input, left, data, want);
            if Sealed(m, prev, hashed, want) then
              var now := Frames(m, Link(m, prev, want), input[left..]);
              was == Outcome(input[..left] + now.bytes, now.verdict)
            else was == Outcome(input[..left], Broken(Mismatch))
  {
  }

  class Reader {
    const mode: Mode
    var input: Text
    var left: nat
    var hashed: seq<byte>
    var want: Text
    var prev: Text
    var done: bool
    var err: Option<Error>
    var trailers: seq<Trailer>

    constructor (mode: Mode, seed: Text, input: Text)
      ensures Valid() && this.mode == mode && Remaining() == Frames(mode, seed, input)
    {
      this.mode, this.input, prev := mode, input, seed;
      left, hashed, want, done, err, trailers := 0, [], [], false, None, [];
    }

    predicate Valid()
      reads this
    {
      left > 0 ==> !done
    }

    /** What is still to come. */
    function Remaining(): Outcome
      reads this
    {
      if err.Some? then Outcome([], Broken(err.value))
      else if left > 0 then Body(mode, prev, input, left, hashed, want)
      else if done then Outcome([], Complete(trailers))
      else Frames(mode, prev, input)
    }

    /** Checks the chunk just read and links it into the chain. */
    method EndOfChunk() returns (e: Option<Error>)
      modifies this`prev
      ensures e == if Sealed(mode, old(prev), hashed, want) then None else Some(Mismatch)
      ensures prev == if e.None? then Link(mode, old(prev), want) else old(prev)
    {
      if !mode.signed { return None; }
      if mode.sign(prev, hashed) != want { return Some(Mismatch); }
      prev := want;
      return None;
    }

    method Trail() returns (e: Option<Error>)
      modifies this`input, this`trailers
      ensures ReadTrailers(mode, old(input)) == if e.None? then Complete(trailers) else Broken(e.value)
    {
      trailers := [];
      ghost var all := ReadTrailers(mode, input);
      AfterBoth([], [], all);
      while true
        invariant all == After(trailers, ReadTrailers(mode, input))
        decreases |input|
      {
        var l := ReadLine(mode, input);
        if !l.Line? || l.text == [] {
          assert trailers + [] == trailers;
          return None;
        }
        if IndexOf(l.text, COLON) == |l.text| { return Some(Malformed); }
        var t := TrailerOf(l.text);
        AfterBoth(trailers, [t], ReadTrailers(mode, l.rest));
        trailers, input := trailers + [t], l.rest;
      }
    }

    /** The first line that is not blank, with the input still standing at it. */
    method HeadLine() returns (l: Line)
      modifies this`input
      ensures l == ReadLine(mode, input) && !(l.Line? && l.text == [])
      ensures ReadHead(mode, input) == ReadHead(mode, old(input))
    {
      l := ReadLine(mode, input);
      while l.Line? && l.text == []
        invariant ReadHead(mode, input) == ReadHead(mode, old(input)) && l == ReadLine(mode, input)
        decreases |input|
      {
        input := l.rest;
        l := ReadLine(mode, input);
      }
    }

    /** Reads the next chunk's header. */
    method Header() returns (e: Option<Error>)
      modifies this`input, this`want, this`hashed, this`left
      ensures ReadHead(mode, old(input)) == if e.Some? then NoHead(e.value) else Head(left, want, input)
      ensures if e.None? then hashed == [] else left == old(left)
    {
      var l := HeadLine();
      if l.NoLine? { return Some(Payload); }
      if l.BadLine? { return Some(l.error); }
      var h := ParseHead(mode, l.text, l.rest);
      if h.NoHead? { return Some(h.error); }
      input, want, hashed, left := l.rest, h.want, [], h.size;
      return None;
    }

    /** Moves on to the next chunk, and for the last one past all that follows it. */
    method Next() returns (e: Option<Error>)
      requires left == 0 && !done && err.None?
      modifies this`input, this`want, this`hashed, this`left, this`done, this`prev, this`trailers
      ensures Valid()
      ensures Frames(mode, old(prev), old(input)) ==
                if e.Some? then Outcome([], Broken(e.value))
                else if left > 0 then Body(mode, prev, input, left, hashed, want)
                else Outcome([], Complete(trailers))
      ensures e.None? && left == 0 ==> done
    {
      ghost var start := input;
      e := Header();
      if e.Some? { return; }
      FramesFromHead(mode, prev, start, left, want, input);
      if left > 0 { return; }
      done := true;
      e := EndOfChunk();
      if e.None? { e := Trail(); }
    }

    /** One read, into a buffer of the given size, of what has arrived so far; `early` says that the
        connection reports its end with its last bytes rather than after them. */
    method Read(size: nat, arrived: nat, early: bool) returns (data: seq<byte>, status: Status)
      requires Valid() && arrived > 0
      modifies this
      ensures Valid()
      ensures old(Remaining()).bytes == data + Remaining().bytes
      ensures Ends(old(Remaining()).verdict, Remaining().verdict, early)
      ensures |data| <= size && (status == Going && size > 0 ==> data != [])
      ensures status == Eof ==> data == [] && old(Remaining()) == Outcome([], Complete(trailers))
      ensures status.Failed? ==> Remaining() == Outcome([], Broken(status.error)) && err == Some(status.error)
      ensures old(err).Some? ==> data == [] && status == Failed(old(err).value)
    {
      if err.Some? { return [], Failed(err.value); }
      if left == 0 {
        if done { return [], Eof; }
        var e := Next();
        if e.Some? {
          err := e;
          return [], Failed(e.value);
        }
        if left == 0 { return [], Eof; }
      }
      var n := Min(Min(size, left), Min(arrived, |input|));
      data := input[..n];
      if size > 0 && n == 0 {
        err := Some(Payload);
        return [], Failed(Payload);
      }
      if early && n == |input| {
        CutOff();
        return data, Failed(Payload);
      }
      status := Take(n);
    }

    /** The input ends with these bytes, which is an error even if they finish the chunk. */
    method CutOff()
      requires |input| <= left && left > 0 && !done && err.None?
      modifies this
      ensures Valid() && err == Some(Payload) && Remaining() == Outcome([], Broken(Payload))
      ensures old(Remaining()).bytes == old(input) && Ends(old(Remaining()).verdict, Broken(Payload), true)
    {
      EndsHere(mode, prev, input, left, hashed, want);
      if mode.signed { hashed := hashed + input; }
      input, left, err := [], left - |input|, Some(Payload);
    }

    /** Moves past bytes of the current chunk, and past its end if they reach it. */
    method Take(n: nat) returns (status: Status)
      requires left > 0 && !done && n <= left && n <= |input| && err.None?
      modifies this
      ensures Valid()
      ensures old(Remaining()) == Outcome(old(input)[..n] + Remaining().bytes, Remaining().verdict)
      ensures status == Going
              || (status == Failed(Mismatch) && Remaining() == Outcome([], Broken(Mismatch)) && err == Some(Mismatch))
    {
      if n == 0 {
        assert input[..0] == [];
        return Going;
      }
      if n < left {
        TakeSome(n);
        return Going;
      }
      status := TakeAll();
    }

    method TakeSome(n: nat)
      requires 0 < n < left && !done && n <= |input| && err.None?
      modifies this`input, this`left, this`hashed
      ensures Valid() && left > 0
      ensures old(Remaining()) == Outcome(old(input)[..n] + Remaining().bytes, Remaining().verdict)
    {
      BodyAdvances(mode, prev, input, left, hashed, want, n, if mode.signed then hashed + input[..n] else hashed);
      if mode.signed { hashed := hashed + input[..n]; }
      input, left := input[n..], left - n;
    }

    method TakeAll() returns (status: Status)
      requires 0 < left <= |input| && !done && err.None?
      modifies this
      ensures Valid()
      ensures old(Remaining()) == Outcome(old(input)[..old(left)] + Remaining().bytes, Remaining().verdict)
      ensures status == Going
              || (status == Failed(Mismatch) && Remaining() == Outcome([], Broken(Mismatch)) && err == Some(Mismatch))
    {
      BodyEnds(mode, prev, input, left, hashed, want, if mode.signed then hashed + input[..left] else hashed);
      if mode.signed { hashed := hashed + input[..left]; }
      input, left := input[left..], 0;
      err := EndOfChunk();
      return if err.Some? then Failed(err.value) else Going;
    }
  }

  /** Reading to the end, with any buffers and any arrivals, yields what the body decodes to. */
  method ReadAll(mode: Mode, seed: Text, input: Text, sizes: nat -> nat, arrivals: nat -> nat, early: bool)
    returns (out: seq<byte>, end: Verdict)
    requires forall i :: sizes(i) > 0 && arrivals(i) > 0
    ensures var whole := Frames(mode, seed, input); out == whole.bytes && Ends(whole.verdict, end, early)
  {
    var r := new Reader(mode, seed, input);
    ghost var whole := r.Remaining();
    out := [];
    var i := 0;
    while true
      invariant fresh(r) && r.Valid()
      invariant whole.bytes == out + r.Remaining().bytes && Ends(whole.verdict, r.Remaining().verdict, early)
      decreases |r.Remaining().bytes|
    {
      ghost var before := out;
      var data, status := r.Read(sizes(i), arrivals(i), early);
      out, i := out + data, i + 1;
      assert before + (data + r.Remaining().bytes) == out + r.Remaining().bytes;
      if status == Eof { return out, Complete(r.trailers); }
      if status.Failed? { return out, Broken(status.error); }
    }
  }
}
