/** Decoding undoes framing, and accepts nothing but a framed body with an unbroken chain. */
module ChunkedTheorems {
  import opened Basics
  import opened KeyOrder
  import opened Chunked
  import Objects

  // Framing, as a client does it

  function DigitOf(d: nat): byte
    requires d < 16
  {
    if d < 10 then 0x30 + d as byte else 0x61 + (d - 10) as byte
  }

  function HexOf(n: nat): Text {
    if n < 16 then [DigitOf(n)] else HexOf(n / 16) + [DigitOf(n % 16)]
  }

  function HeadText(m: Mode, size: nat, sig: Text): Text {
    HexOf(size) + if m.signed then [SEMICOLON] + (SIGNATURE + sig) else []
  }

  /** Chunks that each carry the signature that follows from the one before, then the empty chunk. */
  function Framed(m: Mode, prev: Text, chunks: seq<seq<byte>>, tail: Text): Text
    decreases |chunks|
  {
    if chunks == [] then HeadText(m, 0, m.sign(prev, [])) + [CR, LF] + tail
    else
      var sig := m.sign(prev, chunks[0]);
      HeadText(m, |chunks[0]|, sig) + [CR, LF]
      + (chunks[0] + ([CR, LF] + Framed(m, if m.signed then sig else prev, chunks[1..], tail)))
  }

  function TrailerText(lines: seq<Text>): Text {
    if lines == [] then [CR, LF] else lines[0] + [CR, LF] + TrailerText(lines[1..])
  }

  predicate Visible(s: Text) { forall i :: 0 <= i < |s| ==> 0x21 <= s[i] <= 0x7e }

  /** Signatures are hex digests: visible characters, and far shorter than a line may be. */
  ghost predicate PlainSignatures(m: Mode) {
    forall prev, data :: Visible(m.sign(prev, data)) && |m.sign(prev, data)| <= 512
  }

  predicate IsTrailer(line: Text) {
    && 0 < |line| <= MAX_LINE - 2 && LF !in line && line[|line| - 1] != CR && COLON in line
  }

  // Reading back a line

  lemma IndexIs(s: Text, c: byte, i: nat)
    requires i <= |s| && (i < |s| ==> s[i] == c) && forall j :: 0 <= j < i ==> s[j] != c
    ensures IndexOf(s, c) == i
  {
  }

  lemma LineReadBack(m: Mode, text: Text, rest: Text)
    requires LF !in text && (text != [] ==> text[|text| - 1] != CR) && |text| + 2 <= MAX_LINE
    ensures ReadLine(m, text + [CR, LF] + rest) == Line(text, rest)
  {
    var input := text + [CR, LF] + rest;
    var n := |text| + 2;
    assert input[|text|] == CR && input[|text| + 1] == LF;
    forall j | 0 <= j < |text| + 1 ensures input[j] != LF {
      if j < |text| { assert input[j] == text[j] && text[j] in text; }
    }
    IndexIs(input, LF, |text| + 1);
    assert input[..n] == text + [CR, LF] && input[n..] == rest;
    TrimBack(text);
  }

  lemma TrimBack(text: Text)
    requires text != [] ==> text[|text| - 1] != CR && text[|text| - 1] != LF
    ensures TrimRight(text + [CR, LF]) == text
  {
    var a, b := text + [CR, LF], text + [CR];
    assert a[..|a| - 1] == b && b[..|b| - 1] == text;
    assert TrimRight(text) == text;
    assert TrimRight(b) == TrimRight(text);
  }

  lemma TrimVisible(s: Text)
    requires Visible(s)
    ensures TrimSpace(s) == s
  {
    assert PastSpace(s, 0) == 0 && UpToSpace(s, 0, |s|) == |s|;
  }

  // Reading back a header

  lemma {:induction false} HexReadBack(n: nat)
    ensures HexValue(HexOf(n)) == Some(n) && HexOf(n) != []
    ensures forall i :: 0 <= i < |HexOf(n)| ==> 0x30 <= HexOf(n)[i] <= 0x39 || 0x61 <= HexOf(n)[i] <= 0x66
  {
    var s := HexOf(n);
    if n >= 16 {
      HexReadBack(n / 16);
      assert s[..|s| - 1] == HexOf(n / 16);
    } else {
      assert s[..0] == [];
      assert HexValue([]) == Some(0);
    }
  }

  lemma {:induction false} HexShort(n: nat, k: nat)
    requires n < Power16(k) && k > 0
    ensures |HexOf(n)| <= k
    decreases k
  {
    if n >= 16 {
      assert Power16(0) == 1 && (k == 1 ==> Power16(k) == 16);
      HexShort(n / 16, k - 1);
    }
  }

  function Power16(k: nat): nat { if k == 0 then 1 else 16 * Power16(k - 1) }

  lemma SizeShort(n: nat)
    requires n <= MAX_SIZE
    ensures |HexOf(n)| <= 16
  {
    assert Power16(4) == 0x1_0000;
    assert Power16(8) == 0x1_0000_0000;
    assert Power16(12) == 0x1_0000_0000_0000;
    assert Power16(16) == 0x1_0000_0000_0000_0000;
    HexShort(n, 16);
  }

  lemma SizeReadBack(n: nat)
    requires n <= MAX_SIZE
    ensures Visible(HexOf(n)) && TrimSpace(HexOf(n)) == HexOf(n) && ParseSize(HexOf(n)) == Some(n)
    ensures forall i :: 0 <= i < |HexOf(n)| ==> HexOf(n)[i] != SEMICOLON
  {
    HexReadBack(n);
    TrimVisible(HexOf(n));
  }

  lemma HeadSplit(hex: Text, params: Text)
    requires forall i :: 0 <= i < |hex| ==> hex[i] != SEMICOLON
    ensures IndexOf(hex, SEMICOLON) == |hex|
    ensures var text := hex + ([SEMICOLON] + params);
            IndexOf(text, SEMICOLON) == |hex| && text[..|hex|] == hex && text[|hex| + 1..] == params
  {
    IndexIs(hex, SEMICOLON, |hex|);
    IndexIs(hex + ([SEMICOLON] + params), SEMICOLON, |hex|);
  }

  lemma SignedHead(m: Mode, hex: Text, size: nat, params: Text, rest: Text)
    requires m.signed && ParseSize(TrimSpace(hex)) == Some(size) && TrimSpace(params) == params && SIGNATURE <= params
    requires forall i :: 0 <= i < |hex| ==> hex[i] != SEMICOLON
    ensures ParseHead(m, hex + ([SEMICOLON] + params), rest) == Head(size, params[|SIGNATURE|..], rest)
  {
    HeadSplit(hex, params);
  }

  lemma UnsignedHead(m: Mode, hex: Text, size: nat, rest: Text)
    requires !m.signed && ParseSize(TrimSpace(hex)) == Some(size)
    requires forall i :: 0 <= i < |hex| ==> hex[i] != SEMICOLON
    ensures ParseHead(m, hex, rest) == Head(size, [], rest)
  {
    IndexIs(hex, SEMICOLON, |hex|);
    assert hex[..|hex|] == hex;
  }

  lemma HeadReadBack(m: Mode, size: nat, sig: Text, rest: Text)
    requires size <= MAX_SIZE && Visible(sig)
    ensures ParseHead(m, HeadText(m, size, sig), rest) == Head(size, if m.signed then sig else [], rest)
  {
    var hex, params := HexOf(size), SIGNATURE + sig;
    SizeReadBack(size);
    if m.signed {
      TrimVisible(params);
      SignedHead(m, hex, size, params, rest);
      assert params[|SIGNATURE|..] == sig;
    } else {
      assert HeadText(m, size, sig) == hex;
      UnsignedHead(m, hex, size, rest);
    }
  }

  lemma HeadPlain(m: Mode, size: nat, sig: Text)
    requires size <= MAX_SIZE && Visible(sig) && |sig| <= 512
    ensures var text := HeadText(m, size, sig); Visible(text) && text != [] && |text| + 2 <= MAX_LINE
  {
    SizeReadBack(size);
    SizeShort(size);
    HexReadBack(size);
  }

  lemma HeaderReadBack(m: Mode, size: nat, sig: Text, rest: Text)
    requires size <= MAX_SIZE && Visible(sig) && |sig| <= 512
    ensures ReadHead(m, HeadText(m, size, sig) + [CR, LF] + rest) == Head(size, if m.signed then sig else [], rest)
  {
    var text := HeadText(m, size, sig);
    HeadPlain(m, size, sig);
    assert LF !in text;
    LineReadBack(m, text, rest);
    HeadReadBack(m, size, sig, rest);
  }

  /** The end of a chunk's line is a blank line to the next header. */
  lemma BlankSkipped(m: Mode, rest: Text)
    ensures ReadHead(m, [CR, LF] + rest) == ReadHead(m, rest)
  {
    assert [] + [CR, LF] + rest == [CR, LF] + rest;
    LineReadBack(m, [], rest);
  }

  lemma BlankBefore(m: Mode, prev: Text, rest: Text)
    ensures Frames(m, prev, [CR, LF] + rest) == Frames(m, prev, rest)
  {
    BlankSkipped(m, rest);
  }

  lemma ChunkReadBack(m: Mode, prev: Text, data: seq<byte>, rest: Text)
    requires PlainSignatures(m) && 0 < |data| <= MAX_SIZE
    ensures var sig := m.sign(prev, data);
            var was := Frames(m, prev, HeadText(m, |data|, sig) + [CR, LF] + (data + ([CR, LF] + rest)));
            var now := Frames(m, Link(m, prev, sig), rest);
            was == Outcome(data + now.bytes, now.verdict)
  {
    var sig := m.sign(prev, data);
    var body := data + ([CR, LF] + rest);
    var want := if m.signed then sig else [];
    assert Visible(sig) && |sig| <= 512;
    HeaderReadBack(m, |data|, sig, body);
    assert body[..|data|] == data && body[|data|..] == [CR, LF] + rest && [] + data == data;
    BlankBefore(m, Link(m, prev, want), rest);
    assert Body(m, prev, body, |data|, [], want) ==
           Outcome(data + Frames(m, Link(m, prev, want), rest).bytes, Frames(m, Link(m, prev, want), rest).verdict);
  }

  /** A chunk with any other signature ends the body in a mismatch, whatever follows it; its bytes have
      been handed on by then. */
  lemma ForgedChunkRefused(m: Mode, prev: Text, data: seq<byte>, sig: Text, rest: Text)
    requires m.signed && 0 < |data| <= MAX_SIZE && Visible(sig) && |sig| <= 512 && sig != m.sign(prev, data)
    ensures Frames(m, prev, HeadText(m, |data|, sig) + [CR, LF] + (data + rest)) == Outcome(data, Broken(Mismatch))
  {
    var body := data + rest;
    HeaderReadBack(m, |data|, sig, body);
    assert body[..|data|] == data && [] + data == data;
    assert Body(m, prev, body, |data|, [], sig) == Outcome(data, Broken(Mismatch));
  }

  lemma LastReadBack(m: Mode, prev: Text, tail: Text)
    requires PlainSignatures(m)
    ensures Frames(m, prev, HeadText(m, 0, m.sign(prev, [])) + [CR, LF] + tail) == Outcome([], ReadTrailers(m, tail))
  {
    var sig := m.sign(prev, []);
    assert Visible(sig) && |sig| <= 512;
    HeaderReadBack(m, 0, sig, tail);
  }

  /** Decoding undoes framing: for every body and every split of it into chunks, the bytes are the body
      and the end is what the trailers make it. */
  lemma {:induction false} FramedReadBack(m: Mode, prev: Text, chunks: seq<seq<byte>>, tail: Text)
    requires PlainSignatures(m) && forall i :: 0 <= i < |chunks| ==> 0 < |chunks[i]| <= MAX_SIZE
    ensures Frames(m, prev, Framed(m, prev, chunks, tail)) == Outcome(Objects.Joined(chunks), ReadTrailers(m, tail))
    decreases |chunks|
  {
    if chunks == [] {
      LastReadBack(m, prev, tail);
    } else {
      var c, rest := chunks[0], chunks[1..];
      var next := Link(m, prev, m.sign(prev, c));
      var text := Framed(m, next, rest, tail);
      FramedReadBack(m, next, rest, tail);
      ChunkReadBack(m, prev, c, text);
      assert chunks == [c] + rest;
      Objects.JoinedCons(c, rest);
    }
  }

  lemma TrailerReadBack(m: Mode, line: Text, rest: Text)
    requires IsTrailer(line)
    ensures ReadTrailers(m, line + [CR, LF] + rest) == After([TrailerOf(line)], ReadTrailers(m, rest))
  {
    LineReadBack(m, line, rest);
    var i := IndexOf(line, COLON);
    assert i < |line|;
  }

  lemma TrailersEnd(m: Mode)
    ensures ReadTrailers(m, [CR, LF]) == Complete([])
  {
    assert [] + [CR, LF] + [] == [CR, LF];
    LineReadBack(m, [], []);
  }

  /** A trailer as a client may send it: a proper name, and a value that its line can carry. */
  predicate Sendable(t: Trailer) {
    && t.name != [] && IsName(t.name) && TrimSpace(t.value) == t.value && LF !in t.value
    && |t.name| + |t.value| < MAX_LINE - 2
  }

  function LineOf(t: Trailer): Text { t.name + ([COLON] + t.value) }

  function LinesOf(sent: seq<Trailer>): (r: seq<Text>)
    ensures |r| == |sent| && forall i :: 0 <= i < |r| ==> r[i] == LineOf(sent[i])
  {
    seq(|sent|, i requires 0 <= i < |sent| => LineOf(sent[i]))
  }

  function Received(t: Trailer): Trailer { Trailer(TitleCase(t.name, true), t.value) }

  function AllReceived(sent: seq<Trailer>): (r: seq<Trailer>)
    ensures |r| == |sent| && forall i :: 0 <= i < |r| ==> r[i] == Received(sent[i])
  {
    seq(|sent|, i requires 0 <= i < |sent| => Received(sent[i]))
  }

  lemma NameIsVisible(s: Text)
    requires IsName(s)
    ensures Visible(s) && COLON !in s && LF !in s
  {
    forall i | 0 <= i < |s| ensures 0x21 <= s[i] <= 0x7e && s[i] != COLON { assert IsToken(s[i]); }
  }

  lemma ValueEnd(value: Text)
    requires value != [] && TrimSpace(value) == value
    ensures value[|value| - 1] != CR
  {
    var i := PastSpace(value, 0);
    assert i == 0 && UpToSpace(value, 0, |value|) == |value|;
  }

  lemma SentLine(t: Trailer)
    requires Sendable(t)
    ensures IsTrailer(LineOf(t)) && TrailerOf(LineOf(t)) == Received(t)
  {
    var line, n := LineOf(t), |t.name|;
    NameIsVisible(t.name);
    if t.value != [] { ValueEnd(t.value); }
    assert line[n] == COLON && line[..n] == t.name && line[n + 1..] == t.value;
    IndexIs(line, COLON, n);
    TrimVisible(t.name);
  }

  lemma TrailerTextNext(sent: seq<Trailer>)
    requires sent != []
    ensures TrailerText(LinesOf(sent)) == LineOf(sent[0]) + [CR, LF] + TrailerText(LinesOf(sent[1..]))
    ensures AllReceived(sent) == [Received(sent[0])] + AllReceived(sent[1..])
  {
    assert LinesOf(sent)[1..] == LinesOf(sent[1..]);
  }

  /** Trailers are read back as name and value, the names in their canonical form. */
  lemma {:induction false} TrailersReadBack(m: Mode, sent: seq<Trailer>)
    requires forall i :: 0 <= i < |sent| ==> Sendable(sent[i])
    ensures ReadTrailers(m, TrailerText(LinesOf(sent))) == Complete(AllReceived(sent))
  {
    if sent == [] {
      TrailersEnd(m);
    } else {
      TrailersReadBack(m, sent[1..]);
      SentLine(sent[0]);
      TrailerReadBack(m, LineOf(sent[0]), TrailerText(LinesOf(sent[1..])));
      TrailerTextNext(sent);
    }
  }

  function Lower(c: byte): byte { if IsUpper(c) then c + 0x20 else c }

  /** The same but for the case of their letters. */
  predicate SameLetters(a: Text, b: Text) {
    |a| == |b| && forall i :: 0 <= i < |a| ==> Lower(a[i]) == Lower(b[i])
  }

  lemma {:induction false} TitleCaseIff(a: Text, b: Text, upper: bool)
    ensures TitleCase(a, upper) == TitleCase(b, upper) <==> SameLetters(a, b)
    decreases |a|
  {
    if |a| == |b| > 0 {
      var ta, tb := TitleCase(a, upper), TitleCase(b, upper);
      assert ta[1..] == TitleCase(a[1..], a[0] == HYPHEN) && tb[1..] == TitleCase(b[1..], b[0] == HYPHEN);
      assert ta == [ta[0]] + ta[1..] && tb == [tb[0]] + tb[1..];
      assert Lower(ta[0]) == Lower(a[0]) && Lower(tb[0]) == Lower(b[0]);
      assert ta[0] == tb[0] <==> Lower(a[0]) == Lower(b[0]);
      if Lower(a[0]) == Lower(b[0]) { TitleCaseIff(a[1..], b[1..], a[0] == HYPHEN); }
      SameLettersNext(a, b);
    } else if |a| == |b| {
      assert a == b;
    }
  }

  lemma SameLettersNext(a: Text, b: Text)
    requires |a| == |b| > 0
    ensures SameLetters(a, b) <==> Lower(a[0]) == Lower(b[0]) && SameLetters(a[1..], b[1..])
  {
    if Lower(a[0]) == Lower(b[0]) && SameLetters(a[1..], b[1..]) {
      forall i | 0 <= i < |a| ensures Lower(a[i]) == Lower(b[i]) {
        if i > 0 { assert a[i] == a[1..][i - 1] && b[i] == b[1..][i - 1]; }
      }
    }
  }

  /** The first value under a name. */
  function Lookup(trailers: seq<Trailer>, name: Text): Option<Text> {
    if trailers == [] then None
    else if trailers[0].name == Canonical(name) then Some(trailers[0].value)
    else Lookup(trailers[1..], name)
  }

  lemma {:induction false} LookupFirst(trailers: seq<Trailer>, name: Text, i: nat)
    requires i < |trailers| && trailers[i].name == Canonical(name)
    requires forall j :: 0 <= j < i ==> trailers[j].name != Canonical(name)
    ensures Lookup(trailers, name) == Some(trailers[i].value)
  {
    if i > 0 { LookupFirst(trailers[1..], name, i - 1); }
  }

  /** Asking for a trailer in any case gives the value that was sent first under that name. */
  lemma TrailerFound(m: Mode, sent: seq<Trailer>, i: nat, asked: Text)
    requires forall j :: 0 <= j < |sent| ==> Sendable(sent[j])
    requires i < |sent| && IsName(asked) && SameLetters(sent[i].name, asked)
    requires forall j :: 0 <= j < i ==> !SameLetters(sent[j].name, asked)
    ensures var end := ReadTrailers(m, TrailerText(LinesOf(sent)));
            end.Complete? && Lookup(end.trailers, asked) == Some(sent[i].value)
  {
    TrailersReadBack(m, sent);
    var got := AllReceived(sent);
    forall j | 0 <= j <= i ensures got[j].name == Canonical(asked) <==> j == i {
      TitleCaseIff(sent[j].name, asked, true);
    }
    LookupFirst(got, asked, i);
  }

  // What a complete body must have been

  datatype Chunk = Chunk(data: seq<byte>, want: Text)

  function Datas(chunks: seq<Chunk>): (r: seq<seq<byte>>)
    ensures |r| == |chunks| && forall i :: 0 <= i < |r| ==> r[i] == chunks[i].data
  {
    seq(|chunks|, i requires 0 <= i < |chunks| => chunks[i].data)
  }

  /** The signature before a chunk's. */
  function SignatureBefore(seed: Text, chunks: seq<Chunk>, i: nat): Text
    requires i <= |chunks|
  {
    if i == 0 then seed else chunks[i - 1].want
  }

  /** In a signed body each chunk is signed over its own bytes and the signature before it. */
  predicate Chained(m: Mode, seed: Text, chunks: seq<Chunk>) {
    m.signed ==>
      forall i: nat :: i < |chunks| ==> chunks[i].want == m.sign(SignatureBefore(seed, chunks, i), chunks[i].data)
  }

  lemma ChainedCons(m: Mode, prev: Text, c: Chunk, later: seq<Chunk>)
    requires m.signed ==> c.want == m.sign(prev, c.data) && Chained(m, c.want, later)
    ensures Chained(m, prev, [c] + later)
  {
    var all := [c] + later;
    forall i: nat | m.signed && i < |all|
      ensures all[i].want == m.sign(SignatureBefore(prev, all, i), all[i].data)
    {
      if i > 0 {
        assert all[i] == later[i - 1] && SignatureBefore(prev, all, i) == SignatureBefore(c.want, later, i - 1);
      }
    }
  }

  /** The input spells out these chunks: a header, and as many bytes as it says, each time. */
  predicate Spells(m: Mode, input: Text, chunks: seq<Chunk>)
    decreases |chunks|
  {
    chunks == [] ||
    var h := ReadHead(m, input);
    && h.Head? && h.size == |chunks[0].data| <= |h.rest| && h.want == chunks[0].want
    && h.rest[..h.size] == chunks[0].data
    && Spells(m, h.rest[h.size..], chunks[1..])
  }

  /** Only the last chunk is empty. */
  predicate EndsEmpty(chunks: seq<Chunk>) {
    chunks != [] && forall i :: 0 <= i < |chunks| ==> (chunks[i].data == [] <==> i == |chunks| - 1)
  }

  lemma Prepended(c: Chunk, chunks: seq<Chunk>)
    requires c.data != [] && EndsEmpty(chunks)
    ensures EndsEmpty([c] + chunks)
    ensures Objects.Joined(Datas([c] + chunks)) == c.data + Objects.Joined(Datas(chunks))
  {
    assert Datas([c] + chunks) == [c.data] + Datas(chunks);
    Objects.JoinedCons(c.data, Datas(chunks));
  }

  /** A body is complete only if it spells out chunks up to a zero-length one, its bytes are theirs, and
      in a signed body every signature follows from the one before. */
  lemma {:induction false} CompleteIsChained(m: Mode, prev: Text, input: Text) returns (chunks: seq<Chunk>)
    requires Frames(m, prev, input).verdict.Complete?
    ensures EndsEmpty(chunks) && Chained(m, prev, chunks) && Spells(m, input, chunks)
    ensures Frames(m, prev, input).bytes == Objects.Joined(Datas(chunks))
    decreases |input|
  {
    var h := ReadHead(m, input);
    var rest := h.rest;
    if h.size == 0 {
      chunks := [Chunk([], h.want)];
      assert rest[..0] == [] && chunks[1..] == [];
      var datas := Datas(chunks);
      assert |datas| == 1 && datas[0] == [] && datas[..0] == [];
      assert Objects.Joined(datas[..0]) == [];
    } else {
      var data := rest[..h.size];
      assert [] + data == data;
      var later := CompleteIsChained(m, Link(m, prev, h.want), rest[h.size..]);
      var c := Chunk(data, h.want);
      Prepended(c, later);
      ChainedCons(m, prev, c, later);
      chunks := [c] + later;
      assert chunks[1..] == later;
    }
  }
}
