/** How a body is spelt: the framing's own characters, sizes in either case and with a sign, lines that are too long,
    bodies that break off, and the white space around what a line says. */
module ChunkedText {
  import opened Basics
  import opened KeyOrder
  import opened Chunked
  import opened ChunkedTheorems
  import Objects

  function Ascii(s: string): (r: Text)
    requires forall i :: 0 <= i < |s| ==> s[i] < '\U{0080}'
    ensures |r| == |s| && forall i :: 0 <= i < |s| ==> r[i] as char == s[i]
  {
    seq(|s|, i requires 0 <= i < |s| => s[i] as byte)
  }

  /** Lines end in "\r\n", a chunk's size and its signature are apart by ";chunk-signature=", and a trailer's name and
      value by ":". */
  lemma Framing(m: Mode, size: nat, sig: Text, t: Trailer)
    ensures [CR, LF] == Ascii("\r\n") && LineOf(t) == t.name + Ascii(":") + t.value
    ensures HeadText(m, size, sig) == HexOf(size) + if m.signed then Ascii(";chunk-signature=") + sig else []
  {
    SignatureIs();
    assert [SEMICOLON] + SIGNATURE == Ascii(";chunk-signature=");
    assert [SEMICOLON] + (SIGNATURE + sig) == [SEMICOLON] + SIGNATURE + sig;
  }

  lemma SignatureIs()
    ensures |SIGNATURE| == 16 && forall i :: 0 <= i < 16 ==> SIGNATURE[i] as char == "chunk-signature="[i]
  {
  }

  // Sizes

  lemma SameDigit(a: byte, b: byte)
    requires Lower(a) == Lower(b)
    ensures HexDigit(a) == HexDigit(b)
  {
  }

  lemma {:induction false} SameValue(a: Text, b: Text)
    requires SameLetters(a, b)
    ensures HexValue(a) == HexValue(b)
  {
    if a != [] {
      SameValue(a[..|a| - 1], b[..|b| - 1]);
      SameDigit(a[|a| - 1], b[|b| - 1]);
    }
  }

  /** A size may be spelt in either case and with a plus sign, up to the greatest 63-bit one; none is negative. */
  lemma SizeSpelt(n: nat, text: Text)
    requires SameLetters(text, HexOf(n))
    ensures ParseSize(text) == ParseSize([0x2b] + text) == if n <= 0x7fff_ffff_ffff_ffff then Some(n) else None
    ensures ParseSize([0x2d] + text) == if n == 0 then Some(0) else None
  {
    HexReadBack(n);
    SameValue(text, HexOf(n));
    assert text != [] && Lower(text[0]) == Lower(HexOf(n)[0]);
    assert ([0x2b] + text)[1..] == text && ([0x2d] + text)[1..] == text;
  }

  // Lines

  /** A line with its end is at most 1024 bytes long. */
  lemma LongLineRefused(m: Mode, text: Text, rest: Text)
    requires 0x0a !in text
    ensures ReadLine(m, text + [0x0a] + rest) ==
              if |text| + 1 > 1024 then BadLine(Malformed, rest) else Line(TrimRight(text), rest)
  {
    var input, n := text + [0x0a] + rest, |text| + 1;
    forall j | 0 <= j < |text| ensures input[j] != 0x0a { assert input[j] in text; }
    IndexIs(input, LF, |text|);
    assert input[..n] == text + [0x0a] && input[n..] == rest;
    assert (text + [0x0a])[..|text|] == text;
  }

  /** The end of the input ends a line, if the connection did not break there. */
  lemma LastLine(m: Mode, text: Text)
    requires 0x0a !in text
    ensures ReadLine(m, text) ==
              if |text| > 1024 then BadLine(Malformed, [])
              else if m.torn then BadLine(Payload, [])
              else if text == [] then NoLine
              else Line(TrimRight(text), [])
  {
    IndexIs(text, LF, |text|);
    assert text[..|text|] == text && text[|text|..] == [];
  }

  /** In an unsigned body what follows the size is ignored. */
  lemma ExtensionIgnored(m: Mode, size: Text, extension: Text, rest: Text)
    requires 0x3b !in size && !m.signed && ParseSize(TrimSpace(size)).Some?
    ensures ParseHead(m, size + ([0x3b] + extension), rest) == Head(ParseSize(TrimSpace(size)).value, [], rest)
  {
    var text := size + ([0x3b] + extension);
    IndexIs(text, SEMICOLON, |size|);
    assert text[..|size|] == size;
  }

  /** A size that is no number, or in a signed body a chunk without a signature, is malformed. */
  lemma BadHeadRefused(m: Mode, text: Text, rest: Text)
    requires 0x3b !in text
    ensures ParseSize(TrimSpace(text)).None? || m.signed ==> ParseHead(m, text, rest) == NoHead(Malformed)
  {
    IndexIs(text, SEMICOLON, |text|);
    assert text[..|text|] == text;
  }

  lemma NoColonRefused(m: Mode, line: Text, rest: Text)
    requires 0 < |line| <= 1022 && 0x0a !in line && line[|line| - 1] != 0x0d && 0x3a !in line
    ensures ReadTrailers(m, line + [CR, LF] + rest) == Broken(Malformed)
  {
    LineReadBack(m, line, rest);
    IndexIs(line, COLON, |line|);
  }

  /** Trailers end with the input, and with a line that is too long, as well as with a blank one. */
  lemma TrailersStop(m: Mode, text: Text, rest: Text)
    requires 0x0a !in text && |text| + 1 > 1024
    ensures ReadTrailers(m, []) == Complete([]) && ReadTrailers(m, text + [0x0a] + rest) == Complete([])
  {
    LastLine(m, []);
    LongLineRefused(m, text, rest);
  }

  // Bodies that break off

  /** The signature that the chunk after these follows on. */
  function LastLink(m: Mode, prev: Text, chunks: seq<seq<byte>>): Text
    decreases |chunks|
  {
    if chunks == [] then prev else LastLink(m, if m.signed then m.sign(prev, chunks[0]) else prev, chunks[1..])
  }

  /** Whole chunks, and then whatever follows. */
  function FramedThen(m: Mode, prev: Text, chunks: seq<seq<byte>>, rest: Text): Text
    decreases |chunks|
  {
    if chunks == [] then rest
    else
      var sig := m.sign(prev, chunks[0]);
      HeadText(m, |chunks[0]|, sig) + [CR, LF]
      + (chunks[0] + ([CR, LF] + FramedThen(m, if m.signed then sig else prev, chunks[1..], rest)))
  }

  lemma ThenStep(m: Mode, prev: Text, c: seq<byte>, text: Text, joined: seq<byte>, o: Outcome)
    requires PlainSignatures(m) && 0 < |c| <= MAX_SIZE
    requires Frames(m, Link(m, prev, m.sign(prev, c)), text) == Outcome(joined + o.bytes, o.verdict)
    ensures Frames(m, prev, HeadText(m, |c|, m.sign(prev, c)) + [CR, LF] + (c + ([CR, LF] + text)))
            == Outcome(c + joined + o.bytes, o.verdict)
  {
    ChunkReadBack(m, prev, c, text);
    assert c + (joined + o.bytes) == c + joined + o.bytes;
  }

  lemma {:induction false} ThenReadBack(m: Mode, prev: Text, chunks: seq<seq<byte>>, rest: Text, o: Outcome)
    requires PlainSignatures(m) && forall i :: 0 <= i < |chunks| ==> 0 < |chunks[i]| <= MAX_SIZE
    requires o == Frames(m, LastLink(m, prev, chunks), rest)
    ensures Frames(m, prev, FramedThen(m, prev, chunks, rest)) == Outcome(Objects.Joined(chunks) + o.bytes, o.verdict)
    decreases |chunks|
  {
    if chunks == [] {
      assert Objects.Joined(chunks) + o.bytes == o.bytes;
    } else {
      var c, later := chunks[0], chunks[1..];
      var next := Link(m, prev, m.sign(prev, c));
      ThenReadBack(m, next, later, rest, o);
      ThenStep(m, prev, c, FramedThen(m, next, later, rest), Objects.Joined(later), o);
      assert chunks == [c] + later;
      Objects.JoinedCons(c, later);
    }
  }

  /** A body that ends between chunks, or inside one, is cut short, and not complete: what was there of it has been
      handed on. */
  lemma CutShort(m: Mode, prev: Text, chunks: seq<seq<byte>>, size: nat, sig: Text, part: seq<byte>)
    requires PlainSignatures(m) && forall i :: 0 <= i < |chunks| ==> 0 < |chunks[i]| <= MAX_SIZE
    requires |part| < size <= MAX_SIZE && Visible(sig) && |sig| <= 512
    ensures Frames(m, prev, FramedThen(m, prev, chunks, [])) == Outcome(Objects.Joined(chunks), Broken(Payload))
    ensures Frames(m, prev, FramedThen(m, prev, chunks, HeadText(m, size, sig) + [CR, LF] + part))
            == Outcome(Objects.Joined(chunks) + part, Broken(Payload))
  {
    var link, part' := LastLink(m, prev, chunks), HeadText(m, size, sig) + [CR, LF] + part;
    assert Frames(m, link, []) == Outcome([], Broken(Payload));
    ThenReadBack(m, prev, chunks, [], Outcome([], Broken(Payload)));
    assert Objects.Joined(chunks) + [] == Objects.Joined(chunks);
    HeaderReadBack(m, size, sig, part);
    ThenReadBack(m, prev, chunks, part', Outcome(part, Broken(Payload)));
  }

  // White space

  /** The characters Unicode calls white space. */
  predicate IsSpaceCode(code: nat) {
    || 0x09 <= code <= 0x0d || code == 0x20 || code == 0x85 || code == 0xa0 || code == 0x1680
    || 0x2000 <= code <= 0x200a || code == 0x2028 || code == 0x2029 || code == 0x202f || code == 0x205f
    || code == 0x3000
  }

  /** A character of the basic plane in UTF-8. */
  function Encoded(code: nat): Text
    requires code < 0x1_0000
  {
    if code < 0x80 then [code as byte]
    else if code < 0x800 then [(0xc0 + code / 64) as byte, (0x80 + code % 64) as byte]
    else [(0xe0 + code / 4096) as byte, (0x80 + code / 64 % 64) as byte, (0x80 + code % 64) as byte]
  }

  /** White space at a place is found exactly where such a character is encoded there. */
  lemma SpaceIff(s: Text, i: nat, code: nat)
    requires i <= |s| && code < 0x1_0000 && i + |Encoded(code)| <= |s| && s[i..i + |Encoded(code)|] == Encoded(code)
    ensures SpaceAt(s, i) == if IsSpaceCode(code) then |Encoded(code)| else 0
  {
    var e := Encoded(code);
    forall j | 0 <= j < |e| ensures s[i + j] == e[j] { assert s[i..i + |e|][j] == s[i + j]; }
    assert s[i] == e[0] && (|e| > 1 ==> s[i + 1] == e[1]) && (|e| > 2 ==> s[i + 2] == e[2]);
  }

  lemma SpaceBeforeIff(s: Text, i: nat, j: nat, code: nat)
    requires code < 0x1_0000 && i + |Encoded(code)| <= j <= |s| && s[j - |Encoded(code)|..j] == Encoded(code)
    ensures SpaceBefore(s, i, j) == if IsSpaceCode(code) then |Encoded(code)| else 0
  {
    var e := Encoded(code);
    var k := j - |e|;
    forall l | 0 <= l < |e| ensures s[k + l] == e[l] { assert s[k..j][l] == s[k + l]; }
    assert s[k] == e[0] && (|e| > 1 ==> s[k + 1] == e[1]) && (|e| > 2 ==> s[k + 2] == e[2]);
  }

  lemma {:induction false} SkippingStops(s: Text, i: nat)
    requires i <= |s|
    ensures SpaceAt(s, PastSpace(s, i)) == 0
    decreases |s| - i
  {
    if SpaceAt(s, i) != 0 { SkippingStops(s, i + SpaceAt(s, i)); }
  }

  lemma {:induction false} TrimmingStops(s: Text, i: nat, j: nat)
    requires i <= j <= |s|
    ensures SpaceBefore(s, i, UpToSpace(s, i, j)) == 0
    decreases j
  {
    if SpaceBefore(s, i, j) != 0 { TrimmingStops(s, i, j - SpaceBefore(s, i, j)); }
  }

  /** Trimming leaves the middle of a text, with no white space at either end. */
  lemma TrimmedIsBare(s: Text) returns (i: nat, j: nat)
    ensures i <= j <= |s| && TrimSpace(s) == s[i..j] && SpaceAt(s, i) == 0 && SpaceBefore(s, i, j) == 0
  {
    i := PastSpace(s, 0);
    j := UpToSpace(s, i, |s|);
    SkippingStops(s, 0);
    TrimmingStops(s, i, |s|);
  }

  lemma SplitAtColon(left: Text, right: Text)
    requires 0x3a !in left
    ensures TrailerOf(left + ([0x3a] + right)) == Trailer(Canonical(TrimSpace(left)), TrimSpace(right))
  {
    var line := left + ([0x3a] + right);
    IndexIs(line, COLON, |left|);
    assert line[..|left|] == left && line[|left| + 1..] == right;
  }

  lemma SpaceTrimmed(value: Text)
    requires value != [] && Visible(value)
    ensures TrimSpace([0x20] + value) == value
  {
    var s := [0x20] + value;
    assert SpaceAt(s, 0) == 1 && s[1] == value[0] && s[|s| - 1] == value[|value| - 1];
    assert PastSpace(s, 1) == 1 && UpToSpace(s, 1, |s|) == |s|;
  }

  /** A space after the colon is no part of the value. */
  lemma SpacedTrailer(t: Trailer)
    requires t.name != [] && IsName(t.name) && t.value != [] && Visible(t.value)
    ensures TrailerOf(t.name + ([0x3a] + ([0x20] + t.value))) == Received(t)
  {
    NameIsVisible(t.name);
    SplitAtColon(t.name, [0x20] + t.value);
    TrimVisible(t.name);
    SpaceTrimmed(t.value);
  }

  /** Names are kept with a capital at the start and after each hyphen, and small letters elsewhere. */
  lemma {:induction false} TitleCaseAt(s: Text, upper: bool, i: nat)
    requires i < |s| && forall j :: 0 <= j < |s| ==> s[j] < 0x80
    ensures var c, r := s[i] as char, TitleCase(s, upper)[i] as char;
            var capital := if i == 0 then upper else s[i - 1] as char == '-';
            if capital && 'a' <= c <= 'z' then r as int == c as int - 32
            else if !capital && 'A' <= c <= 'Z' then r as int == c as int + 32
            else r == c
    decreases |s|
  {
    if i > 0 { TitleCaseAt(s[1..], s[0] == HYPHEN, i - 1); }
  }
}
