/** The aws-chunked decoder. What a body decodes to is a function of its bytes alone; the reader
    delivers that, whatever buffers it is given and however the bytes arrive. Signing is a parameter. */
module Chunked {
  import opened Basics
  import opened KeyOrder

  type Text = seq<byte>

  const CR: byte := 0x0d
  const LF: byte := 0x0a
  const SEMICOLON: byte := 0x3b
  const COLON: byte := 0x3a
  const MAX_LINE := 1024
  const MAX_SIZE := 0x7fff_ffff_ffff_ffff

  const HYPHEN: byte := 0x2d

  /** "chunk-signature=" */
  const SIGNATURE: Text :=
    [0x63, 0x68, 0x75, 0x6e, 0x6b, 0x2d, 0x73, 0x69, 0x67, 0x6e, 0x61, 0x74, 0x75, 0x72, 0x65, 0x3d]

  datatype Error = Payload | Malformed | Mismatch
  datatype Trailer = Trailer(name: Text, value: Text)
  datatype Verdict = Complete(trailers: seq<Trailer>) | Broken(error: Error)

  /** What a body holds: the bytes it yields, and how it then ends. */
  datatype Outcome = Outcome(bytes: seq<byte>, verdict: Verdict)

  /** How the request was made: `sign` gives the signature a chunk must carry after the one before, and
      `torn` says that the connection breaks where the input ends. */
  datatype Mode = Mode(signed: bool, sign: (Text, seq<byte>) -> Text, torn: bool)

  // Framing lines

  function IndexOf(s: Text, c: byte): (i: nat)
    ensures i <= |s| && (i < |s| ==> s[i] == c) && forall j :: 0 <= j < i ==> s[j] != c
  {
    if s == [] || s[0] == c then 0 else 1 + IndexOf(s[1..], c)
  }

  function TrimRight(s: Text): (r: Text)
    ensures |r| <= |s|
  {
    if s != [] && (s[|s| - 1] == CR || s[|s| - 1] == LF) then TrimRight(s[..|s| - 1]) else s
  }

  /** The white space characters of Unicode, by the length of their encoding. */
  predicate IsSpace(c: byte) { 0x09 <= c <= 0x0d || c == 0x20 }

  predicate IsSpace2(c: byte, d: byte) { c == 0xc2 && (d == 0x85 || d == 0xa0) }

  predicate IsSpace3(c: byte, d: byte, e: byte) {
    || (c == 0xe1 && d == 0x9a && e == 0x80)
    || (c == 0xe2 && d == 0x80 && (0x80 <= e <= 0x8a || e == 0xa8 || e == 0xa9 || e == 0xaf))
    || (c == 0xe2 && d == 0x81 && e == 0x9f)
    || (c == 0xe3 && d == 0x80 && e == 0x80)
  }

  /** How many bytes of white space there are at `i`, or before `j` and not before `i`. */
  function SpaceAt(s: Text, i: nat): (n: nat)
    requires i <= |s|
    ensures i + n <= |s|
  {
    if i + 1 <= |s| && IsSpace(s[i]) then 1
    else if i + 2 <= |s| && IsSpace2(s[i], s[i + 1]) then 2
    else if i + 3 <= |s| && IsSpace3(s[i], s[i + 1], s[i + 2]) then 3
    else 0
  }

  function SpaceBefore(s: Text, i: nat, j: nat): (n: nat)
    requires i <= j <= |s|
    ensures i + n <= j
  {
    if i + 1 <= j && IsSpace(s[j - 1]) then 1
    else if i + 2 <= j && IsSpace2(s[j - 2], s[j - 1]) then 2
    else if i + 3 <= j && IsSpace3(s[j - 3], s[j - 2], s[j - 1]) then 3
    else 0
  }

  function PastSpace(s: Text, i: nat): (r: nat)
    requires i <= |s|
    ensures i <= r <= |s|
    decreases |s| - i
  {
    if SpaceAt(s, i) == 0 then i else PastSpace(s, i + SpaceAt(s, i))
  }

  function UpToSpace(s: Text, i: nat, j: nat): (r: nat)
    requires i <= j <= |s|
    ensures i <= r <= j
    decreases j
  {
    if SpaceBefore(s, i, j) == 0 then j else UpToSpace(s, i, j - SpaceBefore(s, i, j))
  }

  function TrimSpace(s: Text): Text {
    var i := PastSpace(s, 0);
    s[i..UpToSpace(s, i, |s|)]
  }

  datatype Line = Line(text: Text, rest: Text) | NoLine | BadLine(error: Error, rest: Text)

  /** One line. The end of the input ends a line too, unless the connection broke there. */
  function ReadLine(m: Mode, input: Text): (l: Line)
    ensures l.Line? ==> |l.rest| < |input|
  {
    var i := IndexOf(input, LF);
    var whole := i < |input|;
    var n := if whole then i + 1 else i;
    if n > MAX_LINE then BadLine(Malformed, input[n..])
    else if !whole && m.torn then BadLine(Payload, input[n..])
    else if n == 0 then NoLine
    else Line(TrimRight(input[..n]), input[n..])
  }

  function HexDigit(c: byte): Option<nat> {
    if 0x30 <= c <= 0x39 then Some((c - 0x30) as nat)
    else if 0x61 <= c <= 0x66 then Some((c - 0x61) as nat + 10)
    else if 0x41 <= c <= 0x46 then Some((c - 0x41) as nat + 10)
    else None
  }

  function HexValue(s: Text): Option<nat> {
    if s == [] then Some(0)
    else
      match HexDigit(s[|s| - 1])
      case None => None
      case Some(d) =>
        match HexValue(s[..|s| - 1])
        case None => None
        case Some(v) => Some(16 * v + d)
  }

  /** A size in hex. A sign is allowed, but no negative size. */
  function ParseSize(s: Text): Option<nat> {
    var digits := if s != [] && (s[0] == 0x2b || s[0] == 0x2d) then s[1..] else s;
    var v := HexValue(digits);
    if digits == [] || v.None? || v.value > MAX_SIZE then None
    else if s[0] == 0x2d && v.value > 0 then None
    else v
  }

  datatype Head = Head(size: nat, want: Text, rest: Text) | NoHead(error: Error)

  function ParseHead(m: Mode, text: Text, rest: Text): (h: Head)
    ensures h.Head? ==> h.rest == rest
  {
    var i := IndexOf(text, SEMICOLON);
    var size := ParseSize(TrimSpace(text[..i]));
    var params := TrimSpace(if i < |text| then text[i + 1..] else []);
    if size.None? then NoHead(Malformed)
    else if !m.signed then Head(size.value, [], rest)
    else if SIGNATURE <= params then Head(size.value, params[|SIGNATURE|..], rest)
    else NoHead(Malformed)
  }

  /** The next chunk header, past any blank lines. */
  function ReadHead(m: Mode, input: Text): (h: Head)
    ensures h.Head? ==> |h.rest| < |input|
    decreases |input|
  {
    match ReadLine(m, input)
    case NoLine => NoHead(Payload)
    case BadLine(e, _) => NoHead(e)
    case Line(text, rest) => if text == [] then ReadHead(m, rest) else ParseHead(m, text, rest)
  }

  // Trailers

  predicate IsLower(c: byte) { 0x61 <= c <= 0x7a }

  predicate IsUpper(c: byte) { 0x41 <= c <= 0x5a }

  /** The characters of a header name: letters, digits and !#$%&'*+-.^_`|~ */
  predicate IsToken(c: byte) {
    || IsLower(c) || IsUpper(c) || 0x30 <= c <= 0x39
    || c == 0x21 || 0x23 <= c <= 0x27 || c == 0x2a || c == 0x2b || c == HYPHEN || c == 0x2e
    || 0x5e <= c <= 0x60 || c == 0x7c || c == 0x7e
  }

  predicate IsName(s: Text) { forall i :: 0 <= i < |s| ==> IsToken(s[i]) }

  function Recased(c: byte, upper: bool): byte {
    if upper && IsLower(c) then c - 0x20 else if !upper && IsUpper(c) then c + 0x20 else c
  }

  /** Upper case at the start and after each hyphen, lower case elsewhere. */
  function TitleCase(s: Text, upper: bool): (r: Text)
    ensures |r| == |s|
  {
    if s == [] then [] else [Recased(s[0], upper)] + TitleCase(s[1..], s[0] == HYPHEN)
  }

  /** The form a header name is kept under. What is not a name is kept as it is. */
  function Canonical(s: Text): Text { if IsName(s) then TitleCase(s, true) else s }

  function TrailerOf(line: Text): Trailer {
    var i := IndexOf(line, COLON);
    Trailer(Canonical(TrimSpace(line[..i])), TrimSpace(if i < |line| then line[i + 1..] else []))
  }

  /** The trailers read first, then the rest. */
  function After(first: seq<Trailer>, rest: Verdict): Verdict {
    match rest
    case Complete(trailers) => Complete(first + trailers)
    case Broken(e) => Broken(e)
  }

  lemma AfterBoth(a: seq<Trailer>, b: seq<Trailer>, rest: Verdict)
    ensures After(a, After(b, rest)) == After(a + b, rest) && After([], rest) == rest
  {
    if rest.Complete? { assert a + (b + rest.trailers) == a + b + rest.trailers; }
  }

  /** The trailers after the last chunk. A line that cannot be read ends them like a blank one. */
  function ReadTrailers(m: Mode, input: Text): Verdict
    decreases |input|
  {
    match ReadLine(m, input)
    case NoLine => Complete([])
    case BadLine(_, _) => Complete([])
    case Line(text, rest) =>
      if text == [] then Complete([])
      else if IndexOf(text, COLON) == |text| then Broken(Malformed)
      else After([TrailerOf(text)], ReadTrailers(m, rest))
  }

  // What a body decodes to

  /** Whether a chunk ends well: unsigned, or signed as the chain demands. */
  predicate Sealed(m: Mode, prev: Text, data: seq<byte>, want: Text) {
    m.signed ==> m.sign(prev, data) == want
  }

  function Link(m: Mode, prev: Text, want: Text): Text { if m.signed then want else prev }

  /** From between chunks on. */
  function Frames(m: Mode, prev: Text, input: Text): Outcome
    decreases |input|, 1
  {
    match ReadHead(m, input)
    case NoHead(e) => Outcome([], Broken(e))
    case Head(size, want, rest) =>
      if size > 0 then Body(m, prev, rest, size, [], want)
      else if !Sealed(m, prev, [], want) then Outcome([], Broken(Mismatch))
      else Outcome([], ReadTrailers(m, rest))
  }

  /** From inside a chunk on, `left` bytes before its end. */
  function Body(m: Mode, prev: Text, input: Text, left: nat, data: seq<byte>, want: Text): Outcome
    requires left > 0
    decreases |input|, 0
  {
    if |input| < left then Outcome(input, Broken(Payload))
    else if !Sealed(m, prev, data + input[..left], want) then Outcome(input[..left], Broken(Mismatch))
    else
      var rest := Frames(m, Link(m, prev, want), input[left..]);
      Outcome(input[..left] + rest.bytes, rest.verdict)
  }
}
