/** Erasure-coded chunks: placing shards, reading a chunk back from those that survive, and rebuilding
    shards in place or on new owners. The code itself is a parameter of which only the defining property
    is used: any `data` of its shards give back all of them. */
module Erasure {
  import opened Basics
  import opened KeyOrder

  type Node = string
  type Shard = seq<byte>

  datatype Code = Code(data: nat, parity: nat,
                       split: seq<byte> -> seq<Shard>,
                       solve: seq<Option<Shard>> -> seq<Shard>,
                       join: (seq<Shard>, nat) -> seq<byte>)
  {
    function Shards(): nat { data + parity }
    predicate Valid() { data > 0 && parity > 0 && Shards() <= 256 }
  }

  function Present(slots: seq<Option<Shard>>): set<nat> {
    set i | i in UpTo(|slots|) && slots[i].Some?
  }

  /** Slots that hold the right shard or nothing. */
  predicate Partial(slots: seq<Option<Shard>>, shards: seq<Shard>) {
    |slots| == |shards| && forall i :: 0 <= i < |slots| && slots[i].Some? ==> slots[i].value == shards[i]
  }

  /** Any `data` shards of these bytes determine the rest, and the shards determine the bytes. */
  ghost predicate SeparableFor(c: Code, bytes: seq<byte>) {
    && |c.split(bytes)| == c.Shards()
    && c.join(c.split(bytes), |bytes|) == bytes
    && forall slots :: Partial(slots, c.split(bytes)) && |Present(slots)| >= c.data ==> c.solve(slots) == c.split(bytes)
  }

  ghost predicate Separable(c: Code) {
    forall bytes :: SeparableFor(c, bytes)
  }

  /** The file of one shard of a chunk on one node. */
  datatype Place = Place(node: Node, chunk: string, position: nat)

  /** One coded chunk: its name and length, how many shards reading it takes, and its shards and their size. */
  datatype Chunk = Chunk(id: string, size: nat, data: nat, shardSize: nat, shards: seq<Shard>) {
    function At(node: Node, i: nat): Place { Place(node, id, i) }
  }

  /** The chunk split `data` ways and rounded up. */
  function ShardSize(size: nat, data: nat): (r: nat)
    ensures data > 0 ==> size <= data * r < size + data
  {
    if data == 0 then 0 else (size + data - 1) / data
  }

  /** A chunk of these bytes. */
  function ChunkOf(c: Code, id: string, bytes: seq<byte>): Chunk {
    Chunk(id, |bytes|, c.data, ShardSize(|bytes|, c.data), c.split(bytes))
  }

  /** The shards of a chunk are what the code makes of some bytes. */
  ghost predicate Encodes(c: Code, ch: Chunk) {
    exists bytes :: SeparableFor(c, bytes) && ch == ChunkOf(c, ch.id, bytes)
  }

  type Files = map<Place, Shard>

  predicate Right(files: Files, ch: Chunk, node: Node, i: nat) {
    i < |ch.shards| && ch.At(node, i) in files && files[ch.At(node, i)] == ch.shards[i]
  }

  /** The positions of a placement that hold the right shard. */
  function Correct(files: Files, ch: Chunk, nodes: seq<Node>): set<nat> {
    set i | i in UpTo(|nodes|) && Right(files, ch, nodes[i], i)
  }

  /** Which nodes do not answer, and which stores do not succeed. */
  datatype World = World(silent: set<Node>, refuses: set<Place>) {
    predicate Answers(n: Node) { n !in silent }
    predicate Takes(p: Place) { p !in refuses }
  }

  /** A fetch fails on a node that does not answer, and on a shard that is gone or fails its checksum;
      the checksum is taken to tell the right shard from any other. */
  function Readable(w: World, files: Files, ch: Chunk, nodes: seq<Node>): set<nat> {
    set i | i in Correct(files, ch, nodes) && i < |nodes| && w.Answers(nodes[i])
  }

  /** A position can be read exactly when its node answers and its file there is the right shard. */
  lemma ReadableIff(w: World, files: Files, ch: Chunk, nodes: seq<Node>, i: nat)
    ensures i in Readable(w, files, ch, nodes) <==>
            && i < |nodes| && i < |ch.shards| && nodes[i] !in w.silent
            && Place(nodes[i], ch.id, i) in files && files[Place(nodes[i], ch.id, i)] == ch.shards[i]
  {
  }

  /** As many shards can be read as reading the chunk takes. */
  predicate Enough(w: World, files: Files, ch: Chunk, nodes: seq<Node>) {
    |Readable(w, files, ch, nodes)| >= ch.data
  }

  class Disks {
    var files: Files

    constructor (files: Files)
      ensures this.files == files
    {
      this.files := files;
    }

    method Store(w: World, p: Place, s: Shard) returns (ok: bool)
      modifies this
      ensures ok == w.Takes(p) && files == if ok then old(files)[p := s] else old(files)
    {
      ok := w.Takes(p);
      if ok { files := files[p := s]; }
    }

    method Fetch(w: World, ch: Chunk, nodes: seq<Node>, i: nat) returns (s: Option<Shard>)
      requires i < |nodes| == |ch.shards|
      ensures s == if i in Readable(w, files, ch, nodes) then Some(ch.shards[i]) else None
    {
      var p := ch.At(nodes[i], i);
      if !w.Answers(nodes[i]) || p !in files || files[p] != ch.shards[i] { return None; }
      return Some(files[p]);
    }

    /** Fetches the shards from `lo` up to `hi` into their own slots. */
    method Gather(w: World, ch: Chunk, nodes: seq<Node>, slots: array<Option<Shard>>, lo: nat, hi: nat)
      requires lo <= hi <= slots.Length == |nodes| == |ch.shards|
      modifies slots
      ensures forall i :: 0 <= i < slots.Length ==>
                slots[i] == if lo <= i < hi && old(slots[i]).None? && i in Readable(w, files, ch, nodes)
                            then Some(ch.shards[i]) else old(slots[i])
    {
      for i := lo to hi
        invariant forall j :: 0 <= j < slots.Length ==>
                    slots[j] == if lo <= j < i && old(slots[j]).None? && j in Readable(w, files, ch, nodes)
                                then Some(ch.shards[j]) else old(slots[j])
      {
        if slots[i].None? {
          var s := Fetch(w, ch, nodes, i);
          slots[i] := s;
        }
      }
    }
  }

  lemma PresentIs(slots: seq<Option<Shard>>, positions: set<nat>)
    requires forall i :: i in positions ==> i < |slots|
    requires forall i: nat :: i < |slots| ==> (slots[i].Some? <==> i in positions)
    ensures Present(slots) == positions
  {
  }

  lemma PresentNext(slots: seq<Option<Shard>>, i: nat)
    requires i < |slots|
    ensures |Present(slots[..i + 1])| == |Present(slots[..i])| + if slots[i].Some? then 1 else 0
  {
    var a, b := Present(slots[..i]), Present(slots[..i + 1]);
    assert b == if slots[i].Some? then a + {i} else a;
  }

  /** Every shard, from as many as survive. */
  method Reconstruct(c: Code, ch: Chunk, slots: seq<Option<Shard>>) returns (r: Option<seq<Shard>>)
    requires Encodes(c, ch) && Partial(slots, ch.shards)
    ensures r == if |Present(slots)| >= ch.data then Some(ch.shards) else None
  {
    var present := 0;
    for i := 0 to |slots|
      invariant present == |Present(slots[..i])|
    {
      PresentNext(slots, i);
      if slots[i].Some? { present := present + 1; }
    }
    assert slots[..|slots|] == slots;
    if present < ch.data { return None; }
    if present < |slots| { return Some(c.solve(slots)); }
    AllPresent(slots);
    var shards := seq(|slots|, i requires 0 <= i < |slots| => if slots[i].Some? then slots[i].value else []);
    assert shards == ch.shards;
    return Some(shards);
  }

  lemma AllPresent(slots: seq<Option<Shard>>)
    requires |Present(slots)| >= |slots|
    ensures forall i :: 0 <= i < |slots| ==> slots[i].Some?
  {
    var all := UpTo(|slots|);
    SubsetFull(Present(slots), all);
    forall i | 0 <= i < |slots| ensures slots[i].Some? { assert i in all; }
  }

  /** The positions whose owner takes its shard. */
  function Taken(w: World, ch: Chunk, owners: seq<Node>, n: nat): set<nat>
    requires n <= |owners|
  {
    set i | i in UpTo(n) && i < n && w.Takes(ch.At(owners[i], i))
  }

  lemma TakenIff(w: World, ch: Chunk, owners: seq<Node>, i: nat)
    ensures i in Taken(w, ch, owners, |owners|) <==> i < |owners| && Place(owners[i], ch.id, i) !in w.refuses
  {
  }

  lemma TakenNext(w: World, ch: Chunk, owners: seq<Node>, n: nat)
    requires n < |owners|
    ensures Taken(w, ch, owners, n + 1) ==
              if w.Takes(ch.At(owners[n], n)) then Taken(w, ch, owners, n) + {n} else Taken(w, ch, owners, n)
    ensures |Taken(w, ch, owners, n + 1)| == |Taken(w, ch, owners, n)| + if w.Takes(ch.At(owners[n], n)) then 1 else 0
  {
    assert n !in Taken(w, ch, owners, n);
    assert Taken(w, ch, owners, n + 1) ==
             if w.Takes(ch.At(owners[n], n)) then Taken(w, ch, owners, n) + {n} else Taken(w, ch, owners, n);
  }

  /** Placing a chunk: shard i on owner i. It is acknowledged exactly when one shard more than reading
      needs was placed; what it wrote is right, and it spoils nothing. */
  method Encode(w: World, d: Disks, c: Code, id: string, bytes: seq<byte>, owners: seq<Node>) returns (ok: bool)
    requires c.Valid() ==> SeparableFor(c, bytes)
    modifies d
    ensures c.data == 0 || c.parity == 0 || c.data + c.parity > 256 || |owners| != c.data + c.parity ==>
              !ok && d.files == old(d.files)
    ensures 0 < c.data && 0 < c.parity && |owners| == c.data + c.parity <= 256 ==>
              var ch := ChunkOf(c, id, bytes);
              && ok == (|Taken(w, ch, owners, |owners|)| >= c.data + 1)
              && Correct(d.files, ch, owners) == Correct(old(d.files), ch, owners) + Taken(w, ch, owners, |owners|)
              && (ok ==> |Correct(d.files, ch, owners)| >= c.data + 1)
    ensures forall p: Place :: !(p.chunk == id && p.position < |owners| && p.node == owners[p.position]) ==>
              (p in d.files <==> p in old(d.files)) && (p in d.files ==> d.files[p] == old(d.files)[p])
  {
    if |owners| != c.Shards() || !c.Valid() { return false; }
    var ch := ChunkOf(c, id, bytes);
    var acks := StoreAll(w, d, ch, owners);
    ok := acks >= Min(c.data + 1, c.Shards());
    WrittenCorrect(old(d.files), ch, Accepted(w, ch, owners, UpTo(|owners|)), owners);
    AcceptedPositions(w, ch, owners);
    SubsetSize(Taken(w, ch, owners, |owners|), Correct(d.files, ch, owners));
  }

  /** Stores every shard with its owner and counts those that arrived. */
  method StoreAll(w: World, d: Disks, ch: Chunk, owners: seq<Node>) returns (acks: nat)
    requires |owners| == |ch.shards|
    modifies d
    ensures acks == |Taken(w, ch, owners, |owners|)|
    ensures d.files == Written(old(d.files), ch, Accepted(w, ch, owners, UpTo(|owners|)))
  {
    var shards := ch.shards;
    acks := 0;
    assert Written(d.files, ch, Accepted(w, ch, owners, {})) == d.files;
    for i := 0 to |shards|
      invariant acks == |Taken(w, ch, owners, i)|
      invariant d.files == Written(old(d.files), ch, Accepted(w, ch, owners, UpTo(i)))
    {
      PlaceNext(w, old(d.files), ch, owners, UpTo(i), i);
      TakenNext(w, ch, owners, i);
      var stored := d.Store(w, ch.At(owners[i], i), shards[i]);
      if stored { acks := acks + 1; }
      assert UpTo(i + 1) == UpTo(i) + {i};
    }
  }

  lemma AcceptedPositions(w: World, ch: Chunk, owners: seq<Node>)
    ensures (set i | i in UpTo(|owners|) && ch.At(owners[i], i) in Accepted(w, ch, owners, UpTo(|owners|)))
            == Taken(w, ch, owners, |owners|)
  {
    var places := Accepted(w, ch, owners, UpTo(|owners|));
    forall i | i in UpTo(|owners|) ensures ch.At(owners[i], i) in places <==> w.Takes(ch.At(owners[i], i)) {
    }
  }

  /** Reading a chunk back: possible exactly when `data` shards can be read, and then right. */
  method Decode(w: World, d: Disks, c: Code, ch: Chunk, nodes: seq<Node>, ghost bytes: seq<byte>)
    returns (r: Option<seq<byte>>)
    requires c.Valid() ==> SeparableFor(c, bytes) && ch == ChunkOf(c, ch.id, bytes)
    ensures r == if 0 < c.data && 0 < c.parity && |nodes| == c.data + c.parity <= 256 && Enough(w, d.files, ch, nodes)
                 then Some(bytes) else None
  {
    if |nodes| != c.Shards() || !c.Valid() { return None; }
    var slots := new Option<Shard>[c.Shards()](_ => None);
    d.Gather(w, ch, nodes, slots, 0, c.data);
    d.Gather(w, ch, nodes, slots, c.data, c.Shards());
    PresentIs(slots[..], Readable(w, d.files, ch, nodes));
    var shards := Reconstruct(c, ch, slots[..]);
    if shards.None? { return None; }
    return Some(c.join(shards.value, ch.size));
  }

  // Rebuilding

  function ShardFor(ch: Chunk, p: Place): Shard {
    if p.position < |ch.shards| then ch.shards[p.position] else []
  }

  /** The disks once its shard of the chunk has been written to each of these places. */
  function Written(files: Files, ch: Chunk, places: set<Place>): (r: Files) {
    map p | p in files.Keys + places :: if p in places then ShardFor(ch, p) else files[p]
  }

  function SetOf(s: seq<nat>): set<nat> { set i | i in s }

  /** Where the rebuilt shards go: the positions wanted whose node takes them. */
  function Accepted(w: World, ch: Chunk, to: seq<Node>, wanted: set<nat>): set<Place> {
    set i | i in wanted && i < |to| && w.Takes(ch.At(to[i], i)) :: ch.At(to[i], i)
  }

  predicate AllTake(w: World, ch: Chunk, to: seq<Node>, wanted: set<nat>) {
    forall i :: i in wanted && i < |to| ==> w.Takes(ch.At(to[i], i))
  }

  lemma AcceptedNext(w: World, ch: Chunk, to: seq<Node>, wanted: set<nat>, i: nat)
    requires i < |to|
    ensures Accepted(w, ch, to, wanted + {i}) ==
              Accepted(w, ch, to, wanted) + if w.Takes(ch.At(to[i], i)) then {ch.At(to[i], i)} else {}
  {
  }

  lemma WrittenNext(files: Files, ch: Chunk, places: set<Place>, p: Place)
    ensures Written(files, ch, places + {p}) == Written(files, ch, places)[p := ShardFor(ch, p)]
  {
  }

  /** One store more. */
  lemma PlaceNext(w: World, files: Files, ch: Chunk, to: seq<Node>, wanted: set<nat>, i: nat)
    requires i < |to| == |ch.shards|
    ensures var p, was := ch.At(to[i], i), Written(files, ch, Accepted(w, ch, to, wanted));
            Written(files, ch, Accepted(w, ch, to, wanted + {i})) == if w.Takes(p) then was[p := ch.shards[i]] else was
    ensures AllTake(w, ch, to, wanted + {i}) <==> AllTake(w, ch, to, wanted) && w.Takes(ch.At(to[i], i))
  {
    AcceptedNext(w, ch, to, wanted, i);
    WrittenNext(files, ch, Accepted(w, ch, to, wanted), ch.At(to[i], i));
    assert Accepted(w, ch, to, wanted) + {} == Accepted(w, ch, to, wanted);
  }

  /** Stores the rebuilt shards, going on past a store that fails. */
  method PlaceAll(w: World, d: Disks, ch: Chunk, shards: seq<Shard>, to: seq<Node>, missing: seq<nat>)
    returns (ok: bool)
    requires shards == ch.shards && |to| == |shards| && forall k :: 0 <= k < |missing| ==> missing[k] < |to|
    modifies d
    ensures ok == AllTake(w, ch, to, SetOf(missing))
    ensures d.files == Written(old(d.files), ch, Accepted(w, ch, to, SetOf(missing)))
  {
    ok := true;
    ghost var done: set<nat> := {};
    assert Written(d.files, ch, Accepted(w, ch, to, {})) == d.files;
    for k := 0 to |missing|
      invariant forall i :: i in done <==> i in missing[..k]
      invariant ok == AllTake(w, ch, to, done)
      invariant d.files == Written(old(d.files), ch, Accepted(w, ch, to, done))
    {
      var i := missing[k];
      PlaceNext(w, old(d.files), ch, to, done, i);
      var stored := d.Store(w, ch.At(to[i], i), shards[i]);
      done := done + {i};
      if !stored { ok := false; }
    }
    assert done == SetOf(missing);
  }

  /** Rebuilds the named positions on the nodes they should be on, from the nodes that have the chunk. It
      succeeds exactly when enough shards can be read and every store succeeds; whenever enough can be
      read, exactly the shards that are taken are written, and otherwise nothing is. */
  method RestoreShards(w: World, d: Disks, c: Code, ch: Chunk, from: seq<Node>, to: seq<Node>, missing: seq<nat>)
    returns (ok: bool)
    requires Encodes(c, ch) && |from| == |to| == |ch.shards|
    requires forall k :: 0 <= k < |missing| ==> missing[k] < |to|
    modifies d
    ensures ok == (Enough(w, old(d.files), ch, from) && AllTake(w, ch, to, SetOf(missing)))
    ensures d.files == if Enough(w, old(d.files), ch, from)
                       then Written(old(d.files), ch, Accepted(w, ch, to, SetOf(missing))) else old(d.files)
  {
    var slots := new Option<Shard>[|ch.shards|](_ => None);
    d.Gather(w, ch, from, slots, 0, |ch.shards|);
    PresentIs(slots[..], Readable(w, d.files, ch, from));
    var shards := Reconstruct(c, ch, slots[..]);
    if shards.None? { return false; }
    ok := PlaceAll(w, d, ch, shards.value, to, missing);
  }

  /** Writing right shards spoils no position of any placement, and makes right exactly those written. */
  lemma WrittenCorrect(files: Files, ch: Chunk, places: set<Place>, nodes: seq<Node>)
    requires |nodes| == |ch.shards|
    ensures Correct(Written(files, ch, places), ch, nodes) ==
              Correct(files, ch, nodes) + set i | i in UpTo(|nodes|) && ch.At(nodes[i], i) in places
  {
    var after := Written(files, ch, places);
    forall i | i in UpTo(|nodes|)
      ensures Right(after, ch, nodes[i], i) <==> Right(files, ch, nodes[i], i) || ch.At(nodes[i], i) in places
    {
    }
  }

  /** The positions whose node a move changes. */
  function Changed(nodes: seq<Node>, want: seq<Node>): (r: set<nat>)
    requires |nodes| == |want|
  {
    set i | i in UpTo(|want|) && nodes[i] != want[i]
  }

  method Changes(nodes: seq<Node>, want: seq<Node>) returns (missing: seq<nat>)
    requires |nodes| == |want|
    ensures SetOf(missing) == Changed(nodes, want)
    ensures forall k :: 0 <= k < |missing| ==> missing[k] < |want|
    ensures missing == [] <==> nodes == want
  {
    missing := [];
    for i := 0 to |want|
      invariant forall k :: 0 <= k < |missing| ==> missing[k] < i
      invariant forall j: nat :: j in missing <==> j < i && nodes[j] != want[j]
    {
      if nodes[i] != want[i] { missing := missing + [i]; }
    }
    assert forall i: nat :: i < |want| && nodes[i] != want[i] ==> i in missing;
    assert missing == [] ==> nodes == want;
    if missing != [] { assert nodes[missing[0]] != want[missing[0]]; }
  }

  /** Moves a chunk to a new placement: only the positions whose node changes are rebuilt. It succeeds
      exactly when nothing has to move, or enough shards can be read and every changed position takes its
      shard. Committed or not, the old placement is as good as before; and a move that succeeds leaves
      the new one with every right position the old one had, and every changed position right. */
  method MoveShards(w: World, d: Disks, c: Code, ch: Chunk, nodes: seq<Node>, want: seq<Node>) returns (ok: bool)
    requires Encodes(c, ch) && |nodes| == |want| == |ch.shards|
    modifies d
    ensures ok <==> nodes == want || (Enough(w, old(d.files), ch, nodes) && AllTake(w, ch, want, Changed(nodes, want)))
    ensures Correct(old(d.files), ch, nodes) <= Correct(d.files, ch, nodes)
    ensures ok ==> Correct(d.files, ch, want) == Correct(old(d.files), ch, want) + Changed(nodes, want)
    ensures ok ==> Correct(old(d.files), ch, nodes) <= Correct(d.files, ch, want)
    ensures forall p: Place ::
              !(p.chunk == ch.id && p.position in Changed(nodes, want) && p.node == want[p.position]) ==>
              (p in d.files <==> p in old(d.files)) && (p in d.files ==> d.files[p] == old(d.files)[p])
  {
    var missing := Changes(nodes, want);
    if |missing| == 0 { return true; }
    ghost var before := d.files;
    ok := RestoreShards(w, d, c, ch, nodes, want, missing);
    if Enough(w, before, ch, nodes) {
      WrittenCorrect(before, ch, Accepted(w, ch, want, Changed(nodes, want)), nodes);
      if ok { MovedCorrect(w, before, ch, nodes, want); }
    }
  }

  lemma MovedCorrect(w: World, files: Files, ch: Chunk, nodes: seq<Node>, want: seq<Node>)
    requires |nodes| == |want| == |ch.shards| && AllTake(w, ch, want, Changed(nodes, want))
    ensures var after := Written(files, ch, Accepted(w, ch, want, Changed(nodes, want)));
            && Correct(after, ch, want) == Correct(files, ch, want) + Changed(nodes, want)
            && Correct(files, ch, nodes) <= Correct(after, ch, want)
  {
    var places := Accepted(w, ch, want, Changed(nodes, want));
    WrittenCorrect(files, ch, places, want);
    forall i | i in UpTo(|want|) ensures ch.At(want[i], i) in places <==> i in Changed(nodes, want) {
    }
    forall i | i in Correct(files, ch, nodes) && nodes[i] == want[i] ensures i in Correct(files, ch, want) {
    }
  }

  /** After any one loss, an acknowledged chunk can still be read. */
  lemma SurvivesOneLoss(files: Files, ch: Chunk, nodes: seq<Node>, lost: Place, w: World)
    requires |Correct(files, ch, nodes)| >= ch.data + 1 && |nodes| == |ch.shards|
    requires forall n :: n in nodes ==> w.Answers(n)
    ensures Enough(w, files - {lost}, ch, nodes)
  {
    var left := Correct(files, ch, nodes) - {lost.position};
    forall i | i in left ensures i in Readable(w, files - {lost}, ch, nodes) { assert nodes[i] in nodes; }
    SubsetSize(left, Readable(w, files - {lost}, ch, nodes));
  }

  /** And after the loss of any one node of a placement that names none twice. */
  lemma SurvivesOneNode(files: Files, ch: Chunk, nodes: seq<Node>, down: Node, w: World)
    requires |Correct(files, ch, nodes)| >= ch.data + 1 && |nodes| == |ch.shards| && Distinct(nodes)
    requires forall n :: n in nodes && n != down ==> w.Answers(n)
    ensures Enough(w, files, ch, nodes)
  {
    var all, left := Correct(files, ch, nodes), Readable(w, files, ch, nodes);
    if i: nat :| i < |nodes| && nodes[i] == down {
      forall j | j in all - {i} ensures j in left { assert nodes[j] != down; }
      SubsetSize(all - {i}, left);
    } else {
      forall j | j in all ensures j in left { assert nodes[j] in nodes; }
      SubsetSize(all, left);
    }
  }

  // A code with the property: one data shard, and parity that repeats it

  function FirstPresent(slots: seq<Option<Shard>>): Shard {
    if slots == [] then [] else if slots[0].Some? then slots[0].value else FirstPresent(slots[1..])
  }

  function Mirror(parity: nat): Code {
    Code(1, parity, (chunk: seq<byte>) => seq(1 + parity, _ => chunk),
         (slots: seq<Option<Shard>>) => seq(1 + parity, _ => FirstPresent(slots)),
         (shards: seq<Shard>, n: nat) => if shards == [] then [] else shards[0])
  }

  lemma {:induction false} FirstPresentIs(slots: seq<Option<Shard>>, s: Shard)
    requires forall i :: 0 <= i < |slots| && slots[i].Some? ==> slots[i].value == s
    requires exists i :: 0 <= i < |slots| && slots[i].Some?
    ensures FirstPresent(slots) == s
  {
    if slots[0].None? {
      var i :| 0 <= i < |slots| && slots[i].Some?;
      assert slots[1..][i - 1] == slots[i];
      FirstPresentIs(slots[1..], s);
    }
  }

  lemma MirrorIsSeparable(parity: nat)
    ensures Separable(Mirror(parity))
  {
    var c := Mirror(parity);
    forall bytes ensures SeparableFor(c, bytes) {
      forall slots | Partial(slots, c.split(bytes)) && |Present(slots)| >= c.data
        ensures c.solve(slots) == c.split(bytes)
      {
        var i :| i in Present(slots);
        FirstPresentIs(slots, bytes);
      }
    }
  }
}
