/** Repairing one replicated object: what a pass surveys, rebuilds and counts. A survey asks only whether a
    file is there, so a copy that has rotted counts as held. */
module Repair {
  import opened Basics

  type Node = string

  // What becomes of each copy a manifest promises, and how it is counted

  /** Its node is no member; the survey found it; it has been rebuilt; or it could not be. */
  datatype Fate = Away | Held | Rebuilt | Stuck

  datatype Share = Share(fate: Fate, size: nat)

  datatype Stats = Stats(checked: nat, restored: nat, bytes: nat, unrepairable: nat)

  function Count(shares: seq<Share>, f: Fate): nat {
    if shares == [] then 0
    else Count(shares[..|shares| - 1], f) + if shares[|shares| - 1].fate == f then 1 else 0
  }

  function BytesOf(shares: seq<Share>): nat {
    if shares == [] then 0
    else BytesOf(shares[..|shares| - 1]) + if shares[|shares| - 1].fate == Rebuilt then shares[|shares| - 1].size else 0
  }

  /** The counters after these copies have been dealt with. */
  predicate Accounts(st: Stats, st': Stats, shares: seq<Share>) {
    && st'.checked + Count(shares, Away) == st.checked + |shares|
    && st'.restored == st.restored + Count(shares, Rebuilt)
    && st'.bytes == st.bytes + BytesOf(shares)
    && st'.unrepairable == st.unrepairable + Count(shares, Stuck)
  }

  lemma {:induction false} EveryShareCounted(shares: seq<Share>)
    ensures Count(shares, Away) + Count(shares, Held) + Count(shares, Rebuilt) + Count(shares, Stuck) == |shares|
  {
    if shares != [] { EveryShareCounted(shares[..|shares| - 1]); }
  }

  /** Copies checked are those the survey found, those restored and those that could not be; restored are the rebuilt
      ones, and unrepairable those that are stuck. */
  lemma Conserved(st: Stats, st': Stats, shares: seq<Share>)
    requires Accounts(st, st', shares)
    ensures st'.restored - st.restored == Count(shares, Rebuilt)
    ensures st'.unrepairable - st.unrepairable == Count(shares, Stuck)
    ensures st'.checked - st.checked ==
              Count(shares, Held) + (st'.restored - st.restored) + (st'.unrepairable - st.unrepairable)
  {
    EveryShareCounted(shares);
  }

  lemma {:induction false} NoneOf(shares: seq<Share>, f: Fate)
    ensures Count(shares, f) == 0 <==> forall s :: s in shares ==> s.fate != f
  {
    if shares != [] {
      var front, last := shares[..|shares| - 1], shares[|shares| - 1];
      NoneOf(front, f);
      assert shares == front + [last];
    }
  }

  lemma CountSnoc(shares: seq<Share>, s: Share, f: Fate)
    ensures Count(shares + [s], f) == Count(shares, f) + if s.fate == f then 1 else 0
    ensures BytesOf(shares + [s]) == BytesOf(shares) + if s.fate == Rebuilt then s.size else 0
  {
    assert (shares + [s])[..|shares|] == shares;
  }

  function Flat(views: seq<seq<Share>>): seq<Share> {
    if views == [] then [] else Flat(views[..|views| - 1]) + views[|views| - 1]
  }

  lemma {:induction false} CountFlat(views: seq<seq<Share>>, f: Fate)
    ensures Count(Flat(views), f) == 0 <==> forall k :: 0 <= k < |views| ==> Count(views[k], f) == 0
  {
    if views != [] {
      var n := |views| - 1;
      CountFlat(views[..n], f);
      CountConcat(Flat(views[..n]), views[n], f);
      assert forall k :: 0 <= k < n ==> views[..n][k] == views[k];
    }
  }

  /** Counting one copy. */
  function Tally(st: Stats, s: Share): Stats {
    match s.fate
    case Away => st
    case Held => st.(checked := st.checked + 1)
    case Rebuilt => st.(checked := st.checked + 1, restored := st.restored + 1, bytes := st.bytes + s.size)
    case Stuck => st.(checked := st.checked + 1, unrepairable := st.unrepairable + 1)
  }

  lemma TallyAccounts(st: Stats, st': Stats, shares: seq<Share>, s: Share)
    requires Accounts(st, st', shares)
    ensures Accounts(st, Tally(st', s), shares + [s])
  {
    CountSnoc(shares, s, Away);
    CountSnoc(shares, s, Rebuilt);
    CountSnoc(shares, s, Stuck);
  }

  // One replicated object

  datatype Chunk = Chunk(id: string, size: nat)
  datatype Copy = Copy(node: Node, chunk: string)

  /** The files there are, and whether each is still good. */
  type Files = map<Copy, bool>

  /** What the cluster lets a pass do: who is a member, which surveys are not answered, which nodes' files
      cannot be opened, and which pushes of good bytes do not succeed. */
  datatype World = World(self: Node, live: set<Node>, silent: set<Node>, closed: set<Node>, refuses: set<Copy>) {
    predicate Answers(n: Node) { n !in silent }
    predicate Opens(n: Node) { n !in closed }
    predicate Takes(c: Copy) { c !in refuses }
  }

  /** The order in which named nodes are tried: this node's own copy first. */
  function LocalFirst(self: Node, nodes: seq<Node>): (r: seq<Node>)
    ensures |r| == |nodes| && forall n :: n in r <==> n in nodes
  {
    var i := FirstIndex(nodes, self);
    if i == 0 || i == |nodes| then nodes
    else
      var r := nodes[0 := self][i := nodes[0]];
      assert forall j :: 0 <= j < |nodes| ==> nodes[j] == r[if j == 0 then i else if j == i then 0 else j];
      r
  }

  /** This node comes first if it is named at all, in exchange for the node that did. */
  lemma LocalFirstIs(self: Node, nodes: seq<Node>)
    ensures var r := LocalFirst(self, nodes);
            && multiset(r) == multiset(nodes)
            && (self !in nodes ==> r == nodes)
            && (self in nodes ==> r[0] == self && forall j :: 0 < j < |r| && r[j] != nodes[0] ==> r[j] == nodes[j])
  {
    var i := FirstIndex(nodes, self);
    if 0 < i < |nodes| {
      var swapped := nodes[0 := self];
      assert multiset(swapped) == multiset(nodes) - multiset{nodes[0]} + multiset{self};
    }
  }

  /** The first node that opens its file of the chunk serves it, good or not: there is no second try. */
  function Server(w: World, order: seq<Node>, files: Files, ch: string): Option<Node> {
    if order == [] then None
    else if w.Opens(order[0]) && Copy(order[0], ch) in files then Some(order[0])
    else Server(w, order[1..], files, ch)
  }

  lemma {:induction false} ServerHolds(w: World, order: seq<Node>, files: Files, ch: string)
    ensures var s := Server(w, order, files, ch); s.Some? ==> s.value in order && Copy(s.value, ch) in files
    ensures Server(w, order, files, ch).None? ==> forall n :: n in order && w.Opens(n) ==> Copy(n, ch) !in files
  {
    if order != [] { ServerHolds(w, order[1..], files, ch); }
  }

  /** The server is the first in the order that opens its file. */
  lemma {:induction false} ServerIsFirst(w: World, order: seq<Node>, files: Files, ch: string, i: nat)
    requires i < |order| && order[i] !in w.closed && Copy(order[i], ch) in files
    requires forall j :: 0 <= j < i ==> order[j] in w.closed || Copy(order[j], ch) !in files
    ensures Server(w, order, files, ch) == Some(order[i])
  {
    if i > 0 { ServerIsFirst(w, order[1..], files, ch, i - 1); }
  }

  /** A node that has a file of its own serves itself from it. */
  lemma OwnCopyServes(w: World, nodes: seq<Node>, files: Files, ch: string)
    requires w.self in nodes && w.self !in w.closed && Copy(w.self, ch) in files
    ensures Servable(w, nodes, files, ch) <==> files[Copy(w.self, ch)]
  {
    LocalFirstIs(w.self, nodes);
    ServerIsFirst(w, LocalFirst(w.self, nodes), files, ch, 0);
  }

  predicate ServedWell(w: World, order: seq<Node>, files: Files, ch: string) {
    var s := Server(w, order, files, ch);
    s.Some? && Copy(s.value, ch) in files && files[Copy(s.value, ch)]
  }

  /** The node that serves the chunk serves it well. */
  predicate Servable(w: World, nodes: seq<Node>, files: Files, ch: string) {
    ServedWell(w, LocalFirst(w.self, nodes), files, ch)
  }

  /** A silent survey counts as nothing held. */
  predicate Surveyed(w: World, files: Files, c: Copy) {
    w.Answers(c.node) && c in files
  }

  function FateOf(w: World, nodes: seq<Node>, files: Files, c: Copy): Fate {
    if c.node !in w.live then Away
    else if Surveyed(w, files, c) then Held
    else if Servable(w, nodes, files, c.chunk) && w.Takes(c) then Rebuilt
    else Stuck
  }

  /** One chunk on each of some nodes. */
  function ChunkShares(w: World, nodes: seq<Node>, files: Files, ch: Chunk, some: seq<Node>): seq<Share> {
    if some == [] then []
    else ChunkShares(w, nodes, files, ch, some[..|some| - 1])
         + [Share(FateOf(w, nodes, files, Copy(some[|some| - 1], ch.id)), ch.size)]
  }

  function Views(w: World, nodes: seq<Node>, files: Files, chunks: seq<Chunk>): (r: seq<seq<Share>>)
    ensures |r| == |chunks|
    ensures forall k :: 0 <= k < |chunks| ==> r[k] == ChunkShares(w, nodes, files, chunks[k], nodes)
  {
    seq(|chunks|, k requires 0 <= k < |chunks| => ChunkShares(w, nodes, files, chunks[k], nodes))
  }

  /** What becomes of each copy: it is away if its node is no member, held if that node says it has a file, rebuilt
      if the chunk is served well and the push succeeds, and otherwise stuck. */
  lemma {:induction false} ShareAt(w: World, nodes: seq<Node>, files: Files, ch: Chunk, some: seq<Node>, i: nat)
    requires i < |some|
    ensures var shares, n := ChunkShares(w, nodes, files, ch, some), some[i];
            && |shares| == |some| && shares[i].size == ch.size
            && shares[i].fate ==
                 if n !in w.live then Away
                 else if n !in w.silent && Copy(n, ch.id) in files then Held
                 else if Servable(w, nodes, files, ch.id) && Copy(n, ch.id) !in w.refuses then Rebuilt
                 else Stuck
  {
    if i < |some| - 1 {
      ShareAt(w, nodes, files, ch, some[..|some| - 1], i);
    } else if i > 0 {
      ShareAt(w, nodes, files, ch, some[..|some| - 1], 0);
    } else {
      assert ChunkShares(w, nodes, files, ch, some[..0]) == [];
    }
  }

  /** Every chunk on each of the nodes named. */
  function Shares(w: World, nodes: seq<Node>, files: Files, chunks: seq<Chunk>): seq<Share> {
    Flat(Views(w, nodes, files, chunks))
  }

  function RebuiltOn(w: World, nodes: seq<Node>, files: Files, ch: string, some: seq<Node>): set<Copy> {
    set n | n in some && FateOf(w, nodes, files, Copy(n, ch)) == Rebuilt :: Copy(n, ch)
  }

  /** The copies that repairing these chunks rebuilds. */
  function RebuiltCopies(w: World, nodes: seq<Node>, files: Files, chunks: seq<Chunk>): set<Copy> {
    set n, ch | n in nodes && ch in chunks && FateOf(w, nodes, files, Copy(n, ch.id)) == Rebuilt :: Copy(n, ch.id)
  }

  function With(files: Files, good: set<Copy>): (r: Files) {
    files + map c | c in good :: true
  }

  /** Copies are only ever added of chunks that are served well. */
  predicate Sound(w: World, nodes: seq<Node>, files: Files, good: set<Copy>) {
    forall c :: c in good ==> Servable(w, nodes, files, c.chunk)
  }

  /** Rebuilding changes nothing about which chunks can be served well. */
  lemma ServableKept(w: World, nodes: seq<Node>, files: Files, good: set<Copy>, ch: string)
    requires Sound(w, nodes, files, good)
    ensures Servable(w, nodes, With(files, good), ch) <==> Servable(w, nodes, files, ch)
  {
    var order := LocalFirst(w.self, nodes);
    if Servable(w, nodes, files, ch) {
      StillServed(w, order, files, good, ch);
    } else {
      assert forall c :: c in good ==> c.chunk != ch;
      SameServer(w, order, files, good, ch);
    }
  }

  lemma {:induction false} StillServed(w: World, order: seq<Node>, files: Files, good: set<Copy>, ch: string)
    requires ServedWell(w, order, files, ch)
    ensures ServedWell(w, order, With(files, good), ch)
  {
    if !(w.Opens(order[0]) && Copy(order[0], ch) in With(files, good)) {
      StillServed(w, order[1..], files, good, ch);
    }
  }

  lemma {:induction false} SameServer(w: World, order: seq<Node>, files: Files, good: set<Copy>, ch: string)
    requires forall c :: c in good ==> c.chunk != ch
    ensures Server(w, order, With(files, good), ch) == Server(w, order, files, ch)
    ensures ServedWell(w, order, With(files, good), ch) == ServedWell(w, order, files, ch)
  {
    if order != [] { SameServer(w, order[1..], files, good, ch); }
  }

  function OneMore(good: set<Copy>, c: Copy, f: Fate): set<Copy> { if f == Rebuilt then good + {c} else good }

  lemma WithNext(files: Files, good: set<Copy>, c: Copy)
    ensures With(files, good + {c}) == With(files, good)[c := true]
  {
  }

  class Disks {
    var files: Files

    constructor (files: Files)
      ensures this.files == files
    {
      this.files := files;
    }

    /** Opens the chunk on the first node that can. */
    method Fetch(w: World, nodes: seq<Node>, ch: string) returns (s: Option<Node>)
      ensures s == Server(w, LocalFirst(w.self, nodes), files, ch)
    {
      var order := LocalFirst(w.self, nodes);
      assert order[0..] == order;
      for i := 0 to |order|
        invariant Server(w, order, files, ch) == Server(w, order[i..], files, ch)
      {
        assert order[i..][0] == order[i] && order[i..][1..] == order[i + 1..];
        if w.Opens(order[i]) && Copy(order[i], ch) in files { return Some(order[i]); }
      }
      return None;
    }

    /** Streams a chunk from its server to the node that lacks it, which refuses bytes that are not good. */
    method Restore(w: World, nodes: seq<Node>, c: Copy) returns (ok: bool)
      modifies this
      ensures ok == (Servable(w, nodes, old(files), c.chunk) && w.Takes(c))
      ensures files == if ok then old(files)[c := true] else old(files)
    {
      var s := Fetch(w, nodes, c.chunk);
      if s.None? { return false; }
      ServerHolds(w, LocalFirst(w.self, nodes), files, c.chunk);
      ok := files[Copy(s.value, c.chunk)] && w.Takes(c);
      if ok { files := files[c := true]; }
    }

    /** One copy that the manifest promises. `was` is what the survey saw, and `good` has been added since. */
    method RepairCopy(w: World, nodes: seq<Node>, c: Copy, size: nat, held: bool, st: Stats,
                      ghost was: Files, ghost good: set<Copy>) returns (st': Stats)
      requires files == With(was, good) && Sound(w, nodes, was, good) && held == Surveyed(w, was, c)
      modifies this
      ensures st' == Tally(st, Share(FateOf(w, nodes, was, c), size))
      ensures files == With(was, OneMore(good, c, FateOf(w, nodes, was, c)))
      ensures Sound(w, nodes, was, OneMore(good, c, FateOf(w, nodes, was, c)))
    {
      st' := st;
      if c.node !in w.live { return; }
      st' := st'.(checked := st'.checked + 1);
      if held { return; }
      ServableKept(w, nodes, was, good, c.chunk);
      WithNext(was, good, c);
      var ok := Restore(w, nodes, c);
      if !ok {
        st' := st'.(unrepairable := st'.unrepairable + 1);
        return;
      }
      st' := st'.(restored := st'.restored + 1, bytes := st'.bytes + size);
    }

    /** One chunk over all the nodes its manifest names. */
    method RepairChunk(w: World, nodes: seq<Node>, ch: Chunk, held: set<Copy>, st: Stats,
                       ghost was: Files, ghost good: set<Copy>) returns (st': Stats)
      requires files == With(was, good) && Sound(w, nodes, was, good)
      requires forall n :: n in nodes ==> (Copy(n, ch.id) in held <==> Surveyed(w, was, Copy(n, ch.id)))
      modifies this
      ensures files == With(was, good + RebuiltOn(w, nodes, was, ch.id, nodes))
      ensures Sound(w, nodes, was, good + RebuiltOn(w, nodes, was, ch.id, nodes))
      ensures Accounts(st, st', ChunkShares(w, nodes, was, ch, nodes))
    {
      st' := st;
      ghost var shares, added := [], good;
      assert RebuiltOn(w, nodes, was, ch.id, nodes[..0]) == {} && good + {} == good;
      for i := 0 to |nodes|
        invariant shares == ChunkShares(w, nodes, was, ch, nodes[..i]) && Accounts(st, st', shares)
        invariant added == good + RebuiltOn(w, nodes, was, ch.id, nodes[..i])
        invariant files == With(was, added) && Sound(w, nodes, was, added)
      {
        var c := Copy(nodes[i], ch.id);
        ghost var s := Share(FateOf(w, nodes, was, c), ch.size);
        SharesNext(w, nodes, was, ch, i, good);
        TallyAccounts(st, st', shares, s);
        st' := RepairCopy(w, nodes, c, ch.size, c in held, st', was, added);
        shares, added := shares + [s], OneMore(added, c, s.fate);
      }
      assert nodes[..|nodes|] == nodes;
    }

    /** Repairs one object, or abandons it if this node cannot survey its own disk. Otherwise each copy the
        manifest promises has the fate that what the survey saw decides; exactly the copies to be rebuilt
        are added, and every copy of a member is counted once. */
    method RepairObject(w: World, nodes: seq<Node>, chunks: seq<Chunk>, st: Stats) returns (st': Stats, abandoned: bool)
      modifies this
      ensures abandoned <==> w.self in nodes && w.self in w.live && w.self in w.silent
      ensures abandoned ==> files == old(files) && st' == st
      ensures !abandoned ==>
                && files == With(old(files), RebuiltCopies(w, nodes, old(files), chunks))
                && Accounts(st, st', Shares(w, nodes, old(files), chunks))
    {
      if w.self in nodes && w.self in w.live && !w.Answers(w.self) { return st, true; }
      ghost var was := files;
      var held := set n, ch | n in nodes && ch in chunks && Surveyed(w, files, Copy(n, ch.id)) :: Copy(n, ch.id);
      st' := st;
      ghost var shares: seq<Share> := [];
      ghost var good: set<Copy> := {};
      for i := 0 to |chunks|
        invariant shares == Shares(w, nodes, was, chunks[..i]) && Accounts(st, st', shares)
        invariant good == RebuiltCopies(w, nodes, was, chunks[..i])
        invariant files == With(was, good) && Sound(w, nodes, was, good)
      {
        assert chunks[i] in chunks;
        ObjectNext(w, nodes, was, chunks, i);
        ghost var mid := st';
        st' := RepairChunk(w, nodes, chunks[i], held, st', was, good);
        AccountsConcat(st, mid, st', shares, ChunkShares(w, nodes, was, chunks[i], nodes));
        good := good + RebuiltOn(w, nodes, was, chunks[i].id, nodes);
        shares := shares + ChunkShares(w, nodes, was, chunks[i], nodes);
      }
      assert chunks[..|chunks|] == chunks;
      return st', false;
    }
  }

  lemma {:induction false} CountConcat(a: seq<Share>, b: seq<Share>, f: Fate)
    ensures Count(a + b, f) == Count(a, f) + Count(b, f) && BytesOf(a + b) == BytesOf(a) + BytesOf(b)
  {
    if b == [] {
      assert a + b == a;
    } else {
      assert (a + b)[..|a + b| - 1] == a + b[..|b| - 1];
      CountConcat(a, b[..|b| - 1], f);
    }
  }

  lemma AccountsConcat(st: Stats, mid: Stats, st': Stats, a: seq<Share>, b: seq<Share>)
    requires Accounts(st, mid, a) && Accounts(mid, st', b)
    ensures Accounts(st, st', a + b)
  {
    CountConcat(a, b, Away);
    CountConcat(a, b, Rebuilt);
    CountConcat(a, b, Stuck);
  }

  lemma ObjectNext(w: World, nodes: seq<Node>, files: Files, chunks: seq<Chunk>, i: nat)
    requires i < |chunks|
    ensures Shares(w, nodes, files, chunks[..i + 1]) ==
              Shares(w, nodes, files, chunks[..i]) + ChunkShares(w, nodes, files, chunks[i], nodes)
    ensures RebuiltCopies(w, nodes, files, chunks[..i + 1]) ==
              RebuiltCopies(w, nodes, files, chunks[..i]) + RebuiltOn(w, nodes, files, chunks[i].id, nodes)
  {
    assert chunks[..i + 1] == chunks[..i] + [chunks[i]];
    var views := Views(w, nodes, files, chunks[..i + 1]);
    assert views[..i] == Views(w, nodes, files, chunks[..i]);
  }

  lemma SharesNext(w: World, nodes: seq<Node>, files: Files, ch: Chunk, i: nat, good: set<Copy>)
    requires i < |nodes|
    ensures var c := Copy(nodes[i], ch.id); var fate := FateOf(w, nodes, files, c);
            && ChunkShares(w, nodes, files, ch, nodes[..i + 1]) ==
                 ChunkShares(w, nodes, files, ch, nodes[..i]) + [Share(fate, ch.size)]
            && good + RebuiltOn(w, nodes, files, ch.id, nodes[..i + 1]) ==
                 OneMore(good + RebuiltOn(w, nodes, files, ch.id, nodes[..i]), c, fate)
  {
    assert nodes[..i + 1] == nodes[..i] + [nodes[i]] && nodes[..i + 1][..i] == nodes[..i];
  }

  // What a pass achieves

  lemma {:induction false} ChunkFates(w: World, nodes: seq<Node>, files: Files, ch: Chunk, some: seq<Node>, f: Fate)
    ensures (exists s :: s in ChunkShares(w, nodes, files, ch, some) && s.fate == f) <==>
            exists n :: n in some && FateOf(w, nodes, files, Copy(n, ch.id)) == f
    decreases |some|
  {
    if some != [] {
      var front, n := some[..|some| - 1], some[|some| - 1];
      ChunkFates(w, nodes, files, ch, front, f);
      var shares := ChunkShares(w, nodes, files, ch, some);
      assert some == front + [n] && shares[|shares| - 1] in shares;
      assert forall s :: s in ChunkShares(w, nodes, files, ch, front) ==> s in shares;
      if s :| s in shares && s.fate == f {
        if s in ChunkShares(w, nodes, files, ch, front) {} else { assert n in some; }
      }
    }
  }

  predicate OccursOn(w: World, nodes: seq<Node>, files: Files, ch: string, f: Fate) {
    exists n :: n in nodes && FateOf(w, nodes, files, Copy(n, ch)) == f
  }

  lemma ChunkOccurs(w: World, nodes: seq<Node>, files: Files, ch: Chunk, f: Fate)
    ensures Count(ChunkShares(w, nodes, files, ch, nodes), f) > 0 <==> OccursOn(w, nodes, files, ch.id, f)
  {
    NoneOf(ChunkShares(w, nodes, files, ch, nodes), f);
    ChunkFates(w, nodes, files, ch, nodes, f);
  }

  /** The object has a copy of this fate exactly when one of its chunks has. */
  lemma ObjectFates(w: World, nodes: seq<Node>, files: Files, chunks: seq<Chunk>, f: Fate)
    ensures Count(Shares(w, nodes, files, chunks), f) == 0 <==>
            forall k :: 0 <= k < |chunks| ==> !OccursOn(w, nodes, files, chunks[k].id, f)
  {
    var views := Views(w, nodes, files, chunks);
    CountFlat(views, f);
    forall k | 0 <= k < |chunks| ensures Count(views[k], f) > 0 <==> OccursOn(w, nodes, files, chunks[k].id, f) {
      ChunkOccurs(w, nodes, files, chunks[k], f);
    }
  }

  /** Every missing copy has a server that serves it well, and arrives. */
  predicate AllRebuildable(w: World, nodes: seq<Node>, chunks: seq<Chunk>, files: Files) {
    forall n, ch :: n in nodes && n in w.live && ch in chunks && !Surveyed(w, files, Copy(n, ch.id)) ==>
      Servable(w, nodes, files, ch.id) && w.Takes(Copy(n, ch.id))
  }

  /** A pass calls nothing unrepairable exactly when every missing copy could be rebuilt. */
  lemma UnrepairableIff(w: World, nodes: seq<Node>, files: Files, chunks: seq<Chunk>)
    ensures Count(Shares(w, nodes, files, chunks), Stuck) == 0 <==> AllRebuildable(w, nodes, chunks, files)
  {
    ObjectFates(w, nodes, files, chunks, Stuck);
    if AllRebuildable(w, nodes, chunks, files) {
      forall k | 0 <= k < |chunks| ensures !OccursOn(w, nodes, files, chunks[k].id, Stuck) {
        assert chunks[k] in chunks;
      }
    }
    if Count(Shares(w, nodes, files, chunks), Stuck) == 0 {
      forall n, ch | n in nodes && n in w.live && ch in chunks && !Surveyed(w, files, Copy(n, ch.id))
        ensures Servable(w, nodes, files, ch.id) && w.Takes(Copy(n, ch.id))
      {
        var k :| 0 <= k < |chunks| && chunks[k] == ch;
        assert !OccursOn(w, nodes, files, chunks[k].id, Stuck);
      }
    }
  }

  /** Every member the manifest names has a file of every chunk. */
  predicate Whole(w: World, nodes: seq<Node>, chunks: seq<Chunk>, files: Files) {
    forall n, ch :: n in nodes && n in w.live && ch in chunks ==> Copy(n, ch.id) in files
  }

  /** When no survey and no push fails and each chunk is served well, one repair makes the object whole; the
      copies it added are good; and the next finds every copy, restores nothing and changes nothing. */
  lemma RepairMakesWhole(w: World, nodes: seq<Node>, chunks: seq<Chunk>, files: Files)
    requires forall n :: n in nodes && n in w.live ==> w.Answers(n)
    requires forall c: Copy :: c.node in w.live && c.node in nodes ==> w.Takes(c)
    requires forall ch :: ch in chunks ==> Servable(w, nodes, files, ch.id)
    ensures var after := With(files, RebuiltCopies(w, nodes, files, chunks));
            && Whole(w, nodes, chunks, after)
            && (forall c :: c in after && c !in files ==> after[c])
            && Count(Shares(w, nodes, files, chunks), Stuck) == 0
            && Count(Shares(w, nodes, after, chunks), Rebuilt) == 0
            && Count(Shares(w, nodes, after, chunks), Stuck) == 0
            && RebuiltCopies(w, nodes, after, chunks) == {}
  {
    var after := With(files, RebuiltCopies(w, nodes, files, chunks));
    forall n, ch | n in nodes && n in w.live && ch in chunks
      ensures Copy(n, ch.id) in after && FateOf(w, nodes, after, Copy(n, ch.id)) == Held
    {
      HeldAfterwards(w, nodes, chunks, files, n, ch);
    }
    UnrepairableIff(w, nodes, files, chunks);
    NextPassIdle(w, nodes, chunks, after);
  }

  lemma NextPassIdle(w: World, nodes: seq<Node>, chunks: seq<Chunk>, files: Files)
    requires forall n, ch :: n in nodes && n in w.live && ch in chunks ==>
                               FateOf(w, nodes, files, Copy(n, ch.id)) == Held
    ensures Count(Shares(w, nodes, files, chunks), Rebuilt) == 0
    ensures Count(Shares(w, nodes, files, chunks), Stuck) == 0
    ensures RebuiltCopies(w, nodes, files, chunks) == {}
  {
    assert forall k :: 0 <= k < |chunks| ==> chunks[k] in chunks;
    ObjectFates(w, nodes, files, chunks, Rebuilt);
    ObjectFates(w, nodes, files, chunks, Stuck);
  }

  lemma HeldAfterwards(w: World, nodes: seq<Node>, chunks: seq<Chunk>, files: Files, n: Node, ch: Chunk)
    requires n in nodes && n in w.live && ch in chunks && w.Answers(n)
    requires w.Takes(Copy(n, ch.id)) && Servable(w, nodes, files, ch.id)
    ensures var after := With(files, RebuiltCopies(w, nodes, files, chunks));
            Copy(n, ch.id) in after && FateOf(w, nodes, after, Copy(n, ch.id)) == Held
  {
    assert Surveyed(w, files, Copy(n, ch.id)) || Copy(n, ch.id) in RebuiltCopies(w, nodes, files, chunks);
  }

  /** A copy counted as having no source may have one: if the first node that opens its file serves rotten
      bytes, nothing is rebuilt, although another holds a good copy that could be read. */
  lemma RottenServerHidesGoodCopy(w: World, bare: Node, bad: Node, good: Node, ch: string)
    requires bare != bad && bare != good && bad != good && w.self == bare && bare in w.live
    requires w.Answers(bare) && w.Opens(bad) && w.Opens(good) && w.Takes(Copy(bare, ch))
    ensures var files := map[Copy(bad, ch) := false, Copy(good, ch) := true];
            FateOf(w, [bare, bad, good], files, Copy(bare, ch)) == Stuck
  {
    var files := map[Copy(bad, ch) := false, Copy(good, ch) := true];
    var order := [bare, bad, good];
    assert LocalFirst(bare, order) == order;
    assert order[1..][0] == bad;
    assert Server(w, order[1..], files, ch) == Some(bad);
    assert Server(w, order, files, ch) == Some(bad);
  }
}
