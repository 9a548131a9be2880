/** One collection pass as a node makes it. What etcd answers is a parameter: any pages, and any failures.
    `CollectorProtocol` ties it to the protocol's sweep. */
module Collector {
  import opened Basics
  import opened KeyOrder
  import opened Protocol
  import Names = ObjectWrite

  /** An entry of a scan, with where this node's ring puts it; a part has no place on the ring. */
  datatype Entry = Entry(manifest: Manifest, want: seq<Node>)

  /** A page that was read, or a read that failed. */
  type Page = Option<seq<Entry>>

  const ALPHABET := "ABCDEFGHIJKLMNOPQRSTUVWXYZ234567"

  /** The places at which a node stands in a placement. */
  ghost predicate Positions(at: seq<nat>, nodes: seq<Node>, node: Node) {
    forall i: nat :: i in at <==> i < |nodes| && nodes[i] == node
  }

  method PositionsOf(nodes: seq<Node>, node: Node) returns (at: seq<nat>)
    ensures Positions(at, nodes, node)
  {
    at := [];
    for i := 0 to |nodes|
      invariant forall j: nat :: j in at <==> j < i && nodes[j] == node
    {
      if nodes[i] == node { at := at + [i]; }
    }
  }

  /** The ids one manifest makes this node keep. */
  predicate Wanted(e: Entry, self: Node, slice: char, id: Id) {
    References(e.manifest, e.want, self, id) && InSlice(id, slice)
  }

  /** Adds to `referenced` the chunks of a manifest that belong on this node and in the slice. */
  method Reference(referenced: set<Id>, e: Entry, self: Node, slice: char) returns (r: set<Id>)
    ensures forall id :: id in r <==> id in referenced || Wanted(e, self, slice, id)
  {
    r := referenced;
    var m := e.manifest;
    var named := PositionsOf(m.nodes, self);
    var ringed := PositionsOf(e.want, self);
    var mine := named + ringed;
    if |mine| == 0 {
      forall id ensures !Wanted(e, self, slice, id) {
        NowhereToBe(e, self, id, named, ringed);
      }
      return;
    }
    for k := 0 to |m.chunks|
      invariant forall id :: id in r <==> id in referenced || (Wanted(e, self, slice, id) && id.chunk in m.chunks[..k])
    {
      var ch := m.chunks[k];
      ghost var was := r;
      if ch.write != [] && ch.write[0] == slice {
        if m.coding.Replicated? {
          r := r + {Whole(ch)};
        } else {
          r := r + set i | i in mine :: Shard(ch, i);
        }
      }
      assert m.chunks[..k + 1] == m.chunks[..k] + [ch];
      forall id ensures id in r <==> id in was || (id.chunk == ch && Wanted(e, self, slice, id)) {
        if id.chunk == ch { WantedHere(e, self, id, named, ringed); }
      }
    }
    assert m.chunks[..|m.chunks|] == m.chunks;
  }

  lemma NowhereToBe(e: Entry, self: Node, id: Id, named: seq<nat>, ringed: seq<nat>)
    requires Positions(named, e.manifest.nodes, self) && Positions(ringed, e.want, self)
    requires named == [] && ringed == []
    ensures !References(e.manifest, e.want, self, id)
  {
    assert forall i: nat :: i < |e.manifest.nodes| && e.manifest.nodes[i] == self ==> i in named;
    assert forall i: nat :: i < |e.want| && e.want[i] == self ==> i in ringed;
  }

  lemma WantedHere(e: Entry, self: Node, id: Id, named: seq<nat>, ringed: seq<nat>)
    requires Positions(named, e.manifest.nodes, self) && Positions(ringed, e.want, self)
    requires named + ringed != [] && id.chunk in e.manifest.chunks
    ensures References(e.manifest, e.want, self, id) <==>
              if e.manifest.coding.Replicated? then id.Whole? else id.Shard? && id.position in named + ringed
  {
    var i := (named + ringed)[0];
    assert i in named || i in ringed;
  }

  // Reading what is referenced

  /** The entries of a paged scan: reading stops at an empty page, and fails with any page. */
  function Scanned(pages: seq<Page>): Option<seq<Entry>> {
    if pages == [] || pages[0] == Some([]) then Some([])
    else if pages[0].None? then None
    else
      match Scanned(pages[1..])
      case None => None
      case Some(rest) => Some(pages[0].value + rest)
  }

  ghost predicate SomeWants(entries: seq<Entry>, self: Node, slice: char, id: Id) {
    exists e :: e in entries && Wanted(e, self, slice, id)
  }

  method ReferencePage(referenced: set<Id>, entries: seq<Entry>, self: Node, slice: char) returns (r: set<Id>)
    ensures forall id :: id in r <==> id in referenced || SomeWants(entries, self, slice, id)
  {
    r := referenced;
    for i := 0 to |entries|
      invariant forall id :: id in r <==> id in referenced || SomeWants(entries[..i], self, slice, id)
    {
      assert entries[..i + 1] == entries[..i] + [entries[i]];
      r := Reference(r, entries[i], self, slice);
    }
    assert entries[..|entries|] == entries;
  }

  method ReferencePages(referenced: set<Id>, pages: seq<Page>, self: Node, slice: char) returns (ok: bool, r: set<Id>)
    ensures ok == Scanned(pages).Some?
    ensures ok ==> forall id :: id in r <==> id in referenced || SomeWants(Scanned(pages).value, self, slice, id)
  {
    r := referenced;
    ghost var seen: seq<Entry> := [];
    var i := 0;
    assert pages[0..] == pages && forall rest: seq<Entry> :: seen + rest == rest;
    while i < |pages|
      invariant 0 <= i <= |pages|
      invariant forall id :: id in r <==> id in referenced || SomeWants(seen, self, slice, id)
      invariant Scanned(pages) == match Scanned(pages[i..]) case None => None case Some(rest) => Some(seen + rest)
    {
      assert pages[i..][0] == pages[i] && pages[i..][1..] == pages[i + 1..];
      if pages[i].None? { return false, r; }
      var page := pages[i].value;
      if |page| == 0 { break; }
      r := ReferencePage(r, page, self, slice);
      assert forall rest: seq<Entry> :: seen + (page + rest) == seen + page + rest;
      seen := seen + page;
      i := i + 1;
    }
    assert seen + [] == seen;
    return true, r;
  }

  // The records of writes in flight

  class Etcd {
    var records: map<WriteId, Node>
    var cursor: string

    constructor (records: map<WriteId, Node>, cursor: string)
      ensures this.records == records && this.cursor == cursor
    {
      this.records, this.cursor := records, cursor;
    }

    /** Keeps the records of members, and drops the others; never drops a member's, nor any at all
        before the membership is known. Deleting the records in `stuck` fails. */
    method WritesInFlight(members: set<Node>, stuck: set<WriteId>) returns (ok: bool, ids: seq<WriteId>)
      modifies this`records
      ensures ok == (stuck * (old(records).Keys - Kept(old(records), members)) == {})
      ensures ok ==> (set w | w in ids) == Kept(old(records), members) == records.Keys
      ensures records.Keys <= old(records).Keys && forall w :: w in records ==> records[w] == old(records)[w]
      ensures forall w :: w in old(records) && (members == {} || old(records)[w] in members) ==>
                w in records && (ok ==> w in ids)
      ensures ok && members != {} ==> forall w :: w in records || w in ids ==> w in records && records[w] in members
    {
      var left := records.Keys;
      var was := records;
      ids := [];
      while left != {}
        invariant left <= was.Keys && records.Keys <= was.Keys && forall w :: w in records ==> records[w] == was[w]
        invariant forall w :: w in Kept(was, members) ==> w in records
        invariant (set w | w in ids) == Kept(was, members) - left
        invariant forall w :: w in was && w !in left && w !in Kept(was, members) ==> w !in stuck
        invariant forall w :: w in records ==> w in left || w in Kept(was, members)
        decreases left
      {
        var w :| w in left;
        left := left - {w};
        if was[w] in members || members == {} {
          assert (set x | x in ids + [w]) == (set x | x in ids) + {w};
          ids := ids + [w];
        } else {
          if w in stuck {
            assert w in stuck * (was.Keys - Kept(was, members));
            return false, ids;
          }
          records := records - {w};
        }
      }
      return true, ids;
    }

    /** Hands out the slices of the id space in turn, and records the next before this one is swept. If the
        cursor cannot be read or saved there is no pass, and it stays where it was. */
    method NextSlice(readable: bool, savable: bool) returns (slice: Option<char>)
      modifies this`cursor
      ensures slice == if readable && savable then Some(ALPHABET[SliceIndex(old(cursor))]) else None
      ensures if slice.None? then cursor == old(cursor)
              else |cursor| == 1 && SliceIndex(cursor) == (SliceIndex(old(cursor)) + 1) % |ALPHABET|
    {
      if !readable { return None; }
      var i := SliceIndex(cursor);
      if !savable { return None; }
      cursor := [ALPHABET[(i + 1) % |ALPHABET|]];
      IndexOfLetter((i + 1) % |ALPHABET|, 0);
      slice := Some(ALPHABET[i]);
    }
  }

  function LetterFrom(c: char, i: nat): (r: nat)
    requires i <= |ALPHABET|
    ensures i <= r <= |ALPHABET| && (r < |ALPHABET| ==> ALPHABET[r] == c)
    ensures forall j :: i <= j < r ==> ALPHABET[j] != c
    decreases |ALPHABET| - i
  {
    if i == |ALPHABET| || ALPHABET[i] == c then i else LetterFrom(c, i + 1)
  }

  /** Which slice a saved cursor names; anything else starts over. */
  function SliceIndex(cursor: string): (i: nat)
    ensures i < |ALPHABET|
  {
    if |cursor| == 1 && LetterFrom(cursor[0], 0) < |ALPHABET| then LetterFrom(cursor[0], 0) else 0
  }

  lemma LettersDiffer(i: nat, j: nat)
    requires i < j < |ALPHABET|
    ensures ALPHABET[i] != ALPHABET[j]
  {
  }

  lemma IndexOfLetter(i: nat, from: nat)
    requires from <= i < |ALPHABET|
    ensures LetterFrom(ALPHABET[i], from) == i
  {
    var r := LetterFrom(ALPHABET[i], from);
    if r < i { LettersDiffer(r, i); }
  }

  /** The slice swept after `k` more passes, of `n` slices. */
  function AfterPasses(n: nat, i: nat, k: nat): nat
    requires n > 0
  {
    (i + k) % n
  }

  lemma Wraps(n: nat, i: nat, k: nat)
    requires i < n && k < n
    ensures AfterPasses(n, i, k) == if i + k < n then i + k else i + k - n
  {
    if i + k >= n { assert i + k == n + (i + k - n); }
  }

  /** As many passes in a row as there are slices sweep each of them, and each only once. */
  lemma CycleSweepsEverySlice(n: nat, i: nat, target: nat)
    requires i < n && target < n
    ensures exists k: nat :: k < n && AfterPasses(n, i, k) == target
    ensures forall k: nat, l: nat :: k < n && l < n && AfterPasses(n, i, k) == AfterPasses(n, i, l) ==> k == l
  {
    var k := if i <= target then target - i else target + n - i;
    Wraps(n, i, k);
    forall k: nat, l: nat | k < n && l < n && AfterPasses(n, i, k) == AfterPasses(n, i, l) ensures k == l {
      Wraps(n, i, k);
      Wraps(n, i, l);
    }
  }

  // The pass

  /** The name of a file on disk. */
  function FileName(id: Id): string {
    match id
    case Whole(ch) => Names.ChunkName(ch.write, ch.index)
    case Shard(ch, i) => Names.ShardName(Names.ChunkName(ch.write, ch.index), i)
  }

  /** The file's name begins with the id of a write in flight. */
  predicate Protected(writing: set<WriteId>, id: Id) {
    exists w :: w in writing && w <= FileName(id)
  }

  method InFlight(writing: seq<WriteId>, name: string) returns (r: bool)
    ensures r <==> exists w :: w in writing && w <= name
  {
    for i := 0 to |writing|
      invariant forall j :: 0 <= j < i ==> !(writing[j] <= name)
    {
      if writing[i] <= name {
        assert writing[i] in writing;
        return true;
      }
    }
    return false;
  }

  datatype File = File(time: nat, size: nat)
  type Files = map<Id, File>

  /** What a pass goes by when it looks at a file: what it found named here, the records it kept, its slice,
      when it began and how much older a file must be. Removing the files in `stuck` fails. */
  datatype Look = Look(ref: set<Id>, writing: set<WriteId>, slice: char, start: nat, grace: nat, stuck: set<Id>)

  datatype Fate = Referenced | Writing | Young | Stuck | Gone

  /** What becomes of a file of the slice. */
  function FateOf(files: Files, v: Look, id: Id): Fate
    requires id in files
  {
    if id in v.ref then Referenced
    else if Protected(v.writing, id) then Writing
    else if files[id].time + v.grace > v.start then Young
    else if id in v.stuck then Stuck
    else Gone
  }

  /** The files of the slice with one fate. */
  function OfFate(files: Files, v: Look, f: Fate): set<Id> {
    set id | id in files && InSlice(id, v.slice) && FateOf(files, v, id) == f
  }

  /** What one pass takes off a disk: the files in its slice that nothing names, records or keeps for its age,
      and that can be removed. */
  function Taking(files: Files, v: Look): set<Id> { OfFate(files, v, Gone) }

  datatype Stats = Stats(referenced: nat, examined: nat, collected: nat, bytes: nat, young: nat, writing: nat,
                         failed: nat)

  /** The files looked at so far, those not `left`, have each been counted under their own fate. */
  ghost predicate Tallied(st: Stats, files: Files, v: Look, left: set<Id>) {
    && st.referenced == |OfFate(files, v, Referenced) - left| && st.writing == |OfFate(files, v, Writing) - left|
    && st.young == |OfFate(files, v, Young) - left| && st.failed == |OfFate(files, v, Stuck) - left|
    && st.collected == |OfFate(files, v, Gone) - left|
    && st.examined == st.referenced + st.writing + st.young + st.collected + st.failed
  }

  function Counted(st: Stats, f: Fate, size: nat): Stats {
    var seen := st.(examined := st.examined + 1);
    match f
    case Referenced => seen.(referenced := st.referenced + 1)
    case Writing => seen.(writing := st.writing + 1)
    case Young => seen.(young := st.young + 1)
    case Stuck => seen.(failed := st.failed + 1)
    case Gone => seen.(collected := st.collected + 1, bytes := st.bytes + size)
  }

  lemma OneFate(files: Files, v: Look, left: set<Id>, id: Id, f: Fate)
    requires id in left && id in files && InSlice(id, v.slice)
    ensures |OfFate(files, v, f) - (left - {id})|
            == |OfFate(files, v, f) - left| + if FateOf(files, v, id) == f then 1 else 0
  {
    var all := OfFate(files, v, f);
    assert all - (left - {id}) == if FateOf(files, v, id) == f then (all - left) + {id} else all - left;
  }

  lemma TalliedNext(st: Stats, files: Files, v: Look, left: set<Id>, id: Id, size: nat)
    requires Tallied(st, files, v, left) && id in left && id in files && InSlice(id, v.slice)
    ensures Tallied(Counted(st, FateOf(files, v, id), size), files, v, left - {id})
  {
    OneFate(files, v, left, id, Referenced);
    OneFate(files, v, left, id, Writing);
    OneFate(files, v, left, id, Young);
    OneFate(files, v, left, id, Stuck);
    OneFate(files, v, left, id, Gone);
  }

  method Judge(files: Files, v: Look, writing: seq<WriteId>, id: Id) returns (f: Fate)
    requires id in files && v.writing == set w | w in writing
    ensures f == FateOf(files, v, id)
  {
    if id in v.ref { return Referenced; }
    assert forall w :: w in writing <==> w in v.writing;
    var flying := InFlight(writing, FileName(id));
    if flying { return Writing; }
    if files[id].time + v.grace > v.start { return Young; }
    return if id in v.stuck then Stuck else Gone;
  }

  /** How much a disk holds. */
  ghost function TotalSize(files: Files): nat {
    if files == map[] then 0
    else
      var id :| id in files;
      files[id].size + TotalSize(files - {id})
  }

  lemma {:induction false} TotalLess(files: Files, id: Id)
    requires id in files
    ensures TotalSize(files) == files[id].size + TotalSize(files - {id}) && |files - {id}| == |files| - 1
    decreases |files|
  {
    assert (files - {id}).Keys == files.Keys - {id};
    assert |files.Keys| == |files| && |(files - {id}).Keys| == |files - {id}|;
    var first :| first in files && TotalSize(files) == files[first].size + TotalSize(files - {first});
    if first != id {
      assert (files - {first}).Keys == files.Keys - {first} && |files - {first}| < |files|;
      TotalLess(files - {first}, id);
      TotalLess(files - {id}, first);
      assert files - {first} - {id} == files - {id} - {first};
    }
  }

  lemma SliceShrinks(left: set<Id>, id: Id, taking: set<Id>, files: Files)
    requires id in left && taking <= files.Keys
    ensures files - (taking - (left - {id})) ==
              if id in taking then files - (taking - left) - {id} else files - (taking - left)
    ensures id in files ==> id in files - (taking - left)
  {
  }

  class Disk {
    var files: Files

    constructor (files: Files)
      ensures this.files == files
    {
      this.files := files;
    }

    /** Looks at one file, and removes it if it is garbage. */
    method SweepOne(v: Look, writing: seq<WriteId>, st: Stats, ghost left: set<Id>, id: Id, was: Files)
      returns (st': Stats)
      requires v.writing == (set w | w in writing) && Reached(was, files, v, st, left)
      requires id in left && id in was && InSlice(id, v.slice)
      modifies this
      ensures Reached(was, files, v, st', left - {id})
    {
      var f := Judge(was, v, writing, id);
      ReachedNext(was, files, v, st, left, id, f, if f.Gone? then files - {id} else files);
      st' := Counted(st, f, was[id].size);
      if f.Gone? { files := files - {id}; }
    }

    /** Looks at every file of the slice and removes the garbage. Every file is counted once, under its own
        fate. */
    method Sweep(v: Look, writing: seq<WriteId>) returns (st: Stats)
      requires v.writing == set w | w in writing
      modifies this
      ensures Reached(old(files), files, v, st, {})
    {
      var was := files;
      var left := set id | id in files && InSlice(id, v.slice);
      st := Stats(0, 0, 0, 0, 0, 0, 0);
      NothingYet(was, v, left);
      while left != {}
        invariant forall id :: id in left ==> id in was && InSlice(id, v.slice)
        invariant Reached(was, files, v, st, left)
        decreases left
      {
        var id :| id in left;
        st := SweepOne(v, writing, st, left, id, was);
        left := left - {id};
      }
    }
  }

  /** All but the files `left` have been looked at: the garbage among them is gone, and every one has been
      counted under its own fate. */
  ghost predicate Reached(was: Files, files: Files, v: Look, st: Stats, left: set<Id>) {
    files == was - (Taking(was, v) - left) && Tallied(st, was, v, left) && st.bytes + TotalSize(files) == TotalSize(was)
  }

  lemma ReachedNext(was: Files, files: Files, v: Look, st: Stats, left: set<Id>, id: Id, f: Fate, after: Files)
    requires Reached(was, files, v, st, left) && id in left && id in was && InSlice(id, v.slice)
    requires f == FateOf(was, v, id) && after == if f.Gone? then files - {id} else files
    ensures Reached(was, after, v, Counted(st, f, was[id].size), left - {id})
  {
    TalliedNext(st, was, v, left, id, was[id].size);
    FilesNext(was, v, left, id);
    BytesNext(was, files, id, st, f);
  }

  lemma BytesNext(was: Files, files: Files, id: Id, st: Stats, f: Fate)
    requires id in was && id in files && files[id] == was[id] && st.bytes + TotalSize(files) == TotalSize(was)
    ensures Counted(st, f, was[id].size).bytes + TotalSize(if f.Gone? then files - {id} else files) == TotalSize(was)
  {
    TotalLess(files, id);
  }

  lemma FilesNext(was: Files, v: Look, left: set<Id>, id: Id)
    requires id in left && id in was && InSlice(id, v.slice)
    ensures var files := was - (Taking(was, v) - left);
            && id in files && files[id] == was[id]
            && was - (Taking(was, v) - (left - {id})) == if FateOf(was, v, id).Gone? then files - {id} else files
  {
    assert id in Taking(was, v) <==> FateOf(was, v, id).Gone?;
    SliceShrinks(left, id, Taking(was, v), was);
  }

  lemma NothingYet(files: Files, v: Look, left: set<Id>)
    requires forall id :: id in files && InSlice(id, v.slice) ==> id in left
    ensures Reached(files, files, v, Stats(0, 0, 0, 0, 0, 0, 0), left)
  {
    NoneLooked(files, v, left, Referenced);
    NoneLooked(files, v, left, Writing);
    NoneLooked(files, v, left, Young);
    NoneLooked(files, v, left, Stuck);
    NoneLooked(files, v, left, Gone);
    assert files - {} == files;
  }

  lemma NoneLooked(files: Files, v: Look, left: set<Id>, f: Fate)
    requires forall id :: id in files && InSlice(id, v.slice) ==> id in left
    ensures OfFate(files, v, f) - left == {}
  {
  }

  /** What etcd and the clock give one pass: the records and the cursor are in `Etcd`, and the rest is here. */
  datatype View = View(cursorReads: bool, cursorSaves: bool, recordsRead: bool, members: set<Node>,
                       undeletable: set<WriteId>, parts: seq<Page>, objects: seq<Page>, start: nat, grace: nat,
                       stuck: set<Id>)

  /** Everything the pass had to read, it read, and every record it had to drop, it dropped. */
  predicate AllRead(records: map<WriteId, Node>, v: View) {
    && v.cursorReads && v.cursorSaves && v.recordsRead && Scanned(v.parts).Some? && Scanned(v.objects).Some?
    && v.undeletable * (records.Keys - Kept(records, v.members)) == {}
  }

  /** What this pass goes by: the ids that some manifest it read puts here, and the records it kept. */
  ghost predicate GoesBy(records: map<WriteId, Node>, self: Node, slice: char, v: View, l: Look)
    requires Scanned(v.parts).Some? && Scanned(v.objects).Some?
  {
    && (forall id :: id in l.ref <==> SomeWants(Scanned(v.parts).value, self, slice, id)
                                      || SomeWants(Scanned(v.objects).value, self, slice, id))
    && l.writing == Kept(records, v.members)
    && l == Look(l.ref, l.writing, slice, v.start, v.grace, v.stuck)
  }

  /** The parts first and then the objects, so that a completion between the two scans is seen in one of them. */
  method ReferencedBy(v: View, self: Node, slice: char) returns (ok: bool, ref: set<Id>)
    ensures ok == (Scanned(v.parts).Some? && Scanned(v.objects).Some?)
    ensures ok ==> forall id :: id in ref <==> SomeWants(Scanned(v.parts).value, self, slice, id)
                                               || SomeWants(Scanned(v.objects).value, self, slice, id)
  {
    ok, ref := ReferencePages({}, v.parts, self, slice);
    if !ok { return; }
    ok, ref := ReferencePages(ref, v.objects, self, slice);
  }

  /** A whole pass. It takes exactly the files in its slice that no manifest it read puts here, no
      record it kept protects and that are old enough; and nothing unless it read everything. */
  method Collect(etcd: Etcd, disk: Disk, self: Node, v: View) returns (st: Option<Stats>, ghost l: Look)
    modifies etcd, disk
    ensures st.Some? <==> AllRead(old(etcd.records), v)
    ensures st.None? ==> disk.files == old(disk.files)
    ensures st.Some? ==>
              && GoesBy(old(etcd.records), self, ALPHABET[SliceIndex(old(etcd.cursor))], v, l)
              && disk.files == old(disk.files) - Taking(old(disk.files), l)
              && (v.members != {} ==> forall w :: w in etcd.records ==> etcd.records[w] in v.members)
              && etcd.records.Keys == Kept(old(etcd.records), v.members)
              && Tallied(st.value, old(disk.files), l, {})
              && st.value.bytes + TotalSize(disk.files) == TotalSize(old(disk.files))
    ensures forall w :: w in old(etcd.records) && (v.members == {} || old(etcd.records)[w] in v.members) ==>
              w in etcd.records && etcd.records[w] == old(etcd.records)[w]
  {
    l := Look({}, {}, 'A', 0, 0, {});
    var slice := etcd.NextSlice(v.cursorReads, v.cursorSaves);
    if slice.None? { return None, l; }
    var ok, writing, ref := ReadAll(etcd, self, slice.value, v);
    if !ok { return None, l; }
    var look := Look(ref, (set w | w in writing), slice.value, v.start, v.grace, v.stuck);
    var stats := disk.Sweep(look, writing);
    assert Taking(old(disk.files), look) - {} == Taking(old(disk.files), look);
    return Some(stats), look;
  }

  /** The records first, then everything that can name a file. */
  method ReadAll(etcd: Etcd, self: Node, slice: char, v: View) returns (ok: bool, writing: seq<WriteId>, ref: set<Id>)
    modifies etcd`records
    ensures ok == (&& v.recordsRead && Scanned(v.parts).Some? && Scanned(v.objects).Some?
                   && v.undeletable * (old(etcd.records).Keys - Kept(old(etcd.records), v.members)) == {})
    ensures ok ==>
              && (set w | w in writing) == Kept(old(etcd.records), v.members) == etcd.records.Keys
              && (v.members != {} ==> forall w :: w in etcd.records ==> etcd.records[w] in v.members)
              && forall id :: id in ref <==> SomeWants(Scanned(v.parts).value, self, slice, id)
                                             || SomeWants(Scanned(v.objects).value, self, slice, id)
    ensures forall w :: w in old(etcd.records) && (v.members == {} || old(etcd.records)[w] in v.members) ==>
              w in etcd.records && etcd.records[w] == old(etcd.records)[w]
  {
    writing, ref := [], {};
    if !v.recordsRead { return false, writing, ref; }
    ok, writing := etcd.WritesInFlight(v.members, v.undeletable);
    if !ok { return; }
    ok, ref := ReferencedBy(v, self, slice);
  }
}
