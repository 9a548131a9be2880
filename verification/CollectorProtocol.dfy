/** A node's collection pass is the protocol's sweep: reading the same pages, in whatever states they were
    read, both come to protect the same files, and the pass takes exactly what the sweep may condemn. */
module CollectorProtocol {
  import opened Basics
  import opened KeyOrder
  import opened Protocol
  import opened Collector
  import Names = ObjectWrite

  // One page

  /** The parts whose keys lie past the cursor and up to `to`; a part has no place on the ring. */
  ghost predicate IsPartPage(s: State, cursor: Cursor, to: Key, page: seq<Entry>) {
    forall e :: e in page <==>
      exists k :: k in s.parts && !Passed(cursor, k) && Passed(At(to), k) && e == Entry(s.parts[k].manifest, [])
  }

  /** The objects there, each with where this node's ring puts it. */
  ghost predicate IsObjectPage(s: State, cursor: Cursor, to: Key, ring: map<Key, seq<Node>>, page: seq<Entry>) {
    forall e :: e in page <==>
      exists k :: k in s.objects && !Passed(cursor, k) && Passed(At(to), k)
                  && e == Entry(s.objects[k].manifest, RingAnswer(ring, k))
  }

  /** What the protocol's page adds to a sweep's references is what the pass's page adds. */
  lemma PartPageAdds(s: State, p: Sweep, to: Key, page: seq<Entry>, id: Id)
    requires IsPartPage(s, p.cursor, to, page)
    ensures id in PartPage(s, p, to).ref <==> id in p.ref || SomeWants(page, p.node, p.slice, id)
  {
    if k :| k in s.parts && !Passed(p.cursor, k) && Passed(At(to), k)
            && References(s.parts[k].manifest, [], p.node, id) && InSlice(id, p.slice) {
      assert Entry(s.parts[k].manifest, []) in page && Wanted(Entry(s.parts[k].manifest, []), p.node, p.slice, id);
    }
    if e :| e in page && Wanted(e, p.node, p.slice, id) {
      var k :| k in s.parts && !Passed(p.cursor, k) && Passed(At(to), k) && e == Entry(s.parts[k].manifest, []);
    }
  }

  lemma ObjectPageAdds(s: State, p: Sweep, to: Key, ring: map<Key, seq<Node>>, page: seq<Entry>, id: Id)
    requires IsObjectPage(s, p.cursor, to, ring, page)
    ensures id in ObjectPage(s, p, to, ring).ref <==> id in p.ref || SomeWants(page, p.node, p.slice, id)
  {
    if k :| k in s.objects && !Passed(p.cursor, k) && Passed(At(to), k)
            && References(s.objects[k].manifest, RingAnswer(ring, k), p.node, id) && InSlice(id, p.slice) {
      var e := Entry(s.objects[k].manifest, RingAnswer(ring, k));
      assert e in page && Wanted(e, p.node, p.slice, id);
    }
    if e :| e in page && Wanted(e, p.node, p.slice, id) {
      var k :| k in s.objects && !Passed(p.cursor, k) && Passed(At(to), k)
               && e == Entry(s.objects[k].manifest, RingAnswer(ring, k));
    }
  }

  // A whole scan, a page at a time, each in the state it found

  datatype Read = Read(state: State, to: Key, ring: map<Key, seq<Node>>, page: seq<Entry>)

  function PagesOf(got: seq<Read>): (r: seq<Page>)
    ensures |r| == |got| && forall i :: 0 <= i < |r| ==> r[i] == Some(got[i].page)
  {
    seq(|got|, i requires 0 <= i < |got| => Some(got[i].page))
  }

  function EntriesOf(got: seq<Read>): seq<Entry> {
    if got == [] then [] else got[0].page + EntriesOf(got[1..])
  }

  /** The sweep takes these pages of the part scan, one step each. */
  ghost predicate ReadsParts(p: Sweep, got: seq<Read>)
    decreases |got|
  {
    got == [] ||
    var r := got[0];
    && r.to in r.state.parts && !Passed(p.cursor, r.to) && IsPartPage(r.state, p.cursor, r.to, r.page)
    && ReadsParts(PartPage(r.state, p, r.to), got[1..])
  }

  ghost function AfterParts(p: Sweep, got: seq<Read>): Sweep
    decreases |got|
  {
    if got == [] then p else AfterParts(PartPage(got[0].state, p, got[0].to), got[1..])
  }

  ghost predicate ReadsObjects(p: Sweep, got: seq<Read>)
    decreases |got|
  {
    got == [] ||
    var r := got[0];
    && r.to in r.state.objects && !Passed(p.cursor, r.to) && IsObjectPage(r.state, p.cursor, r.to, r.ring, r.page)
    && ReadsObjects(ObjectPage(r.state, p, r.to, r.ring), got[1..])
  }

  ghost function AfterObjects(p: Sweep, got: seq<Read>): Sweep
    decreases |got|
  {
    if got == [] then p else AfterObjects(ObjectPage(got[0].state, p, got[0].to, got[0].ring), got[1..])
  }

  /** What both sweeps agree on throughout. */
  predicate SameSweep(p: Sweep, q: Sweep) {
    p.node == q.node && p.slice == q.slice && p.start == q.start && p.writing == q.writing
  }

  lemma WantsConcat(a: seq<Entry>, b: seq<Entry>, self: Node, slice: char, id: Id)
    ensures SomeWants(a + b, self, slice, id) <==> SomeWants(a, self, slice, id) || SomeWants(b, self, slice, id)
  {
  }

  lemma {:induction false} PartsReferenced(p: Sweep, got: seq<Read>, id: Id)
    requires ReadsParts(p, got)
    ensures SameSweep(AfterParts(p, got), p)
    ensures id in AfterParts(p, got).ref <==> id in p.ref || SomeWants(EntriesOf(got), p.node, p.slice, id)
    decreases |got|
  {
    if got != [] {
      var r := got[0];
      PartPageAdds(r.state, p, r.to, r.page, id);
      PartsReferenced(PartPage(r.state, p, r.to), got[1..], id);
      WantsConcat(r.page, EntriesOf(got[1..]), p.node, p.slice, id);
    }
  }

  lemma {:induction false} ObjectsReferenced(p: Sweep, got: seq<Read>, id: Id)
    requires ReadsObjects(p, got)
    ensures SameSweep(AfterObjects(p, got), p)
    ensures id in AfterObjects(p, got).ref <==> id in p.ref || SomeWants(EntriesOf(got), p.node, p.slice, id)
    decreases |got|
  {
    if got != [] {
      var r := got[0];
      ObjectPageAdds(r.state, p, r.to, r.ring, r.page, id);
      ObjectsReferenced(ObjectPage(r.state, p, r.to, r.ring), got[1..], id);
      WantsConcat(r.page, EntriesOf(got[1..]), p.node, p.slice, id);
    }
  }

  /** A pass that is given these pages, none of them empty, reads all their entries. */
  lemma {:induction false} ScannedAll(got: seq<Read>)
    requires forall i :: 0 <= i < |got| ==> got[i].page != []
    ensures Scanned(PagesOf(got)) == Some(EntriesOf(got))
  {
    if got != [] {
      ScannedAll(got[1..]);
      assert PagesOf(got)[1..] == PagesOf(got[1..]);
    }
  }

  lemma {:induction false} PartPagesFull(p: Sweep, got: seq<Read>)
    requires ReadsParts(p, got)
    ensures forall i :: 0 <= i < |got| ==> got[i].page != []
    decreases |got|
  {
    if got != [] {
      var r := got[0];
      assert Entry(r.state.parts[r.to].manifest, []) in r.page;
      PartPagesFull(PartPage(r.state, p, r.to), got[1..]);
      assert forall i :: 1 <= i < |got| ==> got[i] == got[1..][i - 1];
    }
  }

  lemma {:induction false} ObjectPagesFull(p: Sweep, got: seq<Read>)
    requires ReadsObjects(p, got)
    ensures forall i :: 0 <= i < |got| ==> got[i].page != []
    decreases |got|
  {
    if got != [] {
      var r := got[0];
      assert Entry(r.state.objects[r.to].manifest, RingAnswer(r.ring, r.to)) in r.page;
      ObjectPagesFull(ObjectPage(r.state, p, r.to, r.ring), got[1..]);
      assert forall i :: 1 <= i < |got| ==> got[i] == got[1..][i - 1];
    }
  }

  // The records

  /** The records a pass is left with are those the sweep protects by, and those it dropped are those the sweep
      must drop. */
  lemma RecordsMatch(p: Sweep, before: map<WriteId, Node>, after: map<WriteId, Node>, members: set<Node>)
    requires after.Keys == Kept(before, members)
    ensures WithRecords(p, before, members).writing == after.Keys
    ensures WithRecords(p, before, members).toDrop == before.Keys - after.Keys
  {
  }

  // The pass

  /** Write ids are all of one length. */
  ghost predicate OneLength(writing: set<WriteId>, files: Files) {
    forall w, id :: w in writing && id in files ==> |w| == |id.chunk.write|
  }

  /** Then a record protects exactly the files of its own write. */
  lemma ProtectedIff(writing: set<WriteId>, files: Files, id: Id)
    requires OneLength(writing, files) && id in files
    ensures Protected(writing, id) <==> id.chunk.write in writing
  {
    var ch := id.chunk;
    forall w | w in writing ensures w <= FileName(id) <==> w == ch.write {
      Names.RecordNamesItsOwn(w, ch.write, ch.index, if id.Shard? then id.position else 0);
    }
  }

  /** The node's files, as the protocol's disks have them. */
  ghost predicate DiskIs(s: State, node: Node, files: Files) {
    && (forall id :: id in files <==> Copy(node, id) in s.disks)
    && (forall id :: id in files ==> files[id].time == s.disks[Copy(node, id)])
  }

  /** Everything the sweep has gone through by the time it looks at the disk: its start, the records, the
      parts, and the objects. */
  ghost function SweepNow(s0: State, s1: State, node: Node, slice: char, members: set<Node>, parts: seq<Read>,
                          objects: seq<Read>): Sweep
  {
    var began := NewSweep(s0, node, slice);
    var recorded := WithRecords(began, s1.records, members).(toDrop := {}, phase := Parts, cursor := Start);
    var parted := AfterParts(recorded, parts).(phase := Objects, cursor := Start);
    AfterObjects(parted, objects).(phase := Removing)
  }

  /** The sweep and the pass have read the same things. */
  ghost predicate SameReads(s0: State, s1: State, node: Node, slice: char, v: View, parts: seq<Read>,
                            objects: seq<Read>) {
    var recorded := WithRecords(NewSweep(s0, node, slice), s1.records, v.members)
                    .(toDrop := {}, phase := Parts, cursor := Start);
    && ReadsParts(recorded, parts)
    && ReadsObjects(AfterParts(recorded, parts).(phase := Objects, cursor := Start), objects)
    && v.parts == PagesOf(parts) && v.objects == PagesOf(objects) && v.start == s0.clock
  }

  lemma SweepProtects(s0: State, s1: State, node: Node, slice: char, v: View, parts: seq<Read>, objects: seq<Read>,
                      id: Id)
    requires SameReads(s0, s1, node, slice, v, parts, objects)
    ensures Scanned(v.parts) == Some(EntriesOf(parts)) && Scanned(v.objects) == Some(EntriesOf(objects))
    ensures var p := SweepNow(s0, s1, node, slice, v.members, parts, objects);
            && p.node == node && p.slice == slice && p.start == s0.clock && p.writing == Kept(s1.records, v.members)
            && (id in p.ref
                <==> SomeWants(EntriesOf(parts), node, slice, id) || SomeWants(EntriesOf(objects), node, slice, id))
  {
    var recorded := WithRecords(NewSweep(s0, node, slice), s1.records, v.members)
                    .(toDrop := {}, phase := Parts, cursor := Start);
    var parted := AfterParts(recorded, parts).(phase := Objects, cursor := Start);
    PartPagesFull(recorded, parts);
    ObjectPagesFull(parted, objects);
    ScannedAll(parts);
    ScannedAll(objects);
    PartsReferenced(recorded, parts, id);
    ObjectsReferenced(parted, objects, id);
  }

  /** A pass that has read what a sweep has read takes exactly the files that the sweep may condemn and whose
      removal succeeds, whatever happened in the cluster between one read and the next. */
  lemma PassIsSweep(s0: State, s1: State, s: State, node: Node, slice: char, v: View, parts: seq<Read>,
                    objects: seq<Read>, files: Files, l: Look, id: Id)
    requires SameReads(s0, s1, node, slice, v, parts, objects) && v.grace == s.grace && DiskIs(s, node, files)
    requires Scanned(v.parts).Some? && Scanned(v.objects).Some? && GoesBy(s1.records, node, slice, v, l)
    requires OneLength(l.writing, files)
    ensures id in Taking(files, l) <==>
            CanCondemn(s, SweepNow(s0, s1, node, slice, v.members, parts, objects), id) && id !in v.stuck
  {
    SweepProtects(s0, s1, node, slice, v, parts, objects, id);
    if id in files { ProtectedIff(l.writing, files, id); }
  }
}
