/** What collection comes to: a pass takes every file that is garbage and no other, and a cycle of passes covers
    every file there can be. */
module CollectorGarbage {
  import opened Basics
  import opened KeyOrder
  import opened Protocol
  import opened Collector

  /** Some chunk of the manifest has this file at some position of the placement that is this node's. */
  ghost predicate Keeps(m: Manifest, nodes: seq<Node>, node: Node, id: Id) {
    exists k: nat, i: nat ::
      && k < |m.chunks| && i < |nodes| && nodes[i] == node
      && id == if m.coding.Replicated? then Whole(m.chunks[k]) else Shard(m.chunks[k], i)
  }

  lemma PlacedIff(m: Manifest, nodes: seq<Node>, node: Node, id: Id)
    ensures Placed(m, nodes, node, id) <==> Keeps(m, nodes, node, id)
  {
    if Placed(m, nodes, node, id) {
      var k: nat :| k < |m.chunks| && m.chunks[k] == id.chunk;
      if m.coding.Replicated? {
        var i: nat :| i < |nodes| && nodes[i] == node;
        assert id == Whole(m.chunks[k]);
      } else {
        assert id == Shard(m.chunks[k], id.position);
      }
    }
  }

  /** A pass takes exactly the files of its slice that it can remove, that are old enough, that no manifest it read
      puts on this node and no ring it asked is about to, and that belong to no write whose record it kept. */
  lemma PassTakesGarbage(records: map<WriteId, Node>, self: Node, slice: char, v: View, l: Look, files: Files, id: Id)
    requires Scanned(v.parts).Some? && Scanned(v.objects).Some? && GoesBy(records, self, slice, v, l)
    ensures id in Taking(files, l) <==>
            && id in files && id !in v.stuck && files[id].time + v.grace <= v.start
            && id.chunk.write != "" && id.chunk.write[0] == slice
            && (forall e :: e in Scanned(v.parts).value || e in Scanned(v.objects).value ==>
                  !Keeps(e.manifest, e.manifest.nodes, self, id) && !Keeps(e.manifest, e.want, self, id))
            && (forall w :: w in records && w <= FileName(id) ==> v.members != {} && records[w] !in v.members)
  {
    var parts, objects := Scanned(v.parts).value, Scanned(v.objects).value;
    if InSlice(id, slice) {
      NoneKeeps(parts, self, slice, id);
      NoneKeeps(objects, self, slice, id);
    }
    assert Protected(l.writing, id) <==>
           exists w :: w in records && w <= FileName(id) && (v.members == {} || records[w] in v.members) by {
      if w :| w in records && w <= FileName(id) && (v.members == {} || records[w] in v.members) {
        assert w in l.writing;
      }
    }
  }

  lemma NoneKeeps(entries: seq<Entry>, self: Node, slice: char, id: Id)
    requires InSlice(id, slice)
    ensures !SomeWants(entries, self, slice, id) <==>
            forall e :: e in entries ==>
              !Keeps(e.manifest, e.manifest.nodes, self, id) && !Keeps(e.manifest, e.want, self, id)
  {
    forall e: Entry ensures Wanted(e, self, slice, id) <==>
                            Keeps(e.manifest, e.manifest.nodes, self, id) || Keeps(e.manifest, e.want, self, id) {
      PlacedIff(e.manifest, e.manifest.nodes, self, id);
      PlacedIff(e.manifest, e.want, self, id);
    }
  }

  /** What is said of each file looked at: that it is referenced, or else that it is being written, or else that it is
      young, or else that it could not be removed. */
  lemma FateIff(files: Files, l: Look, id: Id)
    requires id in files
    ensures FateOf(files, l, id) ==
              if id in l.ref then Referenced
              else if exists w :: w in l.writing && w <= FileName(id) then Writing
              else if l.start - files[id].time < l.grace then Young
              else if id in l.stuck then Stuck
              else Gone
  {
  }

  /** Every file of the slice is counted once, as what is said of it. */
  lemma TalliesAre(st: Stats, files: Files, l: Look)
    requires Tallied(st, files, l, {})
    ensures st.referenced == |set id | id in files && InSlice(id, l.slice) && FateOf(files, l, id) == Referenced|
    ensures st.writing == |set id | id in files && InSlice(id, l.slice) && FateOf(files, l, id) == Writing|
    ensures st.young == |set id | id in files && InSlice(id, l.slice) && FateOf(files, l, id) == Young|
    ensures st.failed == |set id | id in files && InSlice(id, l.slice) && FateOf(files, l, id) == Stuck|
    ensures st.collected == |set id | id in files && InSlice(id, l.slice) && FateOf(files, l, id) == Gone|
    ensures st.examined == st.referenced + st.writing + st.young + st.failed + st.collected
  {
    TallyIs(files, l, Referenced);
    TallyIs(files, l, Writing);
    TallyIs(files, l, Young);
    TallyIs(files, l, Stuck);
    TallyIs(files, l, Gone);
  }

  lemma TallyIs(files: Files, l: Look, f: Fate)
    ensures OfFate(files, l, f) - {} == set id | id in files && InSlice(id, l.slice) && FateOf(files, l, id) == f
  {
  }

  /** Passes one after another, from a cursor on. */
  ghost predicate Passes(looks: seq<Look>, disks: seq<Files>, cursor: string) {
    && |disks| == |looks| + 1
    && forall j :: 0 <= j < |looks| ==>
         && looks[j].slice == ALPHABET[AfterPasses(|ALPHABET|, SliceIndex(cursor), j)]
         && disks[j + 1] == disks[j] - Taking(disks[j], looks[j])
  }

  lemma {:induction false} StaysUntilTaken(looks: seq<Look>, disks: seq<Files>, cursor: string, id: Id, n: nat)
    requires Passes(looks, disks, cursor) && n <= |looks| && id in disks[0]
    ensures (exists j :: 0 <= j < n && InSlice(id, looks[j].slice) && FateOf(disks[0], looks[j], id) == Gone)
            <==> id !in disks[n]
    ensures id in disks[n] ==> disks[n][id] == disks[0][id]
    decreases n
  {
    if n > 0 {
      StaysUntilTaken(looks, disks, cursor, id, n - 1);
      var l := looks[n - 1];
      assert disks[n] == disks[n - 1] - Taking(disks[n - 1], l);
      if id in disks[n - 1] {
        assert FateOf(disks[n - 1], l, id) == FateOf(disks[0], l, id);
        assert id in Taking(disks[n - 1], l) <==> InSlice(id, l.slice) && FateOf(disks[0], l, id) == Gone;
      }
    }
  }

  /** Every letter that an id can begin with is swept in a cycle. */
  lemma LetterSwept(looks: seq<Look>, disks: seq<Files>, cursor: string, letter: char) returns (j: nat)
    requires Passes(looks, disks, cursor) && |looks| == 32 && letter in "ABCDEFGHIJKLMNOPQRSTUVWXYZ234567"
    ensures j < 32 && looks[j].slice == letter
  {
    var i: nat :| i < |ALPHABET| && ALPHABET[i] == letter;
    CycleSweepsEverySlice(|ALPHABET|, SliceIndex(cursor), i);
    j :| j < |ALPHABET| && AfterPasses(|ALPHABET|, SliceIndex(cursor), j) == i;
  }

  /** Thirty-two passes in a row, wherever they begin, rid a disk of exactly the files that the pass over their
      letter has no reason to keep. */
  lemma CycleTakesAllGarbage(looks: seq<Look>, disks: seq<Files>, cursor: string, id: Id)
    requires Passes(looks, disks, cursor) && |looks| == 32 && id in disks[0]
    requires id.chunk.write != "" && id.chunk.write[0] in "ABCDEFGHIJKLMNOPQRSTUVWXYZ234567"
    ensures id !in disks[32] <==>
            exists j :: 0 <= j < 32 && looks[j].slice == id.chunk.write[0] && FateOf(disks[0], looks[j], id) == Gone
    ensures (forall j :: 0 <= j < 32 ==> FateOf(disks[0], looks[j], id) == Gone) ==> id !in disks[32]
  {
    StaysUntilTaken(looks, disks, cursor, id, 32);
    var j := LetterSwept(looks, disks, cursor, id.chunk.write[0]);
  }
}
