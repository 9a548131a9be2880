/** Every step that is enabled and meets its proviso keeps the invariant. */
module ProtocolSteps {
  import opened Basics
  import opened KeyOrder
  import opened Protocol
  import opened ProtocolInvariant

  /** Quorums only depend on the copies the manifest names. */
  lemma EnoughKept(m: Manifest, before: set<Copy>, after: set<Copy>, quorum: nat)
    requires EnoughOf(m, before, quorum)
    requires forall c :: c in before && Names(m, c) ==> c in after
    ensures EnoughOf(m, after, quorum)
  {
    forall ch | ch in m.chunks
      ensures |PositionsIn(m, ch, after)| >= Needed(quorum, m)
    {
      assert forall i: nat :: i < |m.nodes| ==> Names(m, Copy(m.nodes[i], LocalId(m, ch, i)));
      SubsetSize(PositionsIn(m, ch, before), PositionsIn(m, ch, after));
    }
  }

  lemma EnoughOfAllKept(objects: Etcd, parts: Uploads, before: set<Copy>, after: set<Copy>, quorum: nat)
    requires EnoughOfAll(objects, parts, before, quorum)
    requires forall k, c :: k in objects && c in before && Names(objects[k].manifest, c) ==> c in after
    requires forall k, c :: k in parts && c in before && Names(parts[k].manifest, c) ==> c in after
    ensures EnoughOfAll(objects, parts, after, quorum)
  {
    forall k | k in objects ensures EnoughOf(objects[k].manifest, after, quorum) {
      EnoughKept(objects[k].manifest, before, after, quorum);
    }
    forall k | k in parts ensures EnoughOf(parts[k].manifest, after, quorum) {
      EnoughKept(parts[k].manifest, before, after, quorum);
    }
  }

  /** A disk that gained a copy now, or lost one, gives no sweep anything older to take. */
  lemma DisksKeep(s: State, disks: Disks)
    requires Guarded(s)
    requires forall c :: c in disks ==> (c in s.disks && disks[c] == s.disks[c]) || disks[c] == s.clock
    ensures ObjectsSafe(s.objects, s.sweeps, disks, s.grace)
    ensures PartsSafe(s.parts, s.sweeps, disks, s.grace)
    ensures MovesSafe(s.moves, s.objects, s.sweeps, disks, s.grace)
  {
    forall q, id | q in s.sweeps && Covered(s.disks, s.grace, s.sweeps[q], id)
      ensures Covered(disks, s.grace, s.sweeps[q], id)
    {
      assert SweepOk(s.sweeps[q], s.began, s.grace, s.clock);
    }
    forall q, k | q in s.sweeps && k in s.objects
      ensures ManifestSafe(s.objects, disks, s.grace, s.sweeps[q], k, s.objects[k].manifest)
    {
      assert ManifestSafe(s.objects, s.disks, s.grace, s.sweeps[q], k, s.objects[k].manifest);
    }
    forall q, k | q in s.sweeps && k in s.parts
      ensures PartManifestSafe(disks, s.grace, s.sweeps[q], k, s.parts[k].manifest)
    {
      assert PartManifestSafe(s.disks, s.grace, s.sweeps[q], k, s.parts[k].manifest);
    }
    forall q, v | q in s.sweeps && v in s.moves && Current(s.objects, s.moves[v])
      ensures DeliveredSafe(disks, s.grace, s.sweeps[q], s.moves[v])
    {
      assert DeliveredSafe(s.disks, s.grace, s.sweeps[q], s.moves[v]);
    }
  }

  /** What one sweep must satisfy towards everything committed or delivered. */
  ghost predicate SweepGuarded(s: State, p: Sweep) {
    && (forall w :: w in s.records ==> RecordSeen(s.began, p, w))
    && (forall k :: k in s.objects ==> ManifestSafe(s.objects, s.disks, s.grace, p, k, s.objects[k].manifest))
    && (forall k :: k in s.parts ==> PartManifestSafe(s.disks, s.grace, p, k, s.parts[k].manifest))
    && (forall v :: v in s.moves && Current(s.objects, s.moves[v]) ==> DeliveredSafe(s.disks, s.grace, p, s.moves[v]))
  }

  lemma GuardedEach(s: State, q: SweepId)
    requires Guarded(s) && q in s.sweeps
    ensures SweepGuarded(s, s.sweeps[q])
  {}

  lemma ReplaceSweep(s: State, q: SweepId, p: Sweep)
    requires Guarded(s)
    requires SweepGuarded(s, p) && SweepOk(p, s.began, s.grace, s.clock + 1)
    ensures Guarded(Later(WithSweep(s, q, p)))
  {
    var sweeps := s.sweeps[q := p];
    forall r | r in sweeps ensures SweepOk(sweeps[r], s.began, s.grace, s.clock + 1) {
      if r != q { assert SweepOk(s.sweeps[r], s.began, s.grace, s.clock); }
    }
    forall r | r in sweeps ensures SweepGuarded(s, sweeps[r]) {
      if r != q { GuardedEach(s, r); }
    }
  }

  // Steps that touch neither a sweep nor a committed manifest

  lemma LaterKeeps(s: State)
    requires Inv(s)
    ensures Inv(Later(s))
  {}

  lemma TickKeeps(s: State, ticks: nat)
    requires Inv(s)
    ensures Inv(s.(clock := s.clock + ticks))
  {}

  lemma BeginKeeps(s: State, w: WriteId, coordinator: Node, recorded: bool)
    requires Inv(s) && w !in s.began
    ensures Inv(Later(Began(s, w, coordinator, recorded)))
  {}

  lemma StoreLedger(s: State, c: Copy)
    requires Ledger(s) && c.id.chunk.write in s.began
    ensures Ledger(Later(Stored(s, c)))
  {}

  lemma StoreIntact(s: State, c: Copy)
    requires Intact(s)
    ensures Intact(Later(Stored(s, c)))
  {
    var t := Stored(s, c);
    EnoughOfAllKept(s.objects, s.parts, s.disks.Keys + s.lost, t.disks.Keys + t.lost, s.quorum);
  }

  lemma StoreKeeps(s: State, c: Copy)
    requires Inv(s) && c.id.chunk.write in s.began
    ensures Inv(Later(Stored(s, c)))
  {
    StoreLedger(s, c);
    StoreIntact(s, c);
    DisksKeep(s, Stored(s, c).disks);
  }

  lemma LoseKeeps(s: State, c: Copy)
    requires Inv(s) && c in s.disks
    ensures Inv(Lost(s, c))
  {
    var t := Lost(s, c);
    DisksKeep(s, t.disks);
    EnoughOfAllKept(s.objects, s.parts, s.disks.Keys + s.lost, t.disks.Keys + t.lost, s.quorum);
  }

  lemma RecordDroppedKeeps(s: State, w: WriteId)
    requires Inv(s)
    ensures Inv(RecordDropped(s, w))
  {}

  lemma CreateUploadKeeps(s: State, u: UploadId)
    requires Inv(s)
    ensures Inv(s.(uploads := s.uploads + {u}))
  {}

  lemma DeleteUploadKeeps(s: State, u: UploadId)
    requires Inv(s)
    ensures Inv(UploadForgotten(s, u))
  {}

  lemma ReadObjectKeeps(s: State, k: Key)
    requires Inv(s) && k in s.objects
    ensures Inv(ObjectReadAt(s, k))
  {}

  lemma ReadPartsKeeps(s: State, u: UploadId)
    requires Inv(s)
    ensures Inv(PartsReadOf(s, u))
  {}

  lemma MoveStartKeeps(s: State, mv: MoveId, read: ObjectRead, want: seq<Node>)
    requires Inv(s) && CanMove(s, mv, read, want)
    ensures Inv(s.(moves := s.moves[mv := Move(read, want, {})]))
  {
    var moves := s.moves[mv := Move(read, want, {})];
    assert MovesOk(moves, s.objectReads);
    assert MovesSafe(moves, s.objects, s.sweeps, s.disks, s.grace);
    assert MovesKept(moves, s.objects, s.stored, s.swept);
  }

  lemma MoveEndKeeps(s: State, mv: MoveId)
    requires Inv(s)
    ensures Inv(MoveEnded(s, mv))
  {
    var moves := s.moves - {mv};
    assert MovesOk(moves, s.objectReads);
    assert MovesSafe(moves, s.objects, s.sweeps, s.disks, s.grace);
    assert MovesKept(moves, s.objects, s.stored, s.swept);
  }

  // Steps of a sweep

  lemma SweepStepKeeps(s: State, q: SweepId, p: Sweep)
    requires Inv(s)
    requires SweepGuarded(s, p) && SweepOk(p, s.began, s.grace, s.clock + 1)
    ensures Inv(Later(WithSweep(s, q, p)))
  {
    ReplaceSweep(s, q, p);
  }

  /** A sweep that has not begun to scan has passed nothing. */
  lemma UnscannedGuarded(s: State, p: Sweep)
    requires p.phase == Records || p.phase == Dropping || (p.phase == Parts && p.cursor == Start)
    requires forall w :: w in s.records ==> RecordSeen(s.began, p, w)
    ensures SweepGuarded(s, p)
  {}

  lemma SweepStartKeeps(s: State, q: SweepId, node: Node, slice: char)
    requires Inv(s)
    ensures Inv(Later(WithSweep(s, q, NewSweep(s, node, slice))))
  {
    UnscannedGuarded(s, NewSweep(s, node, slice));
    SweepStepKeeps(s, q, NewSweep(s, node, slice));
  }

  lemma SweepRecordsKeeps(s: State, q: SweepId, members: set<Node>)
    requires Inv(s) && InPhase(s, q, Records)
    ensures Inv(Later(WithSweep(s, q, WithRecords(s.sweeps[q], s.records, members))))
  {
    var p := WithRecords(s.sweeps[q], s.records, members);
    UnscannedGuarded(s, p);
    assert SweepOk(s.sweeps[q], s.began, s.grace, s.clock);
    SweepStepKeeps(s, q, p);
  }

  lemma SweepDropKeeps(s: State, q: SweepId, w: WriteId)
    requires Inv(s) && InPhase(s, q, Dropping)
    ensures Inv(Later(WithSweep(RecordDropped(s, w), q, s.sweeps[q].(toDrop := s.sweeps[q].toDrop - {w}))))
  {
    var u, p := RecordDropped(s, w), s.sweeps[q].(toDrop := s.sweeps[q].toDrop - {w});
    RecordDroppedKeeps(s, w);
    assert RecordsSeen(s.records, s.began, s.sweeps);
    assert SweepOk(s.sweeps[q], s.began, s.grace, s.clock);
    UnscannedGuarded(u, p);
    SweepStepKeeps(u, q, p);
  }

  lemma SweepEndKeeps(s: State, q: SweepId)
    requires Inv(s)
    ensures Inv(s.(sweeps := s.sweeps - {q}))
  {}

  lemma SweepScanPartsKeeps(s: State, q: SweepId)
    requires Inv(s) && InPhase(s, q, Dropping) && s.sweeps[q].toDrop == {}
    ensures Inv(Later(WithSweep(s, q, s.sweeps[q].(phase := Parts, cursor := Start))))
  {
    var p := s.sweeps[q].(phase := Parts, cursor := Start);
    GuardedEach(s, q);
    assert SweepOk(s.sweeps[q], s.began, s.grace, s.clock);
    UnscannedGuarded(s, p);
    SweepStepKeeps(s, q, p);
  }

  /** Having passed every part, the sweep covers them all, and it has passed no object yet. */
  lemma PartsScannedGuarded(s: State, p: Sweep)
    requires p.phase == Parts && SweepGuarded(s, p)
    requires forall k :: k in s.parts ==> Passed(p.cursor, k)
    ensures SweepGuarded(s, p.(phase := Objects, cursor := Start))
  {
    var p' := p.(phase := Objects, cursor := Start);
    forall k | k in s.parts ensures PartManifestSafe(s.disks, s.grace, p', k, s.parts[k].manifest) {
      assert PartManifestSafe(s.disks, s.grace, p, k, s.parts[k].manifest);
      assert forall id :: Covered(s.disks, s.grace, p, id) == Covered(s.disks, s.grace, p', id);
      assert forall id :: Concerns(s.parts[k].manifest, p, id) == Concerns(s.parts[k].manifest, p', id);
    }
  }

  lemma SweepScanObjectsKeeps(s: State, q: SweepId)
    requires Inv(s) && InPhase(s, q, Parts) && forall k :: k in s.parts ==> Passed(s.sweeps[q].cursor, k)
    ensures Inv(Later(WithSweep(s, q, s.sweeps[q].(phase := Objects, cursor := Start))))
  {
    GuardedEach(s, q);
    assert SweepOk(s.sweeps[q], s.began, s.grace, s.clock);
    PartsScannedGuarded(s, s.sweeps[q]);
    SweepStepKeeps(s, q, s.sweeps[q].(phase := Objects, cursor := Start));
  }

  /** Having passed every object, the sweep covers everything committed: nothing is owed any more. */
  lemma ObjectsScannedGuarded(s: State, p: Sweep)
    requires p.phase == Objects && SweepGuarded(s, p)
    requires forall k :: k in s.objects ==> Passed(p.cursor, k)
    ensures SweepGuarded(s, p.(phase := Removing))
  {
    var p' := p.(phase := Removing);
    assert forall id :: Covered(s.disks, s.grace, p, id) == Covered(s.disks, s.grace, p', id);
    assert forall m, id :: Concerns(m, p, id) == Concerns(m, p', id);
    forall k | k in s.objects ensures ManifestSafe(s.objects, s.disks, s.grace, p', k, s.objects[k].manifest) {
      assert ManifestSafe(s.objects, s.disks, s.grace, p, k, s.objects[k].manifest);
    }
    forall k | k in s.parts ensures PartManifestSafe(s.disks, s.grace, p', k, s.parts[k].manifest) {
      assert PartManifestSafe(s.disks, s.grace, p, k, s.parts[k].manifest);
    }
    forall v | v in s.moves && Current(s.objects, s.moves[v])
      ensures DeliveredSafe(s.disks, s.grace, p', s.moves[v])
    {
      assert DeliveredSafe(s.disks, s.grace, p, s.moves[v]);
    }
  }

  lemma SweepScanDiskKeeps(s: State, q: SweepId)
    requires Inv(s) && InPhase(s, q, Objects) && forall k :: k in s.objects ==> Passed(s.sweeps[q].cursor, k)
    ensures Inv(Later(WithSweep(s, q, s.sweeps[q].(phase := Removing))))
  {
    GuardedEach(s, q);
    assert SweepOk(s.sweeps[q], s.began, s.grace, s.clock);
    ObjectsScannedGuarded(s, s.sweeps[q]);
    SweepStepKeeps(s, q, s.sweeps[q].(phase := Removing));
  }

  /** A page references everything it passes, so whatever is now behind the cursor is covered. */
  lemma PartPageGuarded(s: State, p: Sweep, p': Sweep, to: Key)
    requires p.phase == Parts && p.doomed == {} && SweepGuarded(s, p)
    requires p' == p.(cursor := At(to), ref := p'.ref) && p.ref <= p'.ref
    requires forall k, id :: (k in s.parts && !Passed(p.cursor, k) && Passed(At(to), k)
                              && Concerns(s.parts[k].manifest, p, id)) ==> id in p'.ref
    ensures SweepGuarded(s, p')
  {
    forall k | k in s.parts ensures PartManifestSafe(s.disks, s.grace, p', k, s.parts[k].manifest) {
      assert PartManifestSafe(s.disks, s.grace, p, k, s.parts[k].manifest);
      forall id | Concerns(s.parts[k].manifest, p', id) ensures PartSafe(s.disks, s.grace, p', k, id) {
        assert Concerns(s.parts[k].manifest, p, id);
      }
    }
  }

  lemma PageStepKeeps(s: State, q: SweepId, p: Sweep)
    requires Inv(s) && q in s.sweeps
    requires SweepGuarded(s, p) && p == s.sweeps[q].(cursor := p.cursor, ref := p.ref) && p.doomed == {}
    ensures Inv(Later(WithSweep(s, q, p)))
  {
    assert SweepOk(s.sweeps[q], s.began, s.grace, s.clock);
    SweepStepKeeps(s, q, p);
  }

  lemma SweepPartPageKeeps(s: State, q: SweepId, to: Key)
    requires Inv(s) && InPhase(s, q, Parts)
    ensures Inv(Later(WithSweep(s, q, PartPage(s, s.sweeps[q], to))))
  {
    GuardedEach(s, q);
    assert SweepOk(s.sweeps[q], s.began, s.grace, s.clock);
    PartPageGuarded(s, s.sweeps[q], PartPage(s, s.sweeps[q], to), to);
    PageStepKeeps(s, q, PartPage(s, s.sweeps[q], to));
  }

  lemma ObjectPageGuarded(s: State, p: Sweep, p': Sweep, to: Key)
    requires p.phase == Objects && p.doomed == {} && SweepGuarded(s, p)
    requires p' == p.(cursor := At(to), ref := p'.ref) && p.ref <= p'.ref
    requires forall k, id :: (k in s.objects && !Passed(p.cursor, k) && Passed(At(to), k)
                              && Concerns(s.objects[k].manifest, p, id)) ==> id in p'.ref
    requires forall v, id :: v in s.moves && Current(s.objects, s.moves[v])
               && !Passed(p.cursor, s.moves[v].read.key) && Passed(At(to), s.moves[v].read.key)
               && InSlice(id, p.slice) && Copy(p.node, id) in s.moves[v].delivered
               ==> id in p'.ref
    ensures SweepGuarded(s, p')
  {
    forall id ensures Covered(s.disks, s.grace, p, id) ==> Covered(s.disks, s.grace, p', id) {}
    assert forall m, id :: Concerns(m, p, id) == Concerns(m, p', id);
    forall k | k in s.objects ensures ManifestSafe(s.objects, s.disks, s.grace, p', k, s.objects[k].manifest) {
      assert ManifestSafe(s.objects, s.disks, s.grace, p, k, s.objects[k].manifest);
      forall id | Concerns(s.objects[k].manifest, p', id) ensures ObjectSafe(s.objects, s.disks, s.grace, p', k, id) {
        assert Concerns(s.objects[k].manifest, p, id);
        if Passed(p.cursor, k) && !Covered(s.disks, s.grace, p, id) {
          var o :| && o in p.owed && o in s.objects && !Passed(p.cursor, o)
                   && Names(s.objects[o].manifest, Copy(p.node, id));
          assert Concerns(s.objects[o].manifest, p, id);
          assert id in p'.ref || !Passed(p'.cursor, o);
        }
      }
    }
    forall k | k in s.parts ensures PartManifestSafe(s.disks, s.grace, p', k, s.parts[k].manifest) {
      assert PartManifestSafe(s.disks, s.grace, p, k, s.parts[k].manifest);
    }
    forall v | v in s.moves && Current(s.objects, s.moves[v])
      ensures DeliveredSafe(s.disks, s.grace, p', s.moves[v])
    {
      assert DeliveredSafe(s.disks, s.grace, p, s.moves[v]);
    }
  }

  /** While a move's source is in force, an agreeing ring makes the sweep reference what the move
      has delivered to its node. */
  lemma RingReferences(objects: Etcd, mv: Move, objectReads: set<ObjectRead>, rev: nat, p: Sweep, answer: seq<Node>,
                       id: Id)
    requires ReadsOk(objects, objectReads, rev) && mv.read in objectReads && Current(objects, mv)
    requires MoveAdds(mv, Copy(p.node, id)) && Agrees(mv, p.node, answer)
    ensures References(objects[mv.read.key].manifest, answer, p.node, id)
  {}

  lemma ObjectPageSweep(s: State, p: Sweep, to: Key, ring: map<Key, seq<Node>>)
    requires ReadsOk(s.objects, s.objectReads, s.rev) && MovesOk(s.moves, s.objectReads)
    requires p.phase == Objects && p.doomed == {} && SweepGuarded(s, p) && RingsAgree(s, p, to, ring)
    ensures SweepGuarded(s, ObjectPage(s, p, to, ring))
  {
    var p' := ObjectPage(s, p, to, ring);
    forall v, id | v in s.moves && Current(s.objects, s.moves[v])
                   && !Passed(p.cursor, s.moves[v].read.key) && Passed(At(to), s.moves[v].read.key)
                   && InSlice(id, p.slice) && Copy(p.node, id) in s.moves[v].delivered
      ensures id in p'.ref
    {
      RingReferences(s.objects, s.moves[v], s.objectReads, s.rev, p, RingAnswer(ring, s.moves[v].read.key), id);
    }
    ObjectPageGuarded(s, p, p', to);
  }

  lemma SweepObjectPageKeeps(s: State, q: SweepId, to: Key, ring: map<Key, seq<Node>>)
    requires Inv(s) && InPhase(s, q, Objects) && RingsAgree(s, s.sweeps[q], to, ring)
    ensures Inv(Later(WithSweep(s, q, ObjectPage(s, s.sweeps[q], to, ring))))
  {
    GuardedEach(s, q);
    assert SweepOk(s.sweeps[q], s.began, s.grace, s.clock);
    ObjectPageSweep(s, s.sweeps[q], to, ring);
    PageStepKeeps(s, q, ObjectPage(s, s.sweeps[q], to, ring));
  }

  lemma LookGuarded(s: State, p: Sweep, id: Id)
    requires p.phase == Removing && SweepGuarded(s, p)
    requires id !in p.ref && id.chunk.write !in p.writing
    requires Copy(p.node, id) in s.disks && s.disks[Copy(p.node, id)] + s.grace <= p.start
    ensures SweepGuarded(s, p.(doomed := p.doomed + {id}))
  {
    var p' := p.(doomed := p.doomed + {id});
    assert !Covered(s.disks, s.grace, p, id);
    forall x ensures Covered(s.disks, s.grace, p, x) ==> Covered(s.disks, s.grace, p', x) {}
    assert forall m, x :: Concerns(m, p, x) == Concerns(m, p', x);
    forall k | k in s.objects ensures ManifestSafe(s.objects, s.disks, s.grace, p', k, s.objects[k].manifest) {
      assert ManifestSafe(s.objects, s.disks, s.grace, p, k, s.objects[k].manifest);
    }
    forall k | k in s.parts ensures PartManifestSafe(s.disks, s.grace, p', k, s.parts[k].manifest) {
      assert PartManifestSafe(s.disks, s.grace, p, k, s.parts[k].manifest);
    }
    forall v | v in s.moves && Current(s.objects, s.moves[v])
      ensures DeliveredSafe(s.disks, s.grace, p', s.moves[v])
    {
      assert DeliveredSafe(s.disks, s.grace, p, s.moves[v]);
    }
  }

  lemma SweepLookKeeps(s: State, q: SweepId, id: Id)
    requires Inv(s) && InPhase(s, q, Removing) && CanCondemn(s, s.sweeps[q], id)
    ensures Inv(Later(WithSweep(s, q, s.sweeps[q].(doomed := s.sweeps[q].doomed + {id}))))
  {
    var p := s.sweeps[q];
    GuardedEach(s, q);
    LookGuarded(s, p, id);
    assert SweepOk(p, s.began, s.grace, s.clock);
    assert DisksTimed(s.disks, s.began, s.clock);
    SweepStepKeeps(s, q, p.(doomed := p.doomed + {id}));
  }

  // Steps that change what is committed

  /** Removing an object, or replacing it, leaves every other object's safety alone, since no sweep
      is owed the one that went. */
  lemma OthersKeep(s: State, k: Key, objects: Etcd)
    requires ObjectsSafe(s.objects, s.sweeps, s.disks, s.grace) && Unowed(s, k)
    requires forall j :: j in s.objects && j != k ==> j in objects && objects[j] == s.objects[j]
    ensures forall q, j :: q in s.sweeps && j in s.objects && j != k ==>
              ManifestSafe(objects, s.disks, s.grace, s.sweeps[q], j, s.objects[j].manifest)
  {
    forall q, j | q in s.sweeps && j in s.objects && j != k
      ensures ManifestSafe(objects, s.disks, s.grace, s.sweeps[q], j, s.objects[j].manifest)
    {
      var p := s.sweeps[q];
      assert ManifestSafe(s.objects, s.disks, s.grace, p, j, s.objects[j].manifest);
      forall id | Concerns(s.objects[j].manifest, p, id) ensures ObjectSafe(objects, s.disks, s.grace, p, j, id) {
        assert ObjectSafe(s.objects, s.disks, s.grace, p, j, id);
        if p.phase == Objects && Owed(s.objects, p, id) {
          var o :| && o in p.owed && o in s.objects && !Passed(p.cursor, o)
                   && Names(s.objects[o].manifest, Copy(p.node, id));
          assert o != k;
          assert o in objects && objects[o] == s.objects[o];
        }
      }
    }
  }

  lemma DeleteKeeps(s: State, k: Key)
    requires Inv(s) && Unowed(s, k)
    ensures Inv(s.(objects := s.objects - {k}))
  {
    OthersKeep(s, k, s.objects - {k});
  }

  /** Why a manifest may be committed at `k`. */
  ghost predicate Vouched(s: State, k: Key, m: Manifest) {
    && (forall q :: q in s.sweeps ==> ManifestSafe(s.objects, s.disks, s.grace, s.sweeps[q], k, m))
    && Untaken(m, s.swept)
    && EnoughOf(m, s.disks.Keys + s.lost, s.quorum)
  }

  lemma PutGuarded(s: State, k: Key, m: Manifest, t: State)
    requires ObjectsSafe(s.objects, s.sweeps, s.disks, s.grace) && Vouched(s, k, m) && Unowed(s, k)
    requires t == PutObject(s, k, m)
    ensures ObjectsSafe(t.objects, s.sweeps, s.disks, s.grace)
  {
    OthersKeep(s, k, t.objects);
    forall q | q in s.sweeps ensures ManifestSafe(t.objects, s.disks, s.grace, s.sweeps[q], k, m) {
      var p := s.sweeps[q];
      assert ManifestSafe(s.objects, s.disks, s.grace, p, k, m);
      forall id | Concerns(m, p, id) ensures ObjectSafe(t.objects, s.disks, s.grace, p, k, id) {
        assert ObjectSafe(s.objects, s.disks, s.grace, p, k, id);
        if p.phase == Objects && Owed(s.objects, p, id) {
          var o :| && o in p.owed && o in s.objects && !Passed(p.cursor, o)
                   && Names(s.objects[o].manifest, Copy(p.node, id));
          assert o != k;
          assert o in t.objects && t.objects[o] == s.objects[o];
        }
      }
    }
  }

  /** Committing a new revision ends every move that read an older one. */
  lemma PutEndsMoves(s: State, k: Key, m: Manifest, t: State)
    requires ReadsOk(s.objects, s.objectReads, s.rev) && MovesOk(s.moves, s.objectReads)
    requires t == PutObject(s, k, m)
    ensures ReadsOk(t.objects, s.objectReads, t.rev)
    ensures forall v :: v in s.moves && Current(t.objects, s.moves[v]) ==> Current(s.objects, s.moves[v])
  {}

  lemma PutKeeps(s: State, k: Key, m: Manifest)
    requires Inv(s) && Vouched(s, k, m) && Unowed(s, k)
    ensures Inv(PutObject(s, k, m))
  {
    var t := PutObject(s, k, m);
    PutGuarded(s, k, m, t);
    PutEndsMoves(s, k, m, t);
  }

  /** A write the sweep's cutoff does not reach has no copy the sweep could take. */
  lemma YoungCovered(s: State, p: Sweep, id: Id)
    requires DisksTimed(s.disks, s.began, s.clock) && SweepOk(p, s.began, s.grace, s.clock)
    requires id.chunk.write in s.began && s.began[id.chunk.write].time + s.grace > p.start
    ensures Covered(s.disks, s.grace, p, id)
  {}

  /** A write may still commit: its record stands, or it took none and is within its grace. */
  ghost predicate MayCommit(s: State, w: WriteId) {
    w in s.records || (w in s.began && s.clock <= s.began[w].time + s.grace)
  }

  lemma WriteCovered(s: State, q: SweepId, id: Id)
    requires Inv(s) && q in s.sweeps && MayCommit(s, id.chunk.write)
    requires s.sweeps[q].phase != Records && s.sweeps[q].phase != Dropping
    ensures Covered(s.disks, s.grace, s.sweeps[q], id)
  {
    var p, w := s.sweeps[q], id.chunk.write;
    assert SweepOk(p, s.began, s.grace, s.clock);
    if w in s.records {
      assert RecordSeen(s.began, p, w);
    }
    if w !in p.writing {
      YoungCovered(s, p, id);
    }
  }

  /** Nothing a live write made has been taken. */
  lemma WriteUntaken(s: State, m: Manifest, w: WriteId)
    requires SweptKnown(s.swept, s.began, s.records, s.grace, s.clock)
             && StoredKnown(s.stored, s.disks, s.swept, s.lost)
    requires MayCommit(s, w) || m.chunks == []
    requires forall ch :: ch in m.chunks ==> ch.write == w
    requires EnoughOf(m, s.stored, s.quorum)
    ensures Untaken(m, s.swept) && EnoughOf(m, s.disks.Keys + s.lost, s.quorum)
  {
    EnoughKept(m, s.stored, s.disks.Keys + s.lost, s.quorum);
  }

  lemma WriteVouched(s: State, w: WriteId, k: Key, m: Manifest)
    requires Inv(s) && (MayCommit(s, w) || m.chunks == [])
    requires forall ch :: ch in m.chunks ==> ch.write == w
    requires EnoughOf(m, s.stored, s.quorum)
    ensures Vouched(s, k, m)
    ensures forall q :: q in s.sweeps ==> PartManifestSafe(s.disks, s.grace, s.sweeps[q], k, m)
  {
    WriteUntaken(s, m, w);
    forall q, id | q in s.sweeps && Concerns(m, s.sweeps[q], id)
      ensures ObjectSafe(s.objects, s.disks, s.grace, s.sweeps[q], k, id)
              && PartSafe(s.disks, s.grace, s.sweeps[q], k, id)
    {
      if s.sweeps[q].phase != Records && s.sweeps[q].phase != Dropping {
        WriteCovered(s, q, id);
      }
    }
  }

  lemma PutPartKeeps(s: State, k: Key, e: PartEntry)
    requires Inv(s) && Vouched(s, k, e.manifest) && e.upload in s.uploads
    requires forall q :: q in s.sweeps ==> PartManifestSafe(s.disks, s.grace, s.sweeps[q], k, e.manifest)
    ensures Inv(PutPart(s, k, e))
  {
    var parts := s.parts[k := e];
    assert PartsSafe(parts, s.sweeps, s.disks, s.grace);
    assert EnoughOfAll(s.objects, parts, s.disks.Keys + s.lost, s.quorum);
  }

  lemma CommitVouched(s: State, w: WriteId, target: Target, m: Manifest)
    requires Inv(s) && CanCommit(s, w, target, m) && InTime(s, w, m)
    ensures Vouched(s, target.key, m)
    ensures forall q :: q in s.sweeps ==> PartManifestSafe(s.disks, s.grace, s.sweeps[q], target.key, m)
  {
    WriteVouched(s, w, target.key, m);
  }

  lemma CommitObjectKeeps(s: State, w: WriteId, k: Key, m: Manifest)
    requires Inv(s) && CanCommit(s, w, ToObject(k), m) && InTime(s, w, m) && Unowed(s, k)
    ensures Inv(PutObject(s, k, m))
  {
    CommitVouched(s, w, ToObject(k), m);
    PutKeeps(s, k, m);
  }

  lemma CommitPartKeeps(s: State, w: WriteId, k: Key, upload: UploadId, m: Manifest)
    requires Inv(s) && CanCommit(s, w, ToPart(k, upload), m) && InTime(s, w, m)
    ensures Inv(PutPart(s, k, PartEntry(upload, m)))
  {
    CommitVouched(s, w, ToPart(k, upload), m);
    PutPartKeeps(s, k, PartEntry(upload, m));
  }

  /** A copy is vouched for by its source: either the sweep has passed the source, or it owes it. */
  lemma CopySafe(s: State, p: Sweep, source: ObjectRead, to: Key)
    requires source.key in s.objects && s.objects[source.key].manifest == source.manifest
    requires ManifestSafe(s.objects, s.disks, s.grace, p, source.key, source.manifest)
    ensures ManifestSafe(s.objects, s.disks, s.grace, Owe(p, source.key, to), to, source.manifest)
  {
    var p' := Owe(p, source.key, to);
    forall id | Concerns(source.manifest, p', id) ensures ObjectSafe(s.objects, s.disks, s.grace, p', to, id) {
      assert Concerns(source.manifest, p, id);
      assert Covered(s.disks, s.grace, p, id) == Covered(s.disks, s.grace, p', id);
      assert ObjectSafe(s.objects, s.disks, s.grace, p, source.key, id);
      if p.phase == Objects && Owed(s.objects, p, id) {
        var o :| && o in p.owed && o in s.objects && !Passed(p.cursor, o)
                 && Names(s.objects[o].manifest, Copy(p.node, id));
        assert o in p'.owed;
      }
    }
  }

  lemma OweGuarded(s: State, p: Sweep, source: Key, to: Key)
    requires SweepGuarded(s, p)
    ensures SweepGuarded(s, Owe(p, source, to))
  {
    var p' := Owe(p, source, to);
    assert forall id :: Covered(s.disks, s.grace, p, id) == Covered(s.disks, s.grace, p', id);
    assert forall m, id :: Concerns(m, p, id) == Concerns(m, p', id);
    forall k | k in s.objects ensures ManifestSafe(s.objects, s.disks, s.grace, p', k, s.objects[k].manifest) {
      assert ManifestSafe(s.objects, s.disks, s.grace, p, k, s.objects[k].manifest);
      forall id | Owed(s.objects, p, id) ensures Owed(s.objects, p', id) {
        var o :| && o in p.owed && o in s.objects && !Passed(p.cursor, o)
                 && Names(s.objects[o].manifest, Copy(p.node, id));
        assert o in p'.owed;
      }
    }
    forall k | k in s.parts ensures PartManifestSafe(s.disks, s.grace, p', k, s.parts[k].manifest) {
      assert PartManifestSafe(s.disks, s.grace, p, k, s.parts[k].manifest);
    }
    forall v | v in s.moves && Current(s.objects, s.moves[v])
      ensures DeliveredSafe(s.disks, s.grace, p', s.moves[v])
    {
      assert DeliveredSafe(s.disks, s.grace, p, s.moves[v]);
    }
  }

  lemma OweKeeps(s: State, source: Key, to: Key)
    requires Inv(s)
    ensures Inv(Owing(s, source, to))
  {
    var u := Owing(s, source, to);
    forall q | q in u.sweeps ensures SweepGuarded(s, u.sweeps[q]) && SweepOk(u.sweeps[q], s.began, s.grace, s.clock) {
      GuardedEach(s, q);
      OweGuarded(s, s.sweeps[q], source, to);
      assert SweepOk(s.sweeps[q], s.began, s.grace, s.clock);
    }
  }

  lemma CopyVouched(s: State, source: ObjectRead, to: Key)
    requires Inv(s) && StillThere(s, source)
    ensures Vouched(Owing(s, source.key, to), to, source.manifest)
  {
    var u := Owing(s, source.key, to);
    forall q | q in u.sweeps ensures ManifestSafe(u.objects, u.disks, u.grace, u.sweeps[q], to, source.manifest) {
      assert ManifestSafe(s.objects, s.disks, s.grace, s.sweeps[q], source.key, source.manifest);
      CopySafe(s, s.sweeps[q], source, to);
    }
  }

  lemma CopyKeeps(s: State, source: ObjectRead, to: Key)
    requires Inv(s) && StillThere(s, source) && Unowed(s, to)
    ensures Inv(PutObject(Owing(s, source.key, to), to, source.manifest))
  {
    OweKeeps(s, source.key, to);
    CopyVouched(s, source, to);
    PutKeeps(Owing(s, source.key, to), to, source.manifest);
  }

  /** Every chunk of an assembled object is a chunk of one of the parts picked. */
  lemma {:induction false} AssembledFrom(read: map<Key, Manifest>, picks: seq<Key>, ch: ChunkId) returns (k: Key)
    requires forall j :: j in picks ==> j in read
    requires ch in ChunksOf(read, picks)
    ensures k in picks && ch in read[k].chunks
  {
    if ch in read[picks[0]].chunks {
      k := picks[0];
    } else {
      k := AssembledFrom(read, picks[1..], ch);
    }
  }

  lemma PartOfAssembled(read: map<Key, Manifest>, picks: seq<Key>, ch: ChunkId) returns (k: Key)
    requires picks != [] && forall j :: j in picks ==> j in read
    requires SamePlacement(read, picks) && ch in ChunksOf(read, picks)
    ensures k in picks && ch in read[k].chunks
    ensures read[k].nodes == Assembled(read, picks).nodes && read[k].coding == Assembled(read, picks).coding
  {
    k := AssembledFrom(read, picks, ch);
    var i :| 0 <= i < |picks| && picks[i] == k;
    assert read[picks[i]].nodes == read[picks[0]].nodes;
  }

  lemma CompleteVouched(s: State, read: PartsRead, picks: seq<Key>, key: Key)
    requires Inv(s) && CanComplete(s, read, picks) && PartsStillThere(s, read, picks)
    ensures Vouched(s, key, Assembled(read.parts, picks))
  {
    var m := Assembled(read.parts, picks);
    assert picks[0] in picks;
    assert EnoughOf(s.parts[picks[0]].manifest, s.disks.Keys + s.lost, s.quorum);
    forall q, id | q in s.sweeps && Concerns(m, s.sweeps[q], id)
      ensures ObjectSafe(s.objects, s.disks, s.grace, s.sweeps[q], key, id)
    {
      var k := PartOfAssembled(read.parts, picks, id.chunk);
      assert PartManifestSafe(s.disks, s.grace, s.sweeps[q], k, s.parts[k].manifest);
      assert Concerns(s.parts[k].manifest, s.sweeps[q], id);
    }
    forall c | Names(m, c) ensures c !in s.swept {
      var k := PartOfAssembled(read.parts, picks, c.id.chunk);
      assert Untaken(s.parts[k].manifest, s.swept);
      assert Names(s.parts[k].manifest, c);
    }
    forall ch | ch in m.chunks ensures |PositionsIn(m, ch, s.disks.Keys + s.lost)| >= Needed(s.quorum, m) {
      var k := PartOfAssembled(read.parts, picks, ch);
      assert EnoughOf(s.parts[k].manifest, s.disks.Keys + s.lost, s.quorum);
      assert PositionsIn(m, ch, s.disks.Keys + s.lost) == PositionsIn(s.parts[k].manifest, ch, s.disks.Keys + s.lost);
    }
  }

  lemma CompleteKeeps(s: State, read: PartsRead, picks: seq<Key>, key: Key)
    requires Inv(s) && CanComplete(s, read, picks) && PartsStillThere(s, read, picks) && Unowed(s, key)
    ensures Inv(PutObject(s, key, Assembled(read.parts, picks)))
  {
    CompleteVouched(s, read, picks, key);
    PutKeeps(s, key, Assembled(read.parts, picks));
  }

  /** What a sweep has condemned belongs to nothing committed, recorded or being delivered. */
  lemma DoomedUnclaimed(s: State, q: SweepId, id: Id)
    requires Inv(s) && InPhase(s, q, Removing) && id in s.sweeps[q].doomed
    ensures !Covered(s.disks, s.grace, s.sweeps[q], id)
    ensures forall k :: k in s.objects ==> !Names(s.objects[k].manifest, Copy(s.sweeps[q].node, id))
    ensures forall k :: k in s.parts ==> !Names(s.parts[k].manifest, Copy(s.sweeps[q].node, id))
    ensures forall v :: v in s.moves && Current(s.objects, s.moves[v]) ==>
                          Copy(s.sweeps[q].node, id) !in s.moves[v].delivered
    ensures id.chunk.write in s.began && id.chunk.write !in s.records
    ensures s.began[id.chunk.write].time + s.grace < s.clock
  {
    var p := s.sweeps[q];
    GuardedEach(s, q);
    assert SweepOk(p, s.began, s.grace, s.clock);
    assert !Covered(s.disks, s.grace, p, id);
    forall k | k in s.objects ensures !Names(s.objects[k].manifest, Copy(p.node, id)) {
      assert ManifestSafe(s.objects, s.disks, s.grace, p, k, s.objects[k].manifest);
      assert !Concerns(s.objects[k].manifest, p, id);
    }
    forall k | k in s.parts ensures !Names(s.parts[k].manifest, Copy(p.node, id)) {
      assert PartManifestSafe(s.disks, s.grace, p, k, s.parts[k].manifest);
      assert !Concerns(s.parts[k].manifest, p, id);
    }
  }

  lemma TakenIntact(s: State, c: Copy)
    requires Intact(s)
    requires forall k :: k in s.objects ==> !Names(s.objects[k].manifest, c)
    requires forall k :: k in s.parts ==> !Names(s.parts[k].manifest, c)
    requires forall v :: v in s.moves && Current(s.objects, s.moves[v]) ==> c !in s.moves[v].delivered
    ensures Intact(Taken(s, c))
  {
    var t := Taken(s, c);
    EnoughOfAllKept(s.objects, s.parts, s.disks.Keys + s.lost, t.disks.Keys + t.lost, s.quorum);
  }

  lemma TakenLedger(s: State, c: Copy)
    requires Ledger(s) && c.id.chunk.write in s.began && c.id.chunk.write !in s.records
    requires s.began[c.id.chunk.write].time + s.grace < s.clock
    ensures Ledger(Taken(s, c))
  {}

  lemma RemovedKeeps(s: State, q: SweepId, id: Id)
    requires Inv(s) && InPhase(s, q, Removing) && id in s.sweeps[q].doomed
    ensures Inv(Taken(s, Copy(s.sweeps[q].node, id)))
  {
    var c := Copy(s.sweeps[q].node, id);
    DoomedUnclaimed(s, q, id);
    TakenIntact(s, c);
    TakenLedger(s, c);
    DisksKeep(s, Taken(s, c).disks);
  }

  lemma SpareGuarded(s: State, p: Sweep, id: Id)
    requires p.phase == Removing && SweepGuarded(s, p)
    ensures SweepGuarded(s, p.(doomed := p.doomed - {id}))
  {
    var p' := p.(doomed := p.doomed - {id});
    assert forall x :: Covered(s.disks, s.grace, p, x) ==> Covered(s.disks, s.grace, p', x);
    assert forall m, x :: Concerns(m, p, x) == Concerns(m, p', x);
    forall k | k in s.objects ensures ManifestSafe(s.objects, s.disks, s.grace, p', k, s.objects[k].manifest) {
      assert ManifestSafe(s.objects, s.disks, s.grace, p, k, s.objects[k].manifest);
    }
    forall k | k in s.parts ensures PartManifestSafe(s.disks, s.grace, p', k, s.parts[k].manifest) {
      assert PartManifestSafe(s.disks, s.grace, p, k, s.parts[k].manifest);
    }
    forall v | v in s.moves && Current(s.objects, s.moves[v])
      ensures DeliveredSafe(s.disks, s.grace, p', s.moves[v])
    {
      assert DeliveredSafe(s.disks, s.grace, p, s.moves[v]);
    }
  }

  lemma SpareKeeps(s: State, q: SweepId, id: Id)
    requires Inv(s) && InPhase(s, q, Removing)
    ensures Inv(Later(WithSweep(s, q, s.sweeps[q].(doomed := s.sweeps[q].doomed - {id}))))
  {
    var p := s.sweeps[q];
    GuardedEach(s, q);
    SpareGuarded(s, p, id);
    assert SweepOk(p, s.began, s.grace, s.clock);
    SweepStepKeeps(s, q, p.(doomed := p.doomed - {id}));
  }

  lemma SweepRemoveKeeps(s: State, q: SweepId, id: Id)
    requires Inv(s) && InPhase(s, q, Removing) && id in s.sweeps[q].doomed
    ensures Inv(Later(WithSweep(Taken(s, Copy(s.sweeps[q].node, id)), q,
                                s.sweeps[q].(doomed := s.sweeps[q].doomed - {id}))))
  {
    RemovedKeeps(s, q, id);
    SpareKeeps(Taken(s, Copy(s.sweeps[q].node, id)), q, id);
  }

  lemma DeliverKeeps(s: State, mv: MoveId, c: Copy)
    requires Inv(s) && mv in s.moves && MoveAdds(s.moves[mv], c)
    requires c in s.stored && c !in s.swept && c in s.disks
    requires NotCondemned(s, c) && forall q :: q in s.sweeps ==> s.disks[c] + s.grace > s.sweeps[q].start
    ensures Inv(Delivered(s, mv, c))
  {
    var v := s.moves[mv].(delivered := s.moves[mv].delivered + {c});
    var moves := s.moves[mv := v];
    forall q, x | q in s.sweeps && x in moves && Current(s.objects, moves[x])
      ensures DeliveredSafe(s.disks, s.grace, s.sweeps[q], moves[x])
    {
      assert Current(s.objects, s.moves[x]);
      assert DeliveredSafe(s.disks, s.grace, s.sweeps[q], s.moves[x]);
    }
    assert MovesOk(moves, s.objectReads);
    assert MovesKept(moves, s.objects, s.stored, s.swept);
  }

  /** A copy stored now is too young for every sweep under way. */
  lemma StoredYoung(s: State, c: Copy)
    requires SweepsOk(s.sweeps, s.began, s.grace, s.clock)
    ensures forall q :: q in s.sweeps ==> Stored(s, c).disks[c] + s.grace > s.sweeps[q].start
  {
    forall q | q in s.sweeps ensures Stored(s, c).disks[c] + s.grace > s.sweeps[q].start {
      assert SweepOk(s.sweeps[q], s.began, s.grace, s.clock);
    }
  }

  lemma MoveStoreKeeps(s: State, mv: MoveId, c: Copy)
    requires Inv(s) && mv in s.moves && MoveAdds(s.moves[mv], c) && c.id.chunk.write in s.began && NotCondemned(s, c)
    ensures Inv(Later(Delivered(Stored(s, c), mv, c)))
  {
    StoreKeeps(s, c);
    StoredYoung(s, c);
    DeliverKeeps(Later(Stored(s, c)), mv, c);
  }

  // A move never lowers the number of named positions that are held

  lemma {:induction false} ImageSize(nodes: seq<Node>, at: set<nat>, image: set<Node>)
    requires Distinct(nodes) && forall i :: i in at ==> i < |nodes|
    requires image == set i | i in at :: nodes[i]
    ensures |image| == |at|
  {
    if at != {} {
      var x :| x in at;
      var rest := set i | i in at - {x} :: nodes[i];
      ImageSize(nodes, at - {x}, rest);
      assert image == rest + {nodes[x]};
      assert nodes[x] !in rest;
    }
  }

  function Lacking(nodes: seq<Node>, id: Id, copies: set<Copy>): set<Node> {
    set n | n in nodes && Copy(n, id) !in copies
  }

  /** Counting holders of a replica: every distinct node either holds it or lacks it. */
  lemma HoldersAndLacking(m: Manifest, ch: ChunkId, copies: set<Copy>)
    requires m.coding.Replicated? && Distinct(m.nodes)
    ensures |PositionsIn(m, ch, copies)| + |Lacking(m.nodes, Whole(ch), copies)| == |m.nodes|
  {
    var all := UpTo(|m.nodes|);
    var held := PositionsIn(m, ch, copies);
    var lack := set i | i in all - held :: m.nodes[i];
    ImageSize(m.nodes, all - held, lack);
    assert lack == Lacking(m.nodes, Whole(ch), copies);
    assert held <= all;
    assert |all - held| == |all| - |held|;
  }

  lemma MovedEnough(mv: Move, copies: set<Copy>, quorum: nat)
    requires EnoughOf(mv.read.manifest, copies, quorum)
    requires WellPlaced(mv.read.manifest.(nodes := mv.want)) && |mv.want| >= |mv.read.manifest.nodes|
    requires forall c :: MoveAdds(mv, c) ==> c in copies
    ensures EnoughOf(mv.read.manifest.(nodes := mv.want), copies, quorum)
  {
    var m := mv.read.manifest;
    var m' := m.(nodes := mv.want);
    forall ch | ch in m.chunks ensures |PositionsIn(m', ch, copies)| >= |PositionsIn(m, ch, copies)| {
      if m.coding.Replicated? {
        HoldersAndLacking(m, ch, copies);
        HoldersAndLacking(m', ch, copies);
        forall n | n in Lacking(m'.nodes, Whole(ch), copies) ensures n in Lacking(m.nodes, Whole(ch), copies) {
          assert !MoveAdds(mv, Copy(n, Whole(ch)));
        }
        SubsetSize(Lacking(m'.nodes, Whole(ch), copies), Lacking(m.nodes, Whole(ch), copies));
      } else {
        forall i | i in PositionsIn(m, ch, copies) ensures i in PositionsIn(m', ch, copies) {
          assert i < |mv.want|;
          if mv.want[i] != m.nodes[i] {
            assert MoveAdds(mv, Copy(mv.want[i], Shard(ch, i)));
          }
        }
        SubsetSize(PositionsIn(m, ch, copies), PositionsIn(m', ch, copies));
      }
    }
  }

  lemma MoveVouched(s: State, mv: MoveId)
    requires Inv(s) && CanCommitMove(s, mv)
    ensures Vouched(s, s.moves[mv].read.key, s.moves[mv].read.manifest.(nodes := s.moves[mv].want))
  {
    var v := s.moves[mv];
    var k, m := v.read.key, v.read.manifest;
    var m' := m.(nodes := v.want);
    assert s.objects[k].manifest == m;
    assert v.delivered <= s.stored && v.delivered !! s.swept;
    forall c | Names(m', c) ensures Names(m, c) || c in v.delivered {
      assert !Names(m, c) ==> MoveAdds(v, c);
    }
    forall q, id | q in s.sweeps && Concerns(m', s.sweeps[q], id)
      ensures ObjectSafe(s.objects, s.disks, s.grace, s.sweeps[q], k, id)
    {
      assert ManifestSafe(s.objects, s.disks, s.grace, s.sweeps[q], k, m);
      assert DeliveredSafe(s.disks, s.grace, s.sweeps[q], v);
      if Names(m, Copy(s.sweeps[q].node, id)) {
        assert Concerns(m, s.sweeps[q], id);
      }
    }
    assert Untaken(m, s.swept);
    assert StoredKnown(s.stored, s.disks, s.swept, s.lost);
    MovedEnough(v, s.disks.Keys + s.lost, s.quorum);
  }

  lemma MoveCommitKeeps(s: State, mv: MoveId)
    requires Inv(s) && CanCommitMove(s, mv) && Unowed(s, s.moves[mv].read.key)
    ensures Inv(MoveCommitted(s, mv))
  {
    var v := s.moves[mv];
    MoveVouched(s, mv);
    PutKeeps(s, v.read.key, v.read.manifest.(nodes := v.want));
    MoveEndKeeps(PutObject(s, v.read.key, v.read.manifest.(nodes := v.want)), mv);
  }
}
