/** The invariant of the protocol. Each clause names only the fields it reads, so that a step which
    leaves those fields alone keeps the clause for free. */
module ProtocolInvariant {
  import opened Basics
  import opened KeyOrder
  import opened Protocol

  type Etcd = map<Key, Versioned>
  type Uploads = map<Key, PartEntry>
  type Disks = map<Copy, nat>
  type Sweeps = map<SweepId, Sweep>
  type Moves = map<MoveId, Move>
  type Writes = map<WriteId, Begun>

  /** The node holds no copy old enough for this sweep to take. */
  predicate Fresh(disks: Disks, grace: nat, p: Sweep, id: Id) {
    Copy(p.node, id) in disks ==> disks[Copy(p.node, id)] + grace > p.start
  }

  /** Why this sweep will never take `id`: it read a name for it, it read a record for it, or it has
      not condemned it and the copy is too young. */
  ghost predicate Covered(disks: Disks, grace: nat, p: Sweep, id: Id) {
    id in p.ref || id.chunk.write in p.writing || (id !in p.doomed && Fresh(disks, grace, p, id))
  }

  /** A source the sweep has yet to reach names the same copy. */
  ghost predicate Owed(objects: Etcd, p: Sweep, id: Id) {
    exists k :: k in p.owed && k in objects && !Passed(p.cursor, k) && Names(objects[k].manifest, Copy(p.node, id))
  }

  ghost predicate ObjectSafe(objects: Etcd, disks: Disks, grace: nat, p: Sweep, k: Key, id: Id) {
    match p.phase
    case Objects => !Passed(p.cursor, k) || Covered(disks, grace, p, id) || Owed(objects, p, id)
    case Removing => Covered(disks, grace, p, id)
    case _ => true
  }

  ghost predicate PartSafe(disks: Disks, grace: nat, p: Sweep, k: Key, id: Id) {
    match p.phase
    case Parts => !Passed(p.cursor, k) || Covered(disks, grace, p, id)
    case Objects => Covered(disks, grace, p, id)
    case Removing => Covered(disks, grace, p, id)
    case _ => true
  }

  ghost predicate MoveSafe(disks: Disks, grace: nat, p: Sweep, k: Key, id: Id) {
    match p.phase
    case Objects => !Passed(p.cursor, k) || Covered(disks, grace, p, id)
    case Removing => Covered(disks, grace, p, id)
    case _ => true
  }

  /** Whether manifest `m` gives the sweep's node an id of the sweep's slice. */
  predicate Concerns(m: Manifest, p: Sweep, id: Id) {
    InSlice(id, p.slice) && Names(m, Copy(p.node, id))
  }

  ghost predicate ManifestSafe(objects: Etcd, disks: Disks, grace: nat, p: Sweep, k: Key, m: Manifest) {
    forall id :: Concerns(m, p, id) ==> ObjectSafe(objects, disks, grace, p, k, id)
  }

  ghost predicate ObjectsSafe(objects: Etcd, sweeps: Sweeps, disks: Disks, grace: nat) {
    forall q, k :: q in sweeps && k in objects ==>
                     ManifestSafe(objects, disks, grace, sweeps[q], k, objects[k].manifest)
  }

  ghost predicate PartManifestSafe(disks: Disks, grace: nat, p: Sweep, k: Key, m: Manifest) {
    forall id :: Concerns(m, p, id) ==> PartSafe(disks, grace, p, k, id)
  }

  ghost predicate PartsSafe(parts: Uploads, sweeps: Sweeps, disks: Disks, grace: nat) {
    forall q, k :: q in sweeps && k in parts ==> PartManifestSafe(disks, grace, sweeps[q], k, parts[k].manifest)
  }

  ghost predicate DeliveredSafe(disks: Disks, grace: nat, p: Sweep, mv: Move) {
    forall id :: InSlice(id, p.slice) && Copy(p.node, id) in mv.delivered ==> MoveSafe(disks, grace, p, mv.read.key, id)
  }

  ghost predicate MovesSafe(moves: Moves, objects: Etcd, sweeps: Sweeps, disks: Disks, grace: nat) {
    forall q, v :: q in sweeps && v in moves && Current(objects, moves[v]) ==>
                     DeliveredSafe(disks, grace, sweeps[q], moves[v])
  }

  predicate RecordSeen(began: Writes, p: Sweep, w: WriteId) {
    p.phase == Records || w in p.writing || w in p.toDrop || (w in began && began[w].time > p.start)
  }

  ghost predicate RecordsSeen(records: map<WriteId, Node>, began: Writes, sweeps: Sweeps) {
    forall q, w :: q in sweeps && w in records ==> RecordSeen(began, sweeps[q], w)
  }

  ghost predicate DisksTimed(disks: Disks, began: Writes, clock: nat) {
    forall c :: c in disks ==> c.id.chunk.write in began && began[c.id.chunk.write].time <= disks[c] < clock
  }

  ghost predicate WritesTimed(began: Writes, clock: nat) {
    forall w :: w in began ==> began[w].time < clock
  }

  ghost predicate RecordsKnown(records: map<WriteId, Node>, began: Writes) {
    forall w :: w in records ==> w in began && began[w].recorded
  }

  ghost predicate SweepOk(p: Sweep, began: Writes, grace: nat, clock: nat) {
    && p.start < clock
    && (p.phase != Dropping ==> p.toDrop == {})
    && (p.phase != Removing ==> p.doomed == {})
    && forall id :: id in p.doomed ==>
         && id !in p.ref && id.chunk.write !in p.writing
         && id.chunk.write in began && began[id.chunk.write].time + grace <= p.start
         && InSlice(id, p.slice)
  }

  ghost predicate SweepsOk(sweeps: Sweeps, began: Writes, grace: nat, clock: nat) {
    forall q :: q in sweeps ==> SweepOk(sweeps[q], began, grace, clock)
  }

  ghost predicate StoredKnown(stored: set<Copy>, disks: Disks, swept: set<Copy>, lost: set<Copy>) {
    forall c :: c in stored ==> c in disks || c in swept || c in lost
  }

  ghost predicate SweptKnown(swept: set<Copy>, began: Writes, records: map<WriteId, Node>, grace: nat, clock: nat) {
    forall c :: c in swept ==>
      && c.id.chunk.write in began && c.id.chunk.write !in records
      && began[c.id.chunk.write].time + grace < clock
  }

  ghost predicate ReadsOk(objects: Etcd, objectReads: set<ObjectRead>, rev: nat) {
    && (forall k :: k in objects ==> objects[k].rev <= rev)
    && (forall r :: r in objectReads ==>
          && r.rev <= rev
          && WellPlaced(r.manifest)
          && (r.key in objects && objects[r.key].rev == r.rev ==> objects[r.key].manifest == r.manifest))
  }

  ghost predicate MovesOk(moves: Moves, objectReads: set<ObjectRead>) {
    forall v :: v in moves ==>
      && moves[v].read in objectReads
      && |moves[v].want| >= |moves[v].read.manifest.nodes|
      && WellPlaced(moves[v].read.manifest.(nodes := moves[v].want))
      && forall c :: c in moves[v].delivered ==> MoveAdds(moves[v], c)
  }

  /** No sweep has taken a copy this manifest names. */
  ghost predicate Untaken(m: Manifest, swept: set<Copy>) {
    forall c :: c in swept ==> !Names(m, c)
  }

  ghost predicate NoneTaken(objects: Etcd, parts: Uploads, swept: set<Copy>) {
    && (forall k :: k in objects ==> Untaken(objects[k].manifest, swept))
    && (forall k :: k in parts ==> Untaken(parts[k].manifest, swept))
  }

  ghost predicate MovesKept(moves: Moves, objects: Etcd, stored: set<Copy>, swept: set<Copy>) {
    forall v :: v in moves && Current(objects, moves[v]) ==> moves[v].delivered <= stored && moves[v].delivered !! swept
  }

  /** Enough positions of every chunk are among `copies`. */
  ghost predicate EnoughOf(m: Manifest, copies: set<Copy>, quorum: nat) {
    WellPlaced(m) && forall ch :: ch in m.chunks ==> |PositionsIn(m, ch, copies)| >= Needed(quorum, m)
  }

  ghost predicate EnoughOfAll(objects: Etcd, parts: Uploads, copies: set<Copy>, quorum: nat) {
    && (forall k :: k in objects ==> EnoughOf(objects[k].manifest, copies, quorum))
    && (forall k :: k in parts ==> EnoughOf(parts[k].manifest, copies, quorum))
  }

  predicate Orphanless(parts: Uploads, uploads: set<UploadId>) {
    forall k :: k in parts ==> parts[k].upload in uploads
  }

  ghost predicate Ledger(s: State) {
    && DisksTimed(s.disks, s.began, s.clock)
    && WritesTimed(s.began, s.clock)
    && RecordsKnown(s.records, s.began)
    && StoredKnown(s.stored, s.disks, s.swept, s.lost)
    && SweptKnown(s.swept, s.began, s.records, s.grace, s.clock)
    && ReadsOk(s.objects, s.objectReads, s.rev)
    && MovesOk(s.moves, s.objectReads)
    && Orphanless(s.parts, s.uploads)
  }

  ghost predicate Guarded(s: State) {
    && SweepsOk(s.sweeps, s.began, s.grace, s.clock)
    && RecordsSeen(s.records, s.began, s.sweeps)
    && ObjectsSafe(s.objects, s.sweeps, s.disks, s.grace)
    && PartsSafe(s.parts, s.sweeps, s.disks, s.grace)
    && MovesSafe(s.moves, s.objects, s.sweeps, s.disks, s.grace)
  }

  ghost predicate Intact(s: State) {
    && NoneTaken(s.objects, s.parts, s.swept)
    && MovesKept(s.moves, s.objects, s.stored, s.swept)
    && EnoughOfAll(s.objects, s.parts, s.disks.Keys + s.lost, s.quorum)
  }

  ghost predicate Inv(s: State) {
    Ledger(s) && Guarded(s) && Intact(s)
  }
}
