/**
 The commit/collect protocol as a step relation: one action per etcd RPC, per chunk stored on or
 removed from a disk, and per stage of a sweep. `Enabled` is what the code itself checks before it
 acts; `Proviso` is what the code does not check and its safety rests on.
 */
module Protocol {
  import opened Basics
  import opened KeyOrder

  type Node = string
  type WriteId = string
  type UploadId = string
  type SweepId = nat
  type MoveId = nat

  /** A chunk carries the id of the write that made it, and a shard carries its chunk's id. */
  datatype ChunkId = ChunkId(write: WriteId, index: nat)
  datatype Id = Whole(chunk: ChunkId) | Shard(chunk: ChunkId, position: nat)

  /** One file on one node's disk. */
  datatype Copy = Copy(node: Node, id: Id)

  datatype Coding = Replicated | Coded(data: nat, parity: nat)
  datatype Manifest = Manifest(nodes: seq<Node>, chunks: seq<ChunkId>, coding: Coding)

  function LocalId(m: Manifest, ch: ChunkId, i: nat): Id {
    if m.coding.Replicated? then Whole(ch) else Shard(ch, i)
  }

  /** Whether some placement puts `id` of manifest `m` on `node`: any owner holds any replica, and
      shard i belongs to owner i and nowhere else. */
  predicate Placed(m: Manifest, nodes: seq<Node>, node: Node, id: Id) {
    && id.chunk in m.chunks
    && match m.coding
       case Replicated => id.Whole? && node in nodes
       case Coded(_, _) => id.Shard? && id.position < |nodes| && nodes[id.position] == node
  }

  predicate Names(m: Manifest, c: Copy) {
    Placed(m, m.nodes, c.node, c.id)
  }

  /** What `reference` adds: the manifest's own placement, and the ring's. */
  predicate References(m: Manifest, want: seq<Node>, node: Node, id: Id) {
    Placed(m, m.nodes, node, id) || Placed(m, want, node, id)
  }

  predicate InSlice(id: Id, slice: char) {
    id.chunk.write != [] && id.chunk.write[0] == slice
  }

  predicate WellPlaced(m: Manifest) {
    && Distinct(m.nodes)
    && (m.coding.Coded? ==> |m.nodes| == m.coding.data + m.coding.parity)
  }

  /** How many copies or shards a write must have stored before it may be acknowledged. */
  function Needed(quorum: nat, m: Manifest): nat {
    match m.coding
    case Replicated => quorum
    case Coded(d, p) => Min(d + 1, d + p)
  }

  function PositionsIn(m: Manifest, ch: ChunkId, copies: set<Copy>): set<nat> {
    set i: nat | i < |m.nodes| && Copy(m.nodes[i], LocalId(m, ch, i)) in copies
  }

  datatype Versioned = Versioned(manifest: Manifest, rev: nat)
  datatype PartEntry = PartEntry(upload: UploadId, manifest: Manifest)
  datatype Begun = Begun(time: nat, recorded: bool)

  /** A paged scan is a moving position in the key order, not a snapshot. */
  datatype Cursor = Start | At(key: Key)
  predicate Passed(c: Cursor, k: Key) { c.At? && AtMost(k, c.key) }

  datatype Phase = Records | Dropping | Parts | Objects | Removing

  /** One collection pass. `writing` is the records it kept, `toDrop` those it must still delete,
      `ref` the ids it has found named on its node, `doomed` the files it has looked at and decided
      to remove. `owed` lists sources of copies made behind its cursor. */
  datatype Sweep = Sweep(node: Node, slice: char, start: nat, phase: Phase, writing: set<WriteId>,
                         toDrop: set<WriteId>, cursor: Cursor, ref: iset<Id>, doomed: set<Id>, owed: set<Key>)

  datatype ObjectRead = ObjectRead(key: Key, manifest: Manifest, rev: nat)
  datatype PartsRead = PartsRead(upload: UploadId, parts: map<Key, Manifest>)

  /** A rebalance of one object: the revision it read, where the mover's ring puts it, and which
      copies have been delivered so far. */
  datatype Move = Move(read: ObjectRead, want: seq<Node>, delivered: set<Copy>)

  /** `objects`, `parts`, `uploads` and `records` are etcd; `disks` maps each file to its
      modification time. The rest is history: which copies were ever stored, which a sweep took and
      which a disk lost (both until stored again), and what clients have read. */
  datatype State = State(
    objects: map<Key, Versioned>, parts: map<Key, PartEntry>, uploads: set<UploadId>,
    records: map<WriteId, Node>, rev: nat, clock: nat, grace: nat, quorum: nat,
    disks: map<Copy, nat>, began: map<WriteId, Begun>, sweeps: map<SweepId, Sweep>, moves: map<MoveId, Move>,
    objectReads: set<ObjectRead>, partReads: set<PartsRead>,
    stored: set<Copy>, swept: set<Copy>, lost: set<Copy>)

  datatype Target = ToObject(key: Key) | ToPart(key: Key, upload: UploadId)

  datatype Action =
    | Tick(ticks: nat)
    | Begin(w: WriteId, coordinator: Node, recorded: bool)
    | Store(copy: Copy)
    | Lose(copy: Copy)
    | Commit(w: WriteId, target: Target, m: Manifest)
    | DropRecord(w: WriteId)
    | Delete(key: Key)
    | CreateUpload(upload: UploadId)
    | DeleteUpload(upload: UploadId)
    | ReadObject(key: Key)
    | ReadParts(upload: UploadId)
    | CopyObject(source: ObjectRead, to: Key)
    | Complete(partsRead: PartsRead, picks: seq<Key>, key: Key)
    | MoveStart(mv: MoveId, read: ObjectRead, want: seq<Node>)
    | MoveStore(mv: MoveId, i: nat, ch: ChunkId)
    | MoveCommit(mv: MoveId)
    | MoveEnd(mv: MoveId)
    | SweepStart(q: SweepId, node: Node, slice: char)
    | SweepRecords(q: SweepId, members: set<Node>)
    | SweepDrop(q: SweepId, w: WriteId)
    | SweepScanParts(q: SweepId)
    | SweepPartPage(q: SweepId, to: Key)
    | SweepScanObjects(q: SweepId)
    | SweepObjectPage(q: SweepId, to: Key, ring: map<Key, seq<Node>>)
    | SweepScanDisk(q: SweepId)
    | SweepLook(q: SweepId, id: Id)
    | SweepRemove(q: SweepId, id: Id)
    | SweepEnd(q: SweepId)

  ghost predicate Init(s: State) {
    && s.objects == map[] && s.parts == map[] && s.uploads == {} && s.records == map[]
    && s.disks == map[] && s.began == map[] && s.sweeps == map[] && s.moves == map[]
    && s.objectReads == {} && s.partReads == {} && s.stored == {} && s.swept == {} && s.lost == {}
  }

  /** The copies a move must deliver: positions the old placement does not already give that node. */
  predicate MoveAdds(mv: Move, c: Copy) {
    Placed(mv.read.manifest, mv.want, c.node, c.id) && !Names(mv.read.manifest, c)
  }

  function ChunksOf(read: map<Key, Manifest>, picks: seq<Key>): seq<ChunkId>
    requires forall k :: k in picks ==> k in read
  {
    if picks == [] then [] else read[picks[0]].chunks + ChunksOf(read, picks[1..])
  }

  function Assembled(read: map<Key, Manifest>, picks: seq<Key>): Manifest
    requires picks != [] && forall k :: k in picks ==> k in read
  {
    Manifest(read[picks[0]].nodes, ChunksOf(read, picks), read[picks[0]].coding)
  }

  predicate SamePlacement(read: map<Key, Manifest>, picks: seq<Key>)
    requires forall k :: k in picks ==> k in read
  {
    forall i, j :: 0 <= i < |picks| && 0 <= j < |picks| ==>
      read[picks[i]].nodes == read[picks[j]].nodes && read[picks[i]].coding == read[picks[j]].coding
  }

  function RingAnswer(ring: map<Key, seq<Node>>, k: Key): seq<Node> {
    if k in ring then ring[k] else []
  }

  ghost predicate InPhase(s: State, q: SweepId, phase: Phase) {
    q in s.sweeps && s.sweeps[q].phase == phase
  }

  // Each kind of step: when the code takes it, and what it does

  /** A write may commit once every chunk has reached its quorum of owners. A recorded write commits
      in a transaction on its record; a part, in a transaction on its upload. */
  ghost predicate CanCommit(s: State, w: WriteId, target: Target, m: Manifest) {
    && w in s.began
    && (forall ch :: ch in m.chunks ==> ch.write == w)
    && WellPlaced(m)
    && (if s.began[w].recorded then w in s.records else |m.chunks| <= 1)
    && (target.ToPart? ==> target.upload in s.uploads)
    && (forall ch :: ch in m.chunks ==> |PositionsIn(m, ch, s.stored)| >= Needed(s.quorum, m))
  }

  ghost function PutObject(s: State, k: Key, m: Manifest): State {
    s.(objects := s.objects[k := Versioned(m, s.rev + 1)], rev := s.rev + 1)
  }

  ghost function PutPart(s: State, k: Key, e: PartEntry): State {
    s.(parts := s.parts[k := e], rev := s.rev + 1)
  }

  ghost function Began(s: State, w: WriteId, coordinator: Node, recorded: bool): State {
    s.(began := s.began[w := Begun(s.clock, recorded)],
       records := if recorded then s.records[w := coordinator] else s.records)
  }

  ghost function Stored(s: State, c: Copy): State {
    s.(disks := s.disks[c := s.clock], stored := s.stored + {c}, swept := s.swept - {c}, lost := s.lost - {c})
  }

  ghost function Lost(s: State, c: Copy): State {
    s.(disks := s.disks - {c}, lost := s.lost + {c})
  }

  ghost function Taken(s: State, c: Copy): State {
    s.(disks := s.disks - {c}, swept := s.swept + if c in s.disks then {c} else {})
  }

  ghost function UploadForgotten(s: State, u: UploadId): State {
    s.(uploads := s.uploads - {u}, parts := map k | k in s.parts && s.parts[k].upload != u :: s.parts[k])
  }

  ghost function ObjectReadAt(s: State, k: Key): State
    requires k in s.objects
  {
    s.(objectReads := s.objectReads + {ObjectRead(k, s.objects[k].manifest, s.objects[k].rev)})
  }

  ghost function PartsReadOf(s: State, u: UploadId): State {
    s.(partReads := s.partReads + {PartsRead(u, map k | k in s.parts && s.parts[k].upload == u :: s.parts[k].manifest)})
  }

  /** A sweep that has passed the copy's key but not its source now owes its safety to the source. */
  ghost function Owe(p: Sweep, source: Key, to: Key): Sweep {
    if p.phase == Objects && Passed(p.cursor, to) && !Passed(p.cursor, source)
    then p.(owed := p.owed + {source}) else p
  }

  ghost function Owing(s: State, source: Key, to: Key): State {
    s.(sweeps := map q | q in s.sweeps :: Owe(s.sweeps[q], source, to))
  }

  ghost predicate CanComplete(s: State, read: PartsRead, picks: seq<Key>) {
    && read in s.partReads
    && picks != []
    && (forall k :: k in picks ==> k in read.parts)
    && SamePlacement(read.parts, picks)
  }

  ghost predicate CanMove(s: State, mv: MoveId, read: ObjectRead, want: seq<Node>) {
    && mv !in s.moves
    && read in s.objectReads
    && |want| >= |read.manifest.nodes|
    && want != read.manifest.nodes
    && WellPlaced(read.manifest.(nodes := want))
  }

  function Delivery(v: Move, i: nat, ch: ChunkId): Copy
    requires i < |v.want|
  {
    Copy(v.want[i], LocalId(v.read.manifest, ch, i))
  }

  ghost predicate CanDeliver(s: State, mv: MoveId, i: nat, ch: ChunkId) {
    && mv in s.moves
    && i < |s.moves[mv].want|
    && MoveAdds(s.moves[mv], Delivery(s.moves[mv], i, ch))
    && ch.write in s.began
  }

  ghost function Delivered(s: State, mv: MoveId, c: Copy): State
    requires mv in s.moves
  {
    s.(moves := s.moves[mv := s.moves[mv].(delivered := s.moves[mv].delivered + {c})])
  }

  /** A whole move is delivered, and the object is still at the revision that was read. */
  ghost predicate CanCommitMove(s: State, mv: MoveId) {
    && mv in s.moves
    && (forall c :: MoveAdds(s.moves[mv], c) ==> c in s.moves[mv].delivered)
    && s.moves[mv].read.key in s.objects
    && s.objects[s.moves[mv].read.key].rev == s.moves[mv].read.rev
  }

  ghost function MoveCommitted(s: State, mv: MoveId): State
    requires mv in s.moves
  {
    MoveEnded(PutObject(s, s.moves[mv].read.key, s.moves[mv].read.manifest.(nodes := s.moves[mv].want)), mv)
  }

  ghost function MoveEnded(s: State, mv: MoveId): State {
    s.(moves := s.moves - {mv})
  }

  ghost function WithSweep(s: State, q: SweepId, p: Sweep): State {
    s.(sweeps := s.sweeps[q := p])
  }

  ghost function NewSweep(s: State, node: Node, slice: char): Sweep {
    Sweep(node, slice, s.clock, Records, {}, {}, Start, iset{}, {}, {})
  }

  /** A view without members is a node that has not read the membership yet, and keeps every record. */
  function Kept(records: map<WriteId, Node>, members: set<Node>): set<WriteId> {
    set w | w in records && (records[w] in members || members == {})
  }

  ghost function WithRecords(p: Sweep, records: map<WriteId, Node>, members: set<Node>): Sweep {
    p.(phase := Dropping, writing := Kept(records, members), toDrop := records.Keys - Kept(records, members))
  }

  ghost function RecordDropped(s: State, w: WriteId): State {
    s.(records := s.records - {w})
  }

  ghost function PartPage(s: State, p: Sweep, to: Key): Sweep {
    p.(cursor := At(to), ref := p.ref + iset id |
        exists k :: k in s.parts && !Passed(p.cursor, k) && Passed(At(to), k)
                    && References(s.parts[k].manifest, [], p.node, id) && InSlice(id, p.slice))
  }

  ghost function ObjectPage(s: State, p: Sweep, to: Key, ring: map<Key, seq<Node>>): Sweep {
    p.(cursor := At(to), ref := p.ref + iset id |
        exists k :: k in s.objects && !Passed(p.cursor, k) && Passed(At(to), k)
                    && References(s.objects[k].manifest, RingAnswer(ring, k), p.node, id) && InSlice(id, p.slice))
  }

  /** The chunk is in the slice, on the disk, unnamed, unrecorded and older than the grace period
      before the pass began. */
  ghost predicate CanCondemn(s: State, p: Sweep, id: Id) {
    && InSlice(id, p.slice)
    && Copy(p.node, id) in s.disks
    && id !in p.ref
    && id.chunk.write !in p.writing
    && s.disks[Copy(p.node, id)] + s.grace <= p.start
  }

  /** What the code checks, or can only do, at each step. */
  ghost predicate Enabled(s: State, a: Action) {
    match a
    case Begin(w, _, _) => w !in s.began
    case Store(c) => c.id.chunk.write in s.began
    case Lose(c) => c in s.disks
    case Commit(w, target, m) => CanCommit(s, w, target, m)
    case ReadObject(k) => k in s.objects
    case CopyObject(source, _) => source in s.objectReads
    case Complete(read, picks, _) => CanComplete(s, read, picks)
    case MoveStart(mv, read, want) => CanMove(s, mv, read, want)
    case MoveStore(mv, i, ch) => CanDeliver(s, mv, i, ch)
    case MoveCommit(mv) => CanCommitMove(s, mv)
    case SweepStart(q, _, _) => q !in s.sweeps
    case SweepRecords(q, _) => InPhase(s, q, Records)
    case SweepDrop(q, w) => InPhase(s, q, Dropping) && w in s.sweeps[q].toDrop
    case SweepScanParts(q) => InPhase(s, q, Dropping) && s.sweeps[q].toDrop == {}
    case SweepPartPage(q, to) => InPhase(s, q, Parts) && to in s.parts && !Passed(s.sweeps[q].cursor, to)
    case SweepScanObjects(q) =>
      InPhase(s, q, Parts) && forall k :: k in s.parts ==> Passed(s.sweeps[q].cursor, k)
    case SweepObjectPage(q, to, _) => InPhase(s, q, Objects) && to in s.objects && !Passed(s.sweeps[q].cursor, to)
    case SweepScanDisk(q) =>
      InPhase(s, q, Objects) && forall k :: k in s.objects ==> Passed(s.sweeps[q].cursor, k)
    case SweepLook(q, id) => InPhase(s, q, Removing) && CanCondemn(s, s.sweeps[q], id)
    case SweepRemove(q, id) => InPhase(s, q, Removing) && id in s.sweeps[q].doomed
    case _ => true
  }

  ghost function Effect(s: State, a: Action): State
    requires Enabled(s, a)
  {
    match a
    case Tick(ticks) => s.(clock := s.clock + ticks)
    case Begin(w, coordinator, recorded) => Began(s, w, coordinator, recorded)
    case Store(c) => Stored(s, c)
    case Lose(c) => Lost(s, c)
    case Commit(_, ToObject(k), m) => PutObject(s, k, m)
    case Commit(_, ToPart(k, upload), m) => PutPart(s, k, PartEntry(upload, m))
    case DropRecord(w) => RecordDropped(s, w)
    case Delete(k) => s.(objects := s.objects - {k})
    case CreateUpload(u) => s.(uploads := s.uploads + {u})
    case DeleteUpload(u) => UploadForgotten(s, u)
    case ReadObject(k) => ObjectReadAt(s, k)
    case ReadParts(u) => PartsReadOf(s, u)
    case CopyObject(source, to) => PutObject(Owing(s, source.key, to), to, source.manifest)
    case Complete(read, picks, key) => PutObject(s, key, Assembled(read.parts, picks))
    case MoveStart(mv, read, want) => s.(moves := s.moves[mv := Move(read, want, {})])
    case MoveStore(mv, i, ch) =>
      Delivered(Stored(s, Delivery(s.moves[mv], i, ch)), mv, Delivery(s.moves[mv], i, ch))
    case MoveCommit(mv) => MoveCommitted(s, mv)
    case MoveEnd(mv) => MoveEnded(s, mv)
    case SweepStart(q, node, slice) => WithSweep(s, q, NewSweep(s, node, slice))
    case SweepRecords(q, members) => WithSweep(s, q, WithRecords(s.sweeps[q], s.records, members))
    case SweepDrop(q, w) => WithSweep(RecordDropped(s, w), q, s.sweeps[q].(toDrop := s.sweeps[q].toDrop - {w}))
    case SweepScanParts(q) => WithSweep(s, q, s.sweeps[q].(phase := Parts, cursor := Start))
    case SweepPartPage(q, to) => WithSweep(s, q, PartPage(s, s.sweeps[q], to))
    case SweepScanObjects(q) => WithSweep(s, q, s.sweeps[q].(phase := Objects, cursor := Start))
    case SweepObjectPage(q, to, ring) => WithSweep(s, q, ObjectPage(s, s.sweeps[q], to, ring))
    case SweepScanDisk(q) => WithSweep(s, q, s.sweeps[q].(phase := Removing))
    case SweepLook(q, id) => WithSweep(s, q, s.sweeps[q].(doomed := s.sweeps[q].doomed + {id}))
    case SweepRemove(q, id) =>
      WithSweep(Taken(s, Copy(s.sweeps[q].node, id)), q, s.sweeps[q].(doomed := s.sweeps[q].doomed - {id}))
    case SweepEnd(q) => s.(sweeps := s.sweeps - {q})
  }

  function Later(s: State): State { s.(clock := s.clock + 1) }

  ghost function Apply(s: State, a: Action): State
    requires Enabled(s, a)
  {
    Later(Effect(s, a))
  }

  // What the code leaves to its environment

  /** No sweep still depends on the object at `k` standing in for a copy made behind its cursor. */
  ghost predicate Unowed(s: State, k: Key) {
    forall q :: q in s.sweeps && s.sweeps[q].phase == Objects && k in s.sweeps[q].owed ==>
      Passed(s.sweeps[q].cursor, k)
  }

  /** The ring the sweep consulted puts its node where the mover's ring put it. */
  predicate Agrees(mv: Move, node: Node, answer: seq<Node>) {
    match mv.read.manifest.coding
    case Replicated => node in mv.want ==> node in answer
    case Coded(_, _) => forall i :: 0 <= i < |mv.want| && mv.want[i] == node ==> i < |answer| && answer[i] == node
  }

  ghost predicate InTime(s: State, w: WriteId, m: Manifest) {
    w in s.began && !s.began[w].recorded && m.chunks != [] ==> s.clock <= s.began[w].time + s.grace
  }

  ghost predicate StillThere(s: State, source: ObjectRead) {
    source.key in s.objects && s.objects[source.key].manifest == source.manifest
  }

  ghost predicate PartsStillThere(s: State, read: PartsRead, picks: seq<Key>) {
    forall k :: k in picks && k in read.parts ==> k in s.parts && s.parts[k].manifest == read.parts[k]
  }

  ghost predicate NotCondemned(s: State, c: Copy) {
    forall q :: q in s.sweeps && s.sweeps[q].node == c.node ==> c.id !in s.sweeps[q].doomed
  }

  /** A move whose source is still the manifest in force. */
  predicate Current(objects: map<Key, Versioned>, mv: Move) {
    mv.read.key in objects && objects[mv.read.key].rev == mv.read.rev
  }

  ghost predicate RingsAgree(s: State, p: Sweep, to: Key, ring: map<Key, seq<Node>>) {
    forall mv :: mv in s.moves && Current(s.objects, s.moves[mv])
                 && !Passed(p.cursor, s.moves[mv].read.key) && Passed(At(to), s.moves[mv].read.key)
      ==> Agrees(s.moves[mv], p.node, RingAnswer(ring, s.moves[mv].read.key))
  }

  /** Unrecorded writes commit within the grace period of beginning; a copy's source, and the parts a
      completion read, are still there when it commits, and the source stays until the sweeps that
      need it have read it; a sweep's own ring agrees with the mover's for the length of a move; and
      a push for a move does not land between a sweep's look at that very file and its removal. */
  ghost predicate Proviso(s: State, a: Action) {
    match a
    case Commit(w, ToObject(k), m) => InTime(s, w, m) && Unowed(s, k)
    case Commit(w, ToPart(_, _), m) => InTime(s, w, m)
    case Delete(k) => Unowed(s, k)
    case CopyObject(source, to) => StillThere(s, source) && Unowed(s, to)
    case Complete(read, picks, key) => PartsStillThere(s, read, picks) && Unowed(s, key)
    case MoveStore(mv, i, ch) =>
      mv in s.moves && i < |s.moves[mv].want| ==> NotCondemned(s, Delivery(s.moves[mv], i, ch))
    case MoveCommit(mv) => mv in s.moves ==> Unowed(s, s.moves[mv].read.key)
    case SweepObjectPage(q, to, ring) => q in s.sweeps ==> RingsAgree(s, s.sweeps[q], to, ring)
    case _ => true
  }

  ghost predicate Run(s: State, actions: seq<Action>)
    decreases |actions|
  {
    actions == [] || (Enabled(s, actions[0]) && Run(Apply(s, actions[0]), actions[1..]))
  }

  /** A run in which every step also meets its proviso. */
  ghost predicate SoundRun(s: State, actions: seq<Action>)
    decreases |actions|
  {
    actions == [] || (Enabled(s, actions[0]) && Proviso(s, actions[0]) && SoundRun(Apply(s, actions[0]), actions[1..]))
  }

  ghost function Final(s: State, actions: seq<Action>): State
    requires Run(s, actions)
    decreases |actions|
  {
    if actions == [] then s else Final(Apply(s, actions[0]), actions[1..])
  }
}
