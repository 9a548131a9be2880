/** What the invariant means for whole runs. */
module ProtocolTheorems {
  import opened Basics
  import opened KeyOrder
  import opened Protocol
  import opened ProtocolInvariant
  import opened ProtocolSteps

  lemma WriteStep(s: State, a: Action)
    requires Inv(s) && Enabled(s, a) && (a.Tick? || a.Begin? || a.Store? || a.Lose?)
    ensures Inv(Apply(s, a))
  {
    match a
    case Tick(ticks) => TickKeeps(s, ticks); LaterKeeps(Effect(s, a));
    case Begin(w, coordinator, recorded) => BeginKeeps(s, w, coordinator, recorded);
    case Store(c) => StoreKeeps(s, c);
    case Lose(c) => LoseKeeps(s, c); LaterKeeps(Effect(s, a));
  }

  lemma EtcdStep(s: State, a: Action)
    requires Inv(s) && Enabled(s, a)
             && (a.DropRecord? || a.CreateUpload? || a.DeleteUpload? || a.ReadObject? || a.ReadParts?)
    ensures Inv(Apply(s, a))
  {
    match a {
      case DropRecord(w) => RecordDroppedKeeps(s, w);
      case CreateUpload(u) => CreateUploadKeeps(s, u);
      case DeleteUpload(u) => DeleteUploadKeeps(s, u);
      case ReadObject(k) => ReadObjectKeeps(s, k);
      case ReadParts(u) => ReadPartsKeeps(s, u);
    }
    LaterKeeps(Effect(s, a));
  }

  lemma CommitStep(s: State, a: Action)
    requires Inv(s) && Enabled(s, a) && Proviso(s, a) && (a.Commit? || a.Delete?)
    ensures Inv(Apply(s, a))
  {
    match a {
      case Commit(w, ToObject(k), m) => CommitObjectKeeps(s, w, k, m);
      case Commit(w, ToPart(k, upload), m) => CommitPartKeeps(s, w, k, upload, m);
      case Delete(k) => DeleteKeeps(s, k);
    }
    LaterKeeps(Effect(s, a));
  }

  lemma HandoverStep(s: State, a: Action)
    requires Inv(s) && Enabled(s, a) && Proviso(s, a) && (a.CopyObject? || a.Complete?)
    ensures Inv(Apply(s, a))
  {
    match a {
      case CopyObject(source, to) => CopyKeeps(s, source, to);
      case Complete(read, picks, key) => CompleteKeeps(s, read, picks, key);
    }
    LaterKeeps(Effect(s, a));
  }

  lemma MoveStep(s: State, a: Action)
    requires Inv(s) && Enabled(s, a) && Proviso(s, a) && (a.MoveStart? || a.MoveCommit?)
    ensures Inv(Apply(s, a))
  {
    match a {
      case MoveStart(mv, read, want) => MoveStartKeeps(s, mv, read, want);
      case MoveCommit(mv) => MoveCommitKeeps(s, mv);
    }
    LaterKeeps(Effect(s, a));
  }

  lemma EndStep(s: State, a: Action)
    requires Inv(s) && Enabled(s, a) && (a.MoveEnd? || a.SweepEnd?)
    ensures Inv(Apply(s, a))
  {
    match a {
      case MoveEnd(mv) => MoveEndKeeps(s, mv);
      case SweepEnd(q) => SweepEndKeeps(s, q);
    }
    LaterKeeps(Effect(s, a));
  }

  lemma DeliverStep(s: State, mv: MoveId, i: nat, ch: ChunkId)
    requires Inv(s) && Enabled(s, MoveStore(mv, i, ch)) && Proviso(s, MoveStore(mv, i, ch))
    ensures Inv(Apply(s, MoveStore(mv, i, ch)))
  {
    MoveStoreKeeps(s, mv, Delivery(s.moves[mv], i, ch));
  }

  lemma RecordsStep(s: State, a: Action)
    requires Inv(s) && Enabled(s, a) && (a.SweepStart? || a.SweepRecords? || a.SweepDrop?)
    ensures Inv(Apply(s, a))
  {
    match a
    case SweepStart(q, node, slice) => SweepStartKeeps(s, q, node, slice);
    case SweepRecords(q, members) => SweepRecordsKeeps(s, q, members);
    case SweepDrop(q, w) => SweepDropKeeps(s, q, w);
  }

  lemma ScanStep(s: State, a: Action)
    requires Inv(s) && Enabled(s, a) && (a.SweepScanParts? || a.SweepScanObjects?)
    ensures Inv(Apply(s, a))
  {
    match a
    case SweepScanParts(q) => SweepScanPartsKeeps(s, q);
    case SweepScanObjects(q) => SweepScanObjectsKeeps(s, q);
  }

  lemma DiskStep(s: State, q: SweepId)
    requires Inv(s) && Enabled(s, SweepScanDisk(q))
    ensures Inv(Apply(s, SweepScanDisk(q)))
  {
    SweepScanDiskKeeps(s, q);
  }

  lemma PageStep(s: State, a: Action)
    requires Inv(s) && Enabled(s, a) && Proviso(s, a) && (a.SweepPartPage? || a.SweepObjectPage?)
    ensures Inv(Apply(s, a))
  {
    match a
    case SweepPartPage(q, to) => SweepPartPageKeeps(s, q, to);
    case SweepObjectPage(q, to, ring) => SweepObjectPageKeeps(s, q, to, ring);
  }

  lemma LookStep(s: State, q: SweepId, id: Id)
    requires Inv(s) && Enabled(s, SweepLook(q, id))
    ensures Inv(Apply(s, SweepLook(q, id)))
  {
    SweepLookKeeps(s, q, id);
  }

  lemma RemoveStep(s: State, q: SweepId, id: Id)
    requires Inv(s) && Enabled(s, SweepRemove(q, id))
    ensures Inv(Apply(s, SweepRemove(q, id)))
  {
    SweepRemoveKeeps(s, q, id);
  }

  /** The invariant is inductive. */
  lemma StepKeeps(s: State, a: Action)
    requires Inv(s) && Enabled(s, a) && Proviso(s, a)
    ensures Inv(Apply(s, a))
  {
    if a.Tick? || a.Begin? || a.Store? || a.Lose? {
      WriteStep(s, a);
    } else if a.DropRecord? || a.CreateUpload? || a.DeleteUpload? || a.ReadObject? || a.ReadParts? {
      EtcdStep(s, a);
    } else if a.Commit? || a.Delete? {
      CommitStep(s, a);
    } else if a.CopyObject? || a.Complete? {
      HandoverStep(s, a);
    } else if a.MoveStart? || a.MoveCommit? {
      MoveStep(s, a);
    } else if a.MoveEnd? || a.SweepEnd? {
      EndStep(s, a);
    } else if a.MoveStore? {
      DeliverStep(s, a.mv, a.i, a.ch);
    } else if a.SweepStart? || a.SweepRecords? || a.SweepDrop? {
      RecordsStep(s, a);
    } else if a.SweepScanParts? || a.SweepScanObjects? {
      ScanStep(s, a);
    } else if a.SweepScanDisk? {
      DiskStep(s, a.q);
    } else if a.SweepPartPage? || a.SweepObjectPage? {
      PageStep(s, a);
    } else if a.SweepLook? {
      LookStep(s, a.q, a.id);
    } else {
      RemoveStep(s, a.q, a.id);
    }
  }

  lemma {:induction false} RunKeeps(s: State, actions: seq<Action>)
    requires Inv(s) && SoundRun(s, actions)
    ensures Run(s, actions) && Inv(Final(s, actions))
    decreases |actions|
  {
    if actions != [] {
      StepKeeps(s, actions[0]);
      RunKeeps(Apply(s, actions[0]), actions[1..]);
    }
  }

  /** In every run that meets the provisos, whatever the interleaving of writes, overwrites, deletes,
      completions, copies, moves, record drops under any view of the membership, disk losses and
      sweeps of every node, no committed manifest names a copy that a sweep has taken. */
  lemma SweepsTakeOnlyGarbage(s: State, actions: seq<Action>)
    requires Init(s) && SoundRun(s, actions)
    ensures Run(s, actions)
    ensures forall k, c :: k in Final(s, actions).objects && Names(Final(s, actions).objects[k].manifest, c)
              ==> c !in Final(s, actions).swept
    ensures forall k, c :: k in Final(s, actions).parts && Names(Final(s, actions).parts[k].manifest, c)
              ==> c !in Final(s, actions).swept
  {
    RunKeeps(s, actions);
  }

  /** A write whose record stands has lost nothing to a sweep, so what it commits later is whole. */
  lemma RecordsProtect(s: State, actions: seq<Action>)
    requires Init(s) && SoundRun(s, actions)
    ensures Run(s, actions)
    ensures forall c :: c in Final(s, actions).swept ==> c.id.chunk.write !in Final(s, actions).records
  {
    RunKeeps(s, actions);
  }

  /** Every committed object keeps, at its named positions, as many stored copies or shards as its
      acknowledgement required, less only those that disks themselves have lost. */
  lemma AcknowledgedStaysDurable(s: State, actions: seq<Action>, k: Key, ch: ChunkId)
    requires Init(s) && SoundRun(s, actions)
    ensures Run(s, actions)
    ensures var t := Final(s, actions);
            k in t.objects && ch in t.objects[k].manifest.chunks ==>
              |PositionsIn(t.objects[k].manifest, ch, t.disks.Keys + t.lost)| >= Needed(t.quorum, t.objects[k].manifest)
  {
    RunKeeps(s, actions);
    var t := Final(s, actions);
    if k in t.objects {
      assert EnoughOf(t.objects[k].manifest, t.disks.Keys + t.lost, t.quorum);
    }
  }

  /** No part outlives its upload, so no sweep keeps a part's chunks for ever. */
  lemma NoOrphanParts(s: State, actions: seq<Action>)
    requires Init(s) && SoundRun(s, actions)
    ensures Run(s, actions)
    ensures forall k :: k in Final(s, actions).parts ==> Final(s, actions).parts[k].upload in Final(s, actions).uploads
  {
    RunKeeps(s, actions);
  }

  /** A step of recorded writes and part uploads, overwrites, deletes, record drops, losses or sweeps. */
  predicate PlainAction(a: Action) {
    !a.CopyObject? && !a.Complete? && !a.MoveStart? && (a.Begin? ==> a.recorded)
  }

  ghost predicate Plain(s: State) {
    && s.moves == map[]
    && (forall w :: w in s.began ==> s.began[w].recorded)
    && (forall q :: q in s.sweeps ==> s.sweeps[q].owed == {})
  }

  // What steps leave alone

  /** A step that loses nothing by itself, and keeps plain states plain. */
  ghost predicate Tame(s: State, a: Action)
    requires Enabled(s, a)
  {
    && (s.lost == {} && !a.Lose? ==> Apply(s, a).lost == {})
    && (Plain(s) && PlainAction(a) ==> Plain(Apply(s, a)))
  }

  lemma SweepKeptPlain(s: State, q: SweepId, p: Sweep)
    requires q in s.sweeps ==> p.owed == s.sweeps[q].owed
    requires q !in s.sweeps ==> p.owed == {}
    ensures Later(WithSweep(s, q, p)).lost == s.lost && (Plain(s) ==> Plain(Later(WithSweep(s, q, p))))
  {}

  lemma ScanIsTame(s: State, a: Action)
    requires Enabled(s, a) && (a.SweepScanParts? || a.SweepScanObjects? || a.SweepScanDisk?)
    ensures Tame(s, a)
  {
    match a
    case SweepScanParts(q) => SweepKeptPlain(s, q, s.sweeps[q].(phase := Parts, cursor := Start));
    case SweepScanObjects(q) => SweepKeptPlain(s, q, s.sweeps[q].(phase := Objects, cursor := Start));
    case SweepScanDisk(q) => SweepKeptPlain(s, q, s.sweeps[q].(phase := Removing));
  }

  lemma PageIsTame(s: State, a: Action)
    requires Enabled(s, a) && (a.SweepPartPage? || a.SweepObjectPage?)
    ensures Tame(s, a)
  {
    match a
    case SweepPartPage(q, to) => SweepKeptPlain(s, q, PartPage(s, s.sweeps[q], to));
    case SweepObjectPage(q, to, ring) => SweepKeptPlain(s, q, ObjectPage(s, s.sweeps[q], to, ring));
  }

  lemma RecordsAreTame(s: State, a: Action)
    requires Enabled(s, a) && (a.SweepStart? || a.SweepRecords? || a.SweepDrop?)
    ensures Tame(s, a)
  {
    match a
    case SweepStart(q, node, slice) => SweepKeptPlain(s, q, NewSweep(s, node, slice));
    case SweepRecords(q, members) => SweepKeptPlain(s, q, WithRecords(s.sweeps[q], s.records, members));
    case SweepDrop(q, w) => SweepKeptPlain(RecordDropped(s, w), q, s.sweeps[q].(toDrop := s.sweeps[q].toDrop - {w}));
  }

  lemma LookIsTame(s: State, q: SweepId, id: Id)
    requires Enabled(s, SweepLook(q, id))
    ensures Tame(s, SweepLook(q, id))
  {
    SweepKeptPlain(s, q, s.sweeps[q].(doomed := s.sweeps[q].doomed + {id}));
  }

  lemma RemoveIsTame(s: State, q: SweepId, id: Id)
    requires Enabled(s, SweepRemove(q, id))
    ensures Tame(s, SweepRemove(q, id))
  {
    SweepKeptPlain(Taken(s, Copy(s.sweeps[q].node, id)), q, s.sweeps[q].(doomed := s.sweeps[q].doomed - {id}));
  }

  /** Nothing that matters to a plain state has changed, or less of it is left. */
  lemma AlikePlain(s: State, t: State)
    requires t.began == s.began && t.lost == s.lost
    requires t.moves == s.moves || t.moves == map[]
    requires forall q :: q in t.sweeps ==> q in s.sweeps && t.sweeps[q] == s.sweeps[q]
    ensures Later(t).lost == s.lost && (Plain(s) ==> Plain(Later(t)))
  {}

  lemma SweepEndIsTame(s: State, q: SweepId)
    requires Enabled(s, SweepEnd(q))
    ensures Tame(s, SweepEnd(q))
  {
    AlikePlain(s, s.(sweeps := s.sweeps - {q}));
  }

  lemma MoveEndIsTame(s: State, mv: MoveId)
    requires Enabled(s, MoveEnd(mv))
    ensures Tame(s, MoveEnd(mv))
  {
    assert Plain(s) ==> MoveEnded(s, mv).moves == map[];
  }

  lemma MoveIsTame(s: State, a: Action)
    requires Enabled(s, a) && (a.MoveStart? || a.MoveStore? || a.MoveCommit?)
    ensures Tame(s, a)
  {}

  lemma TickIsTame(s: State, ticks: nat)
    requires Enabled(s, Tick(ticks))
    ensures Tame(s, Tick(ticks))
  {
    assert Apply(s, Tick(ticks)) == s.(clock := s.clock + ticks + 1);
  }

  lemma BeginIsTame(s: State, w: WriteId, coordinator: Node, recorded: bool)
    requires Enabled(s, Begin(w, coordinator, recorded))
    ensures Tame(s, Begin(w, coordinator, recorded))
  {}

  lemma StoreIsTame(s: State, c: Copy)
    requires Enabled(s, Store(c))
    ensures Tame(s, Store(c))
  {}

  lemma LoseIsTame(s: State, c: Copy)
    requires Enabled(s, Lose(c))
    ensures Tame(s, Lose(c))
  {}

  lemma EtcdIsTame(s: State, a: Action)
    requires Enabled(s, a) && (a.DropRecord? || a.CreateUpload? || a.DeleteUpload? || a.ReadObject? || a.ReadParts?)
    ensures Tame(s, a)
  {
    AlikePlain(s, Effect(s, a));
  }

  lemma CommitIsTame(s: State, w: WriteId, target: Target, m: Manifest)
    requires Enabled(s, Commit(w, target, m))
    ensures Tame(s, Commit(w, target, m))
  {
    match target
    case ToObject(k) => AlikePlain(s, PutObject(s, k, m));
    case ToPart(k, upload) => AlikePlain(s, PutPart(s, k, PartEntry(upload, m)));
  }

  lemma ReplaceIsTame(s: State, a: Action)
    requires Enabled(s, a) && (a.Delete? || a.Complete?)
    ensures Tame(s, a)
  {
    AlikePlain(s, Effect(s, a));
  }

  lemma CopyIsTame(s: State, source: ObjectRead, to: Key)
    requires Enabled(s, CopyObject(source, to))
    ensures Tame(s, CopyObject(source, to))
  {}

  lemma StepIsTame(s: State, a: Action)
    requires Enabled(s, a)
    ensures Tame(s, a)
  {
    if a.Tick? {
      TickIsTame(s, a.ticks);
    } else if a.Begin? {
      BeginIsTame(s, a.w, a.coordinator, a.recorded);
    } else if a.Store? {
      StoreIsTame(s, a.copy);
    } else if a.Lose? {
      LoseIsTame(s, a.copy);
    } else if a.DropRecord? || a.CreateUpload? || a.DeleteUpload? || a.ReadObject? || a.ReadParts? {
      EtcdIsTame(s, a);
    } else if a.Commit? {
      CommitIsTame(s, a.w, a.target, a.m);
    } else if a.Delete? || a.Complete? {
      ReplaceIsTame(s, a);
    } else if a.CopyObject? {
      CopyIsTame(s, a.source, a.to);
    } else if a.MoveStart? || a.MoveStore? || a.MoveCommit? {
      MoveIsTame(s, a);
    } else if a.MoveEnd? {
      MoveEndIsTame(s, a.mv);
    } else if a.SweepEnd? {
      SweepEndIsTame(s, a.q);
    } else if a.SweepStart? || a.SweepRecords? || a.SweepDrop? {
      RecordsAreTame(s, a);
    } else if a.SweepScanParts? || a.SweepScanObjects? || a.SweepScanDisk? {
      ScanIsTame(s, a);
    } else if a.SweepPartPage? || a.SweepObjectPage? {
      PageIsTame(s, a);
    } else if a.SweepLook? {
      LookIsTame(s, a.q, a.id);
    } else {
      RemoveIsTame(s, a.q, a.id);
    }
  }

  lemma {:induction false} OnlyLossLoses(s: State, actions: seq<Action>)
    requires Run(s, actions) && s.lost == {} && forall a :: a in actions ==> !a.Lose?
    ensures Final(s, actions).lost == {}
    decreases |actions|
  {
    if actions != [] {
      assert actions[0] in actions;
      StepIsTame(s, actions[0]);
      OnlyLossLoses(Apply(s, actions[0]), actions[1..]);
    }
  }

  /** Without disk loss, every chunk of every committed object has its quorum of real copies on the
      nodes its manifest names. */
  lemma AcknowledgedStaysHeld(s: State, actions: seq<Action>, k: Key, ch: ChunkId)
    requires Init(s) && SoundRun(s, actions) && forall a :: a in actions ==> !a.Lose?
    ensures Run(s, actions)
    ensures var t := Final(s, actions);
            k in t.objects && ch in t.objects[k].manifest.chunks ==>
              |PositionsIn(t.objects[k].manifest, ch, t.disks.Keys)| >= Needed(t.quorum, t.objects[k].manifest)
  {
    AcknowledgedStaysDurable(s, actions, k, ch);
    OnlyLossLoses(s, actions);
    var t := Final(s, actions);
    assert t.disks.Keys + t.lost == t.disks.Keys;
  }

  /** The copies left when one node and its disk are gone. */
  ghost function Without(copies: set<Copy>, down: Node): set<Copy> {
    set c | c in copies && c.node != down
  }

  lemma OnePositionLess(m: Manifest, ch: ChunkId, copies: set<Copy>, down: Node)
    requires WellPlaced(m)
    ensures |PositionsIn(m, ch, Without(copies, down))| >= |PositionsIn(m, ch, copies)| - 1
  {
    var all, left := PositionsIn(m, ch, copies), PositionsIn(m, ch, Without(copies, down));
    if i: nat :| i < |m.nodes| && m.nodes[i] == down {
      forall j | j in all - {i} ensures j in left { assert m.nodes[j] != down; }
      SubsetSize(all - {i}, left);
    } else {
      SubsetSize(all, left);
    }
  }

  /** And so the loss of any one node leaves every chunk all but one of its quorum of copies, or as many
      shards as reading it takes. */
  lemma AnyNodeCanBeLost(s: State, actions: seq<Action>, k: Key, ch: ChunkId, down: Node)
    requires Init(s) && SoundRun(s, actions) && forall a :: a in actions ==> !a.Lose?
    ensures Run(s, actions)
    ensures var t := Final(s, actions);
            k in t.objects && ch in t.objects[k].manifest.chunks ==>
              var m := t.objects[k].manifest;
              var left := |PositionsIn(m, ch, Without(t.disks.Keys, down))|;
              match m.coding
              case Replicated => left >= t.quorum - 1
              case Coded(data, parity) => parity > 0 ==> left >= data
  {
    AcknowledgedStaysHeld(s, actions, k, ch);
    RunKeeps(s, actions);
    var t := Final(s, actions);
    if k in t.objects {
      assert EnoughOf(t.objects[k].manifest, t.disks.Keys + t.lost, t.quorum);
      OnePositionLess(t.objects[k].manifest, ch, t.disks.Keys, down);
    }
  }

  // Recorded writes need no proviso

  lemma PlainNeedsNoProviso(s: State, a: Action)
    requires Plain(s) && Enabled(s, a) && PlainAction(a)
    ensures Proviso(s, a)
  {}

  lemma {:induction false} PlainRunIsSound(s: State, actions: seq<Action>)
    requires Plain(s) && Run(s, actions) && forall a :: a in actions ==> PlainAction(a)
    ensures SoundRun(s, actions)
    decreases |actions|
  {
    if actions != [] {
      assert actions[0] in actions;
      PlainNeedsNoProviso(s, actions[0]);
      StepIsTame(s, actions[0]);
      PlainRunIsSound(Apply(s, actions[0]), actions[1..]);
    }
  }

  /** With any grace, even none, and any views of the membership, even wrong ones, no run of recorded
      writes and sweeps ever leaves a committed manifest naming a copy that a sweep has taken. */
  lemma RecordedWritesAreSafe(s: State, actions: seq<Action>)
    requires Init(s) && Run(s, actions) && forall a :: a in actions ==> PlainAction(a)
    ensures var t := Final(s, actions);
            && (forall k, c :: k in t.objects && Names(t.objects[k].manifest, c) ==> c !in t.swept)
            && (forall k, c :: k in t.parts && Names(t.parts[k].manifest, c) ==> c !in t.swept)
            && (forall c :: c in t.swept ==> c.id.chunk.write !in t.records)
  {
    PlainRunIsSound(s, actions);
    SweepsTakeOnlyGarbage(s, actions);
    RecordsProtect(s, actions);
  }
}
