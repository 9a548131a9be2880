/** What becomes of the records of writes: one stands for as long as the sweeps know its coordinator, and goes
    once a sweep that knows the membership finds its coordinator gone. */
module ProtocolRecords {
  import opened Basics
  import opened KeyOrder
  import opened Protocol

  // Sweeps drop only records of writes that have begun

  ghost predicate Known(s: State) {
    && s.records.Keys <= s.began.Keys
    && forall q :: q in s.sweeps ==> s.sweeps[q].toDrop <= s.began.Keys
  }

  /** A step of a sweep, or of the records. */
  predicate OfRecords(a: Action) {
    a.Begin? || a.DropRecord? || a.SweepStart? || a.SweepRecords? || a.SweepDrop? || a.SweepEnd?
  }

  /** A step of a sweep past its records. */
  predicate OfScan(a: Action) {
    || a.SweepScanParts? || a.SweepPartPage? || a.SweepScanObjects? || a.SweepObjectPage?
    || a.SweepScanDisk? || a.SweepLook? || a.SweepRemove?
  }

  /** Neither the records, the writes begun nor what sweeps are to drop have changed, and no sweep has gone past
      its records but for one that had none left to drop. */
  ghost predicate Alone(s: State, t: State) {
    && t.records == s.records && t.began == s.began && t.sweeps.Keys == s.sweeps.Keys
    && forall q :: q in s.sweeps ==>
         && t.sweeps[q].toDrop == s.sweeps[q].toDrop
         && (t.sweeps[q].phase == s.sweeps[q].phase
             || (s.sweeps[q].phase != Records && t.sweeps[q].phase != Records && t.sweeps[q].toDrop == {})
             || (s.sweeps[q].phase != Records && s.sweeps[q].phase != Dropping
                 && t.sweeps[q].phase != Records && t.sweeps[q].phase != Dropping))
  }

  lemma OneSweepAlone(s: State, q: SweepId, p: Sweep)
    requires q in s.sweeps && p.toDrop == s.sweeps[q].toDrop && s.sweeps[q].phase != Records
    requires p.phase == s.sweeps[q].phase || p.toDrop == {} || s.sweeps[q].phase != Dropping
    requires p.phase == s.sweeps[q].phase || (p.phase != Records && p.phase != Dropping)
    ensures Alone(s, Later(WithSweep(s, q, p)))
  {
  }

  lemma ScanAlone(s: State, a: Action)
    requires Enabled(s, a) && OfScan(a)
    ensures Alone(s, Apply(s, a))
  {
    match a
    case SweepScanParts(q) => OneSweepAlone(s, q, s.sweeps[q].(phase := Parts, cursor := Start));
    case SweepPartPage(q, to) => OneSweepAlone(s, q, PartPage(s, s.sweeps[q], to));
    case SweepScanObjects(q) => OneSweepAlone(s, q, s.sweeps[q].(phase := Objects, cursor := Start));
    case SweepObjectPage(q, to, ring) => OneSweepAlone(s, q, ObjectPage(s, s.sweeps[q], to, ring));
    case SweepScanDisk(q) => OneSweepAlone(s, q, s.sweeps[q].(phase := Removing));
    case SweepLook(q, id) => OneSweepAlone(s, q, s.sweeps[q].(doomed := s.sweeps[q].doomed + {id}));
    case SweepRemove(q, id) =>
      OneSweepAlone(Taken(s, Copy(s.sweeps[q].node, id)), q, s.sweeps[q].(doomed := s.sweeps[q].doomed - {id}));
  }

  lemma WriteAlone(s: State, a: Action)
    requires Enabled(s, a) && (a.Tick? || a.Store? || a.Lose? || a.Delete?)
    ensures Alone(s, Apply(s, a))
  {
  }

  lemma CommitAlone(s: State, w: WriteId, target: Target, m: Manifest)
    requires Enabled(s, Commit(w, target, m))
    ensures Alone(s, Apply(s, Commit(w, target, m)))
  {
    match target
    case ToObject(k) => assert Apply(s, Commit(w, target, m)) == Later(PutObject(s, k, m));
    case ToPart(k, upload) => assert Apply(s, Commit(w, target, m)) == Later(PutPart(s, k, PartEntry(upload, m)));
  }

  lemma EtcdAlone(s: State, a: Action)
    requires Enabled(s, a) && (a.CreateUpload? || a.DeleteUpload? || a.ReadObject? || a.ReadParts?)
    ensures Alone(s, Apply(s, a))
  {
  }

  lemma HandoverAlone(s: State, a: Action)
    requires Enabled(s, a) && (a.CopyObject? || a.Complete?)
    ensures Alone(s, Apply(s, a))
  {
  }

  lemma MoveAlone(s: State, a: Action)
    requires Enabled(s, a) && (a.MoveStart? || a.MoveStore? || a.MoveCommit? || a.MoveEnd?)
    ensures Alone(s, Apply(s, a))
  {
  }

  /** Other steps leave the records alone. */
  lemma RecordsAlone(s: State, a: Action)
    requires Enabled(s, a) && !OfRecords(a)
    ensures Alone(s, Apply(s, a))
  {
    if OfScan(a) {
      ScanAlone(s, a);
    } else if a.Tick? || a.Store? || a.Lose? || a.Delete? {
      WriteAlone(s, a);
    } else if a.Commit? {
      CommitAlone(s, a.w, a.target, a.m);
    } else if a.CreateUpload? || a.DeleteUpload? || a.ReadObject? || a.ReadParts? {
      EtcdAlone(s, a);
    } else if a.CopyObject? || a.Complete? {
      HandoverAlone(s, a);
    } else {
      MoveAlone(s, a);
    }
  }

  lemma KnownStep(s: State, a: Action)
    requires Known(s) && Enabled(s, a)
    ensures Known(Apply(s, a))
  {
    if !OfRecords(a) { RecordsAlone(s, a); }
  }

  lemma {:induction false} KnownThroughout(s: State, actions: seq<Action>)
    requires Known(s) && Run(s, actions)
    ensures Known(Final(s, actions))
    decreases |actions|
  {
    if actions != [] {
      KnownStep(s, actions[0]);
      KnownThroughout(Apply(s, actions[0]), actions[1..]);
    }
  }

  // A living write keeps its record

  /** A step that does not drop the record of `w` itself, and, if a sweep reads the records in it, reads them
      with a view that is empty or knows `n`. */
  predicate Spares(a: Action, w: WriteId, n: Node) {
    && a != DropRecord(w)
    && (a.SweepRecords? && a.members != {} ==> n in a.members)
  }

  /** The record of `w` stands, and no sweep is about to drop it. */
  ghost predicate Stands(s: State, w: WriteId, n: Node) {
    && w in s.began && w in s.records && s.records[w] == n
    && forall q :: q in s.sweeps ==> w !in s.sweeps[q].toDrop
  }

  lemma StandsStep(s: State, a: Action, w: WriteId, n: Node)
    requires Stands(s, w, n) && Enabled(s, a) && Spares(a, w, n)
    ensures Stands(Apply(s, a), w, n) && Apply(s, a).began[w] == s.began[w]
  {
    if OfRecords(a) { StandsRecords(s, a, w, n); } else { RecordsAlone(s, a); }
  }

  lemma StandsRecords(s: State, a: Action, w: WriteId, n: Node)
    requires Stands(s, w, n) && Enabled(s, a) && Spares(a, w, n) && OfRecords(a)
    ensures Stands(Apply(s, a), w, n) && Apply(s, a).began[w] == s.began[w]
  {
  }

  lemma {:induction false} StandsThroughout(s: State, actions: seq<Action>, w: WriteId, n: Node)
    requires Stands(s, w, n) && Run(s, actions) && forall a :: a in actions ==> Spares(a, w, n)
    ensures Stands(Final(s, actions), w, n) && Final(s, actions).began[w] == s.began[w]
    decreases |actions|
  {
    if actions != [] {
      assert actions[0] in actions;
      StandsStep(s, actions[0], w, n);
      StandsThroughout(Apply(s, actions[0]), actions[1..], w, n);
    }
  }

  /** A write that has begun with a record, and whose coordinator is in every known view that a sweep has used
      since, still has it unless it was dropped by hand, whatever else has happened; so it may commit as soon as
      its chunks are stored. */
  lemma LivingWritesKeepRecords(s: State, before: seq<Action>, w: WriteId, n: Node, after: seq<Action>)
    requires Init(s) && Run(s, before) && Enabled(Final(s, before), Begin(w, n, true))
    requires Run(Apply(Final(s, before), Begin(w, n, true)), after)
    requires forall a :: a in after ==>
               a != DropRecord(w) && (a.SweepRecords? ==> a.members == {} || n in a.members)
    ensures var t := Final(Apply(Final(s, before), Begin(w, n, true)), after);
            && w in t.records && t.records[w] == n
            && forall target: Target, m: Manifest ::
                 && (forall ch :: ch in m.chunks ==> ch.write == w) && WellPlaced(m)
                 && (target.ToPart? ==> target.upload in t.uploads)
                 && (forall ch :: ch in m.chunks ==>
                       match m.coding
                       case Replicated => |PositionsIn(m, ch, t.stored)| >= t.quorum
                       case Coded(data, _) => |PositionsIn(m, ch, t.stored)| > data)
                 ==> Enabled(t, Commit(w, target, m))
  {
    KnownThroughout(s, before);
    var begun := Apply(Final(s, before), Begin(w, n, true));
    assert Stands(begun, w, n);
    StandsThroughout(begun, after, w, n);
  }

  // A dead write's record goes

  /** Of the writes in `begun`, those recorded whose coordinator is outside the view of sweep `q` are still to be
      dropped by it. */
  ghost predicate Facing(t: State, q: SweepId, members: set<Node>, begun: set<WriteId>) {
    && q in t.sweeps && t.sweeps[q].phase != Records && (t.sweeps[q].phase != Dropping ==> t.sweeps[q].toDrop == {})
    && begun <= t.began.Keys
    && forall w :: w in t.records && t.records[w] !in members && w in begun ==> w in t.sweeps[q].toDrop
  }

  lemma FacingStep(s: State, a: Action, q: SweepId, members: set<Node>, begun: set<WriteId>)
    requires Facing(s, q, members, begun) && Enabled(s, a) && a != SweepEnd(q)
    ensures Facing(Apply(s, a), q, members, begun)
  {
    if OfRecords(a) { FacingRecords(s, a, q, members, begun); } else { RecordsAlone(s, a); }
  }

  lemma FacingRecords(s: State, a: Action, q: SweepId, members: set<Node>, begun: set<WriteId>)
    requires Facing(s, q, members, begun) && Enabled(s, a) && a != SweepEnd(q) && OfRecords(a)
    ensures Facing(Apply(s, a), q, members, begun)
  {
  }

  lemma {:induction false} FacingThroughout(s: State, actions: seq<Action>, q: SweepId, members: set<Node>,
                                            begun: set<WriteId>)
    requires Facing(s, q, members, begun) && Run(s, actions) && SweepEnd(q) !in actions
    ensures Facing(Final(s, actions), q, members, begun)
    decreases |actions|
  {
    if actions != [] {
      assert actions[0] in actions;
      FacingStep(s, actions[0], q, members, begun);
      FacingThroughout(Apply(s, actions[0]), actions[1..], q, members, begun);
    }
  }

  /** Once a sweep that read the records with a known membership has gone on to the parts, no record stands whose
      coordinator was outside that view, unless the write has begun since. */
  lemma DeadRecordsGo(s: State, q: SweepId, members: set<Node>, actions: seq<Action>, w: WriteId)
    requires Enabled(s, SweepRecords(q, members)) && members != {}
    requires Run(Apply(s, SweepRecords(q, members)), actions) && SweepEnd(q) !in actions
    ensures var t := Final(Apply(s, SweepRecords(q, members)), actions);
            && q in t.sweeps
            && (t.sweeps[q].phase != Dropping && w in t.records && w in s.began ==> t.records[w] in members)
  {
    var read := Apply(s, SweepRecords(q, members));
    assert Facing(read, q, members, s.began.Keys);
    FacingThroughout(read, actions, q, members, s.began.Keys);
  }
}
