/** Each proviso is needed: a run in which the code does only what it may, exactly one step breaks one
    proviso, and a committed object ends up naming a copy that a sweep has taken. */
module LosingRuns {
  import opened Basics
  import opened KeyOrder
  import opened Protocol

  ghost predicate Loses(s: State) {
    exists k, c :: k in s.objects && Names(s.objects[k].manifest, c) && c in s.swept
  }

  /** A run up to `at`, with the actions that broke their provisos. */
  ghost predicate Reached(s0: State, actions: seq<Action>, at: State, broken: seq<Action>) {
    Run(s0, actions) && Final(s0, actions) == at && Broken(s0, actions) == broken
  }

  /** The action, if it breaks its proviso. */
  ghost function Breaks(s: State, a: Action): seq<Action> {
    if Proviso(s, a) then [] else [a]
  }

  ghost function Broken(s: State, actions: seq<Action>): seq<Action>
    requires Run(s, actions)
    decreases |actions|
  {
    if actions == [] then [] else Breaks(s, actions[0]) + Broken(Apply(s, actions[0]), actions[1..])
  }

  lemma {:induction false} RunSnoc(s: State, actions: seq<Action>, a: Action)
    requires Run(s, actions) && Enabled(Final(s, actions), a)
    ensures Run(s, actions + [a]) && Final(s, actions + [a]) == Apply(Final(s, actions), a)
    decreases |actions|
  {
    if actions == [] {
      assert ([] + [a])[1..] == [];
      assert Run(Apply(s, a), []);
    } else {
      assert (actions + [a])[0] == actions[0] && (actions + [a])[1..] == actions[1..] + [a];
      RunSnoc(Apply(s, actions[0]), actions[1..], a);
    }
  }

  lemma {:induction false} BrokenSnoc(s: State, actions: seq<Action>, a: Action)
    requires Run(s, actions) && Run(s, actions + [a])
    ensures Broken(s, actions + [a]) == Broken(s, actions) + Breaks(Final(s, actions), a)
    decreases |actions|
  {
    var longer := actions + [a];
    if actions == [] {
      assert longer[1..] == [] && Broken(s, longer) == Breaks(s, a) + [];
    } else {
      var next, rest := Apply(s, actions[0]), actions[1..];
      assert longer[0] == actions[0] && longer[1..] == rest + [a];
      BrokenSnoc(next, rest, a);
      Regroup(Breaks(s, actions[0]), Broken(next, rest), Breaks(Final(next, rest), a));
    }
  }

  lemma Regroup(a: seq<Action>, b: seq<Action>, c: seq<Action>)
    ensures a + b + c == a + (b + c)
  {
  }

  lemma Snoc(s: State, actions: seq<Action>, a: Action)
    requires Run(s, actions) && Enabled(Final(s, actions), a)
    ensures Run(s, actions + [a]) && Final(s, actions + [a]) == Apply(Final(s, actions), a)
    ensures Broken(s, actions + [a]) == Broken(s, actions) + Breaks(Final(s, actions), a)
  {
    RunSnoc(s, actions, a);
    BrokenSnoc(s, actions, a);
  }

  lemma Step(s0: State, actions: seq<Action>, at: State, broken: seq<Action>, a: Action)
    returns (longer: seq<Action>, next: State)
    requires Reached(s0, actions, at, broken) && Enabled(at, a) && Proviso(at, a)
    ensures longer == actions + [a] && next == Apply(at, a) && Reached(s0, longer, next, broken)
  {
    Snoc(s0, actions, a);
    longer, next := actions + [a], Apply(at, a);
  }

  lemma BreakingStep(s0: State, actions: seq<Action>, at: State, a: Action)
    returns (longer: seq<Action>, next: State)
    requires Reached(s0, actions, at, []) && Enabled(at, a) && !Proviso(at, a)
    ensures longer == actions + [a] && next == Apply(at, a) && Reached(s0, longer, next, [a])
  {
    Snoc(s0, actions, a);
    longer, next := actions + [a], Apply(at, a);
  }

  function Empty(grace: nat): (s: State) {
    State(map[], map[], {}, map[], 0, 0, grace, 1, map[], map[], map[], map[], {}, {}, {}, {}, {})
  }

  const W := "W"
  const CH := ChunkId(W, 0)
  const ID := Whole(CH)
  const ON_N := Copy("n", ID)
  const ONE_CHUNK := Manifest(["n"], [CH], Replicated)
  const K: Key := [98]
  const J: Key := [97]

  lemma OnePosition(copies: set<Copy>)
    requires ON_N in copies
    ensures |PositionsIn(ONE_CHUNK, CH, copies)| >= 1
  {
    assert 0 in PositionsIn(ONE_CHUNK, CH, copies);
  }

  /** The only sweep under way is of node n, in `phase`, at `cursor`, and has read no name and no record. */
  ghost predicate OneSweep(s: State, start: nat, phase: Phase, cursor: Cursor) {
    s.sweeps.Keys == {0} && s.sweeps[0].owed == {} && SweepIs(s, start, phase, cursor)
  }

  ghost predicate SweepIs(s: State, start: nat, phase: Phase, cursor: Cursor) {
    && 0 in s.sweeps
    && s.sweeps[0] == Sweep("n", 'W', start, phase, {}, {}, cursor, iset{}, {}, s.sweeps[0].owed)
  }

  lemma SweepBegins(s0: State, before: seq<Action>, s: State)
    returns (actions: seq<Action>, t: State)
    requires Reached(s0, before, s, []) && s.sweeps == map[]
    ensures Reached(s0, actions, t, []) && OneSweep(t, s.clock, Records, Start)
    ensures t == s.(clock := s.clock + 1, sweeps := t.sweeps)
  {
    actions, t := Step(s0, before, s, [], SweepStart(0, "n", 'W'));
  }

  lemma SweepReadsRecords(s0: State, before: seq<Action>, s: State)
    returns (actions: seq<Action>, t: State)
    requires Reached(s0, before, s, []) && s.sweeps == map[] && s.records == map[]
    ensures Reached(s0, actions, t, []) && OneSweep(t, s.clock, Dropping, Start)
    ensures t == s.(clock := s.clock + 2, sweeps := t.sweeps)
  {
    actions, t := SweepBegins(s0, before, s);
    assert Kept(s.records, {}) == {} && s.records.Keys - {} == {};
    actions, t := Step(s0, actions, t, [], SweepRecords(0, {}));
  }

  lemma SweepReachesParts(s0: State, before: seq<Action>, s: State)
    returns (actions: seq<Action>, t: State)
    requires Reached(s0, before, s, []) && s.sweeps == map[] && s.records == map[]
    ensures Reached(s0, actions, t, []) && OneSweep(t, s.clock, Parts, Start)
    ensures t == s.(clock := s.clock + 3, sweeps := t.sweeps)
  {
    actions, t := SweepReadsRecords(s0, before, s);
    actions, t := Step(s0, actions, t, [], SweepScanParts(0));
  }

  /** Where no upload has a part, the scan of the parts is over at once. */
  lemma SweepReachesObjects(s0: State, before: seq<Action>, s: State)
    returns (actions: seq<Action>, t: State)
    requires Reached(s0, before, s, []) && s.sweeps == map[] && s.records == map[] && s.parts == map[]
    ensures Reached(s0, actions, t, []) && OneSweep(t, s.clock, Objects, Start)
    ensures t == s.(clock := s.clock + 4, sweeps := t.sweeps)
  {
    actions, t := SweepReachesParts(s0, before, s);
    actions, t := Step(s0, actions, t, [], SweepScanObjects(0));
  }

  lemma ScanIsOver(s0: State, before: seq<Action>, s: State, broken: seq<Action>, start: nat, cursor: Cursor)
    returns (actions: seq<Action>, t: State)
    requires Reached(s0, before, s, broken) && SweepIs(s, start, Objects, cursor)
    requires forall k :: k in s.objects ==> Passed(cursor, k)
    ensures Reached(s0, actions, t, broken) && SweepIs(t, start, Removing, cursor) && t.sweeps.Keys == s.sweeps.Keys
    ensures t == s.(clock := s.clock + 1, sweeps := t.sweeps)
  {
    actions, t := Step(s0, before, s, broken, SweepScanDisk(0));
  }

  lemma SweepCondemns(s0: State, before: seq<Action>, s: State, broken: seq<Action>)
    returns (actions: seq<Action>, t: State)
    requires Reached(s0, before, s, broken) && InPhase(s, 0, Removing) && CanCondemn(s, s.sweeps[0], ID)
    ensures Reached(s0, actions, t, broken) && InPhase(t, 0, Removing) && t.sweeps.Keys == s.sweeps.Keys
    ensures ID in t.sweeps[0].doomed && t.sweeps[0].node == s.sweeps[0].node
    ensures t == s.(clock := s.clock + 1, sweeps := t.sweeps)
  {
    actions, t := Step(s0, before, s, broken, SweepLook(0, ID));
  }

  lemma SweepRemoves(s0: State, before: seq<Action>, s: State, broken: seq<Action>)
    returns (actions: seq<Action>, t: State)
    requires Reached(s0, before, s, broken) && InPhase(s, 0, Removing)
    requires s.sweeps[0].node == "n" && ID in s.sweeps[0].doomed && ON_N in s.disks
    ensures Reached(s0, actions, t, broken) && InPhase(t, 0, Removing) && t.sweeps.Keys == s.sweeps.Keys
    ensures t == s.(clock := s.clock + 1, disks := s.disks - {ON_N}, swept := s.swept + {ON_N}, sweeps := t.sweeps)
  {
    actions, t := Step(s0, before, s, broken, SweepRemove(0, ID));
  }

  /** A sweep with nothing left to scan that has seen no name for the chunk takes it. */
  lemma SweepTakes(s0: State, before: seq<Action>, s: State, broken: seq<Action>, start: nat, cursor: Cursor)
    returns (actions: seq<Action>, t: State)
    requires Reached(s0, before, s, broken) && SweepIs(s, start, Objects, cursor)
    requires forall k :: k in s.objects ==> Passed(cursor, k)
    requires ON_N in s.disks && s.disks[ON_N] + s.grace <= start
    ensures Reached(s0, actions, t, broken) && InPhase(t, 0, Removing) && t.sweeps.Keys == s.sweeps.Keys
    ensures t == s.(clock := s.clock + 3, disks := s.disks - {ON_N}, swept := s.swept + {ON_N}, sweeps := t.sweeps)
  {
    actions, t := ScanIsOver(s0, before, s, broken, start, cursor);
    actions, t := SweepCondemns(s0, actions, t, broken);
    actions, t := SweepRemoves(s0, actions, t, broken);
  }

  lemma SmallWriteStores(grace: nat) returns (actions: seq<Action>, s: State)
    ensures Reached(Empty(grace), actions, s, [])
    ensures s == Empty(grace).(clock := grace + 3, began := map[W := Begun(0, false)],
                               disks := map[ON_N := 1], stored := {ON_N})
  {
    var s0 := Empty(grace);
    actions, s := Step(s0, [], s0, [], Begin(W, "n", false));
    actions, s := Step(s0, actions, s, [], Store(ON_N));
    actions, s := Step(s0, actions, s, [], Tick(grace));
  }

  /** However long the grace period, an unrecorded write that commits after it is over can lose its
      chunk first. */
  lemma SlowSmallWriteLoses(grace: nat) returns (actions: seq<Action>, t: State)
    ensures Reached(Empty(grace), actions, t, [Commit(W, ToObject(K), ONE_CHUNK)]) && Loses(t)
  {
    var s0 := Empty(grace);
    actions, t := SmallWriteStores(grace);
    actions, t := SweepReachesObjects(s0, actions, t);
    actions, t := SweepTakes(s0, actions, t, [], grace + 3, Start);
    OnePosition(t.stored);
    actions, t := BreakingStep(s0, actions, t, Commit(W, ToObject(K), ONE_CHUNK));
    assert K in t.objects && Names(t.objects[K].manifest, ON_N) && ON_N in t.swept;
  }

  /** A recorded write of one chunk, stored on `c`. */
  lemma RecordedWriteStores(c: Copy) returns (actions: seq<Action>, s: State)
    requires c.id == ID
    ensures Reached(Empty(0), actions, s, [])
    ensures s == Empty(0).(clock := 2, began := map[W := Begun(0, true)], records := map[W := "n"],
                           disks := map[c := 1], stored := {c})
  {
    var s0 := Empty(0);
    actions, s := Step(s0, [], s0, [], Begin(W, "n", true));
    actions, s := Step(s0, actions, s, [], Store(c));
  }

  /** ... committed at K, its record cleared, and read back. */
  lemma ObjectStored(node: Node) returns (actions: seq<Action>, s: State)
    ensures var c, m := Copy(node, ID), Manifest([node], [CH], Replicated);
            && Reached(Empty(0), actions, s, [])
            && s == Empty(0).(clock := 5, rev := 1, began := map[W := Begun(0, true)], disks := map[c := 1],
                              stored := {c}, objects := map[K := Versioned(m, 1)], objectReads := {ObjectRead(K, m, 1)})
  {
    var s0, m := Empty(0), Manifest([node], [CH], Replicated);
    actions, s := RecordedWriteStores(Copy(node, ID));
    assert 0 in PositionsIn(m, CH, s.stored);
    actions, s := Step(s0, actions, s, [], Commit(W, ToObject(K), m));
    actions, s := Step(s0, actions, s, [], DropRecord(W));
    assert map[W := "n"] - {W} == map[];
    actions, s := Step(s0, actions, s, [], ReadObject(K));
  }

  // A copy made behind the cursor of a scan, whose source then goes

  const EMPTY_OBJECT := Manifest(["n"], [], Replicated)
  const SOURCE := ObjectRead(K, ONE_CHUNK, 1)

  lemma TwoObjects() returns (actions: seq<Action>, s: State)
    ensures Reached(Empty(0), actions, s, [])
    ensures s == Empty(0).(clock := 7, rev := 2, began := map[W := Begun(0, true), "V" := Begun(5, false)],
                           disks := map[ON_N := 1], stored := {ON_N}, objectReads := {SOURCE},
                           objects := map[K := Versioned(ONE_CHUNK, 1), J := Versioned(EMPTY_OBJECT, 2)])
  {
    var s0 := Empty(0);
    actions, s := ObjectStored("n");
    actions, s := Step(s0, actions, s, [], Begin("V", "n", false));
    actions, s := Step(s0, actions, s, [], Commit("V", ToObject(J), EMPTY_OBJECT));
  }

  lemma KeysApart()
    ensures Passed(At(J), J) && !Passed(At(J), K) && J != K
  {
    assert J[0] == 97 && K[0] == 98;
    assert !Less(K, J) && K != J;
  }

  lemma FirstPage(s0: State, before: seq<Action>, s: State, start: nat) returns (actions: seq<Action>, t: State)
    requires Reached(s0, before, s, []) && s.moves == map[] && OneSweep(s, start, Objects, Start)
    requires s.objects == map[K := Versioned(ONE_CHUNK, 1), J := Versioned(EMPTY_OBJECT, 2)]
    ensures Reached(s0, actions, t, []) && OneSweep(t, start, Objects, At(J))
    ensures t == s.(clock := s.clock + 1, sweeps := t.sweeps)
  {
    KeysApart();
    assert ObjectPage(s, s.sweeps[0], J, map[]).ref == iset{} by { FirstPageEmpty(s, start); }
    actions, t := Step(s0, before, s, [], SweepObjectPage(0, J, map[]));
  }

  lemma FirstPageEmpty(s: State, start: nat)
    requires OneSweep(s, start, Objects, Start)
    requires s.objects == map[K := Versioned(ONE_CHUNK, 1), J := Versioned(EMPTY_OBJECT, 2)]
    ensures ObjectPage(s, s.sweeps[0], J, map[]).ref == iset{}
  {
    KeysApart();
  }

  lemma CopyBehindCursor(s0: State, before: seq<Action>, s: State, start: nat) returns (actions: seq<Action>, t: State)
    requires Reached(s0, before, s, []) && SOURCE in s.objectReads && OneSweep(s, start, Objects, At(J))
    requires K in s.objects && s.objects[K] == Versioned(ONE_CHUNK, 1) && s.objects.Keys == {J, K}
    ensures Reached(s0, actions, t, []) && SweepIs(t, start, Objects, At(J)) && t.sweeps[0].owed == {K}
    ensures t == s.(clock := s.clock + 1, rev := s.rev + 1, objects := t.objects, sweeps := t.sweeps)
    ensures t.objects == s.objects[J := Versioned(ONE_CHUNK, s.rev + 1)] && t.sweeps.Keys == {0}
  {
    KeysApart();
    assert Unowed(s, J);
    actions, t := Step(s0, before, s, [], CopyObject(SOURCE, J));
  }

  lemma DeleteOwed(s0: State, before: seq<Action>, s: State, start: nat) returns (actions: seq<Action>, t: State)
    requires Reached(s0, before, s, []) && SweepIs(s, start, Objects, At(J)) && K in s.sweeps[0].owed
    requires s.objects.Keys == {J, K}
    ensures Reached(s0, actions, t, [Delete(K)]) && SweepIs(t, start, Objects, At(J))
    ensures t == s.(clock := s.clock + 1, objects := s.objects - {K})
  {
    KeysApart();
    assert !Unowed(s, K);
    actions, t := BreakingStep(s0, before, s, Delete(K));
  }

  /** With the object scan between two pages, copy a key it has not reached onto one it has passed,
      then delete the source: the sweep sees neither name. */
  lemma CopyThenDeleteLoses() returns (actions: seq<Action>, t: State)
    ensures Reached(Empty(0), actions, t, [Delete(K)]) && Loses(t)
  {
    var s0 := Empty(0);
    KeysApart();
    actions, t := TwoObjects();
    actions, t := SweepReachesObjects(s0, actions, t);
    actions, t := FirstPage(s0, actions, t, 7);
    actions, t := CopyBehindCursor(s0, actions, t, 7);
    actions, t := DeleteOwed(s0, actions, t, 7);
    actions, t := SweepTakes(s0, actions, t, [Delete(K)], 7, At(J));
    assert J in t.objects && Names(t.objects[J].manifest, ON_N) && ON_N in t.swept;
  }

  // The same copy, and a source that is replaced instead: by a write, a completion, another copy or a move

  const L: Key := [99]
  const HELD := map[K := Versioned(ONE_CHUNK, 1), J := Versioned(ONE_CHUNK, 3)]
  const BEGAN := map[W := Begun(0, true), "V" := Begun(5, false)]

  /** A sweep between two pages, and a copy made behind it of a source it has yet to reach. */
  ghost predicate CopyStands(s: State) {
    && s == Empty(0).(clock := 13, rev := 3, began := BEGAN, disks := map[ON_N := 1], stored := {ON_N},
                      objectReads := {SOURCE}, objects := HELD, sweeps := s.sweeps)
    && Owes(s)
  }

  ghost predicate Owes(s: State) {
    s.sweeps.Keys == {0} && SweepIs(s, 7, Objects, At(J)) && s.sweeps[0].owed == {K}
  }

  lemma CopyMade() returns (actions: seq<Action>, t: State)
    ensures Reached(Empty(0), actions, t, []) && CopyStands(t)
  {
    var s0 := Empty(0);
    KeysApart();
    actions, t := TwoObjects();
    actions, t := SweepReachesObjects(s0, actions, t);
    actions, t := FirstPage(s0, actions, t, 7);
    actions, t := CopyBehindCursor(s0, actions, t, 7);
    assert t.objects == HELD;
  }

  lemma StillOwed(s: State)
    requires Owes(s)
    ensures !Unowed(s, K) && J != K && K != L && Passed(At(J), J) && !Passed(At(J), K) && !Passed(At(J), L)
    ensures Passed(At(L), J) && Passed(At(L), K) && Passed(At(K), J)
  {
    KeysApart();
    assert L[0] == 99 && J[0] == 97 && K[0] == 98;
    assert !Less(L, J) && L != J;
  }

  /** The rest of the scan finds no name for the chunk, and the sweep takes it. */
  lemma RestOfScanTakes(s0: State, before: seq<Action>, s: State, broken: seq<Action>, to: Key)
    returns (actions: seq<Action>, t: State)
    requires Reached(s0, before, s, broken) && Owes(s) && s.moves == map[] && s.grace == 0
    requires to in s.objects && (to == K || to == L) && s.objects.Keys <= {J, K, L} && (to == K ==> L !in s.objects)
    requires J in s.objects && s.objects[J].manifest == ONE_CHUNK
    requires forall k :: k in s.objects && k != J ==> forall id :: !References(s.objects[k].manifest, [], "n", id)
    requires ON_N in s.disks && s.disks[ON_N] == 1
    ensures Reached(s0, actions, t, broken) && Loses(t)
  {
    StillOwed(s);
    actions, t := LastPage(s0, before, s, broken, to);
    actions, t := SweepTakes(s0, actions, t, broken, 7, At(to));
    assert J in t.objects && Names(t.objects[J].manifest, ON_N) && ON_N in t.swept;
  }

  lemma LastPage(s0: State, before: seq<Action>, s: State, broken: seq<Action>, to: Key)
    returns (actions: seq<Action>, t: State)
    requires Reached(s0, before, s, broken) && SweepIs(s, 7, Objects, At(J)) && s.moves == map[]
    requires to in s.objects && !Passed(At(J), to) && J in s.objects && Passed(At(J), J)
    requires forall k :: k in s.objects && k != J ==> forall id :: !References(s.objects[k].manifest, [], "n", id)
    ensures Reached(s0, actions, t, broken) && SweepIs(t, 7, Objects, At(to))
    ensures t == s.(clock := s.clock + 1, sweeps := t.sweeps)
  {
    PageEmpty(s, to);
    actions, t := Step(s0, before, s, broken, SweepObjectPage(0, to, map[]));
  }

  lemma PageEmpty(s: State, to: Key)
    requires SweepIs(s, 7, Objects, At(J)) && Passed(At(J), J)
    requires forall k :: k in s.objects && k != J ==> forall id :: !References(s.objects[k].manifest, [], "n", id)
    ensures ObjectPage(s, s.sweeps[0], to, map[]) == s.sweeps[0].(cursor := At(to))
  {
    assert ObjectPage(s, s.sweeps[0], to, map[]).ref == iset{};
  }

  lemma EmptyNamesNothing(id: Id)
    ensures !References(EMPTY_OBJECT, [], "n", id) && !References(Manifest(["m"], [CH], Replicated), [], "n", id)
  {
  }

  /** A write overwrites the source. */
  lemma OverwrittenSourceLoses() returns (actions: seq<Action>, t: State)
    ensures Reached(Empty(0), actions, t, [Commit("V", ToObject(K), EMPTY_OBJECT)]) && Loses(t)
  {
    var s0, broken := Empty(0), [Commit("V", ToObject(K), EMPTY_OBJECT)];
    actions, t := CopyMade();
    StillOwed(t);
    actions, t := BreakingStep(s0, actions, t, Commit("V", ToObject(K), EMPTY_OBJECT));
    forall id ensures !References(EMPTY_OBJECT, [], "n", id) { EmptyNamesNothing(id); }
    actions, t := RestOfScanTakes(s0, actions, t, broken, K);
  }

  /** A move takes the source's name off the node that the copy still names. */
  lemma MovedSourceLoses() returns (actions: seq<Action>, t: State)
    ensures Reached(Empty(0), actions, t, [MoveCommit(0)]) && Loses(t)
  {
    var s0 := Empty(0);
    actions, t := CopyMade();
    actions, t := SourceMoves(s0, actions, t);
    forall id ensures !References(Manifest(["m"], [CH], Replicated), [], "n", id) { EmptyNamesNothing(id); }
    actions, t := RestOfScanTakes(s0, actions, t, [MoveCommit(0)], K);
  }

  const MOVING := Move(SOURCE, ["m"], {})
  const ON_M := Copy("m", ID)

  lemma SourceMoves(s0: State, before: seq<Action>, s: State) returns (actions: seq<Action>, t: State)
    requires Reached(s0, before, s, []) && CopyStands(s)
    ensures Reached(s0, actions, t, [MoveCommit(0)]) && Owes(t) && t.moves == map[] && t.grace == 0
    ensures t.objects == HELD[K := Versioned(Manifest(["m"], [CH], Replicated), 4)]
    ensures ON_N in t.disks && t.disks[ON_N] == 1
  {
    actions, t := SourceDelivered(s0, before, s);
    StillOwed(t);
    OnlyToM();
    assert CanCommitMove(t, 0);
    actions, t := BreakingStep(s0, actions, t, MoveCommit(0));
  }

  lemma OnlyToM()
    ensures forall c :: MoveAdds(MOVING.(delivered := {ON_M}), c) ==> c == ON_M
  {
  }

  lemma SourceMoveBegins(s0: State, before: seq<Action>, s: State) returns (actions: seq<Action>, t: State)
    requires Reached(s0, before, s, []) && CopyStands(s)
    ensures Reached(s0, actions, t, []) && t == s.(clock := 14, moves := map[0 := MOVING])
  {
    actions, t := Step(s0, before, s, [], MoveStart(0, SOURCE, ["m"]));
    assert t.moves == map[0 := MOVING];
  }

  lemma SourceDelivered(s0: State, before: seq<Action>, s: State) returns (actions: seq<Action>, t: State)
    requires Reached(s0, before, s, []) && CopyStands(s)
    ensures Reached(s0, actions, t, []) && Owes(t)
    ensures t == s.(clock := 15, disks := map[ON_N := 1, ON_M := 14], stored := {ON_N, ON_M},
                    moves := map[0 := MOVING.(delivered := {ON_M})])
  {
    actions, t := SourceMoveBegins(s0, before, s);
    assert Delivery(MOVING, 0, CH) == ON_M && MoveAdds(MOVING, ON_M) && ON_M != ON_N;
    assert t.disks[ON_M := 14] == map[ON_N := 1, ON_M := 14] && t.stored + {ON_M} == {ON_N, ON_M};
    assert t.swept - {ON_M} == {} && t.lost - {ON_M} == {};
    assert MOVING.delivered + {ON_M} == {ON_M};
    assert t.moves[0 := MOVING.(delivered := {ON_M})] == map[0 := MOVING.(delivered := {ON_M})];
    actions, t := Step(s0, actions, t, [], MoveStore(0, 0, CH));
  }

  // The parts of an upload, or another object, put in the source's place

  const PART: Key := [112]
  const EMPTY_READ := PartsRead("u", map[PART := EMPTY_OBJECT])
  const OTHER := ObjectRead(L, EMPTY_OBJECT, 4)

  lemma EmptyPartStored(s0: State, before: seq<Action>, s: State) returns (actions: seq<Action>, t: State)
    requires Reached(s0, before, s, []) && CopyStands(s)
    ensures Reached(s0, actions, t, [])
    ensures t == s.(clock := 15, rev := 4, uploads := {"u"}, parts := map[PART := PartEntry("u", EMPTY_OBJECT)])
  {
    actions, t := Step(s0, before, s, [], CreateUpload("u"));
    assert t.uploads == {"u"};
    actions, t := Step(s0, actions, t, [], Commit("V", ToPart(PART, "u"), EMPTY_OBJECT));
    assert t.parts == map[PART := PartEntry("u", EMPTY_OBJECT)];
  }

  lemma ReadsEmptyPart(s: State)
    requires s.parts == map[PART := PartEntry("u", EMPTY_OBJECT)] && s.partReads == {}
    ensures PartsReadOf(s, "u") == s.(partReads := {EMPTY_READ})
  {
    assert (map k | k in s.parts && s.parts[k].upload == "u" :: s.parts[k].manifest) == EMPTY_READ.parts;
  }

  lemma EmptyPartRead(s0: State, before: seq<Action>, s: State) returns (actions: seq<Action>, t: State)
    requires Reached(s0, before, s, []) && CopyStands(s)
    ensures Reached(s0, actions, t, []) && Owes(t) && t.partReads == {EMPTY_READ}
    ensures t == s.(clock := 16, rev := 4, uploads := {"u"}, parts := map[PART := PartEntry("u", EMPTY_OBJECT)],
                    partReads := t.partReads)
  {
    actions, t := EmptyPartStored(s0, before, s);
    ReadsEmptyPart(t);
    actions, t := Step(s0, actions, t, [], ReadParts("u"));
  }

  lemma CompletedOverSource(s0: State, before: seq<Action>, s: State) returns (actions: seq<Action>, t: State)
    requires Reached(s0, before, s, []) && Owes(s) && EMPTY_READ in s.partReads && s.objects == HELD
    requires s.parts == map[PART := PartEntry("u", EMPTY_OBJECT)]
    ensures Reached(s0, actions, t, [Complete(EMPTY_READ, [PART], K)]) && Owes(t)
    ensures t == s.(clock := s.clock + 1, rev := s.rev + 1, objects := HELD[K := Versioned(EMPTY_OBJECT, s.rev + 1)])
  {
    StillOwed(s);
    EmptyAssembles();
    assert CanComplete(s, EMPTY_READ, [PART]);
    actions, t := BreakingStep(s0, before, s, Complete(EMPTY_READ, [PART], K));
  }

  lemma EmptyAssembles()
    ensures PART in EMPTY_READ.parts && SamePlacement(EMPTY_READ.parts, [PART])
    ensures Assembled(EMPTY_READ.parts, [PART]) == EMPTY_OBJECT
  {
    assert ChunksOf(EMPTY_READ.parts, [PART]) == [] + ChunksOf(EMPTY_READ.parts, []) == [];
  }

  /** A completion overwrites the source. */
  lemma CompletedOverSourceLoses() returns (actions: seq<Action>, t: State)
    ensures Reached(Empty(0), actions, t, [Complete(EMPTY_READ, [PART], K)]) && Loses(t)
  {
    var s0, broken := Empty(0), [Complete(EMPTY_READ, [PART], K)];
    actions, t := CopyMade();
    actions, t := EmptyPartRead(s0, actions, t);
    actions, t := CompletedOverSource(s0, actions, t);
    forall id ensures !References(EMPTY_OBJECT, [], "n", id) { EmptyNamesNothing(id); }
    actions, t := RestOfScanTakes(s0, actions, t, broken, K);
  }

  lemma OtherRead(s0: State, before: seq<Action>, s: State) returns (actions: seq<Action>, t: State)
    requires Reached(s0, before, s, []) && CopyStands(s)
    ensures Reached(s0, actions, t, []) && Owes(t)
    ensures t == s.(clock := 15, rev := 4, objects := HELD[L := Versioned(EMPTY_OBJECT, 4)],
                    objectReads := {SOURCE, OTHER})
  {
    StillOwed(s);
    assert Unowed(s, L) by { assert s.sweeps[0].owed == {K}; }
    actions, t := Step(s0, before, s, [], Commit("V", ToObject(L), EMPTY_OBJECT));
    actions, t := Step(s0, actions, t, [], ReadObject(L));
    assert t.objectReads == {SOURCE, OTHER};
  }

  /** Another copy overwrites the source. */
  lemma CopiedOverSourceLoses() returns (actions: seq<Action>, t: State)
    ensures Reached(Empty(0), actions, t, [CopyObject(OTHER, K)]) && Loses(t)
  {
    var s0, broken := Empty(0), [CopyObject(OTHER, K)];
    actions, t := CopyMade();
    actions, t := OtherRead(s0, actions, t);
    StillOwed(t);
    actions, t := BreakingStep(s0, actions, t, CopyObject(OTHER, K));
    forall id ensures !References(EMPTY_OBJECT, [], "n", id) { EmptyNamesNothing(id); }
    actions, t := RestOfScanTakes(s0, actions, t, broken, L);
  }

  // A copy of a source that is gone

  /** The source is deleted and its chunk swept between the copy's read of it and its commit. */
  lemma StaleCopyLoses() returns (actions: seq<Action>, t: State)
    ensures Reached(Empty(0), actions, t, [CopyObject(SOURCE, J)]) && Loses(t)
  {
    var s0 := Empty(0);
    actions, t := ObjectStored("n");
    assert Unowed(t, K);
    actions, t := Step(s0, actions, t, [], Delete(K));
    assert t.objects == map[];
    actions, t := SweepReachesObjects(s0, actions, t);
    actions, t := SweepTakes(s0, actions, t, [], 6, Start);
    assert !StillThere(t, SOURCE);
    actions, t := BreakingStep(s0, actions, t, CopyObject(SOURCE, J));
    assert J in t.objects && Names(t.objects[J].manifest, ON_N) && ON_N in t.swept;
  }

  // A completion whose parts have gone

  const READ := PartsRead("u", map[PART := ONE_CHUNK])

  lemma PartStored() returns (actions: seq<Action>, s: State)
    ensures Reached(Empty(0), actions, s, [])
    ensures s == Empty(0).(clock := 5, rev := 1, began := map[W := Begun(0, true)], uploads := {"u"},
                           disks := map[ON_N := 1], stored := {ON_N}, parts := map[PART := PartEntry("u", ONE_CHUNK)])
  {
    var s0 := Empty(0);
    actions, s := RecordedWriteStores(ON_N);
    actions, s := Step(s0, actions, s, [], CreateUpload("u"));
    OnePosition(s.stored);
    actions, s := Step(s0, actions, s, [], Commit(W, ToPart(PART, "u"), ONE_CHUNK));
    actions, s := Step(s0, actions, s, [], DropRecord(W));
    assert map[W := "n"] - {W} == map[];
  }

  lemma PartsReadThenForgotten() returns (actions: seq<Action>, s: State)
    ensures Reached(Empty(0), actions, s, []) && READ in s.partReads
    ensures s == Empty(0).(clock := 7, rev := 1, began := map[W := Begun(0, true)], partReads := s.partReads,
                           disks := map[ON_N := 1], stored := {ON_N})
  {
    var s0 := Empty(0);
    actions, s := PartStored();
    assert (map k | k in s.parts && s.parts[k].upload == "u" :: s.parts[k].manifest) == READ.parts;
    actions, s := Step(s0, actions, s, [], ReadParts("u"));
    assert READ in s.partReads;
    actions, s := Step(s0, actions, s, [], DeleteUpload("u"));
    assert s.parts == map[] && s.uploads == {};
  }

  /** An upload forgotten between a completion's read of its parts and its commit. */
  lemma LateCompletionLoses() returns (actions: seq<Action>, t: State)
    ensures Reached(Empty(0), actions, t, [Complete(READ, [PART], K)]) && Loses(t)
  {
    var s0 := Empty(0);
    actions, t := PartsReadThenForgotten();
    actions, t := SweepReachesObjects(s0, actions, t);
    actions, t := SweepTakes(s0, actions, t, [], 7, Start);
    assert PART in [PART] && PART in READ.parts && PART !in t.parts;
    actions, t := BreakingStep(s0, actions, t, Complete(READ, [PART], K));
    assert ChunksOf(READ.parts, [PART]) == [CH] + ChunksOf(READ.parts, []);
    assert K in t.objects && Names(t.objects[K].manifest, ON_N) && ON_N in t.swept;
  }

  // A move whose destination sweeps under another ring, or at the wrong instant

  const AT_M := Manifest(["m"], [CH], Replicated)
  const MOVED := ObjectRead(K, AT_M, 1)

  ghost predicate MoveIs(s: State, delivered: set<Copy>) {
    s.moves == map[0 := Move(MOVED, ["n"], delivered)] && s.objects == map[K := Versioned(AT_M, 1)] && W in s.began
  }

  lemma MoveBegins(s0: State, before: seq<Action>, s: State) returns (actions: seq<Action>, t: State)
    requires Reached(s0, before, s, []) && s.moves == map[] && MOVED in s.objectReads && W in s.began
    requires s.objects == map[K := Versioned(AT_M, 1)]
    ensures Reached(s0, actions, t, []) && MoveIs(t, {})
    ensures t == s.(clock := s.clock + 1, moves := t.moves)
  {
    actions, t := Step(s0, before, s, [], MoveStart(0, MOVED, ["n"]));
  }

  lemma DeliveryIs(s: State)
    requires MoveIs(s, {})
    ensures Enabled(s, MoveStore(0, 0, CH)) && Delivery(s.moves[0], 0, CH) == ON_N
    ensures var t := Apply(s, MoveStore(0, 0, CH));
            && MoveIs(t, {ON_N}) && t.disks == s.disks[ON_N := s.clock] && t.sweeps == s.sweeps
            && t.clock == s.clock + 1
            && t.grace == s.grace && t.records == s.records && t.parts == s.parts
  {
    assert MoveAdds(s.moves[0], ON_N);
    assert {} + {ON_N} == {ON_N};
  }

  lemma MoveDelivers(s0: State, before: seq<Action>, s: State) returns (actions: seq<Action>, t: State)
    requires Reached(s0, before, s, []) && MoveIs(s, {}) && NotCondemned(s, ON_N)
    ensures Reached(s0, actions, t, []) && MoveIs(t, {ON_N}) && t.disks == s.disks[ON_N := s.clock]
    ensures t.clock == s.clock + 1 && t.grace == s.grace && t.sweeps == s.sweeps && t.records == s.records
            && t.parts == s.parts
  {
    DeliveryIs(s);
    actions, t := Step(s0, before, s, [], MoveStore(0, 0, CH));
  }

  lemma MoveCommits(s0: State, before: seq<Action>, s: State, broken: seq<Action>)
    returns (actions: seq<Action>, t: State)
    requires Reached(s0, before, s, broken) && MoveIs(s, {ON_N}) && InPhase(s, 0, Removing) && s.sweeps.Keys == {0}
    ensures Reached(s0, actions, t, broken)
    ensures K in t.objects && t.objects[K].manifest == ONE_CHUNK && t.swept == s.swept
  {
    assert forall c :: MoveAdds(s.moves[0], c) ==> c == ON_N;
    actions, t := Step(s0, before, s, broken, MoveCommit(0));
  }

  lemma BlindRing(s: State, start: nat)
    requires OneSweep(s, start, Objects, Start) && MoveIs(s, {ON_N})
    ensures !RingsAgree(s, s.sweeps[0], K, map[])
  {
    assert !Agrees(s.moves[0], "n", RingAnswer(map[], K));
    assert 0 in s.moves && Current(s.objects, s.moves[0]);
  }

  lemma BlindPage(s0: State, before: seq<Action>, s: State, start: nat) returns (actions: seq<Action>, t: State)
    requires Reached(s0, before, s, []) && OneSweep(s, start, Objects, Start) && MoveIs(s, {ON_N})
    ensures Reached(s0, actions, t, [SweepObjectPage(0, K, map[])]) && OneSweep(t, start, Objects, At(K))
    ensures t == s.(clock := s.clock + 1, sweeps := t.sweeps)
  {
    BlindRing(s, start);
    actions, t := BreakingStep(s0, before, s, SweepObjectPage(0, K, map[]));
    assert t.sweeps[0].ref == iset{};
  }

  /** The destination's own ring does not know of the move, so its sweep takes what was delivered. */
  lemma DisagreeingRingLoses() returns (actions: seq<Action>, t: State)
    ensures Reached(Empty(0), actions, t, [SweepObjectPage(0, K, map[])]) && Loses(t)
  {
    var s0, broken := Empty(0), [SweepObjectPage(0, K, map[])];
    actions, t := ObjectStored("m");
    actions, t := MoveBegins(s0, actions, t);
    actions, t := MoveDelivers(s0, actions, t);
    actions, t := SweepReachesObjects(s0, actions, t);
    actions, t := BlindPage(s0, actions, t, 7);
    actions, t := SweepTakes(s0, actions, t, broken, 7, At(K));
    actions, t := MoveCommits(s0, actions, t, broken);
    assert K in t.objects && Names(t.objects[K].manifest, ON_N) && ON_N in t.swept;
  }

  lemma StrayCopy() returns (actions: seq<Action>, s: State)
    ensures Reached(Empty(0), actions, s, []) && MOVED in s.objectReads && s.clock == 6 && s.grace == 0
    ensures s.sweeps == map[] && s.records == map[] && s.parts == map[] && s.moves == map[] && W in s.began
    ensures s.objects == map[K := Versioned(AT_M, 1)] && ON_N in s.disks && s.disks[ON_N] == 5
  {
    actions, s := ObjectStored("m");
    actions, s := Step(Empty(0), actions, s, [], Store(ON_N));
  }

  lemma PageOverM(s0: State, before: seq<Action>, s: State, start: nat) returns (actions: seq<Action>, t: State)
    requires Reached(s0, before, s, []) && OneSweep(s, start, Objects, Start)
    requires s.moves == map[] && s.objects == map[K := Versioned(AT_M, 1)]
    ensures Reached(s0, actions, t, []) && OneSweep(t, start, Objects, At(K))
    ensures t == s.(clock := s.clock + 1, sweeps := t.sweeps)
  {
    PageOverMEmpty(s, start);
    actions, t := Step(s0, before, s, [], SweepObjectPage(0, K, map[]));
  }

  lemma PageOverMEmpty(s: State, start: nat)
    requires OneSweep(s, start, Objects, Start) && s.objects == map[K := Versioned(AT_M, 1)]
    ensures ObjectPage(s, s.sweeps[0], K, map[]).ref == iset{}
  {
  }

  lemma LookAtStray(s0: State, before: seq<Action>, s: State, start: nat) returns (actions: seq<Action>, t: State)
    requires Reached(s0, before, s, []) && OneSweep(s, start, Objects, At(K))
    requires s.objects == map[K := Versioned(AT_M, 1)] && ON_N in s.disks && s.disks[ON_N] + s.grace <= start
    ensures Reached(s0, actions, t, []) && InPhase(t, 0, Removing) && t.sweeps.Keys == {0}
    ensures ID in t.sweeps[0].doomed && t.sweeps[0].node == "n"
    ensures t == s.(clock := s.clock + 2, sweeps := t.sweeps)
  {
    actions, t := ScanIsOver(s0, before, s, [], start, At(K));
    actions, t := SweepCondemns(s0, actions, t, []);
  }

  lemma PushOverCondemned(s0: State, before: seq<Action>, s: State) returns (actions: seq<Action>, t: State)
    requires Reached(s0, before, s, []) && MoveIs(s, {}) && !NotCondemned(s, ON_N)
    ensures Reached(s0, actions, t, [MoveStore(0, 0, CH)]) && MoveIs(t, {ON_N}) && ON_N in t.disks
            && t.sweeps == s.sweeps
  {
    DeliveryIs(s);
    actions, t := BreakingStep(s0, before, s, MoveStore(0, 0, CH));
  }

  /** A move's push replaces an old stray copy after the sweep has looked at it and before the sweep
      removes it. */
  lemma PushBetweenLookAndRemovalLoses() returns (actions: seq<Action>, t: State)
    ensures Reached(Empty(0), actions, t, [MoveStore(0, 0, CH)]) && Loses(t)
  {
    var s0, broken := Empty(0), [MoveStore(0, 0, CH)];
    actions, t := StrayCopy();
    actions, t := SweepReachesObjects(s0, actions, t);
    actions, t := PageOverM(s0, actions, t, 6);
    actions, t := LookAtStray(s0, actions, t, 6);
    actions, t := MoveBegins(s0, actions, t);
    actions, t := PushOverCondemned(s0, actions, t);
    actions, t := SweepRemoves(s0, actions, t, broken);
    actions, t := MoveCommits(s0, actions, t, broken);
    assert K in t.objects && Names(t.objects[K].manifest, ON_N) && ON_N in t.swept;
  }
}
