/** Repairing one erasure-coded object. The survey is by position and one decode rebuilds every missing shard
    of a chunk, so a chunk succeeds or fails as a whole, and is counted so, whatever of it was placed. */
module RepairShards {
  import opened Basics
  import opened KeyOrder
  import opened Erasure
  import R = Repair

  /** Who is a member, which surveys are not answered, and what can be read and stored. A silent survey, even
      of this node's own disk, counts as nothing held. */
  datatype Cluster = Cluster(live: set<Node>, unsurveyed: set<Node>, io: World)

  /** The survey found a file of the chunk's i-th shard on its node. */
  predicate Found(c: Cluster, files: Files, ch: Chunk, node: Node, i: nat) {
    node !in c.unsurveyed && ch.At(node, i) in files
  }

  /** The positions of members at which the survey found nothing, in order. */
  function MissingTo(c: Cluster, files: Files, ch: Chunk, nodes: seq<Node>, n: nat): seq<nat>
    requires n <= |nodes|
  {
    if n == 0 then []
    else MissingTo(c, files, ch, nodes, n - 1)
         + if nodes[n - 1] in c.live && !Found(c, files, ch, nodes[n - 1], n - 1) then [n - 1] else []
  }

  lemma {:induction false} MissingAre(c: Cluster, files: Files, ch: Chunk, nodes: seq<Node>, n: nat)
    requires n <= |nodes|
    ensures var r := MissingTo(c, files, ch, nodes, n);
            && (forall k :: 0 <= k < |r| ==> r[k] < n)
            && (forall i: nat :: i in r <==> i < n && nodes[i] in c.live && !Found(c, files, ch, nodes[i], i))
  {
    if n > 0 { MissingAre(c, files, ch, nodes, n - 1); }
  }

  function Missing(c: Cluster, files: Files, ch: Chunk, nodes: seq<Node>): seq<nat> {
    MissingTo(c, files, ch, nodes, |nodes|)
  }

  /** The chunk can be read and every missing shard is taken. */
  predicate Mends(c: Cluster, files: Files, ch: Chunk, nodes: seq<Node>) {
    Enough(c.io, files, ch, nodes) && AllTake(c.io, ch, nodes, SetOf(Missing(c, files, ch, nodes)))
  }

  /** What becomes of a position of a chunk that is mended, or is not. */
  function FateAt(c: Cluster, files: Files, ch: Chunk, node: Node, mends: bool, i: nat): R.Fate {
    if node !in c.live then R.Away
    else if Found(c, files, ch, node, i) then R.Held
    else if mends then R.Rebuilt
    else R.Stuck
  }

  function SharesTo(c: Cluster, files: Files, ch: Chunk, nodes: seq<Node>, mends: bool, n: nat): seq<R.Share>
    requires n <= |nodes|
  {
    if n == 0 then []
    else SharesTo(c, files, ch, nodes, mends, n - 1)
         + [R.Share(FateAt(c, files, ch, nodes[n - 1], mends, n - 1), ch.shardSize)]
  }

  /** Every position of one chunk. */
  /** What becomes of each position: it is away if its node is no member, held if the survey found its shard there,
      rebuilt if the whole chunk is mended, and otherwise stuck. */
  lemma {:induction false} ShareAt(c: Cluster, files: Files, ch: Chunk, nodes: seq<Node>, mends: bool, n: nat, i: nat)
    requires i < n <= |nodes|
    ensures var shares := SharesTo(c, files, ch, nodes, mends, n);
            && |shares| == n && shares[i].size == ch.shardSize
            && shares[i].fate ==
                 if nodes[i] !in c.live then R.Away
                 else if nodes[i] !in c.unsurveyed && Place(nodes[i], ch.id, i) in files then R.Held
                 else if mends then R.Rebuilt
                 else R.Stuck
    decreases n
  {
    if i < n - 1 {
      ShareAt(c, files, ch, nodes, mends, n - 1, i);
    } else if i > 0 {
      ShareAt(c, files, ch, nodes, mends, n - 1, 0);
    }
  }

  function Shares(c: Cluster, files: Files, ch: Chunk, nodes: seq<Node>): seq<R.Share> {
    SharesTo(c, files, ch, nodes, Mends(c, files, ch, nodes), |nodes|)
  }

  /** The shards written for one chunk: none unless it can be read, and then each that is taken. */
  function Writes(c: Cluster, files: Files, ch: Chunk, nodes: seq<Node>): Files {
    if Enough(c.io, files, ch, nodes)
    then map p | p in Accepted(c.io, ch, nodes, SetOf(Missing(c, files, ch, nodes))) :: ShardFor(ch, p)
    else map[]
  }

  // Counting one chunk

  function LiveTo(c: Cluster, nodes: seq<Node>, n: nat): nat
    requires n <= |nodes|
  {
    if n == 0 then 0 else LiveTo(c, nodes, n - 1) + if nodes[n - 1] in c.live then 1 else 0
  }

  /** A chunk's missing shards are restored together or unrepairable together. */
  predicate Tallied(shares: seq<R.Share>, mends: bool, missing: nat, checked: nat) {
    && checked + R.Count(shares, R.Away) == |shares|
    && R.Count(shares, R.Rebuilt) == (if mends then missing else 0)
    && R.Count(shares, R.Stuck) == (if mends then 0 else missing)
  }

  lemma TalliedNext(shares: seq<R.Share>, mends: bool, missing: nat, checked: nat, s: R.Share)
    requires Tallied(shares, mends, missing, checked)
    requires s.fate == R.Rebuilt ==> mends
    requires s.fate == R.Stuck ==> !mends
    ensures Tallied(shares + [s], mends,
                    missing + if s.fate == R.Rebuilt || s.fate == R.Stuck then 1 else 0,
                    checked + if s.fate == R.Away then 0 else 1)
  {
    R.CountSnoc(shares, s, R.Away);
    R.CountSnoc(shares, s, R.Rebuilt);
    R.CountSnoc(shares, s, R.Stuck);
  }

  lemma {:induction false} SharesTallied(c: Cluster, files: Files, ch: Chunk, nodes: seq<Node>, mends: bool, n: nat)
    requires n <= |nodes|
    ensures Tallied(SharesTo(c, files, ch, nodes, mends, n), mends, |MissingTo(c, files, ch, nodes, n)|,
                    LiveTo(c, nodes, n))
  {
    if n > 0 {
      SharesTallied(c, files, ch, nodes, mends, n - 1);
      TalliedNext(SharesTo(c, files, ch, nodes, mends, n - 1), mends, |MissingTo(c, files, ch, nodes, n - 1)|,
                  LiveTo(c, nodes, n - 1), R.Share(FateAt(c, files, ch, nodes[n - 1], mends, n - 1), ch.shardSize));
    }
  }

  lemma {:induction false} SharesSized(c: Cluster, files: Files, ch: Chunk, nodes: seq<Node>, mends: bool, n: nat)
    requires n <= |nodes|
    ensures forall s :: s in SharesTo(c, files, ch, nodes, mends, n) ==> s.size == ch.shardSize
  {
    if n > 0 { SharesSized(c, files, ch, nodes, mends, n - 1); }
  }

  lemma {:induction false} BytesUniform(shares: seq<R.Share>, size: nat)
    requires forall s :: s in shares ==> s.size == size
    ensures R.BytesOf(shares) == R.Count(shares, R.Rebuilt) * size
  {
    if shares != [] {
      var front := shares[..|shares| - 1];
      assert forall s :: s in front ==> s in shares;
      assert shares[|shares| - 1] in shares;
      BytesUniform(front, size);
      var n := R.Count(front, R.Rebuilt);
      assert (n + 1) * size == n * size + size;
    }
  }

  /** The counters after one chunk. */
  function Settle(st: R.Stats, checked: nat, missing: nat, size: nat, mends: bool): R.Stats {
    var seen := st.(checked := st.checked + checked);
    if mends then seen.(restored := st.restored + missing, bytes := st.bytes + missing * size)
    else seen.(unrepairable := st.unrepairable + missing)
  }

  lemma SettleAccounts(st: R.Stats, shares: seq<R.Share>, checked: nat, missing: nat, size: nat, mends: bool)
    requires Tallied(shares, mends, missing, checked) && forall s :: s in shares ==> s.size == size
    ensures R.Accounts(st, Settle(st, checked, missing, size, mends), shares)
  {
    BytesUniform(shares, size);
  }

  // Repairing one chunk

  /** What has been written so far of this chunk is right, and nothing has been unless it can be read. */
  predicate SoundFor(c: Cluster, was: Files, written: Files, ch: Chunk, nodes: seq<Node>) {
    forall p :: p in written && p.chunk == ch.id ==> written[p] == ShardFor(ch, p) && Enough(c.io, was, ch, nodes)
  }

  /** Writing right shards, of chunks that could be read, makes none readable or unreadable. */
  lemma EnoughKept(c: Cluster, was: Files, written: Files, ch: Chunk, nodes: seq<Node>)
    requires SoundFor(c, was, written, ch, nodes)
    ensures Enough(c.io, was + written, ch, nodes) <==> Enough(c.io, was, ch, nodes)
  {
    var before, after := Readable(c.io, was, ch, nodes), Readable(c.io, was + written, ch, nodes);
    forall i | i in before ensures i in after { assert Right(was + written, ch, nodes[i], i); }
    SubsetSize(before, after);
    if !Enough(c.io, was, ch, nodes) {
      forall i | i in after ensures i in before { assert Right(was, ch, nodes[i], i); }
      assert before == after;
    }
  }

  lemma WrittenMore(files: Files, ch: Chunk, places: set<Place>)
    ensures Written(files, ch, places) == files + map p | p in places :: ShardFor(ch, p)
  {
  }

  /** The survey of every chunk at once found exactly the files that are there, on the nodes that answered. */
  ghost predicate SurveyIs(c: Cluster, files: Files, ch: Chunk, nodes: seq<Node>, held: set<Place>) {
    forall i: nat :: i < |nodes| ==> (ch.At(nodes[i], i) in held <==> Found(c, files, ch, nodes[i], i))
  }

  method ListMissing(c: Cluster, ch: Chunk, nodes: seq<Node>, held: set<Place>, ghost was: Files)
    returns (missing: seq<nat>, checked: nat)
    requires SurveyIs(c, was, ch, nodes, held)
    ensures missing == Missing(c, was, ch, nodes) && checked == LiveTo(c, nodes, |nodes|)
  {
    missing, checked := [], 0;
    for i := 0 to |nodes|
      invariant missing == MissingTo(c, was, ch, nodes, i) && checked == LiveTo(c, nodes, i)
    {
      if nodes[i] in c.live {
        checked := checked + 1;
        if ch.At(nodes[i], i) !in held { missing := missing + [i]; }
      }
    }
  }

  /** One chunk. `was` is what the survey saw, and `written` has been written since. */
  method RepairChunk(c: Cluster, d: Disks, code: Code, ch: Chunk, nodes: seq<Node>, held: set<Place>, st: R.Stats,
                     ghost was: Files, ghost written: Files) returns (st': R.Stats)
    requires Encodes(code, ch) && |nodes| == |ch.shards| && SurveyIs(c, was, ch, nodes, held)
    requires d.files == was + written && SoundFor(c, was, written, ch, nodes)
    modifies d
    ensures d.files == was + (written + Writes(c, was, ch, nodes))
    ensures R.Accounts(st, st', Shares(c, was, ch, nodes))
  {
    var missing, checked := ListMissing(c, ch, nodes, held, was);
    ghost var mends := Mends(c, was, ch, nodes);
    SharesTallied(c, was, ch, nodes, mends, |nodes|);
    SharesSized(c, was, ch, nodes, mends, |nodes|);
    SettleAccounts(st, Shares(c, was, ch, nodes), checked, |missing|, ch.shardSize, mends);
    MissingAre(c, was, ch, nodes, |nodes|);
    EnoughKept(c, was, written, ch, nodes);
    FilesAfter(c, was, written, ch, nodes);
    if |missing| == 0 { return st.(checked := st.checked + checked); }
    var ok := RestoreShards(c.io, d, code, ch, nodes, nodes, missing);
    st' := Settle(st, checked, |missing|, ch.shardSize, ok);
  }

  lemma MergeMore(was: Files, written: Files, more: Files)
    ensures was + written + more == was + (written + more)
  {
  }

  lemma FilesAfter(c: Cluster, was: Files, written: Files, ch: Chunk, nodes: seq<Node>)
    ensures var wanted := SetOf(Missing(c, was, ch, nodes));
            && (if Enough(c.io, was, ch, nodes) then Written(was + written, ch, Accepted(c.io, ch, nodes, wanted))
                else was + written) == was + (written + Writes(c, was, ch, nodes))
            && (wanted == {} ==> was + written == was + (written + Writes(c, was, ch, nodes)))
  {
    var more := Writes(c, was, ch, nodes);
    WrittenMore(was + written, ch, Accepted(c.io, ch, nodes, SetOf(Missing(c, was, ch, nodes))));
    MergeMore(was, written, more);
    assert SetOf(Missing(c, was, ch, nodes)) == {} ==> more == map[];
    assert more == map[] ==> was + written + more == was + written;
  }

  // Repairing the object

  /** What a pass makes of one chunk, from what the survey saw. */
  datatype Plan = Plan(shares: seq<R.Share>, writes: Files)

  predicate Planned(c: Cluster, was: Files, ch: Chunk, nodes: seq<Node>, p: Plan) {
    p == Plan(Shares(c, was, ch, nodes), Writes(c, was, ch, nodes))
  }

  predicate AllPlanned(c: Cluster, was: Files, chunks: seq<Chunk>, nodes: seq<Node>, plans: seq<Plan>) {
    |plans| == |chunks| && forall k :: 0 <= k < |chunks| ==> Planned(c, was, chunks[k], nodes, plans[k])
  }

  function Plans(c: Cluster, was: Files, chunks: seq<Chunk>, nodes: seq<Node>): (r: seq<Plan>)
    ensures AllPlanned(c, was, chunks, nodes, r)
  {
    seq(|chunks|, k requires 0 <= k < |chunks| =>
      Plan(Shares(c, was, chunks[k], nodes), Writes(c, was, chunks[k], nodes)))
  }

  function SharesIn(plans: seq<Plan>): (r: seq<seq<R.Share>>)
    ensures |r| == |plans| && forall k :: 0 <= k < |plans| ==> r[k] == plans[k].shares
  {
    seq(|plans|, k requires 0 <= k < |plans| => plans[k].shares)
  }

  function AllShares(plans: seq<Plan>): seq<R.Share> {
    R.Flat(SharesIn(plans))
  }

  function AllWrites(plans: seq<Plan>): Files {
    if plans == [] then map[] else AllWrites(plans[..|plans| - 1]) + plans[|plans| - 1].writes
  }

  /** An id names one chunk. */
  predicate Consistent(chunks: seq<Chunk>) {
    forall a, b :: a in chunks && b in chunks && a.id == b.id ==> a == b
  }

  lemma WritesRight(c: Cluster, was: Files, ch: Chunk, nodes: seq<Node>, p: Place)
    requires p in Writes(c, was, ch, nodes)
    ensures p.chunk == ch.id && Writes(c, was, ch, nodes)[p] == ShardFor(ch, p) && Enough(c.io, was, ch, nodes)
  {
  }

  /** Where a write comes from. */
  lemma {:induction false} WriteOf(plans: seq<Plan>, p: Place) returns (k: nat)
    requires p in AllWrites(plans)
    ensures k < |plans| && p in plans[k].writes && AllWrites(plans)[p] == plans[k].writes[p]
    ensures forall j :: k < j < |plans| ==> p !in plans[j].writes
  {
    var last := |plans| - 1;
    if p in plans[last].writes {
      k := last;
    } else {
      k := WriteOf(plans[..last], p);
    }
  }

  lemma PlansSound(c: Cluster, was: Files, chunks: seq<Chunk>, nodes: seq<Node>, plans: seq<Plan>, n: nat, ch: Chunk)
    requires Consistent(chunks) && AllPlanned(c, was, chunks, nodes, plans) && n <= |chunks| && ch in chunks
    ensures SoundFor(c, was, AllWrites(plans[..n]), ch, nodes)
  {
    forall p | p in AllWrites(plans[..n]) && p.chunk == ch.id
      ensures AllWrites(plans[..n])[p] == ShardFor(ch, p) && Enough(c.io, was, ch, nodes)
    {
      var k := WriteOf(plans[..n], p);
      assert Planned(c, was, chunks[k], nodes, plans[k]);
      WritesRight(c, was, chunks[k], nodes, p);
      assert chunks[k] in chunks;
    }
  }

  lemma PlansNext(plans: seq<Plan>, k: nat)
    requires k < |plans|
    ensures AllShares(plans[..k + 1]) == AllShares(plans[..k]) + plans[k].shares
    ensures AllWrites(plans[..k + 1]) == AllWrites(plans[..k]) + plans[k].writes
  {
    assert plans[..k + 1][..k] == plans[..k];
    assert SharesIn(plans[..k + 1])[..k] == SharesIn(plans[..k]);
  }

  /** What the survey found, of every chunk at once. */
  method Survey(c: Cluster, d: Disks, chunks: seq<Chunk>, nodes: seq<Node>) returns (held: set<Place>)
    ensures forall k :: 0 <= k < |chunks| ==> SurveyIs(c, d.files, chunks[k], nodes, held)
  {
    held := {};
    var ids := set k | 0 <= k < |chunks| :: chunks[k].id;
    for i := 0 to |nodes|
      invariant forall p :: p in held <==>
                  p.chunk in ids && p.position < i && p.node == nodes[p.position] && p.node !in c.unsurveyed
                  && p in d.files
    {
      if nodes[i] !in c.unsurveyed {
        held := held + set id | id in ids && Place(nodes[i], id, i) in d.files :: Place(nodes[i], id, i);
      }
    }
    forall k | 0 <= k < |chunks| ensures SurveyIs(c, d.files, chunks[k], nodes, held) {
      assert chunks[k].id in ids;
    }
  }

  /** The loop over the chunks, which carries out the plans that what the survey saw decides. */
  method CarryOut(c: Cluster, d: Disks, code: Code, chunks: seq<Chunk>, nodes: seq<Node>, held: set<Place>, st: R.Stats,
                  ghost plans: seq<Plan>) returns (st': R.Stats)
    requires AllPlanned(c, d.files, chunks, nodes, plans) && Consistent(chunks)
    requires forall k :: 0 <= k < |chunks| ==> Encodes(code, chunks[k]) && |nodes| == |chunks[k].shards|
    requires forall k :: 0 <= k < |chunks| ==> SurveyIs(c, d.files, chunks[k], nodes, held)
    modifies d
    ensures d.files == old(d.files) + AllWrites(plans)
    ensures R.Accounts(st, st', AllShares(plans))
  {
    ghost var was := d.files;
    st' := st;
    assert was + AllWrites(plans[..0]) == was;
    for k := 0 to |chunks|
      invariant d.files == was + AllWrites(plans[..k])
      invariant R.Accounts(st, st', AllShares(plans[..k]))
    {
      PlansSound(c, was, chunks, nodes, plans, k, chunks[k]);
      PlansNext(plans, k);
      ghost var mid := st';
      assert Planned(c, was, chunks[k], nodes, plans[k]);
      st' := RepairChunk(c, d, code, chunks[k], nodes, held, st', was, AllWrites(plans[..k]));
      R.AccountsConcat(st, mid, st', AllShares(plans[..k]), plans[k].shares);
    }
    assert plans[..|chunks|] == plans;
  }

  /** Repairs a coded object. Each position of each chunk has the fate that what the survey saw decides and is
      counted so; the right shard is written exactly where it was missing and taken, of the chunks that can be
      read; and nothing else changes. */
  method RepairObject(c: Cluster, d: Disks, code: Code, chunks: seq<Chunk>, nodes: seq<Node>, st: R.Stats)
    returns (st': R.Stats)
    requires Consistent(chunks)
    requires forall k :: 0 <= k < |chunks| ==> Encodes(code, chunks[k]) && |nodes| == |chunks[k].shards|
    modifies d
    ensures d.files == old(d.files) + AllWrites(Plans(c, old(d.files), chunks, nodes))
    ensures R.Accounts(st, st', AllShares(Plans(c, old(d.files), chunks, nodes)))
  {
    var held := Survey(c, d, chunks, nodes);
    st' := CarryOut(c, d, code, chunks, nodes, held, st, Plans(c, d.files, chunks, nodes));
  }

  // What a pass achieves

  lemma CountPlans(plans: seq<Plan>, f: R.Fate)
    ensures R.Count(AllShares(plans), f) == 0 <==>
            forall k :: 0 <= k < |plans| ==> R.Count(plans[k].shares, f) == 0
  {
    var views := SharesIn(plans);
    R.CountFlat(views, f);
    assert forall k :: 0 <= k < |plans| ==> views[k] == plans[k].shares;
  }

  /** A chunk leaves nothing unrepairable exactly when it misses nothing or is mended. */
  lemma ChunkStuckIff(c: Cluster, files: Files, ch: Chunk, nodes: seq<Node>)
    ensures R.Count(Shares(c, files, ch, nodes), R.Stuck) == 0 <==>
            Missing(c, files, ch, nodes) == [] || Mends(c, files, ch, nodes)
    ensures Missing(c, files, ch, nodes) == [] ==> R.Count(Shares(c, files, ch, nodes), R.Rebuilt) == 0
  {
    SharesTallied(c, files, ch, nodes, Mends(c, files, ch, nodes), |nodes|);
  }

  /** A pass calls nothing unrepairable exactly when each chunk misses nothing, or can be read and has every
      missing shard taken. */
  lemma UnrepairableIff(c: Cluster, files: Files, chunks: seq<Chunk>, nodes: seq<Node>)
    ensures R.Count(AllShares(Plans(c, files, chunks, nodes)), R.Stuck) == 0 <==>
            forall k :: 0 <= k < |chunks| ==>
                          Missing(c, files, chunks[k], nodes) == [] || Mends(c, files, chunks[k], nodes)
  {
    var plans := Plans(c, files, chunks, nodes);
    CountPlans(plans, R.Stuck);
    forall k | 0 <= k < |chunks|
      ensures R.Count(plans[k].shares, R.Stuck) == 0 <==>
              Missing(c, files, chunks[k], nodes) == [] || Mends(c, files, chunks[k], nodes)
    {
      assert Planned(c, files, chunks[k], nodes, plans[k]);
      ChunkStuckIff(c, files, chunks[k], nodes);
    }
  }

  /** The missing positions whose node takes the shard. */
  function Taking(c: Cluster, files: Files, ch: Chunk, nodes: seq<Node>): set<nat> {
    set i | i in SetOf(Missing(c, files, ch, nodes)) && i < |nodes| && c.io.Takes(ch.At(nodes[i], i))
  }

  lemma {:induction false} WrittenBy(plans: seq<Plan>, k: nat, p: Place)
    requires k < |plans| && p in plans[k].writes
    ensures p in AllWrites(plans)
  {
    var last := |plans| - 1;
    if k < last { WrittenBy(plans[..last], k, p); }
  }

  /** The pass writes this shard exactly when its chunk can be read, it is missing and its node takes it. */
  lemma WrittenIff(c: Cluster, files: Files, chunks: seq<Chunk>, nodes: seq<Node>, k: nat, i: nat)
    requires Consistent(chunks) && k < |chunks| && i < |nodes|
    ensures var ch := chunks[k];
            ch.At(nodes[i], i) in AllWrites(Plans(c, files, chunks, nodes)) <==>
            Enough(c.io, files, ch, nodes) && i in Taking(c, files, ch, nodes)
  {
    var ch, plans := chunks[k], Plans(c, files, chunks, nodes);
    var p := ch.At(nodes[i], i);
    assert Planned(c, files, ch, nodes, plans[k]);
    WritesIff(c, files, ch, nodes, i);
    if p in AllWrites(plans) {
      var j := WriteOf(plans, p);
      assert Planned(c, files, chunks[j], nodes, plans[j]);
      WritesRight(c, files, chunks[j], nodes, p);
      assert chunks[j] in chunks && ch in chunks;
    }
    if p in plans[k].writes { WrittenBy(plans, k, p); }
  }

  /** And it writes nothing but missing shards of members, in their places, to nodes that take them. */
  lemma WritesOnlyMissing(c: Cluster, files: Files, chunks: seq<Chunk>, nodes: seq<Node>, p: Place) returns (k: nat)
    requires p in AllWrites(Plans(c, files, chunks, nodes))
    ensures k < |chunks| && p.chunk == chunks[k].id && p.position < |nodes| && p.node == nodes[p.position]
    ensures p.node in c.live && (p.node in c.unsurveyed || p !in files) && p !in c.io.refuses
    ensures Enough(c.io, files, chunks[k], nodes)
  {
    var plans := Plans(c, files, chunks, nodes);
    k := WriteOf(plans, p);
    assert Planned(c, files, chunks[k], nodes, plans[k]);
    WritesRight(c, files, chunks[k], nodes, p);
    MissingAre(c, files, chunks[k], nodes, |nodes|);
  }

  lemma WritesIff(c: Cluster, files: Files, ch: Chunk, nodes: seq<Node>, i: nat)
    requires i < |nodes|
    ensures ch.At(nodes[i], i) in Writes(c, files, ch, nodes) <==>
            Enough(c.io, files, ch, nodes) && i in Taking(c, files, ch, nodes)
  {
  }

  lemma RightMerged(files: Files, writes: Files, ch: Chunk, node: Node, i: nat)
    requires i < |ch.shards| && forall p :: p in writes && p.chunk == ch.id ==> writes[p] == ShardFor(ch, p)
    ensures Right(files + writes, ch, node, i) <==> Right(files, ch, node, i) || ch.At(node, i) in writes
  {
  }

  lemma MergedRight(c: Cluster, files: Files, chunks: seq<Chunk>, nodes: seq<Node>, k: nat, i: nat)
    requires Consistent(chunks) && k < |chunks| && i < |nodes| == |chunks[k].shards|
    ensures var writes := AllWrites(Plans(c, files, chunks, nodes));
            Right(files + writes, chunks[k], nodes[i], i) <==>
            Right(files, chunks[k], nodes[i], i) || chunks[k].At(nodes[i], i) in writes
  {
    var plans := Plans(c, files, chunks, nodes);
    assert chunks[k] in chunks && plans[..|chunks|] == plans;
    PlansSound(c, files, chunks, nodes, plans, |chunks|, chunks[k]);
    RightMerged(files, AllWrites(plans), chunks[k], nodes[i], i);
  }

  /** Exactly these positions of a chunk are right afterwards: those that were, and, if it could be read, the
      missing ones whose node took the shard. */
  lemma RightAfterwards(c: Cluster, files: Files, chunks: seq<Chunk>, nodes: seq<Node>, k: nat)
    requires Consistent(chunks) && k < |chunks| && |nodes| == |chunks[k].shards|
    ensures Correct(files + AllWrites(Plans(c, files, chunks, nodes)), chunks[k], nodes) ==
              Correct(files, chunks[k], nodes)
              + if Enough(c.io, files, chunks[k], nodes) then Taking(c, files, chunks[k], nodes) else {}
  {
    var ch, after := chunks[k], files + AllWrites(Plans(c, files, chunks, nodes));
    MissingAre(c, files, ch, nodes, |nodes|);
    forall i | i in UpTo(|nodes|)
      ensures Right(after, ch, nodes[i], i) <==>
              Right(files, ch, nodes[i], i) || (Enough(c.io, files, ch, nodes) && i in Taking(c, files, ch, nodes))
    {
      WrittenIff(c, files, chunks, nodes, k, i);
      MergedRight(c, files, chunks, nodes, k, i);
    }
  }

  /** When a chunk can be read but one of its stores fails, all of its missing shards are counted as
      unrepairable, though each that was taken is now right. */
  lemma PartialFailureCountsAll(c: Cluster, files: Files, chunks: seq<Chunk>, nodes: seq<Node>, k: nat)
    requires Consistent(chunks) && k < |chunks| && |nodes| == |chunks[k].shards|
    requires Enough(c.io, files, chunks[k], nodes) && !Mends(c, files, chunks[k], nodes)
    ensures var ch := chunks[k];
            && R.Count(Shares(c, files, ch, nodes), R.Stuck) == |Missing(c, files, ch, nodes)| > 0
            && R.Count(Shares(c, files, ch, nodes), R.Rebuilt) == 0
            && Taking(c, files, ch, nodes) <= Correct(files + AllWrites(Plans(c, files, chunks, nodes)), ch, nodes)
  {
    SharesTallied(c, files, chunks[k], nodes, false, |nodes|);
    RightAfterwards(c, files, chunks, nodes, k);
    MissingAre(c, files, chunks[k], nodes, |nodes|);
  }

  /** Every survey of a member is answered, every member takes its shards, and each chunk can be read. */
  ghost predicate NothingFails(c: Cluster, files: Files, chunks: seq<Chunk>, nodes: seq<Node>) {
    && (forall n :: n in nodes && n in c.live ==> n !in c.unsurveyed)
    && (forall p: Place :: p.node in c.live && p.node in nodes ==> c.io.Takes(p))
    && (forall k :: 0 <= k < |chunks| ==> Enough(c.io, files, chunks[k], nodes))
  }

  lemma TakesAllMissing(c: Cluster, files: Files, chunks: seq<Chunk>, nodes: seq<Node>, k: nat)
    requires NothingFails(c, files, chunks, nodes) && k < |chunks|
    ensures Taking(c, files, chunks[k], nodes) == SetOf(Missing(c, files, chunks[k], nodes))
    ensures Mends(c, files, chunks[k], nodes)
  {
    var ch := chunks[k];
    MissingAre(c, files, ch, nodes, |nodes|);
    forall i | i in Missing(c, files, ch, nodes) ensures i < |nodes| && c.io.Takes(ch.At(nodes[i], i)) {
      assert nodes[i] in nodes;
    }
  }

  lemma FoundAfterwards(c: Cluster, files: Files, chunks: seq<Chunk>, nodes: seq<Node>, k: nat, i: nat)
    requires Consistent(chunks) && NothingFails(c, files, chunks, nodes) && k < |chunks| && i < |nodes|
             && nodes[i] in c.live
    ensures Found(c, files + AllWrites(Plans(c, files, chunks, nodes)), chunks[k], nodes[i], i)
  {
    TakesAllMissing(c, files, chunks, nodes, k);
    WrittenIff(c, files, chunks, nodes, k, i);
    MissingAre(c, files, chunks[k], nodes, |nodes|);
    assert nodes[i] in nodes;
  }

  /** When nothing fails, one repair leaves every member with a shard of every chunk, right wherever the
      survey had found none, and calls nothing unrepairable; the next finds every shard, and restores and
      writes nothing. */
  lemma RepairMakesWhole(c: Cluster, files: Files, chunks: seq<Chunk>, nodes: seq<Node>)
    requires Consistent(chunks) && NothingFails(c, files, chunks, nodes)
    requires forall k :: 0 <= k < |chunks| ==> |nodes| == |chunks[k].shards|
    ensures var after := files + AllWrites(Plans(c, files, chunks, nodes));
            && (forall k, i: nat :: 0 <= k < |chunks| && i < |nodes| && nodes[i] in c.live ==>
                  Found(c, after, chunks[k], nodes[i], i))
            && (forall k :: 0 <= k < |chunks| ==>
                  Correct(after, chunks[k], nodes) ==
                    Correct(files, chunks[k], nodes) + SetOf(Missing(c, files, chunks[k], nodes)))
            && R.Count(AllShares(Plans(c, files, chunks, nodes)), R.Stuck) == 0
            && R.Count(AllShares(Plans(c, after, chunks, nodes)), R.Rebuilt) == 0
            && R.Count(AllShares(Plans(c, after, chunks, nodes)), R.Stuck) == 0
            && AllWrites(Plans(c, after, chunks, nodes)) == map[]
  {
    var after := files + AllWrites(Plans(c, files, chunks, nodes));
    forall k | 0 <= k < |chunks|
      ensures Mends(c, files, chunks[k], nodes)
      ensures Correct(after, chunks[k], nodes) ==
                Correct(files, chunks[k], nodes) + SetOf(Missing(c, files, chunks[k], nodes))
    {
      RightAfterwards(c, files, chunks, nodes, k);
      TakesAllMissing(c, files, chunks, nodes, k);
    }
    forall k, i: nat | 0 <= k < |chunks| && i < |nodes| && nodes[i] in c.live
      ensures Found(c, after, chunks[k], nodes[i], i)
    {
      FoundAfterwards(c, files, chunks, nodes, k, i);
    }
    UnrepairableIff(c, files, chunks, nodes);
    NextPassIdle(c, after, chunks, nodes);
  }

  lemma NextPassIdle(c: Cluster, files: Files, chunks: seq<Chunk>, nodes: seq<Node>)
    requires forall k, i: nat :: 0 <= k < |chunks| && i < |nodes| && nodes[i] in c.live ==>
               Found(c, files, chunks[k], nodes[i], i)
    ensures R.Count(AllShares(Plans(c, files, chunks, nodes)), R.Rebuilt) == 0
    ensures R.Count(AllShares(Plans(c, files, chunks, nodes)), R.Stuck) == 0
    ensures AllWrites(Plans(c, files, chunks, nodes)) == map[]
  {
    var plans := Plans(c, files, chunks, nodes);
    forall k | 0 <= k < |chunks|
      ensures R.Count(plans[k].shares, R.Rebuilt) == 0 && R.Count(plans[k].shares, R.Stuck) == 0
              && plans[k].writes == map[]
    {
      assert Planned(c, files, chunks[k], nodes, plans[k]);
      ChunkIdle(c, files, chunks[k], nodes);
    }
    CountPlans(plans, R.Rebuilt);
    CountPlans(plans, R.Stuck);
    forall p ensures p !in AllWrites(plans) {
      if p in AllWrites(plans) { var k := WriteOf(plans, p); }
    }
  }

  lemma NoMembers(s: seq<nat>)
    ensures s == [] <==> forall i: nat :: i !in s
  {
    if s != [] { assert s[0] in s; }
  }

  lemma ChunkIdle(c: Cluster, files: Files, ch: Chunk, nodes: seq<Node>)
    requires forall i: nat :: i < |nodes| && nodes[i] in c.live ==> Found(c, files, ch, nodes[i], i)
    ensures R.Count(Shares(c, files, ch, nodes), R.Rebuilt) == 0 && R.Count(Shares(c, files, ch, nodes), R.Stuck) == 0
    ensures Writes(c, files, ch, nodes) == map[]
  {
    MissingAre(c, files, ch, nodes, |nodes|);
    NoMembers(Missing(c, files, ch, nodes));
    ChunkStuckIff(c, files, ch, nodes);
  }
}
