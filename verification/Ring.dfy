/** The consistent-hash ring: which nodes own a partition, in preference order. Where a node's virtual
    nodes sit is a parameter, since all that is used of the hash is that it is a function. */
module Ring {
  import opened Basics

  type Node = string

  const PARTITIONS := 256
  const PARTITION_SPAN := 0x100_0000_0000_0000

  datatype VNode = VNode(pos: nat, node: Node)

  type Hash = (Node, nat) -> nat

  /** The virtual nodes of one member. */
  function VNodesOf(hash: Hash, node: Node, count: nat): (vs: seq<VNode>)
    ensures |vs| == count && forall i :: 0 <= i < count ==> vs[i] == VNode(hash(node, i), node)
  {
    seq(count, i requires 0 <= i < count => VNode(hash(node, i), node))
  }

  function AllVNodes(hash: Hash, nodes: seq<Node>, count: nat): seq<VNode> {
    if nodes == [] then [] else AllVNodes(hash, nodes[..|nodes| - 1], count) + VNodesOf(hash, nodes[|nodes| - 1], count)
  }

  predicate Sorted(vs: seq<VNode>) {
    forall i, j :: 0 <= i < j < |vs| ==> vs[i].pos <= vs[j].pos
  }

  /** What building a ring promises: the members' virtual nodes, ordered by position. The sort is not
      stable, so how ties fall is left open. */
  ghost predicate IsRing(vs: seq<VNode>, hash: Hash, nodes: seq<Node>, count: nat) {
    Sorted(vs) && multiset(vs) == multiset(AllVNodes(hash, nodes, count))
  }

  /** Two different members never claim one position. */
  ghost predicate NoTies(hash: Hash, nodes: seq<Node>, count: nat) {
    forall a, b, i: nat, j: nat :: a in nodes && b in nodes && i < count && j < count && hash(a, i) == hash(b, j)
      ==> a == b
  }

  function Insert(v: VNode, vs: seq<VNode>): (r: seq<VNode>) {
    if vs == [] || v.pos <= vs[0].pos then [v] + vs else [vs[0]] + Insert(v, vs[1..])
  }

  lemma {:induction false} InsertKeeps(v: VNode, vs: seq<VNode>)
    ensures multiset(Insert(v, vs)) == multiset(vs) + multiset{v}
  {
    if vs != [] && v.pos > vs[0].pos {
      InsertKeeps(v, vs[1..]);
      assert vs == [vs[0]] + vs[1..];
    }
  }

  lemma {:induction false} InsertSorts(v: VNode, vs: seq<VNode>)
    requires Sorted(vs)
    ensures Sorted(Insert(v, vs))
  {
    if vs != [] && v.pos > vs[0].pos {
      InsertSorts(v, vs[1..]);
      var rest := Insert(v, vs[1..]);
      forall x | x in rest ensures vs[0].pos <= x.pos {
        InsertKeeps(v, vs[1..]);
        assert x in multiset(rest);
        assert x == v || x in vs[1..];
      }
    }
  }

  /** Stands for the library sort. */
  function SortByPos(vs: seq<VNode>): (r: seq<VNode>)
    ensures Sorted(r) && multiset(r) == multiset(vs)
  {
    if vs == [] then []
    else
      var rest := SortByPos(vs[1..]);
      InsertSorts(vs[0], rest);
      InsertKeeps(vs[0], rest);
      assert vs == [vs[0]] + vs[1..];
      Insert(vs[0], rest)
  }

  method New(hash: Hash, nodes: seq<Node>, count: nat) returns (vs: seq<VNode>)
    ensures IsRing(vs, hash, nodes, count)
  {
    vs := [];
    for n := 0 to |nodes|
      invariant vs == AllVNodes(hash, nodes[..n], count)
    {
      ghost var before := vs;
      for i := 0 to count
        invariant vs == before + VNodesOf(hash, nodes[n], count)[..i]
      {
        vs := vs + [VNode(hash(nodes[n], i), nodes[n])];
      }
      assert nodes[..n + 1][..n] == nodes[..n];
    }
    assert nodes[..|nodes|] == nodes;
    vs := SortByPos(vs);
  }

  datatype Filter = AtLeast(pos: nat) | Under(pos: nat) | NotOf(node: Node) {
    predicate Keeps(v: VNode) {
      match this
      case AtLeast(pos) => v.pos >= pos
      case Under(pos) => v.pos < pos
      case NotOf(node) => v.node != node
    }
  }

  function Select(vs: seq<VNode>, f: Filter): seq<VNode> {
    if vs == [] then []
    else Select(vs[..|vs| - 1], f) + if f.Keeps(vs[|vs| - 1]) then [vs[|vs| - 1]] else []
  }

  lemma {:induction false} SelectMembers(vs: seq<VNode>, f: Filter, v: VNode)
    ensures v in Select(vs, f) <==> v in vs && f.Keeps(v)
  {
    if vs != [] {
      SelectMembers(vs[..|vs| - 1], f, v);
      assert vs == vs[..|vs| - 1] + [vs[|vs| - 1]];
    }
  }

  /** One lap clockwise from a position. */
  function Lap(vs: seq<VNode>, from: nat): seq<VNode> {
    Select(vs, AtLeast(from)) + Select(vs, Under(from))
  }

  function NodesOf(vs: seq<VNode>): (r: seq<Node>)
    ensures |r| == |vs| && forall i :: 0 <= i < |vs| ==> r[i] == vs[i].node
  {
    seq(|vs|, i requires 0 <= i < |vs| => vs[i].node)
  }

  /** Each node once, in order of first appearance. */
  function Firsts(s: seq<Node>): seq<Node> {
    if s == [] then []
    else
      var r := Firsts(s[..|s| - 1]);
      if s[|s| - 1] in r then r else r + [s[|s| - 1]]
  }

  lemma {:induction false} FirstsMembers(s: seq<Node>, n: Node)
    ensures n in Firsts(s) <==> n in s
  {
    if s != [] {
      FirstsMembers(s[..|s| - 1], n);
      assert s == s[..|s| - 1] + [s[|s| - 1]];
    }
  }

  lemma {:induction false} FirstsDistinct(s: seq<Node>)
    ensures Distinct(Firsts(s))
  {
    if s != [] { FirstsDistinct(s[..|s| - 1]); }
  }

  /** A partition's first position: the top byte of a 64-bit position is the partition. */
  function Target(p: int): nat { (p % PARTITIONS) * PARTITION_SPAN }

  /** The partition of a key, from its position on the ring. */
  function PartitionOf(pos: nat): nat { pos / PARTITION_SPAN }

  /** A key's partition is the top byte of its 64-bit position, every partition is some key's, and a partition's
      span is where its keys lie: from its first position up to the next one's. */
  lemma PartitionIsSpan(pos: nat, p: nat)
    requires pos < 0x1_0000_0000_0000_0000 && p < 256
    ensures PartitionOf(pos) == pos / 0x100_0000_0000_0000 < 256
    ensures PartitionOf(pos) == p <==> p * 0x100_0000_0000_0000 <= pos < (p + 1) * 0x100_0000_0000_0000
    ensures Target(p) == p * 0x100_0000_0000_0000 && PartitionOf(Target(p)) == p
  {
    var q := PartitionOf(pos);
    assert q * PARTITION_SPAN <= pos < (q + 1) * PARTITION_SPAN;
    assert p % PARTITIONS == p;
  }

  /** Every node in the order in which a partition prefers it. */
  function Preference(vs: seq<VNode>, p: int): seq<Node> {
    Firsts(NodesOf(Lap(vs, Target(p))))
  }

  function Take(s: seq<Node>, n: int): (r: seq<Node>)
    ensures r <= s && |r| == if n <= 0 then 0 else if n <= |s| then n else |s|
  {
    if n <= 0 then [] else if n <= |s| then s[..n] else s
  }

  /** The first virtual node at or after a position, by binary search. */
  method LowerBound(vs: seq<VNode>, target: nat) returns (start: nat)
    requires Sorted(vs)
    ensures start <= |vs|
    ensures forall i :: 0 <= i < start ==> vs[i].pos < target
    ensures forall i :: start <= i < |vs| ==> vs[i].pos >= target
  {
    start := 0;
    var end := |vs|;
    while start < end
      invariant start <= end <= |vs|
      invariant forall i :: 0 <= i < start ==> vs[i].pos < target
      invariant forall i :: end <= i < |vs| ==> vs[i].pos >= target
    {
      var mid := (start + end) / 2;
      if vs[mid].pos < target { start := mid + 1; } else { end := mid; }
    }
  }

  lemma {:induction false} SelectAll(vs: seq<VNode>, f: Filter)
    requires forall v :: v in vs ==> f.Keeps(v)
    ensures Select(vs, f) == vs
  {
    if vs != [] {
      SelectAll(vs[..|vs| - 1], f);
      assert vs == vs[..|vs| - 1] + [vs[|vs| - 1]];
    }
  }

  lemma {:induction false} SelectNone(vs: seq<VNode>, f: Filter)
    requires forall v :: v in vs ==> !f.Keeps(v)
    ensures Select(vs, f) == []
  {
    if vs != [] { SelectNone(vs[..|vs| - 1], f); }
  }

  lemma {:induction false} SelectConcat(a: seq<VNode>, b: seq<VNode>, f: Filter)
    ensures Select(a + b, f) == Select(a, f) + Select(b, f)
  {
    if b == [] {
      assert a + b == a;
    } else {
      assert (a + b)[..|a + b| - 1] == a + b[..|b| - 1];
      SelectConcat(a, b[..|b| - 1], f);
    }
  }

  lemma {:induction false} SelectCommutes(vs: seq<VNode>, f: Filter, g: Filter)
    ensures Select(Select(vs, f), g) == Select(Select(vs, g), f)
  {
    if vs != [] {
      var v := vs[|vs| - 1];
      var front := vs[..|vs| - 1];
      SelectCommutes(front, f, g);
      SelectConcat(Select(front, f), if f.Keeps(v) then [v] else [], g);
      SelectConcat(Select(front, g), if g.Keeps(v) then [v] else [], f);
    }
  }

  lemma SelectHigh(low: seq<VNode>, high: seq<VNode>, target: nat)
    requires forall v :: v in low ==> v.pos < target
    requires forall v :: v in high ==> v.pos >= target
    ensures Select(low + high, AtLeast(target)) == high
  {
    var f := AtLeast(target);
    SelectConcat(low, high, f);
    SelectNone(low, f);
    SelectAll(high, f);
  }

  lemma SelectLow(low: seq<VNode>, high: seq<VNode>, target: nat)
    requires forall v :: v in low ==> v.pos < target
    requires forall v :: v in high ==> v.pos >= target
    ensures Select(low + high, Under(target)) == low
  {
    var f := Under(target);
    SelectConcat(low, high, f);
    SelectAll(low, f);
    SelectNone(high, f);
  }

  lemma SelectSplit(low: seq<VNode>, high: seq<VNode>, target: nat)
    requires forall v :: v in low ==> v.pos < target
    requires forall v :: v in high ==> v.pos >= target
    ensures Lap(low + high, target) == high + low
  {
    SelectHigh(low, high, target);
    SelectLow(low, high, target);
  }

  /** Turning the sorted ring at the lower bound is a lap from the target. */
  lemma TurnedIsLap(vs: seq<VNode>, target: nat, start: nat)
    requires start <= |vs|
    requires forall i :: 0 <= i < start ==> vs[i].pos < target
    requires forall i :: start <= i < |vs| ==> vs[i].pos >= target
    ensures vs[start..] + vs[..start] == Lap(vs, target)
  {
    assert vs == vs[..start] + vs[start..];
    SelectSplit(vs[..start], vs[start..], target);
  }

  /** The i-th step of the walk, which wraps round the end of the ring, is the i-th of the lap. */
  lemma WalkIsLap(vs: seq<VNode>, target: nat, start: nat, i: nat)
    requires start <= |vs| && i < |vs|
    requires vs[start..] + vs[..start] == Lap(vs, target)
    ensures |Lap(vs, target)| == |vs| && vs[(start + i) % |vs|] == Lap(vs, target)[i]
  {
    ModWrap(start + i, |vs|);
    assert (vs[start..] + vs[..start])[i] == if start + i < |vs| then vs[start + i] else vs[start + i - |vs|];
  }

  lemma ModWrap(x: nat, m: nat)
    requires m > 0 && x < 2 * m
    ensures x % m == if x < m then x else x - m
  {
    if x >= m { assert x == m + (x - m); }
  }

  lemma {:induction false} FirstsGrow(s: seq<Node>, i: nat)
    requires i <= |s|
    ensures Firsts(s[..i]) <= Firsts(s)
    decreases |s|
  {
    if i < |s| {
      FirstsGrow(s[..|s| - 1], i);
      assert s[..|s| - 1][..i] == s[..i];
    } else {
      assert s[..i] == s;
    }
  }

  lemma FirstsNext(s: seq<Node>, i: nat)
    requires i < |s|
    ensures Firsts(s[..i + 1]) == if s[i] in Firsts(s[..i]) then Firsts(s[..i]) else Firsts(s[..i]) + [s[i]]
  {
    assert s[..i + 1][..i] == s[..i];
  }

  method Owners(vs: seq<VNode>, p: int, n: int) returns (owners: seq<Node>)
    requires Sorted(vs)
    ensures owners == Take(Preference(vs, p), n)
  {
    if |vs| == 0 || n <= 0 {
      assert vs == [] ==> Preference(vs, p) == [];
      return [];
    }
    var start := LowerBound(vs, Target(p));
    TurnedIsLap(vs, Target(p), start);
    ghost var lap := NodesOf(Lap(vs, Target(p)));
    WalkIsLap(vs, Target(p), start, 0);
    owners := [];
    for i := 0 to |vs|
      invariant owners == Firsts(lap[..i]) && |owners| < n
    {
      WalkIsLap(vs, Target(p), start, i);
      FirstsNext(lap, i);
      var node := vs[(start + i) % |vs|].node;
      if node !in owners {
        owners := owners + [node];
        if |owners| == n {
          FirstsGrow(lap, i + 1);
          return;
        }
      }
    }
    assert lap[..|vs|] == lap;
  }

  // Who owns a partition

  lemma {:induction false} FirstsHead(s: seq<Node>)
    requires s != []
    ensures Firsts(s) != [] && Firsts(s)[0] == s[0]
  {
    if |s| > 1 { FirstsHead(s[..|s| - 1]); } else { assert Firsts(s[..0]) == []; }
  }

  /** A partition's first owner is the node of the first virtual node at or after the partition's span, and of
      the lowest one if there is none. */
  lemma FirstOwner(vs: seq<VNode>, p: nat, n: nat, start: nat)
    requires Sorted(vs) && start < |vs| && p < 256 && n > 0
    requires if vs[|vs| - 1].pos < p * 0x100_0000_0000_0000 then start == 0
             else vs[start].pos >= p * 0x100_0000_0000_0000
                  && forall i :: 0 <= i < start ==> vs[i].pos < p * 0x100_0000_0000_0000
    ensures var owners := Take(Preference(vs, p), n); owners != [] && owners[0] == vs[start].node
  {
    var t := Target(p);
    PartitionIsSpan(0, p);
    var turn := if vs[|vs| - 1].pos < t then |vs| else start;
    TurnedIsLap(vs, t, turn);
    assert Lap(vs, t)[0] == vs[start];
    FirstsHead(NodesOf(Lap(vs, t)));
  }

  lemma {:induction false} AllVNodesMembers(hash: Hash, nodes: seq<Node>, count: nat, v: VNode)
    ensures v in AllVNodes(hash, nodes, count)
            <==> v.node in nodes && exists i: nat :: i < count && v.pos == hash(v.node, i)
  {
    if nodes != [] {
      var n := nodes[|nodes| - 1];
      assert nodes == nodes[..|nodes| - 1] + [n];
      AllVNodesMembers(hash, nodes[..|nodes| - 1], count, v);
      if v in VNodesOf(hash, n, count) {
        var i: nat :| i < count && VNodesOf(hash, n, count)[i] == v;
        assert v.pos == hash(v.node, i);
      }
      if v.node == n && exists i: nat :: i < count && v.pos == hash(v.node, i) {
        var i: nat :| i < count && v.pos == hash(v.node, i);
        assert VNodesOf(hash, n, count)[i] == v;
      }
    }
  }

  lemma RingMembers(vs: seq<VNode>, hash: Hash, nodes: seq<Node>, count: nat, v: VNode)
    requires IsRing(vs, hash, nodes, count)
    ensures v in vs <==> v.node in nodes && exists i: nat :: i < count && v.pos == hash(v.node, i)
  {
    AllVNodesMembers(hash, nodes, count, v);
    assert v in vs <==> v in multiset(vs);
    assert v in AllVNodes(hash, nodes, count) <==> v in multiset(AllVNodes(hash, nodes, count));
  }

  lemma LapMembers(vs: seq<VNode>, from: nat, n: Node)
    ensures n in NodesOf(Lap(vs, from)) <==> exists v :: v in vs && v.node == n
  {
    var lap := Lap(vs, from);
    forall v ensures v in lap <==> v in vs {
      SelectMembers(vs, AtLeast(from), v);
      SelectMembers(vs, Under(from), v);
    }
    if n in NodesOf(lap) {
      var i :| 0 <= i < |lap| && NodesOf(lap)[i] == n;
      assert lap[i] in vs;
    }
    if v :| v in vs && v.node == n {
      var i :| 0 <= i < |lap| && lap[i] == v;
      assert NodesOf(lap)[i] == n;
    }
  }

  /** Every member, and nobody else, is somewhere in a partition's preference, once. */
  lemma PreferenceIsMembers(vs: seq<VNode>, hash: Hash, nodes: seq<Node>, count: nat, p: int)
    requires IsRing(vs, hash, nodes, count) && count > 0
    ensures Distinct(Preference(vs, p))
    ensures forall n :: n in Preference(vs, p) <==> n in nodes
  {
    FirstsDistinct(NodesOf(Lap(vs, Target(p))));
    forall n ensures n in Preference(vs, p) <==> n in nodes {
      FirstsMembers(NodesOf(Lap(vs, Target(p))), n);
      LapMembers(vs, Target(p), n);
      if n in nodes { RingMembers(vs, hash, nodes, count, VNode(hash(n, 0), n)); }
      forall v | v in vs && v.node == n ensures n in nodes { RingMembers(vs, hash, nodes, count, v); }
    }
  }

  lemma {:induction false} DistinctSize(s: seq<Node>)
    requires Distinct(s)
    ensures |set n | n in s| == |s|
  {
    if s != [] {
      var front := s[..|s| - 1];
      DistinctSize(front);
      assert (set n | n in s) == (set n | n in front) + {s[|s| - 1]};
    }
  }

  /** Owners are distinct members, and fewer than asked for only when the cluster is smaller. */
  lemma OwnersAreEnough(vs: seq<VNode>, hash: Hash, nodes: seq<Node>, count: nat, p: int, n: nat)
    requires IsRing(vs, hash, nodes, count) && count > 0
    ensures var owners := Take(Preference(vs, p), n);
            && Distinct(owners)
            && (forall o :: o in owners ==> o in nodes)
            && |owners| == if n <= |set m | m in nodes| then n else |set m | m in nodes|
  {
    PreferenceIsMembers(vs, hash, nodes, count, p);
    DistinctSize(Preference(vs, p));
    assert (set m | m in nodes) == (set m | m in Preference(vs, p));
  }

  /** Asking for more owners only adds to the end of the list. */
  lemma OwnersGrow(vs: seq<VNode>, p: int, k: int, n: int)
    requires k <= n
    ensures Take(Preference(vs, p), k) <= Take(Preference(vs, p), n)
  {
  }

  // Which ring the members make

  predicate TieFree(vs: seq<VNode>) {
    forall v, w :: v in vs && w in vs && v.pos == w.pos ==> v == w
  }

  lemma SortedHead(a: seq<VNode>, b: seq<VNode>)
    requires a != [] && b != [] && Sorted(a) && Sorted(b) && multiset(a) == multiset(b)
    ensures a[0].pos == b[0].pos && a[0] in b && b[0] in a
  {
    assert a[0] in multiset(b) && b[0] in multiset(a);
  }

  lemma Cancel<T>(a: multiset<T>, b: multiset<T>, t: T)
    requires a + multiset{t} == b + multiset{t}
    ensures a == b
  {
    assert a == a + multiset{t} - multiset{t};
    assert b == b + multiset{t} - multiset{t};
  }

  lemma MultisetTail(a: seq<VNode>)
    requires a != []
    ensures multiset(a) == multiset(a[1..]) + multiset{a[0]}
  {
    assert a == [a[0]] + a[1..];
  }

  lemma SortedTails(a: seq<VNode>, b: seq<VNode>)
    requires a != [] && b != [] && Sorted(a) && Sorted(b) && multiset(a) == multiset(b) && TieFree(a)
    ensures a[0] == b[0] && multiset(a[1..]) == multiset(b[1..])
    ensures Sorted(a[1..]) && Sorted(b[1..]) && TieFree(a[1..])
  {
    SortedHead(a, b);
    assert a[0] == b[0];
    MultisetTail(a);
    MultisetTail(b);
    Cancel(multiset(a[1..]), multiset(b[1..]), a[0]);
    assert forall v :: v in a[1..] ==> v in a;
  }

  /** Sorted lists of the same tie-free virtual nodes are one list. */
  lemma {:induction false} SortedUnique(a: seq<VNode>, b: seq<VNode>)
    requires Sorted(a) && Sorted(b) && multiset(a) == multiset(b) && TieFree(a)
    ensures a == b
  {
    assert |a| == |multiset(a)| == |multiset(b)| == |b|;
    if a != [] {
      SortedTails(a, b);
      SortedUnique(a[1..], b[1..]);
      assert a == [a[0]] + a[1..] && b == [b[0]] + b[1..];
    }
  }

  lemma NoTiesIsTieFree(vs: seq<VNode>, hash: Hash, nodes: seq<Node>, count: nat)
    requires IsRing(vs, hash, nodes, count)
    ensures NoTies(hash, nodes, count) <==> TieFree(vs)
  {
    if NoTies(hash, nodes, count) {
      forall v, w | v in vs && w in vs && v.pos == w.pos ensures v == w {
        RingMembers(vs, hash, nodes, count, v);
        RingMembers(vs, hash, nodes, count, w);
      }
    }
    if TieFree(vs) {
      forall a, b, i: nat, j: nat | a in nodes && b in nodes && i < count && j < count && hash(a, i) == hash(b, j)
        ensures a == b
      {
        RingMembers(vs, hash, nodes, count, VNode(hash(a, i), a));
        RingMembers(vs, hash, nodes, count, VNode(hash(b, j), b));
      }
    }
  }

  lemma {:induction false} AllVNodesConcat(hash: Hash, a: seq<Node>, b: seq<Node>, count: nat)
    ensures AllVNodes(hash, a + b, count) == AllVNodes(hash, a, count) + AllVNodes(hash, b, count)
  {
    if b == [] {
      assert a + b == a;
    } else {
      assert (a + b)[..|a + b| - 1] == a + b[..|b| - 1];
      AllVNodesConcat(hash, a, b[..|b| - 1], count);
    }
  }

  lemma AllVNodesMoved(hash: Hash, x: seq<Node>, n: Node, y: seq<Node>, count: nat)
    ensures multiset(AllVNodes(hash, x + [n] + y, count)) == multiset(AllVNodes(hash, x + y + [n], count))
  {
    AllVNodesConcat(hash, x + [n], y, count);
    AllVNodesConcat(hash, x, [n], count);
    AllVNodesConcat(hash, x + y, [n], count);
    AllVNodesConcat(hash, x, y, count);
  }

  lemma {:induction false} AllVNodesReordered(hash: Hash, a: seq<Node>, b: seq<Node>, count: nat)
    requires multiset(a) == multiset(b)
    ensures multiset(AllVNodes(hash, a, count)) == multiset(AllVNodes(hash, b, count))
    decreases |a|
  {
    assert |a| == |multiset(a)| == |multiset(b)| == |b|;
    if a != [] {
      var n := a[|a| - 1];
      var front := a[..|a| - 1];
      assert a == front + [n];
      assert n in multiset(b);
      var i :| 0 <= i < |b| && b[i] == n;
      var x, y := b[..i], b[i + 1..];
      assert b == x + [n] + y;
      Cancel(multiset(front), multiset(x + y), n);
      AllVNodesReordered(hash, front, x + y, count);
      AllVNodesMoved(hash, x, n, y, count);
      AllVNodesConcat(hash, front, [n], count);
      AllVNodesConcat(hash, x + y, [n], count);
    }
  }

  lemma TieSwapped(vs: seq<VNode>, i: nat, j: nat)
    requires i < |vs| && j < |vs| && Sorted(vs) && vs[i].pos == vs[j].pos && vs[i] != vs[j]
    ensures exists ws :: Sorted(ws) && multiset(ws) == multiset(vs) && ws != vs
  {
    var ws := vs[i := vs[j]][j := vs[i]];
    assert ws[i] != vs[i];
    assert Sorted(ws) && multiset(ws) == multiset(vs);
  }

  lemma SameRing(hash: Hash, nodes: seq<Node>, order: seq<Node>, count: nat, a: seq<VNode>, b: seq<VNode>)
    requires NoTies(hash, nodes, count) && multiset(order) == multiset(nodes)
    requires IsRing(a, hash, nodes, count) && IsRing(b, hash, order, count)
    ensures a == b
  {
    AllVNodesReordered(hash, nodes, order, count);
    NoTiesIsTieFree(a, hash, nodes, count);
    SortedUnique(a, b);
  }

  lemma TwoRings(hash: Hash, nodes: seq<Node>, count: nat)
    requires !NoTies(hash, nodes, count)
    ensures exists a, b :: IsRing(a, hash, nodes, count) && IsRing(b, hash, nodes, count) && a != b
  {
    var a := SortByPos(AllVNodes(hash, nodes, count));
    NoTiesIsTieFree(a, hash, nodes, count);
    var v, w :| v in a && w in a && v.pos == w.pos && v != w;
    var i: nat :| i < |a| && a[i] == v;
    var j: nat :| j < |a| && a[j] == w;
    TieSwapped(a, i, j);
    var b :| Sorted(b) && multiset(b) == multiset(a) && b != a;
    assert IsRing(a, hash, nodes, count) && IsRing(b, hash, nodes, count);
  }

  /** The members determine their ring, whatever order they are listed in and however the sort treats
      ties. */
  ghost predicate RingDetermined(hash: Hash, nodes: seq<Node>, count: nat) {
    forall order, a, b ::
      multiset(order) == multiset(nodes) && IsRing(a, hash, nodes, count) && IsRing(b, hash, order, count) ==> a == b
  }

  /** They do exactly when no two of them share a position. */
  lemma RingDeterminedIffNoTies(hash: Hash, nodes: seq<Node>, count: nat)
    ensures RingDetermined(hash, nodes, count) <==> NoTies(hash, nodes, count)
  {
    if NoTies(hash, nodes, count) {
      forall order, a, b |
        multiset(order) == multiset(nodes) && IsRing(a, hash, nodes, count) && IsRing(b, hash, order, count)
        ensures a == b
      {
        SameRing(hash, nodes, order, count, a, b);
      }
    } else {
      TwoRings(hash, nodes, count);
    }
  }

  // Joining and leaving

  function Without(s: seq<Node>, x: Node): seq<Node> {
    if s == [] then []
    else Without(s[..|s| - 1], x) + if s[|s| - 1] != x then [s[|s| - 1]] else []
  }

  lemma {:induction false} WithoutMembers(s: seq<Node>, x: Node, n: Node)
    ensures n in Without(s, x) <==> n in s && n != x
  {
    if s != [] {
      WithoutMembers(s[..|s| - 1], x, n);
      assert s == s[..|s| - 1] + [s[|s| - 1]];
    }
  }

  lemma {:induction false} WithoutConcat(s: seq<Node>, t: seq<Node>, x: Node)
    ensures Without(s + t, x) == Without(s, x) + Without(t, x)
  {
    if t == [] {
      assert s + t == s;
    } else {
      assert (s + t)[..|s + t| - 1] == s + t[..|t| - 1];
      WithoutConcat(s, t[..|t| - 1], x);
    }
  }

  lemma {:induction false} WithoutAbsent(s: seq<Node>, x: Node)
    requires x !in s
    ensures Without(s, x) == s
  {
    if s != [] {
      WithoutAbsent(s[..|s| - 1], x);
      assert s == s[..|s| - 1] + [s[|s| - 1]];
    }
  }

  lemma FirstsSnoc(s: seq<Node>, n: Node)
    ensures Firsts(s + [n]) == if n in Firsts(s) then Firsts(s) else Firsts(s) + [n]
  {
    assert (s + [n])[..|s|] == s;
  }

  lemma WithoutSnoc(s: seq<Node>, n: Node, x: Node)
    ensures Without(s + [n], x) == Without(s, x) + if n != x then [n] else []
  {
    assert (s + [n])[..|s|] == s;
  }

  lemma {:induction false} FirstsWithout(s: seq<Node>, x: Node)
    ensures Without(Firsts(s), x) == Firsts(Without(s, x))
  {
    if s != [] {
      var front, n := s[..|s| - 1], s[|s| - 1];
      FirstsWithout(front, x);
      var r := Firsts(front);
      WithoutMembers(r, x, n);
      WithoutSnoc(r, n, x);
      if n == x {
        assert Without(s, x) == Without(front, x);
      } else {
        assert Without(s, x) == Without(front, x) + [n];
        FirstsSnoc(Without(front, x), n);
      }
    }
  }

  lemma {:induction false} NodesWithout(vs: seq<VNode>, x: Node)
    ensures NodesOf(Select(vs, NotOf(x))) == Without(NodesOf(vs), x)
  {
    if vs != [] {
      NodesWithout(vs[..|vs| - 1], x);
      assert NodesOf(vs)[..|vs| - 1] == NodesOf(vs[..|vs| - 1]);
    }
  }

  /** Taking a node's positions off a ring takes the node out of every preference, and moves nobody. */
  lemma PreferenceWithout(vs: seq<VNode>, x: Node, p: int)
    ensures Preference(Select(vs, NotOf(x)), p) == Without(Preference(vs, p), x)
  {
    var t := Target(p);
    SelectCommutes(vs, NotOf(x), AtLeast(t));
    SelectCommutes(vs, NotOf(x), Under(t));
    SelectConcat(Select(vs, AtLeast(t)), Select(vs, Under(t)), NotOf(x));
    assert Lap(Select(vs, NotOf(x)), t) == Select(Lap(vs, t), NotOf(x));
    NodesWithout(Lap(vs, t), x);
    FirstsWithout(NodesOf(Lap(vs, t)), x);
  }

  lemma {:induction false} SelectSorted(vs: seq<VNode>, f: Filter)
    requires Sorted(vs)
    ensures Sorted(Select(vs, f))
  {
    if vs != [] {
      var front, v := vs[..|vs| - 1], vs[|vs| - 1];
      SelectSorted(front, f);
      forall w | w in Select(front, f) ensures w.pos <= v.pos { SelectMembers(front, f, w); }
    }
  }

  lemma {:induction false} SelectCount(vs: seq<VNode>, f: Filter, v: VNode)
    ensures multiset(Select(vs, f))[v] == if f.Keeps(v) then multiset(vs)[v] else 0
  {
    if vs != [] {
      var front, last := vs[..|vs| - 1], vs[|vs| - 1];
      SelectCount(front, f, v);
      assert multiset(vs) == multiset(front) + multiset{last} by { assert vs == front + [last]; }
      if f.Keeps(last) {
        assert multiset(Select(vs, f)) == multiset(Select(front, f)) + multiset{last};
      } else {
        assert Select(vs, f) == Select(front, f);
      }
    }
  }

  /** Without the positions of the node that joined, the new ring is a ring of the old members. */
  lemma RingWithout(vs: seq<VNode>, hash: Hash, nodes: seq<Node>, after: seq<Node>, x: Node, count: nat)
    requires IsRing(vs, hash, after, count) && multiset(after) == multiset(nodes + [x]) && x !in nodes
    ensures IsRing(Select(vs, NotOf(x)), hash, nodes, count)
  {
    var was := AllVNodes(hash, nodes, count);
    AllVNodesReordered(hash, after, nodes + [x], count);
    assert (nodes + [x])[..|nodes|] == nodes;
    assert multiset(vs) == multiset(was) + multiset(VNodesOf(hash, x, count));
    SelectSorted(vs, NotOf(x));
    forall v ensures multiset(Select(vs, NotOf(x)))[v] == multiset(was)[v] {
      SelectCount(vs, NotOf(x), v);
      AllVNodesMembers(hash, nodes, count, v);
      assert v in multiset(was) <==> v in was;
      assert v in multiset(VNodesOf(hash, x, count)) <==> v in VNodesOf(hash, x, count);
    }
    assert multiset(Select(vs, NotOf(x))) == multiset(was);
  }

  lemma WithoutPrefix(s: seq<Node>, n: nat, x: Node)
    requires n <= |s|
    ensures Without(s[..n], x) <= Without(s, x)
    ensures Distinct(s) ==> |Without(s[..n], x)| >= n - 1
  {
    assert s == s[..n] + s[n..];
    WithoutConcat(s[..n], s[n..], x);
    if Distinct(s) { WithoutOne(s[..n], x); }
  }

  lemma {:induction false} WithoutOne(s: seq<Node>, x: Node)
    requires Distinct(s)
    ensures |Without(s, x)| >= |s| - 1
  {
    if s != [] {
      if s[|s| - 1] == x { WithoutAbsent(s[..|s| - 1], x); } else { WithoutOne(s[..|s| - 1], x); }
    }
  }

  lemma TakeWithout(s: seq<Node>, x: Node, n: nat)
    requires Distinct(s)
    ensures var was, now := Take(Without(s, x), n), Take(s, n);
            Without(now, x) <= was && |Without(now, x)| >= |was| - 1 && (x !in now ==> now == was)
  {
    var k := if n <= |s| then n else |s|;
    assert Take(s, n) == s[..k];
    WithoutPrefix(s, k, x);
    if k == |s| { assert s[..k] == s; }
    if x !in s[..k] { WithoutAbsent(s[..k], x); }
    WithoutShorter(s[..k], x);
  }

  lemma {:induction false} WithoutShorter(s: seq<Node>, x: Node)
    ensures |Without(s, x)| <= |s|
  {
    if s != [] { WithoutShorter(s[..|s| - 1], x); }
  }
}
