/** When the sort's treatment of ties shows: a partition's owners depend on it exactly when two members come
    first, clockwise from the partition's start, at one position. */
module RingTies {
  import opened Basics
  import opened Ring

  /** Going clockwise from `t`, position `x` is passed before `y`. */
  predicate Sooner(t: nat, x: nat, y: nat) {
    if (x >= t) == (y >= t) then x < y else x >= t
  }

  /** Where a member is first met, clockwise from `t`. */
  ghost predicate Leads(hash: Hash, count: nat, n: Node, t: nat, x: nat) {
    && (exists i: nat :: i < count && hash(n, i) == x)
    && (forall i: nat :: i < count ==> !Sooner(t, hash(n, i), x))
  }

  /** No two members are first met at one position. */
  ghost predicate NoLeadTie(hash: Hash, nodes: seq<Node>, count: nat, t: nat) {
    forall a, b, x :: a in nodes && b in nodes && Leads(hash, count, a, t, x) && Leads(hash, count, b, t, x) ==> a == b
  }

  // A preference lists members in the order in which they are first met

  lemma FirstIndexIs(s: seq<Node>, n: Node, k: nat)
    requires k < |s| && s[k] == n && forall j :: 0 <= j < k ==> s[j] != n
    ensures FirstIndex(s, n) == k
  {
  }

  lemma FirstIndexFront(s: seq<Node>, n: Node)
    requires s != [] && n in s[..|s| - 1]
    ensures FirstIndex(s, n) == FirstIndex(s[..|s| - 1], n)
  {
    var front := s[..|s| - 1];
    var k := FirstIndex(front, n);
    FirstIndexIs(s, n, k);
  }

  lemma {:induction false} FirstsInOrder(s: seq<Node>, i: nat, j: nat)
    requires i < j < |Firsts(s)|
    ensures FirstIndex(s, Firsts(s)[i]) < FirstIndex(s, Firsts(s)[j]) < |s|
  {
    var front, n := s[..|s| - 1], s[|s| - 1];
    var r := Firsts(front);
    FirstsMembers(front, Firsts(s)[i]);
    FirstsMembers(front, n);
    FirstIndexFront(s, Firsts(s)[i]);
    if j < |r| {
      FirstsInOrder(front, i, j);
      FirstsMembers(front, r[j]);
      FirstIndexFront(s, r[j]);
    } else {
      assert s == front + [n];
      FirstIndexIs(s, n, |s| - 1);
    }
  }

  /** A lap meets positions in their order. */
  lemma LapInOrder(vs: seq<VNode>, t: nat, i: nat, j: nat)
    requires Sorted(vs) && i < j < |Lap(vs, t)|
    ensures !Sooner(t, Lap(vs, t)[j].pos, Lap(vs, t)[i].pos)
  {
    var high, low := Select(vs, AtLeast(t)), Select(vs, Under(t));
    SelectSorted(vs, AtLeast(t));
    SelectSorted(vs, Under(t));
    var v, w := Lap(vs, t)[i], Lap(vs, t)[j];
    if i < |high| { assert v in high; SelectMembers(vs, AtLeast(t), v); }
    else { assert v == low[i - |high|] && v in low; SelectMembers(vs, Under(t), v); }
    if j < |high| { assert w in high; SelectMembers(vs, AtLeast(t), w); }
    else { assert w == low[j - |high|] && w in low; SelectMembers(vs, Under(t), w); }
  }

  lemma LapHolds(vs: seq<VNode>, t: nat, v: VNode)
    ensures v in Lap(vs, t) <==> v in vs
  {
    SelectMembers(vs, AtLeast(t), v);
    SelectMembers(vs, Under(t), v);
  }

  lemma MetBy(vs: seq<VNode>, hash: Hash, nodes: seq<Node>, count: nat, t: nat, n: Node, i: nat)
    requires IsRing(vs, hash, nodes, count) && n in nodes && i < count
    ensures var lap := Lap(vs, t); var k := FirstIndex(NodesOf(lap), n);
            k < |lap| && !Sooner(t, hash(n, i), lap[k].pos)
  {
    var lap := Lap(vs, t);
    var names, v := NodesOf(lap), VNode(hash(n, i), n);
    RingMembers(vs, hash, nodes, count, v);
    LapHolds(vs, t, v);
    var m :| 0 <= m < |lap| && lap[m] == v;
    assert names[m] == n;
    var k := FirstIndex(names, n);
    if k < m { LapInOrder(vs, t, k, m); }
  }

  /** A member is first met where it leads. */
  lemma MetWhereItLeads(vs: seq<VNode>, hash: Hash, nodes: seq<Node>, count: nat, t: nat, n: Node)
    requires IsRing(vs, hash, nodes, count) && n in nodes && count > 0
    ensures var lap := Lap(vs, t); var k := FirstIndex(NodesOf(lap), n);
            k < |lap| && lap[k].node == n && Leads(hash, count, n, t, lap[k].pos)
  {
    var lap := Lap(vs, t);
    var k := FirstIndex(NodesOf(lap), n);
    MetBy(vs, hash, nodes, count, t, n, 0);
    forall i: nat | i < count ensures !Sooner(t, hash(n, i), lap[k].pos) { MetBy(vs, hash, nodes, count, t, n, i); }
    LapHolds(vs, t, lap[k]);
    RingMembers(vs, hash, nodes, count, lap[k]);
  }

  lemma LeadUnique(hash: Hash, count: nat, n: Node, t: nat, x: nat, y: nat)
    requires Leads(hash, count, n, t, x) && Leads(hash, count, n, t, y)
    ensures x == y
  {
  }

  // Without a tie between leads the order is determined

  ghost predicate Earlier(hash: Hash, count: nat, t: nat, a: Node, b: Node) {
    exists x, y :: Leads(hash, count, a, t, x) && Leads(hash, count, b, t, y) && Sooner(t, x, y)
  }

  lemma EarlierOneWay(hash: Hash, count: nat, t: nat, a: Node, b: Node)
    requires Earlier(hash, count, t, a, b)
    ensures !Earlier(hash, count, t, b, a)
  {
    var x, y :| Leads(hash, count, a, t, x) && Leads(hash, count, b, t, y) && Sooner(t, x, y);
    forall u, v | Leads(hash, count, b, t, u) && Leads(hash, count, a, t, v) ensures !Sooner(t, u, v) {
      LeadUnique(hash, count, b, t, u, y);
      LeadUnique(hash, count, a, t, v, x);
    }
  }

  /** Members in the order in which they are met. */
  ghost predicate InOrder(hash: Hash, count: nat, t: nat, s: seq<Node>) {
    forall i, j :: 0 <= i < j < |s| ==> Earlier(hash, count, t, s[i], s[j])
  }

  lemma PreferenceInOrder(vs: seq<VNode>, hash: Hash, nodes: seq<Node>, count: nat, p: int)
    requires IsRing(vs, hash, nodes, count) && count > 0 && NoLeadTie(hash, nodes, count, Target(p))
    ensures InOrder(hash, count, Target(p), Preference(vs, p))
  {
    var t, r := Target(p), Preference(vs, p);
    var lap := Lap(vs, t);
    PreferenceIsMembers(vs, hash, nodes, count, p);
    forall i, j | 0 <= i < j < |r| ensures Earlier(hash, count, t, r[i], r[j]) {
      FirstsInOrder(NodesOf(lap), i, j);
      assert r[i] in nodes && r[j] in nodes;
      MetWhereItLeads(vs, hash, nodes, count, t, r[i]);
      MetWhereItLeads(vs, hash, nodes, count, t, r[j]);
      LapInOrder(vs, t, FirstIndex(NodesOf(lap), r[i]), FirstIndex(NodesOf(lap), r[j]));
    }
  }

  /** How far round the ring of 64-bit positions a position lies, clockwise from a partition's start. */
  function Clockwise(p: nat, pos: nat): nat
    requires p < 256
  {
    (pos + 0x1_0000_0000_0000_0000 - p * 0x100_0000_0000_0000) % 0x1_0000_0000_0000_0000
  }

  lemma SoonerIsNearer(p: nat, x: nat, y: nat)
    requires p < 256 && x < 0x1_0000_0000_0000_0000 && y < 0x1_0000_0000_0000_0000
    ensures Sooner(Target(p), x, y) <==> Clockwise(p, x) < Clockwise(p, y)
  {
    PartitionIsSpan(x, p);
    ClockwiseIs(p, x);
    ClockwiseIs(p, y);
  }

  lemma ClockwiseIs(p: nat, x: nat)
    requires p < 256 && x < 0x1_0000_0000_0000_0000
    ensures var t := p * 0x100_0000_0000_0000;
            Clockwise(p, x) == if x >= t then x - t else x + 0x1_0000_0000_0000_0000 - t
  {
  }

  /** Owners are the members nearest the partition's start, nearest first: each has a virtual node no farther
      clockwise than any of those of a member that is not an owner before it. */
  lemma OwnersAreNearest(vs: seq<VNode>, hash: Hash, nodes: seq<Node>, count: nat, p: nat, n: int,
                         i: nat, b: Node, l: nat)
    returns (k: nat)
    requires IsRing(vs, hash, nodes, count) && p < 256
    requires forall m, j: nat :: m in nodes && j < count ==> hash(m, j) < 0x1_0000_0000_0000_0000
    requires i < |Take(Preference(vs, p), n)| && b in nodes && b !in Take(Preference(vs, p), n)[..i] && l < count
    ensures var owner := Take(Preference(vs, p), n)[i];
            owner in nodes && k < count && Clockwise(p, hash(owner, k)) <= Clockwise(p, hash(b, l))
  {
    var t, r := Target(p), Preference(vs, p);
    var names, owner := NodesOf(Lap(vs, t)), r[i];
    PreferenceIsMembers(vs, hash, nodes, count, p);
    assert owner in r;
    MetWhereItLeads(vs, hash, nodes, count, t, owner);
    MetWhereItLeads(vs, hash, nodes, count, t, b);
    var x, y := Lap(vs, t)[FirstIndex(names, owner)].pos, Lap(vs, t)[FirstIndex(names, b)].pos;
    assert !Sooner(t, y, x) by {
      assert b in r;
      var j :| 0 <= j < |r| && r[j] == b;
      assert Take(r, n)[..i] == r[..i];
      if i < j {
        FirstsInOrder(names, i, j);
        LapInOrder(vs, t, FirstIndex(names, owner), FirstIndex(names, b));
      }
    }
    k :| k < count && hash(owner, k) == x;
    SoonerIsNearer(p, y, x);
    SoonerIsNearer(p, hash(b, l), y);
  }

  lemma {:induction false} OrderUnique(hash: Hash, count: nat, t: nat, a: seq<Node>, b: seq<Node>)
    requires Distinct(a) && Distinct(b) && (forall n :: n in a <==> n in b)
    requires InOrder(hash, count, t, a) && InOrder(hash, count, t, b)
    ensures a == b
    decreases |a|
  {
    if a == [] {
      NoMembers(b);
    } else {
      SameHead(hash, count, t, a, b);
      TailMembers(a, b);
      OrderUnique(hash, count, t, a[1..], b[1..]);
      assert a == [a[0]] + a[1..] && b == [b[0]] + b[1..];
    }
  }

  lemma NoMembers(s: seq<Node>)
    ensures s == [] <==> forall n :: n !in s
  {
    if s != [] { assert s[0] in s; }
  }

  lemma SameHead(hash: Hash, count: nat, t: nat, a: seq<Node>, b: seq<Node>)
    requires a != [] && (forall n :: n in a <==> n in b)
    requires InOrder(hash, count, t, a) && InOrder(hash, count, t, b)
    ensures b != [] && a[0] == b[0]
  {
    assert a[0] in a;
    var k :| 0 <= k < |b| && b[k] == a[0];
    assert b[0] in b;
    var m :| 0 <= m < |a| && a[m] == b[0];
    if k > 0 && m > 0 { EarlierOneWay(hash, count, t, b[0], a[0]); }
  }

  lemma TailMembers(a: seq<Node>, b: seq<Node>)
    requires a != [] && b != [] && a[0] == b[0] && Distinct(a) && Distinct(b) && forall n :: n in a <==> n in b
    ensures Distinct(a[1..]) && Distinct(b[1..]) && forall n :: n in a[1..] <==> n in b[1..]
  {
    forall n ensures n in a[1..] <==> n in a && n != a[0] {
      if n in a && n != a[0] {
        var i :| 0 <= i < |a| && a[i] == n;
        assert a[1..][i - 1] == n;
      }
    }
    forall n ensures n in b[1..] <==> n in b && n != b[0] {
      if n in b && n != b[0] {
        var i :| 0 <= i < |b| && b[i] == n;
        assert b[1..][i - 1] == n;
      }
    }
  }

  /** Members without positions make an empty ring. */
  lemma NoPositions(vs: seq<VNode>, hash: Hash, nodes: seq<Node>)
    requires IsRing(vs, hash, nodes, 0)
    ensures vs == []
  {
    forall v ensures v !in vs { RingMembers(vs, hash, nodes, 0, v); }
    NothingIn(vs);
  }

  lemma NothingIn(vs: seq<VNode>)
    ensures vs == [] <==> forall v :: v !in vs
  {
    if vs != [] { assert vs[0] in vs; }
  }

  lemma SamePreference(hash: Hash, nodes: seq<Node>, order: seq<Node>, count: nat, a: seq<VNode>, b: seq<VNode>, p: int)
    requires NoLeadTie(hash, nodes, count, Target(p)) && multiset(order) == multiset(nodes)
    requires IsRing(a, hash, nodes, count) && IsRing(b, hash, order, count)
    ensures Preference(a, p) == Preference(b, p)
  {
    AllVNodesReordered(hash, order, nodes, count);
    assert IsRing(b, hash, nodes, count);
    if count == 0 {
      NoPositions(a, hash, nodes);
      NoPositions(b, hash, nodes);
      return;
    }
    PreferenceIsMembers(a, hash, nodes, count, p);
    PreferenceIsMembers(b, hash, nodes, count, p);
    PreferenceInOrder(a, hash, nodes, count, p);
    PreferenceInOrder(b, hash, nodes, count, p);
    OrderUnique(hash, count, Target(p), Preference(a, p), Preference(b, p));
  }

  // With one, it is not

  lemma FirstsKeepOrder(s: seq<Node>, a: Node, b: Node)
    requires FirstIndex(s, a) < FirstIndex(s, b) < |s|
    ensures FirstIndex(Firsts(s), a) < FirstIndex(Firsts(s), b) < |Firsts(s)|
  {
    var r := Firsts(s);
    FirstsMembers(s, a);
    FirstsMembers(s, b);
    var i, j := FirstIndex(r, a), FirstIndex(r, b);
    if j < i { FirstsInOrder(s, j, i); }
  }

  /** Where the ring must be cut for a lap from `t`. */
  lemma {:induction false} CutPoint(vs: seq<VNode>, t: nat) returns (start: nat)
    requires Sorted(vs)
    ensures start <= |vs|
    ensures forall i :: 0 <= i < start ==> vs[i].pos < t
    ensures forall i :: start <= i < |vs| ==> vs[i].pos >= t
  {
    if vs == [] || vs[0].pos >= t {
      start := 0;
    } else {
      start := CutPoint(vs[1..], t);
      start := start + 1;
    }
  }

  /** The place on the ring of the k-th of a lap. */
  function PlaceOf(n: nat, start: nat, k: nat): nat
    requires start <= n && k < n
  {
    if k < n - start then start + k else k - (n - start)
  }

  lemma LapPlaces(vs: seq<VNode>, t: nat, start: nat, k: nat)
    requires start <= |vs| && k < |vs|
    requires forall i :: 0 <= i < start ==> vs[i].pos < t
    requires forall i :: start <= i < |vs| ==> vs[i].pos >= t
    ensures |Lap(vs, t)| == |vs| && Lap(vs, t)[k] == vs[PlaceOf(|vs|, start, k)]
  {
    TurnedIsLap(vs, t, start);
  }

  function Swapped<T>(s: seq<T>, i: nat, j: nat): (r: seq<T>)
    requires i < |s| && j < |s|
    ensures |r| == |s|
  {
    s[i := s[j]][j := s[i]]
  }

  /** Swapping two virtual nodes of one position swaps them in every lap. */
  lemma LapSwapped(vs: seq<VNode>, t: nat, start: nat, a: nat, b: nat)
    requires start <= |vs| && a < b < |vs|
    requires forall i :: 0 <= i < start ==> vs[i].pos < t
    requires forall i :: start <= i < |vs| ==> vs[i].pos >= t
    requires vs[PlaceOf(|vs|, start, a)].pos == vs[PlaceOf(|vs|, start, b)].pos
    ensures |Lap(vs, t)| == |vs|
    ensures var ws := Swapped(vs, PlaceOf(|vs|, start, a), PlaceOf(|vs|, start, b));
            Lap(ws, t) == Swapped(Lap(vs, t), a, b)
  {
    var ws := Swapped(vs, PlaceOf(|vs|, start, a), PlaceOf(|vs|, start, b));
    LapPlaces(vs, t, start, 0);
    LapPlaces(ws, t, start, 0);
    forall k: nat | k < |vs| ensures Lap(ws, t)[k] == Swapped(Lap(vs, t), a, b)[k] {
      LapPlaces(vs, t, start, k);
      LapPlaces(vs, t, start, a);
      LapPlaces(vs, t, start, b);
      LapPlaces(ws, t, start, k);
    }
  }

  /** Swapping the first `a` with the first `b` after it puts `b` first. */
  lemma FirstsSwapped(lap: seq<VNode>, a: Node, b: Node)
    requires FirstIndex(NodesOf(lap), a) < FirstIndex(NodesOf(lap), b) < |lap|
    ensures var swapped := Swapped(lap, FirstIndex(NodesOf(lap), a), FirstIndex(NodesOf(lap), b));
            FirstIndex(NodesOf(swapped), b) < FirstIndex(NodesOf(swapped), a) < |lap|
  {
    var i, j := FirstIndex(NodesOf(lap), a), FirstIndex(NodesOf(lap), b);
    var names := NodesOf(Swapped(lap, i, j));
    assert NodesOf(lap)[i] == a && NodesOf(lap)[j] == b;
    assert names[i] == b && names[j] == a;
    forall k | 0 <= k < i ensures names[k] != a && names[k] != b { assert names[k] == NodesOf(lap)[k]; }
    FirstIndexIs(names, b, i);
  }

  lemma SwapKeepsRing(vs: seq<VNode>, hash: Hash, nodes: seq<Node>, count: nat, i: nat, j: nat)
    requires IsRing(vs, hash, nodes, count) && i < |vs| && j < |vs| && vs[i].pos == vs[j].pos
    ensures IsRing(Swapped(vs, i, j), hash, nodes, count)
  {
    assert multiset(Swapped(vs, i, j)) == multiset(vs);
  }

  lemma SwappedRing(vs: seq<VNode>, hash: Hash, nodes: seq<Node>, count: nat, p: int, a: Node, b: Node)
    requires IsRing(vs, hash, nodes, count)
    requires var lap := Lap(vs, Target(p)); var i, j := FirstIndex(NodesOf(lap), a), FirstIndex(NodesOf(lap), b);
             i < j < |lap| && lap[i].pos == lap[j].pos
    ensures exists ws :: IsRing(ws, hash, nodes, count) && Preference(ws, p) != Preference(vs, p)
  {
    var t := Target(p);
    var lap := Lap(vs, t);
    var i, j := FirstIndex(NodesOf(lap), a), FirstIndex(NodesOf(lap), b);
    var start := CutPoint(vs, t);
    TurnedIsLap(vs, t, start);
    LapPlaces(vs, t, start, i);
    LapPlaces(vs, t, start, j);
    var x, y := PlaceOf(|vs|, start, i), PlaceOf(|vs|, start, j);
    var ws := Swapped(vs, x, y);
    SwapKeepsRing(vs, hash, nodes, count, x, y);
    LapSwapped(vs, t, start, i, j);
    FirstsKeepOrder(NodesOf(lap), a, b);
    FirstsSwapped(lap, a, b);
    FirstsKeepOrder(NodesOf(Lap(ws, t)), b, a);
  }

  lemma LeadTieShows(hash: Hash, nodes: seq<Node>, count: nat, p: int)
    requires !NoLeadTie(hash, nodes, count, Target(p))
    ensures exists a, b :: && IsRing(a, hash, nodes, count) && IsRing(b, hash, nodes, count)
                           && Preference(a, p) != Preference(b, p)
  {
    var t, vs := Target(p), SortByPos(AllVNodes(hash, nodes, count));
    assert IsRing(vs, hash, nodes, count);
    var a, b, x :| a in nodes && b in nodes && Leads(hash, count, a, t, x) && Leads(hash, count, b, t, x) && a != b;
    MetWhereItLeads(vs, hash, nodes, count, t, a);
    MetWhereItLeads(vs, hash, nodes, count, t, b);
    var lap := Lap(vs, t);
    var i, j := FirstIndex(NodesOf(lap), a), FirstIndex(NodesOf(lap), b);
    LeadUnique(hash, count, a, t, x, lap[i].pos);
    LeadUnique(hash, count, b, t, x, lap[j].pos);
    if i < j { SwappedRing(vs, hash, nodes, count, p, a, b); } else { SwappedRing(vs, hash, nodes, count, p, b, a); }
  }

  /** A partition's owners are the same whatever order the members are listed in and however the sort treats
      ties. */
  ghost predicate OwnersDetermined(hash: Hash, nodes: seq<Node>, count: nat, p: int) {
    forall order, a, b, n: int ::
      multiset(order) == multiset(nodes) && IsRing(a, hash, nodes, count) && IsRing(b, hash, order, count) ==>
        Take(Preference(a, p), n) == Take(Preference(b, p), n)
  }

  /** They are exactly when no two members are first met, from the partition's start on, at one position. */
  lemma OwnersDeterminedIff(hash: Hash, nodes: seq<Node>, count: nat, p: int)
    ensures OwnersDetermined(hash, nodes, count, p) <==> NoLeadTie(hash, nodes, count, Target(p))
  {
    if NoLeadTie(hash, nodes, count, Target(p)) {
      forall order, a, b, n: int |
        multiset(order) == multiset(nodes) && IsRing(a, hash, nodes, count) && IsRing(b, hash, order, count)
        ensures Take(Preference(a, p), n) == Take(Preference(b, p), n)
      {
        SamePreference(hash, nodes, order, count, a, b, p);
      }
    } else {
      LeadTieShows(hash, nodes, count, p);
      var a, b :| && IsRing(a, hash, nodes, count) && IsRing(b, hash, nodes, count)
                  && Preference(a, p) != Preference(b, p);
      var n := Max(|Preference(a, p)|, |Preference(b, p)|);
      assert Take(Preference(a, p), n) == Preference(a, p) && Take(Preference(b, p), n) == Preference(b, p);
    }
  }

  // Joining and leaving

  /** When a node joins, the owners after it with the newcomer struck out are the first owners before
      it, at most one of whom gives up its place; a partition not given to the newcomer keeps its
      owners in their order. Read backwards it is the same of a node that leaves. */
  lemma JoinMovesOnlyToNewcomer(hash: Hash, nodes: seq<Node>, after: seq<Node>, x: Node, count: nat,
                                before: seq<VNode>, ring: seq<VNode>, p: int, n: nat)
    requires x !in nodes && multiset(after) == multiset(nodes + [x])
    requires NoLeadTie(hash, nodes, count, Target(p))
    requires IsRing(before, hash, nodes, count) && IsRing(ring, hash, after, count)
    ensures var was, now := Take(Preference(before, p), n), Take(Preference(ring, p), n);
            Without(now, x) <= was && |Without(now, x)| >= |was| - 1 && (x !in now ==> now == was)
  {
    RingWithout(ring, hash, nodes, after, x, count);
    SamePreference(hash, nodes, nodes, count, before, Select(ring, NotOf(x)), p);
    PreferenceWithout(ring, x, p);
    FirstsDistinct(NodesOf(Lap(ring, Target(p))));
    TakeWithout(Preference(ring, p), x, n);
  }
}
