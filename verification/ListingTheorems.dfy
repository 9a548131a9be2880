/** A page reports the next items of the plain grouping and says exactly where the rest begin. */
module ListingTheorems {
  import opened Basics
  import opened KeyOrder
  import opened Prefix
  import opened Listing

  /** Groups that a listing can step over exactly: none, or those of a clean delimiter. */
  predicate Steppable(d: Key) {
    d == [] || Clean(d)
  }

  function WithPrefix(keys: seq<Key>, prefix: Key): seq<Key> {
    if keys == [] then []
    else (if prefix <= keys[0] then [keys[0]] else []) + WithPrefix(keys[1..], prefix)
  }

  /** An ascending list from a position on. */
  function Tail(ks: seq<Key>, from: Key): seq<Key> {
    if ks == [] || AtMost(from, ks[0]) then ks else Tail(ks[1..], from)
  }

  function Live(keys: seq<Key>, prefix: Key, from: Key): seq<Key> {
    Tail(WithPrefix(keys, prefix), from)
  }

  /** What is left to report from a position on. */
  function Remaining(keys: seq<Key>, req: Request, from: Key): seq<Item> {
    Items(Live(keys, req.prefix, from), req.prefix, req.delimiter)
  }

  // The range read is the keys with the prefix, from the position on

  lemma {:induction false} RangeEndSplit(p: Key) returns (stem: Key, b: byte, run: Key)
    requires !AllHigh(p)
    ensures p == stem + [b] + run && b < 0xff && (forall i :: 0 <= i < |run| ==> run[i] == 0xff)
    ensures RangeEnd(p) == stem + [b + 1]
  {
    var n := |p| - 1;
    assert p == p[..n] + [p[n]];
    if p[n] < 0xff {
      stem, b, run := p[..n], p[n], [];
    } else {
      stem, b, run := RangeEndSplit(p[..n]);
      run := run + [p[n]];
      assert p == stem + [b] + run;
    }
  }

  lemma PrefixAtMost(p: Key, k: Key)
    requires p <= k
    ensures AtMost(p, k) && !Beyond(p, k)
  {
    if p != k {
      LessExtends(p, k[|p|..]);
      assert k == p + k[|p|..];
    }
  }

  lemma {:induction false} NotHighSuffix(ns: Key, prefix: Key)
    requires !AllHigh(ns)
    ensures !AllHigh(ns + prefix)
  {
    if prefix == [] {
      assert ns + prefix == ns;
    } else {
      assert (ns + prefix)[..|ns + prefix| - 1] == ns + prefix[..|prefix| - 1];
      NotHighSuffix(ns, prefix[..|prefix| - 1]);
    }
  }

  lemma AtMostShift(c: Key, a: Key, b: Key)
    ensures AtMost(c + a, c + b) <==> AtMost(a, b)
  {
    LessShift(c, a, b);
    if c + a == c + b { assert a == (c + a)[|c|..] && b == (c + b)[|c|..]; }
  }

  lemma NotLess(a: Key, b: Key)
    ensures Less(a, b) <==> !AtMost(b, a)
  {
    LessTotal(a, b);
    LessIrreflexive(a);
    if Less(a, b) && Less(b, a) { LessTransitive(a, b, a); }
  }

  lemma InRangeIff(ns: Key, prefix: Key, start: Key, k: Key)
    requires !AllHigh(ns) && AtMost(prefix, start)
    ensures InRange(ns, prefix, start, k) <==> prefix <= k && AtMost(start, k)
  {
    AtMostShift(ns, start, k);
    NotHighSuffix(ns, prefix);
    var stem, b, run := RangeEndSplit(ns + prefix);
    IncrementSeparates(stem, b, run, ns + k);
    NotLess(ns + k, RangeEnd(ns + prefix));
    BeyondShift(ns, prefix, k);
    if AtMost(start, k) {
      assert AtMost(prefix, k) by {
        if start != prefix && start != k { LessTransitive(prefix, start, k); }
      }
    }
    if prefix <= k { PrefixAtMost(prefix, k); }
  }

  lemma {:induction false} WithPrefixAscending(keys: seq<Key>, prefix: Key)
    requires Ascending(keys)
    ensures var ks := WithPrefix(keys, prefix); Ascending(ks) && (forall k :: k in ks ==> k in keys && prefix <= k)
  {
    if keys != [] {
      WithPrefixAscending(keys[1..], prefix);
      forall k | k in keys[1..] ensures Less(keys[0], k) {
        var i :| 0 <= i < |keys[1..]| && keys[1..][i] == k;
        assert keys[i + 1] == k;
      }
    }
  }

  lemma AtMostTransitive(a: Key, b: Key, c: Key)
    requires AtMost(a, b) && AtMost(b, c)
    ensures AtMost(a, c)
  {
    if a != b && b != c { LessTransitive(a, b, c); }
  }

  lemma TailAll(ks: seq<Key>, from: Key)
    requires forall k :: k in ks ==> AtMost(from, k)
    ensures Tail(ks, from) == ks
  {
  }

  lemma {:induction false} MatchingIsTail(ns: Key, keys: seq<Key>, prefix: Key, start: Key)
    requires Ascending(keys) && !AllHigh(ns) && AtMost(prefix, start)
    ensures Matching(ns, keys, prefix, start) == Live(keys, prefix, start)
  {
    if keys != [] {
      var k := keys[0];
      MatchingIsTail(ns, keys[1..], prefix, start);
      InRangeIff(ns, prefix, start, k);
      if prefix <= k && AtMost(start, k) {
        WithPrefixAscending(keys[1..], prefix);
        var rest := WithPrefix(keys[1..], prefix);
        forall x | x in rest ensures AtMost(start, x) {
          WithPrefixAscending(keys, prefix);
          AtMostTransitive(start, k, x);
        }
        TailAll(rest, start);
      } else if prefix <= k {
        assert WithPrefix(keys, prefix)[1..] == WithPrefix(keys[1..], prefix);
      } else {
        assert WithPrefix(keys, prefix) == WithPrefix(keys[1..], prefix);
      }
    }
  }

  lemma ScanIsLive(ns: Key, keys: seq<Key>, prefix: Key, from: Key, limit: nat)
    requires Ascending(keys) && !AllHigh(ns)
    ensures var all := Live(keys, prefix, from);
            Scan(ns, keys, prefix, from, limit) == if |all| <= limit then all else all[..limit]
  {
    var start := if Less(prefix, from) then from else prefix;
    MatchingIsTail(ns, keys, prefix, start);
    if start != from {
      WithPrefixAscending(keys, prefix);
      var ks := WithPrefix(keys, prefix);
      NotLess(prefix, from);
      forall k | k in ks ensures AtMost(from, k) && AtMost(prefix, k) {
        PrefixAtMost(prefix, k);
        AtMostTransitive(from, prefix, k);
      }
      TailAll(ks, from);
      TailAll(ks, prefix);
    }
  }

  // Groups are runs of the sorted keys

  lemma GroupIsPrefix(k: Key, prefix: Key, d: Key)
    requires prefix <= k && GroupOf(k, prefix, d).Some?
    ensures GroupOf(k, prefix, d).value <= k
    ensures var g := GroupOf(k, prefix, d).value; |g| >= |prefix| + |d| && d != [] && g[|g| - |d|..] == d && prefix <= g
  {
    var rest := k[|prefix|..];
    var i := IndexOf(rest, d);
    assert OccursAt(rest, d, i);
    assert k == prefix + rest;
    assert rest[..i + |d|][i..] == rest[i..i + |d|];
  }

  /** A key's group is its shortest front that reaches past the prefix and ends in the delimiter. */
  lemma GroupOfIff(k: Key, prefix: Key, d: Key, g: Key)
    requires prefix <= k
    ensures GroupOf(k, prefix, d) == Some(g) <==>
            && d != [] && g <= k && EndsGroup(k, prefix, d, |g|)
            && forall n :: EndsGroup(k, prefix, d, n) ==> |g| <= n
    ensures GroupOf(k, prefix, d) == None <==> d == [] || forall n :: !EndsGroup(k, prefix, d, n)
  {
    var rest := k[|prefix|..];
    var i := IndexOf(rest, d);
    forall n ensures EndsGroup(k, prefix, d, n) <==> OccursAt(rest, d, n - |prefix| - |d|) {
      EndsIff(k, prefix, d, rest, n);
    }
    if d != [] && i >= 0 {
      var m := |prefix| + i + |d|;
      assert EndsGroup(k, prefix, d, m) && GroupOf(k, prefix, d) == Some(k[..m]) by {
        EndsIff(k, prefix, d, rest, m);
        assert prefix + rest[..i + |d|] == k[..m];
      }
      forall n | EndsGroup(k, prefix, d, n) ensures m <= n { assert OccursAt(rest, d, n - |prefix| - |d|); }
      if g <= k && |g| == m { assert g == k[..m]; }
    }
  }

  lemma EndsIff(k: Key, prefix: Key, d: Key, rest: Key, n: int)
    requires prefix <= k && rest == k[|prefix|..]
    ensures EndsGroup(k, prefix, d, n) <==> OccursAt(rest, d, n - |prefix| - |d|)
  {
    if |prefix| + |d| <= n <= |k| {
      assert k[n - |d|..n] == rest[n - |prefix| - |d|..n - |prefix|];
    }
  }

  predicate EndsGroup(k: Key, prefix: Key, d: Key, n: int) {
    |prefix| + |d| <= n <= |k| && k[n - |d|..n] == d
  }

  lemma SharedEnds(k: Key, other: Key, prefix: Key, d: Key, g: Key, n: int)
    requires g <= k && g <= other && n <= |g|
    ensures EndsGroup(k, prefix, d, n) <==> EndsGroup(other, prefix, d, n)
  {
    if |prefix| + |d| <= n {
      assert k[n - |d|..n] == g[n - |d|..n] && other[n - |d|..n] == g[n - |d|..n];
    }
  }

  lemma GroupShared(k: Key, other: Key, prefix: Key, d: Key)
    requires prefix <= k && prefix <= other && GroupOf(k, prefix, d).Some? && GroupOf(k, prefix, d).value <= other
    ensures GroupOf(other, prefix, d) == GroupOf(k, prefix, d)
  {
    var g := GroupOf(k, prefix, d).value;
    GroupOfIff(k, prefix, d, g);
    SharedEnds(k, other, prefix, d, g, |g|);
    forall n | EndsGroup(other, prefix, d, n) ensures |g| <= n {
      if n < |g| { SharedEnds(k, other, prefix, d, g, n); }
    }
    GroupOfIff(other, prefix, d, g);
  }

  /** A key is in a group exactly when it begins with the group. */
  lemma SameGroupIff(k: Key, other: Key, prefix: Key, d: Key)
    requires prefix <= k && prefix <= other && GroupOf(k, prefix, d).Some?
    ensures GroupOf(other, prefix, d) == GroupOf(k, prefix, d) <==> GroupOf(k, prefix, d).value <= other
  {
    var g := GroupOf(k, prefix, d).value;
    if GroupOf(other, prefix, d) == Some(g) { GroupIsPrefix(other, prefix, d); }
    if g <= other { GroupShared(k, other, prefix, d); }
  }

  lemma ItemsHead(ks: seq<Key>, prefix: Key, d: Key)
    requires Ascending(ks) && ks != [] && GroupOf(ks[0], prefix, d).None?
    ensures Items(ks, prefix, d) == [Object(ks[0])] + Items(ks[1..], prefix, d)
  {
    if |ks| > 1 { LessIrreflexive(ks[0]); }
  }

  /** A group reported at its first key leaves what lies past the group. */
  lemma {:induction false} ItemsGroup(ks: seq<Key>, prefix: Key, d: Key, g: Key, past: Key)
    requires ks != [] && (forall k :: k in ks ==> prefix <= k) && GroupOf(ks[0], prefix, d) == Some(g)
    requires forall k :: k in ks ==> (Less(k, past) <==> g <= k)
    ensures Items(ks, prefix, d) == [Group(g)] + Items(Tail(ks[1..], past), prefix, d)
  {
    assert ks[0] in ks;
    if |ks| > 1 {
      assert ks[1] in ks;
      SameGroupIff(ks[0], ks[1], prefix, d);
      NotLess(ks[1], past);
      if g <= ks[1] {
        assert forall k :: k in ks[1..] ==> k in ks;
        ItemsGroup(ks[1..], prefix, d, g, past);
      }
    }
  }

  lemma {:induction false} TailSuffix(ks: seq<Key>, from: Key) returns (n: nat)
    ensures n <= |ks| && Tail(ks, from) == ks[n..]
  {
    if ks == [] || AtMost(from, ks[0]) {
      n := 0;
    } else {
      n := TailSuffix(ks[1..], from);
      n := n + 1;
    }
  }

  lemma {:induction false} TailOfTail(ks: seq<Key>, from: Key, later: Key)
    requires AtMost(from, later)
    ensures Tail(Tail(ks, from), later) == Tail(ks, later)
  {
    if ks != [] && !AtMost(from, ks[0]) {
      TailOfTail(ks[1..], from, later);
      if AtMost(later, ks[0]) { AtMostTransitive(from, later, ks[0]); }
    }
  }

  lemma LiveAscending(keys: seq<Key>, prefix: Key, from: Key)
    requires Ascending(keys)
    ensures Ascending(Live(keys, prefix, from)) && forall k :: k in Live(keys, prefix, from) ==> prefix <= k
  {
    WithPrefixAscending(keys, prefix);
    var n := TailSuffix(WithPrefix(keys, prefix), from);
    assert forall k :: k in Live(keys, prefix, from) ==> k in WithPrefix(keys, prefix);
  }

  // One page

  /** Where the pass over a fetched page stands: `rest` is yet to be seen, and of it only the keys of
      the group just reported lie behind the resume point. */
  ghost predicate Standing(keys: seq<Key>, req: Request, rest: seq<Key>, group: Key, from: Key) {
    && Ascending(rest)
    && (forall k :: k in rest ==> req.prefix <= k)
    && (forall k :: k in rest ==> (Less(k, from) <==> group != [] && group <= k))
    && Live(keys, req.prefix, from) == Tail(rest, from)
  }

  lemma AscendingTail(ks: seq<Key>)
    requires Ascending(ks) && ks != []
    ensures Ascending(ks[1..]) && forall k :: k in ks[1..] ==> k in ks && Less(ks[0], k)
  {
    forall k | k in ks[1..] ensures k in ks && Less(ks[0], k) {
      var i :| 0 <= i < |ks[1..]| && ks[1..][i] == k;
      assert ks[i + 1] == k;
    }
  }

  lemma StandingSkip(keys: seq<Key>, req: Request, rest: seq<Key>, group: Key, from: Key)
    requires Standing(keys, req, rest, group, from) && rest != [] && group != [] && group <= rest[0]
    ensures Standing(keys, req, rest[1..], group, from)
  {
    AscendingTail(rest);
    assert rest[0] in rest;
    NotLess(rest[0], from);
  }

  lemma StandingStop(keys: seq<Key>, req: Request, rest: seq<Key>, group: Key, from: Key)
    requires Standing(keys, req, rest, group, from) && rest != [] && !(group != [] && group <= rest[0])
    ensures Live(keys, req.prefix, from) == rest
  {
    assert rest[0] in rest;
    NotLess(rest[0], from);
  }

  lemma StandingObject(keys: seq<Key>, req: Request, rest: seq<Key>, from: Key)
    requires Ascending(rest) && (forall k :: k in rest ==> req.prefix <= k)
    requires rest != [] && Live(keys, req.prefix, from) == rest && AtMost(from, rest[0])
    requires GroupOf(rest[0], req.prefix, req.delimiter).None?
    ensures Standing(keys, req, rest[1..], [], After(rest[0]))
    ensures Items(rest, req.prefix, req.delimiter) == [Object(rest[0])] + Remaining(keys, req, After(rest[0]))
  {
    var k, past := rest[0], After(rest[0]);
    AscendingTail(rest);
    AfterIsNext(k, k);
    LessIrreflexive(k);
    AfterIsNext(k, past);
    AtMostTransitive(from, k, past);
    TailOfTail(WithPrefix(keys, req.prefix), from, past);
    forall x | x in rest[1..] ensures AtMost(past, x) && !Less(x, past) {
      AfterIsNext(k, x);
      NotLess(x, past);
    }
    TailAll(rest[1..], past);
    ItemsHead(rest, req.prefix, req.delimiter);
  }

  lemma GroupAhead(rest: seq<Key>, g: Key, past: Key)
    requires Ascending(rest) && rest != [] && g <= rest[0]
    requires forall x :: AtMost(past, x) <==> Beyond(g, x)
    ensures forall x :: x in rest ==> (Less(x, past) <==> g <= x)
  {
    AscendingTail(rest);
    PrefixAtMost(g, rest[0]);
    forall x | x in rest ensures Less(x, past) <==> g <= x {
      NotLess(x, past);
      if x != rest[0] { AtMostTransitive(g, rest[0], x); }
    }
  }

  lemma LiveLeaps(keys: seq<Key>, prefix: Key, rest: seq<Key>, from: Key, past: Key)
    requires rest != [] && Live(keys, prefix, from) == rest && AtMost(from, rest[0]) && Less(rest[0], past)
    ensures Live(keys, prefix, past) == Tail(rest[1..], past)
  {
    NotLess(rest[0], past);
    AtMostTransitive(from, rest[0], past);
    TailOfTail(WithPrefix(keys, prefix), from, past);
  }

  lemma StandingGroup(keys: seq<Key>, req: Request, rest: seq<Key>, from: Key, g: Key)
    requires Ascending(rest) && (forall k :: k in rest ==> req.prefix <= k)
    requires rest != [] && Live(keys, req.prefix, from) == rest && AtMost(from, rest[0])
    requires GroupOf(rest[0], req.prefix, req.delimiter) == Some(g) && Clean(req.delimiter)
    ensures Standing(keys, req, rest[1..], g, PastPrefix(g)) && PastPrefix(g) != []
    ensures Items(rest, req.prefix, req.delimiter) == [Group(g)] + Remaining(keys, req, PastPrefix(g))
  {
    var past := PastPrefix(g);
    assert rest[0] in rest;
    GroupSteps(rest[0], req.prefix, req.delimiter);
    GroupAhead(rest, g, past);
    LiveLeaps(keys, req.prefix, rest, from, past);
    ItemsGroup(rest, req.prefix, req.delimiter, g, past);
    AscendingTail(rest);
  }

  lemma GroupSteps(k: Key, prefix: Key, d: Key)
    requires prefix <= k && Clean(d) && GroupOf(k, prefix, d).Some?
    ensures var g := GroupOf(k, prefix, d).value;
            g <= k && g != [] && PastPrefix(g) != [] && forall x :: AtMost(PastPrefix(g), x) <==> Beyond(g, x)
  {
    GroupIsPrefix(k, prefix, d);
    var g := GroupOf(k, prefix, d).value;
    assert g == g[..|g| - |d|] + d;
    CleanSuffix(g[..|g| - |d|], d);
    PastPrefixExactIff(g);
  }

  /** Between two points of a walk, what was added to the page is what left the remainder. */
  ghost predicate AddsUp(keys: seq<Key>, req: Request, from: Key, items: seq<Item>, w: Walked) {
    && items + Remaining(keys, req, from) == w.items + Remaining(keys, req, w.from)
    && (w.items != [] ==> w.from != [])
    && (w.more ==> |w.items| == req.limit && Remaining(keys, req, w.from) != [])
  }

  lemma AddsUpAfter(keys: seq<Key>, req: Request, from: Key, items: seq<Item>, x: Item, next: Key, w: Walked)
    requires Remaining(keys, req, from) == [x] + Remaining(keys, req, next)
    requires AddsUp(keys, req, next, items + [x], w)
    ensures AddsUp(keys, req, from, items, w)
  {
    assert items + ([x] + Remaining(keys, req, next)) == items + [x] + Remaining(keys, req, next);
  }

  lemma {:induction false} WalkAddsUp(keys: seq<Key>, req: Request, ks: seq<Key>, rest: seq<Key>, group: Key,
                                      from: Key, items: seq<Item>)
    requires Steppable(req.delimiter) && ks <= rest && |items| <= req.limit
    requires Standing(keys, req, rest, group, from) && (items != [] ==> from != [])
    ensures var w := Walk(ks, req, group, from, items);
            AddsUp(keys, req, from, items, w) && (!w.more && ks == rest ==> Remaining(keys, req, w.from) == [])
    decreases |ks|
  {
    if ks != [] {
      assert ks[1..] <= rest[1..] && (ks == rest ==> ks[1..] == rest[1..]);
      if group != [] && group <= rest[0] {
        StandingSkip(keys, req, rest, group, from);
        WalkAddsUp(keys, req, ks[1..], rest[1..], group, from, items);
      } else {
        StandingStop(keys, req, rest, group, from);
        if |items| < req.limit {
          WalkReports(keys, req, ks, rest, group, from, items);
        } else {
          ItemsNonempty(rest, req.prefix, req.delimiter);
        }
      }
    }
  }

  lemma {:induction false} ItemsNonempty(ks: seq<Key>, prefix: Key, d: Key)
    requires ks != []
    ensures Items(ks, prefix, d) != []
  {
    if |ks| > 1 { ItemsNonempty(ks[1..], prefix, d); }
  }

  /** The step of `WalkAddsUp` that reports the key at hand or its group. */
  lemma {:induction false} WalkReports(keys: seq<Key>, req: Request, ks: seq<Key>, rest: seq<Key>, group: Key,
                                       from: Key, items: seq<Item>)
    requires Steppable(req.delimiter) && ks <= rest && |items| < req.limit && ks != []
    requires Standing(keys, req, rest, group, from) && !(group != [] && group <= rest[0])
    requires Live(keys, req.prefix, from) == rest
    ensures var w := Walk(ks, req, group, from, items);
            AddsUp(keys, req, from, items, w) && (!w.more && ks == rest ==> Remaining(keys, req, w.from) == [])
    decreases |ks|, 0
  {
    var k := rest[0];
    assert ks[1..] <= rest[1..] && (ks == rest ==> ks[1..] == rest[1..]);
    assert k in rest;
    NotLess(k, from);
    match GroupOf(k, req.prefix, req.delimiter)
    case Some(g) =>
      StandingGroup(keys, req, rest, from, g);
      WalkAddsUp(keys, req, ks[1..], rest[1..], g, PastPrefix(g), items + [Group(g)]);
      AddsUpAfter(keys, req, from, items, Group(g), PastPrefix(g), Walk(ks, req, group, from, items));
    case None =>
      StandingObject(keys, req, rest, from);
      WalkAddsUp(keys, req, ks[1..], rest[1..], [], After(k), items + [Object(k)]);
      AddsUpAfter(keys, req, from, items, Object(k), After(k), Walk(ks, req, group, from, items));
  }

  lemma FetchStands(keys: seq<Key>, req: Request, from: Key)
    requires Ascending(keys)
    ensures Standing(keys, req, Live(keys, req.prefix, from), [], from)
  {
    var rest := Live(keys, req.prefix, from);
    LiveAscending(keys, req.prefix, from);
    forall k | k in rest ensures AtMost(from, k) {
      TailFrom(WithPrefix(keys, req.prefix), from);
      if k != rest[0] { AscendingTail(rest); AtMostTransitive(from, rest[0], k); }
    }
    forall k | k in rest ensures !Less(k, from) { NotLess(k, from); }
    TailAll(rest, from);
  }

  lemma {:induction false} TailFrom(ks: seq<Key>, from: Key)
    ensures Tail(ks, from) != [] ==> AtMost(from, Tail(ks, from)[0])
  {
    if ks != [] && !AtMost(from, ks[0]) { TailFrom(ks[1..], from); }
  }

  lemma {:induction false} PagesAddUp(keys: seq<Key>, req: Request, from: Key, items: seq<Item>)
    requires Ascending(keys) && !AllHigh(req.ns) && Steppable(req.delimiter)
    requires |items| <= req.limit && (items != [] ==> from != []) && req.limit > 0
    ensures var page := Pages(keys, req, from, items);
            && items + Remaining(keys, req, from)
               == page.items + (if page.next == [] then [] else Remaining(keys, req, page.next))
            && |page.items| <= req.limit
            && (page.next != [] ==> |page.items| == req.limit && Remaining(keys, req, page.next) != [])
    decreases req.limit - |items|
  {
    var live := Live(keys, req.prefix, from);
    var ks := Scan(req.ns, keys, req.prefix, from, Want(req));
    ScanIsLive(req.ns, keys, req.prefix, from, Want(req));
    FetchStands(keys, req, from);
    WalkAddsUp(keys, req, ks, live, [], from, items);
    var w := Walk(ks, req, [], from, items);
    if ks != [] && !w.more && |ks| == Want(req) && w.from != [] {
      PagesAddUp(keys, req, w.from, w.items);
    }
  }

  /** A page holds the next items of the grouping, in order and up to its limit; it names a next page
      exactly when there is more to report, and that page goes on with exactly the rest. */
  ghost predicate PageRight(keys: seq<Key>, req: Request, from: Key)
    requires req.limit > 0
  {
    var page, all := Page(keys, req, from), Remaining(keys, req, from);
    && page.items == (if |all| <= req.limit then all else all[..req.limit])
    && (page.next == [] <==> |all| <= req.limit)
    && (page.next != [] ==> Remaining(keys, req, page.next) == all[req.limit..])
  }

  lemma PageIsNextItems(keys: seq<Key>, req: Request, from: Key)
    requires Ascending(keys) && !AllHigh(req.ns) && Steppable(req.delimiter) && req.limit > 0
    ensures PageRight(keys, req, from)
  {
    PagesAddUp(keys, req, from, []);
    var page, all := Page(keys, req, from), Remaining(keys, req, from);
    assert [] + all == all;
    if page.next != [] {
      assert all[..req.limit] == page.items && all[req.limit..] == Remaining(keys, req, page.next);
    } else {
      assert page.items + [] == page.items;
    }
  }

  /** The pages a client gets by following the resume point until it is empty. */
  ghost function Followed(keys: seq<Key>, req: Request, from: Key): seq<Listed>
    requires Ascending(keys) && !AllHigh(req.ns) && Steppable(req.delimiter) && req.limit > 0
    decreases |Remaining(keys, req, from)|
  {
    var page := Page(keys, req, from);
    PageIsNextItems(keys, req, from);
    [page] + if page.next == [] then [] else Followed(keys, req, page.next)
  }

  function AllItems(pages: seq<Listed>): seq<Item> {
    if pages == [] then [] else pages[0].items + AllItems(pages[1..])
  }

  lemma AllItemsCons(page: Listed, pages: seq<Listed>)
    ensures AllItems([page] + pages) == page.items + AllItems(pages)
  {
    assert ([page] + pages)[1..] == pages;
  }

  /** Following to the end reports the grouping of the whole range, each page but the last full. */
  lemma {:induction false} FollowedIsWhole(keys: seq<Key>, req: Request, from: Key)
    requires Ascending(keys) && !AllHigh(req.ns) && Steppable(req.delimiter) && req.limit > 0
    ensures var pages := Followed(keys, req, from);
            && AllItems(pages) == Remaining(keys, req, from)
            && forall i :: 0 <= i < |pages| - 1 ==> |pages[i].items| == req.limit
    decreases |Remaining(keys, req, from)|
  {
    PageIsNextItems(keys, req, from);
    var page := Page(keys, req, from);
    if page.next != [] {
      FollowedIsWhole(keys, req, page.next);
      AllItemsCons(page, Followed(keys, req, page.next));
    } else {
      AllItemsCons(page, []);
    }
  }

  // What the grouping is

  lemma {:induction false} BeyondAll(g: Key, x: Key, k: Key)
    requires Beyond(g, k) && g <= x
    ensures Less(x, k)
  {
    assert g != [] && k != [];
    BeyondTail(g, k);
    if g[0] == k[0] {
      assert g[1..] <= x[1..];
      BeyondAll(g[1..], x[1..], k[1..]);
    }
  }

  /** Items follow the order of their keys: a later key is in the same group or has a later name. */
  lemma NamesFollowKeys(k: Key, later: Key, prefix: Key, d: Key)
    requires Less(k, later) && prefix <= k && prefix <= later
    ensures ItemOf(k, prefix, d) == ItemOf(later, prefix, d)
            || Less(ItemOf(k, prefix, d).name, ItemOf(later, prefix, d).name)
  {
    var a, b := ItemOf(k, prefix, d), ItemOf(later, prefix, d);
    if a != b {
      NotLess(later, k);
      if b.Group? {
        SameGroupIff(later, k, prefix, d);
        GroupIsPrefix(later, prefix, d);
        NotLess(k, b.name);
        if Beyond(b.name, k) { BeyondAll(b.name, later, k); }
      }
      if a.Group? {
        SameGroupIff(k, later, prefix, d);
        GroupIsPrefix(k, prefix, d);
        PrefixAtMost(a.name, k);
        AtMostTransitive(a.name, k, later);
        if b.Group? { GroupNames(a.name, b.name, k, later); }
      }
    }
  }

  lemma GroupNames(g: Key, h: Key, k: Key, later: Key)
    requires g <= k && h <= later && Less(k, later) && !(h <= k)
    ensures Less(g, h)
  {
    NotLess(g, h);
    NotLess(later, k);
    assert h <= g ==> h <= k;
    if Beyond(h, g) {
      BeyondAll(h, later, g);
      PrefixAtMost(g, k);
      AtMostTransitive(later, g, k);
    }
  }

  predicate NamesAscending(items: seq<Item>) {
    forall i, j :: 0 <= i < j < |items| ==> Less(items[i].name, items[j].name)
  }

  /** The grouping lists each ungrouped key and each group exactly once, in order of name. */
  lemma {:induction false} ItemsAreTheGrouping(ks: seq<Key>, prefix: Key, d: Key)
    requires Ascending(ks) && forall k :: k in ks ==> prefix <= k
    ensures var items := Items(ks, prefix, d);
            && NamesAscending(items)
            && (forall x :: x in items <==> exists k :: k in ks && ItemOf(k, prefix, d) == x)
            && (ks != [] ==> items != [] && items[0] == ItemOf(ks[0], prefix, d))
  {
    if ks != [] {
      AscendingTail(ks);
      ItemsAreTheGrouping(ks[1..], prefix, d);
      assert ks[0] in ks;
      assert forall k :: k in ks ==> k == ks[0] || k in ks[1..];
      var items, rest := Items(ks, prefix, d), Items(ks[1..], prefix, d);
      if |ks| > 1 {
        assert ks[1] in ks && ks[1] in ks[1..] && ks[1..][0] == ks[1];
        NamesFollowKeys(ks[0], ks[1], prefix, d);
        if items != rest {
          forall j | 0 <= j < |rest| ensures Less(items[0].name, rest[j].name) {
            if j > 0 { LessTransitive(items[0].name, rest[0].name, rest[j].name); }
          }
        }
      }
    }
  }

  // Delimiters that cannot be stepped over

  /** A group of its own key `g`, perhaps another key in it, and a key beyond it. */
  ghost predicate Trap(keys: seq<Key>, g: Key, z: Key, d: Key) {
    && Ascending(keys) && 2 <= |keys| <= 3 && keys[0] == g && keys[|keys| - 1] == z
    && GroupOf(g, [], d) == Some(g) && g != []
    && (|keys| == 3 ==> g <= keys[1])
    && Beyond(g, z)
  }

  lemma LastTwo(k: Key, z: Key, g: Key, d: Key)
    requires ItemOf(k, [], d) == Group(g) && ItemOf(z, [], d) != Group(g)
    ensures Items([k, z], [], d) == [Group(g), ItemOf(z, [], d)]
  {
    assert Items([z], [], d) == [ItemOf(z, [], d)];
    assert [k, z][1..] == [z];
  }

  lemma LastThree(g: Key, k: Key, z: Key, d: Key)
    requires ItemOf(g, [], d) == ItemOf(k, [], d) == Group(g) && ItemOf(z, [], d) != Group(g)
    ensures Items([g, k, z], [], d) == [Group(g), ItemOf(z, [], d)]
  {
    LastTwo(k, z, g, d);
    var ks := [g, k, z];
    assert ks[1..] == [k, z];
    assert Items(ks, [], d) == Items(ks[1..], [], d);
  }

  lemma TrapItems(keys: seq<Key>, g: Key, z: Key, d: Key, n: nat)
    requires Trap(keys, g, z, d) && n < |keys| - 1
    ensures Items(keys[n..], [], d) == [Group(g), ItemOf(z, [], d)]
  {
    TrapNames(keys, g, z, d);
    TrapTail(keys, g, z, n);
    if |keys| == 2 {
      LastTwo(g, z, g, d);
    } else if n == 0 {
      LastThree(g, keys[1], z, d);
    } else {
      LastTwo(keys[1], z, g, d);
    }
  }

  lemma TrapTail(keys: seq<Key>, g: Key, z: Key, n: nat)
    requires 2 <= |keys| <= 3 && keys[0] == g && keys[|keys| - 1] == z && n < |keys| - 1
    ensures keys[n..] == if |keys| == 2 then [g, z] else if n == 0 then [g, keys[1], z] else [keys[1], z]
  {
  }

  lemma TrapNames(keys: seq<Key>, g: Key, z: Key, d: Key)
    requires Trap(keys, g, z, d)
    ensures ItemOf(g, [], d) == Group(g) && ItemOf(z, [], d) != Group(g)
    ensures |keys| == 3 ==> ItemOf(keys[1], [], d) == Group(g)
  {
    SameGroupIff(g, z, [], d);
    if |keys| == 3 { SameGroupIff(g, keys[1], [], d); }
  }

  lemma {:induction false} WithPrefixEmpty(keys: seq<Key>)
    ensures WithPrefix(keys, []) == keys
  {
    if keys != [] { WithPrefixEmpty(keys[1..]); }
  }

  lemma TrapWalk(keys: seq<Key>, g: Key, z: Key, req: Request)
    requires Trap(keys, g, z, req.delimiter) && req.prefix == [] && req.limit == 1
    ensures Walk(keys, req, [], [], []) == Walked([Group(g)], PastPrefix(g), true)
  {
    var items, from := [Group(g)], PastPrefix(g);
    assert [] + [Group(g)] == items;
    assert Walk([z], req, g, from, items) == Walked(items, from, true);
    var rest := keys[1..];
    if |keys| == 2 {
      assert rest == [z];
    } else {
      assert rest[1..] == [z];
    }
    assert Walk(rest, req, g, from, items) == Walked(items, from, true);
  }

  lemma TrapPage(keys: seq<Key>, g: Key, z: Key, req: Request)
    requires Trap(keys, g, z, req.delimiter) && req.prefix == [] && req.limit == 1 && !AllHigh(req.ns)
    ensures Page(keys, req, []) == Listed([Group(g)], PastPrefix(g))
    ensures Remaining(keys, req, []) == [Group(g), ItemOf(z, [], req.delimiter)]
  {
    WithPrefixEmpty(keys);
    ScanIsLive(req.ns, keys, [], [], SCAN_PAGE_SIZE);
    assert Live(keys, [], []) == keys by { PrefixAtMost([], keys[0]); }
    assert keys[0..] == keys;
    TrapItems(keys, g, z, req.delimiter, 0);
    TrapWalk(keys, g, z, req);
  }

  /** Where the resume point is wrong, some listing goes wrong: it loses the key beyond the group, or
      reports the group again. */
  lemma TrapSprings(keys: seq<Key>, g: Key, z: Key, req: Request)
    requires Trap(keys, g, z, req.delimiter) && req.prefix == [] && req.limit == 1 && !AllHigh(req.ns)
    requires !AtMost(PastPrefix(g), z) || AtMost(PastPrefix(g), keys[|keys| - 2])
    ensures !PageRight(keys, req, [])
  {
    var past := PastPrefix(g);
    TrapPage(keys, g, z, req);
    WithPrefixEmpty(keys);
    var n := TailSuffix(keys, past);
    if n < |keys| - 1 {
      TrapItems(keys, g, z, req.delimiter, n);
    } else {
      TailSkips(keys, past, n);
      TailFrom(keys, past);
    }
  }

  lemma {:induction false} TailSkips(ks: seq<Key>, from: Key, n: nat)
    requires n <= |ks| && |Tail(ks, from)| == |ks| - n
    ensures forall i :: 0 <= i < n ==> !AtMost(from, ks[i])
  {
    if ks != [] && !AtMost(from, ks[0]) {
      var m := TailSuffix(ks[1..], from);
      TailSkips(ks[1..], from, m);
      forall i | 0 <= i < n ensures !AtMost(from, ks[i]) { if i > 0 { assert ks[i] == ks[1..][i - 1]; } }
    }
  }

  lemma FirstGroup(g: Key, d: Key)
    requires d != [] && (g == d || (g == [0x80] + d && d[0] == 0xff))
    ensures GroupOf(g, [], d) == Some(g)
  {
    assert g[0..] == g;
    var i := IndexOf(g, d);
    if g == d {
      assert OccursAt(g, d, 0) by { assert g[0..|d|] == d; }
    } else {
      assert OccursAt(g, d, 1) by { assert g[1..1 + |d|] == d; }
      assert !OccursAt(g, d, 0) by { assert g[0..|d|][0] == 0x80; }
    }
    assert [] + g[..|g|] == g;
  }

  lemma StepMisses(g: Key) returns (k: Key, z: Key)
    requires !Clean(g) && !AllHigh(g)
    ensures AtMost(PastPrefix(g), k) != Beyond(g, k) && Beyond(g, z)
  {
    PastPrefixExactIff(g);
    var stem, b, run := PastPrefixSplit(g);
    AllHighPast(run);
    k :| AtMost(PastPrefix(g), k) != Beyond(g, k);
    z := stem + [b + 1];
    IncrementSeparates(stem, b, run, z);
  }

  lemma TwoAscend(a: Key, b: Key)
    requires Less(a, b)
    ensures Ascending([a, b])
  {
  }

  lemma ThreeAscend(a: Key, b: Key, c: Key)
    requires Less(a, b) && Less(b, c)
    ensures Ascending([a, b, c])
  {
    LessTransitive(a, b, c);
  }

  lemma TrapKeys(g: Key, d: Key, past: Key, k: Key, beyond: Key) returns (keys: seq<Key>, z: Key)
    requires GroupOf(g, [], d) == Some(g) && g != [] && AtMost(past, k) != Beyond(g, k) && Beyond(g, beyond)
    ensures Trap(keys, g, z, d) && (!AtMost(past, z) || AtMost(past, keys[|keys| - 2]))
  {
    if Beyond(g, k) {
      TwoAscend(g, k);
      keys, z := [g, k], k;
    } else if g <= k && k != g {
      PrefixAtMost(g, k);
      BeyondAll(g, k, beyond);
      ThreeAscend(g, k, beyond);
      keys, z := [g, k, beyond], beyond;
    } else {
      NotLess(k, g);
      AtMostTransitive(past, k, g);
      TwoAscend(g, beyond);
      keys, z := [g, beyond], beyond;
    }
  }

  lemma TrapSet(g: Key, d: Key, req: Request)
    requires GroupOf(g, [], d) == Some(g) && !Clean(g) && !AllHigh(g)
    requires req.prefix == [] && req.limit == 1 && !AllHigh(req.ns) && req.delimiter == d
    ensures exists keys :: Ascending(keys) && !PageRight(keys, req, [])
  {
    var k, beyond := StepMisses(g);
    var keys, z := TrapKeys(g, d, PastPrefix(g), k, beyond);
    TrapSprings(keys, g, z, req);
  }

  ghost predicate AlwaysRight(d: Key) {
    forall keys, req: Request, from ::
      Ascending(keys) && !AllHigh(req.ns) && req.delimiter == d && req.limit > 0 ==> PageRight(keys, req, from)
  }

  /** Listings by a delimiter are right on every keyspace exactly when it is empty or the byte that
      stepping over its groups increments stays a one-byte character. */
  lemma AlwaysRightIff(d: Key)
    ensures AlwaysRight(d) <==> Steppable(d)
  {
    if Steppable(d) {
      forall keys, req: Request, from | Ascending(keys) && !AllHigh(req.ns) && req.delimiter == d && req.limit > 0
        ensures PageRight(keys, req, from)
      {
        PageIsNextItems(keys, req, from);
      }
    } else {
      var req := Request([0], [], d, 1);
      var g := if AllHigh(d) then [0x80] + d else d;
      if AllHigh(d) {
        AllHighPast(d);
        Unclean(d);
      }
      FirstGroup(g, d);
      TrapSet(g, d, req);
    }
  }

  lemma {:induction false} Unclean(d: Key)
    requires AllHigh(d)
    ensures !Clean([0x80] + d) && !AllHigh([0x80] + d)
  {
    if d != [] {
      assert ([0x80] + d)[..|d|] == [0x80] + d[..|d| - 1];
      Unclean(d[..|d| - 1]);
    }
  }
}
