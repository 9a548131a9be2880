/** The walk over every object that repair and rebalancing share: it reads a page at a time, resumes from
    a saved cursor, and starts over when it reaches the end. */
module Walk {
  import opened Basics
  import opened KeyOrder
  import opened Prefix
  import opened Listing
  import opened ListingTheorems

  const SCAN_PAGE := 256

  /** What one walk did: where it resumed, what it visited, and what it left as the saved cursor. */
  datatype Pass = Pass(from: Key, visited: set<Key>, to: Key, completed: bool)

  /** Of the objects that stay, a completed walk visits every one past its cursor and starts over; one that
      was cut short has visited every one from its cursor to the one it saved. */
  ghost predicate IsPass(stays: set<Key>, p: Pass) {
    if p.completed then p.to == [] && forall k :: k in stays && Less(p.from, k) ==> k in p.visited
    else forall k :: k in stays && Less(p.from, k) && AtMost(k, p.to) ==> k in p.visited
  }

  function From(cursor: Key): Key { if cursor == [] then [] else After(cursor) }

  /** Keys after a cursor, at most a page of them. */
  function NextPage(keys: seq<Key>, cursor: Key): seq<Key> {
    var all := Tail(keys, From(cursor));
    if |all| <= SCAN_PAGE then all else all[..SCAN_PAGE]
  }

  lemma {:induction false} TailHolds(keys: seq<Key>, from: Key, k: Key)
    requires Ascending(keys) && k in keys
    ensures k in Tail(keys, from) <==> AtMost(from, k)
  {
    AscendingTail(keys);
    if AtMost(from, keys[0]) {
      if k != keys[0] { AtMostTransitive(from, keys[0], k); }
    } else if k == keys[0] {
      var n := TailSuffix(keys[1..], from);
      assert k !in keys[1..] by { LessIrreflexive(k); }
    } else {
      TailHolds(keys[1..], from, k);
    }
  }

  lemma FromCursor(cursor: Key, k: Key)
    ensures Less(cursor, k) ==> AtMost(From(cursor), k)
    ensures AtMost(From(cursor), k) ==> Less(cursor, k) || k == []
  {
    AfterIsNext(cursor, k);
    NotLess([], k);
  }

  /** A page is the next keys after the cursor, none of them left out. */
  lemma PageFollows(keys: seq<Key>, cursor: Key, k: Key)
    requires Ascending(keys) && k in keys && Less(cursor, k)
    ensures var page := NextPage(keys, cursor);
            page != [] && (k in page || Less(page[|page| - 1], k))
  {
    var all := Tail(keys, From(cursor));
    FromCursor(cursor, k);
    TailHolds(keys, From(cursor), k);
    var n := TailSuffix(keys, From(cursor));
    var i :| 0 <= i < |all| && all[i] == k;
  }

  lemma PageMembers(keys: seq<Key>, cursor: Key, k: Key)
    requires Ascending(keys) && k in NextPage(keys, cursor)
    ensures k in keys && (Less(cursor, k) || k == [])
  {
    var n := TailSuffix(keys, From(cursor));
    assert k in Tail(keys, From(cursor));
    assert k in keys;
    TailHolds(keys, From(cursor), k);
    FromCursor(cursor, k);
  }

  ghost function Ahead(keys: seq<Key>, cursor: Key): set<Key> {
    set k | k in keys && Less(cursor, k)
  }

  /** Moving the cursor to the end of a page passes nothing but the page. */
  lemma PageCovers(keys: seq<Key>, cursor: Key)
    requires Ascending(keys) && NextPage(keys, cursor) != []
    ensures var page := NextPage(keys, cursor); var last := page[|page| - 1];
            && AtMost(cursor, last)
            && (forall k :: k in keys && AtMost(k, last) ==> k in page || AtMost(k, cursor))
            && ([] !in keys ==> |Ahead(keys, last)| < |Ahead(keys, cursor)|)
  {
    var page := NextPage(keys, cursor);
    var last := page[|page| - 1];
    PageMembers(keys, cursor, last);
    assert AtMost(cursor, last) by { CursorBefore(keys, cursor); }
    forall k | k in keys && AtMost(k, last) ensures k in page || AtMost(k, cursor) {
      NotLess(cursor, k);
      NotLess(last, k);
      if Less(cursor, k) { PageFollows(keys, cursor, k); }
    }
    if [] !in keys {
      forall k | k in Ahead(keys, last) ensures k in Ahead(keys, cursor) { LessTransitive(cursor, last, k); }
      LessIrreflexive(last);
      assert last in Ahead(keys, cursor) && last !in Ahead(keys, last);
      SubsetSize(Ahead(keys, last) + {last}, Ahead(keys, cursor));
    }
  }

  /** A page never goes back behind its cursor; only from the very start can it hold the empty key. */
  lemma CursorBefore(keys: seq<Key>, cursor: Key)
    requires Ascending(keys)
    ensures forall k :: k in NextPage(keys, cursor) ==> AtMost(cursor, k)
  {
    forall k | k in NextPage(keys, cursor) ensures AtMost(cursor, k) {
      PageMembers(keys, cursor, k);
      var n := TailSuffix(keys, From(cursor));
      TailHolds(keys, From(cursor), k);
      if k == [] && cursor != [] { AfterIsNext(cursor, k); }
    }
  }

  /** The object was there at every read. */
  ghost predicate Stays(views: seq<seq<Key>>, k: Key) {
    forall i :: 0 <= i < |views| ==> k in views[i]
  }

  ghost function Staying(views: seq<seq<Key>>): set<Key> {
    if views == [] then {} else set k | k in views[0] && Stays(views, k)
  }

  /** Nothing comes or goes, no key is empty, and there are reads enough for every object. */
  ghost predicate Steady(views: seq<seq<Key>>) {
    views != [] && |views| > |views[0]| && [] !in views[0] && forall i :: 0 <= i < |views| ==> views[i] == views[0]
  }

  /** Visits the objects of one page in order, as far as it gets. */
  method VisitPage(page: seq<Key>, before: set<Key>, cut: Option<nat>) returns (visited: set<Key>, n: nat)
    ensures n <= |page| && visited == before + set k | k in page[..n]
    ensures cut.None? ==> n == |page|
  {
    visited, n := before, 0;
    while n < |page|
      invariant n <= |page| && visited == before + set k | k in page[..n]
    {
      if cut.Some? && cut.value <= |visited| { return; }
      assert page[..n + 1] == page[..n] + [page[n]];
      visited, n := visited + {page[n]}, n + 1;
    }
  }

  /** One page of a walk that stands at `at`: the keys it reaches, or the end. */
  datatype Turn = End | Stopped | Reached(last: Key)

  /** Reads the page after `at` and visits it. What it reaches, it has visited or was behind it. */
  method VisitNext(keys: seq<Key>, at: Key, before: set<Key>, cut: Option<nat>) returns (visited: set<Key>, t: Turn)
    requires Ascending(keys)
    ensures before <= visited && forall k :: k in visited - before ==> k in keys && AtMost(at, k)
    ensures t.End? ==> visited == before && forall k :: k in keys ==> AtMost(k, at)
    ensures t.Stopped? ==> cut.Some?
    ensures t.Reached? ==>
              && AtMost(at, t.last)
              && (forall k :: k in keys && AtMost(k, t.last) ==> k in visited || AtMost(k, at))
              && ([] !in keys ==> |Ahead(keys, t.last)| < |Ahead(keys, at)|)
  {
    var page := NextPage(keys, at);
    if |page| == 0 {
      forall k | k in keys ensures AtMost(k, at) {
        NotLess(at, k);
        if Less(at, k) { PageFollows(keys, at, k); }
      }
      return before, End;
    }
    PageCovers(keys, at);
    CursorBefore(keys, at);
    forall k | k in page ensures k in keys { PageMembers(keys, at, k); }
    var n;
    visited, n := VisitPage(page, before, cut);
    assert forall k :: k in page[..n] ==> k in page;
    if n < |page| { return visited, Stopped; }
    assert page[..n] == page;
    return visited, Reached(page[|page| - 1]);
  }

  ghost predicate SomeView(views: seq<seq<Key>>, k: Key) {
    exists i :: 0 <= i < |views| && k in views[i]
  }

  /** The cursor as etcd keeps it. */
  class Walker {
    var cursor: Key

    constructor (cursor: Key)
      ensures this.cursor == cursor
    {
      this.cursor := cursor;
    }

    /** One walk. `views` are the objects there at each read, and the reads fail after the last of them;
        `saves` says which saves of the cursor succeed; and the walk is cut short after `cut` visits if it
        is cut short at all. What was visited since the last save is visited again. */
    method Walk(views: seq<seq<Key>>, saves: nat -> bool, cut: Option<nat>) returns (visited: set<Key>, completed: bool)
      requires forall i :: 0 <= i < |views| ==> Ascending(views[i])
      modifies this
      ensures IsPass(Staying(views), Pass(old(cursor), visited, cursor, completed))
      ensures forall k :: k in visited ==> SomeView(views, k) && AtMost(old(cursor), k)
      ensures Steady(views) && cut.None? && (forall i :: saves(i)) ==> completed
    {
      visited := {};
      var at := cursor;
      ghost var from, stays := cursor, Staying(views);
      NotBefore(stays, from);
      if Steady(views) { AheadSmall(views[0], at); }
      for i := 0 to |views|
        invariant AtMost(from, at) && forall k :: k in visited ==> SomeView(views, k) && AtMost(from, k)
        invariant forall k :: k in stays && Less(from, k) && AtMost(k, at) ==> k in visited
        invariant forall k :: k in stays && Less(from, k) && AtMost(k, cursor) ==> k in visited
        invariant Steady(views) ==> |Ahead(views[0], at)| + i <= |views[0]|
      {
        ghost var before := visited;
        var t;
        visited, t := VisitNext(views[i], at, visited, cut);
        forall k | k in visited - before ensures SomeView(views, k) && AtMost(from, k) {
          AtMostTransitive(from, at, k);
        }
        if t.Stopped? || !saves(i) { return visited, false; }
        if t.End? {
          cursor := [];
          return visited, true;
        }
        AtMostTransitive(from, at, t.last);
        at := t.last;
        cursor := at;
      }
      return visited, false;
    }
  }

  lemma NotBefore(keys: set<Key>, from: Key)
    ensures forall k :: k in keys ==> !(Less(from, k) && AtMost(k, from))
  {
    forall k | k in keys ensures !(Less(from, k) && AtMost(k, from)) { NotLess(from, k); }
  }

  lemma AheadSmall(keys: seq<Key>, cursor: Key)
    ensures |Ahead(keys, cursor)| <= |keys|
  {
    MembersSmall(keys);
    SubsetSize(Ahead(keys, cursor), set k | k in keys);
  }

  lemma {:induction false} MembersSmall(keys: seq<Key>)
    ensures |set k | k in keys| <= |keys|
  {
    if keys != [] {
      var front := keys[..|keys| - 1];
      MembersSmall(front);
      assert (set k | k in keys) == (set k | k in front) + {keys[|keys| - 1]};
    }
  }

  /** Walks one after another, each from the cursor the last one saved. */
  ghost predicate History(stays: set<Key>, h: seq<Pass>) {
    && (forall i :: 0 <= i < |h| ==> IsPass(stays, h[i]))
    && (forall i :: 0 <= i < |h| - 1 ==> h[i].to == h[i + 1].from)
  }

  predicate VisitedBy(h: seq<Pass>, lo: nat, hi: nat, k: Key)
    requires lo <= hi <= |h|
  {
    exists i :: lo <= i < hi && k in h[i].visited
  }

  /** Since the walk started over, everything up to the saved cursor has been visited. */
  lemma {:induction false} VisitedSince(stays: set<Key>, h: seq<Pass>, a: nat, b: nat, k: Key)
    requires History(stays, h) && a < b < |h| && h[a].completed && (forall i :: a < i < b ==> !h[i].completed)
    requires k in stays && k != [] && AtMost(k, h[b].from)
    ensures VisitedBy(h, a + 1, b, k)
    decreases b
  {
    assert IsPass(stays, h[a]) && h[b - 1].to == h[b].from;
    if b - 1 > a {
      NotLess(h[b - 1].from, k);
      if Less(h[b - 1].from, k) {
        assert IsPass(stays, h[b - 1]);
      } else {
        VisitedSince(stays, h, a, b - 1, k);
        var i :| a + 1 <= i < b - 1 && k in h[i].visited;
      }
    }
  }

  /** However walks are cut short, wherever the first began and whatever else comes and goes meanwhile, once
      two have completed, every object that was there throughout has been visited since the first. */
  lemma TwoCompletedWalksVisitAll(stays: set<Key>, h: seq<Pass>, a: nat, b: nat, k: Key)
    requires History(stays, h) && a < b < |h| && h[a].completed && h[b].completed && k in stays && k != []
    ensures VisitedBy(h, a + 1, b + 1, k)
  {
    var first := FirstCompleted(h, a + 1, b);
    NotLess(h[first].from, k);
    if Less(h[first].from, k) {
      assert IsPass(stays, h[first]);
    } else {
      VisitedSince(stays, h, a, first, k);
      var i :| a + 1 <= i < first && k in h[i].visited;
    }
  }

  function FirstCompleted(h: seq<Pass>, i: nat, b: nat): (r: nat)
    requires i <= b < |h| && h[b].completed
    ensures i <= r <= b && h[r].completed && forall j :: i <= j < r ==> !h[j].completed
    decreases b - i
  {
    if h[i].completed then i else FirstCompleted(h, i + 1, b)
  }
}
