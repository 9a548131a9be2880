/** Delimited, paged listing: a resumable scan over the sorted keyspace, and the plain grouping of that
    keyspace that it must add up to. */
module Listing {
  import opened Basics
  import opened KeyOrder
  import opened Prefix

  const SCAN_PAGE_SIZE := 256

  /** What a listing reports: a key, or a group of keys collapsed by the delimiter. */
  datatype Item = Object(name: Key) | Group(name: Key)

  predicate Ascending(ks: seq<Key>) {
    forall i, j :: 0 <= i < j < |ks| ==> Less(ks[i], ks[j])
  }

  // Groups

  predicate OccursAt(s: Key, d: Key, j: int) {
    0 <= j && j + |d| <= |s| && s[j..j + |d|] == d
  }

  lemma OccursLater(s: Key, d: Key, j: int)
    requires s != [] && j >= 0
    ensures OccursAt(s, d, j + 1) <==> OccursAt(s[1..], d, j)
  {
    if j + 1 + |d| <= |s| { assert s[j + 1..j + 1 + |d|] == s[1..][j..j + |d|]; }
  }

  /** The first place `d` occurs in `s`, or -1. */
  function IndexOf(s: Key, d: Key): (r: int)
    ensures r == -1 || OccursAt(s, d, r)
    ensures forall j :: OccursAt(s, d, j) ==> 0 <= r <= j
  {
    if |s| < |d| then -1
    else if d <= s then assert s[0..|d|] == d; 0
    else
      assert !OccursAt(s, d, 0);
      var r := IndexOf(s[1..], d);
      assert forall j :: OccursAt(s, d, j) ==> 0 <= r <= j - 1 by {
        forall j | OccursAt(s, d, j) ensures 0 <= r <= j - 1 { OccursLater(s, d, j - 1); }
      }
      if r < 0 then -1 else OccursLater(s, d, r); r + 1
  }

  function TrimPrefix(k: Key, prefix: Key): Key {
    if prefix <= k then k[|prefix|..] else k
  }

  function GroupOf(k: Key, prefix: Key, d: Key): Option<Key> {
    if d == [] then None
    else
      var rest := TrimPrefix(k, prefix);
      var i := IndexOf(rest, d);
      if i < 0 then None else Some(prefix + rest[..i + |d|])
  }

  function ItemOf(k: Key, prefix: Key, d: Key): Item {
    match GroupOf(k, prefix, d)
    case None => Object(k)
    case Some(g) => Group(g)
  }

  /** The reference: one item per key, each group once. */
  function Items(ks: seq<Key>, prefix: Key, d: Key): seq<Item> {
    if ks == [] then []
    else if |ks| > 1 && ItemOf(ks[1], prefix, d) == ItemOf(ks[0], prefix, d) then Items(ks[1..], prefix, d)
    else [ItemOf(ks[0], prefix, d)] + Items(ks[1..], prefix, d)
  }

  // The range a scan reads

  /** etcd's own successor of a prefix, which increments the byte itself. */
  function RangeEnd(p: Key): Key {
    if p == [] then []
    else if p[|p| - 1] < 0xff then p[..|p| - 1] + [p[|p| - 1] + 1]
    else RangeEnd(p[..|p| - 1])
  }

  /** Keys are stored under a namespace, which is what keeps a scan's end from being open. */
  predicate InRange(ns: Key, prefix: Key, start: Key, k: Key) {
    AtMost(ns + start, ns + k) && Less(ns + k, RangeEnd(ns + prefix))
  }

  function Matching(ns: Key, keys: seq<Key>, prefix: Key, start: Key): seq<Key> {
    if keys == [] then []
    else (if InRange(ns, prefix, start, keys[0]) then [keys[0]] else []) + Matching(ns, keys[1..], prefix, start)
  }

  function Scan(ns: Key, keys: seq<Key>, prefix: Key, from: Key, limit: nat): seq<Key> {
    var all := Matching(ns, keys, prefix, if Less(prefix, from) then from else prefix);
    if |all| <= limit then all else all[..limit]
  }

  // One page

  datatype Request = Request(ns: Key, prefix: Key, delimiter: Key, limit: int)
  datatype Listed = Listed(items: seq<Item>, next: Key)
  datatype Walked = Walked(items: seq<Item>, from: Key, more: bool)

  /** The pass over one fetched page of keys. `group` is the one just reported. */
  function Walk(ks: seq<Key>, req: Request, group: Key, from: Key, items: seq<Item>): (w: Walked)
    ensures items <= w.items && (|items| <= req.limit ==> |w.items| <= req.limit)
    ensures ks != [] && group == [] && !w.more ==> |items| < |w.items|
  {
    if ks == [] then Walked(items, from, false)
    else if group != [] && group <= ks[0] then Walk(ks[1..], req, group, from, items)
    else if |items| == req.limit then Walked(items, from, true)
    else
      match GroupOf(ks[0], req.prefix, req.delimiter)
      case Some(g) => Walk(ks[1..], req, g, PastPrefix(g), items + [Group(g)])
      case None => Walk(ks[1..], req, [], After(ks[0]), items + [Object(ks[0])])
  }

  function Want(req: Request): nat
    requires req.limit >= 0
  {
    if req.delimiter == [] then req.limit + 1 else SCAN_PAGE_SIZE
  }

  function Pages(keys: seq<Key>, req: Request, from: Key, items: seq<Item>): Listed
    requires |items| <= req.limit
    decreases req.limit - |items|
  {
    var ks := Scan(req.ns, keys, req.prefix, from, Want(req));
    if ks == [] then Listed(items, [])
    else
      var w := Walk(ks, req, [], from, items);
      if w.more then Listed(w.items, w.from)
      else if |ks| < Want(req) || w.from == [] then Listed(w.items, [])
      else Pages(keys, req, w.from, w.items)
  }

  /** One page of a listing. A page of nothing is complete. */
  function Page(keys: seq<Key>, req: Request, from: Key): Listed {
    if req.limit <= 0 then Listed([], []) else Pages(keys, req, from, [])
  }

  function ObjectsIn(items: seq<Item>): seq<Key> {
    if items == [] then []
    else ObjectsIn(items[..|items| - 1]) + if items[|items| - 1].Object? then [items[|items| - 1].name] else []
  }

  function GroupsIn(items: seq<Item>): seq<Key> {
    if items == [] then []
    else GroupsIn(items[..|items| - 1]) + if items[|items| - 1].Group? then [items[|items| - 1].name] else []
  }

  lemma {:induction false} ItemsCounted(items: seq<Item>)
    ensures |ObjectsIn(items)| + |GroupsIn(items)| == |items|
  {
    if items != [] { ItemsCounted(items[..|items| - 1]); }
  }

  lemma ItemAdded(items: seq<Item>, x: Item)
    ensures ObjectsIn(items + [x]) == ObjectsIn(items) + if x.Object? then [x.name] else []
    ensures GroupsIn(items + [x]) == GroupsIn(items) + if x.Group? then [x.name] else []
  {
    assert (items + [x])[..|items|] == items;
  }

  /** The loop over one fetched page, going on from the lists the page already holds. */
  method Report(ks: seq<Key>, req: Request, start: Key, shown: seq<Key>, grouped: seq<Key>, ghost before: seq<Item>)
    returns (objects: seq<Key>, prefixes: seq<Key>, from: Key, more: bool, ghost items: seq<Item>)
    requires |before| <= req.limit && shown == ObjectsIn(before) && grouped == GroupsIn(before)
    ensures Walked(items, from, more) == Walk(ks, req, [], start, before)
    ensures objects == ObjectsIn(items) && prefixes == GroupsIn(items)
  {
    objects, prefixes, from, more, items := shown, grouped, start, false, before;
    var group := [];
    assert ks[0..] == ks;
    for i := 0 to |ks|
      invariant |items| <= req.limit && objects == ObjectsIn(items) && prefixes == GroupsIn(items)
      invariant Walk(ks[i..], req, group, from, items) == Walk(ks, req, [], start, before)
    {
      assert ks[i..][0] == ks[i] && ks[i..][1..] == ks[i + 1..];
      if !(group != [] && group <= ks[i]) {
        ItemsCounted(items);
        if |objects| + |prefixes| == req.limit {
          more := true;
          return;
        }
        var g := GroupOf(ks[i], req.prefix, req.delimiter);
        var item := if g.Some? then Group(g.value) else Object(ks[i]);
        ItemAdded(items, item);
        items := items + [item];
        if g.Some? {
          group := g.value;
          prefixes := prefixes + [group];
          from := StepPast(group);
        } else {
          group := [];
          objects := objects + [ks[i]];
          from := After(ks[i]);
        }
      }
    }
  }

  method List(keys: seq<Key>, req: Request, start: Key) returns (objects: seq<Key>, prefixes: seq<Key>, next: Key)
    ensures var page := Page(keys, req, start);
            objects == ObjectsIn(page.items) && prefixes == GroupsIn(page.items) && next == page.next
    ensures req.limit <= 0 ==> objects == [] && prefixes == [] && next == []
  {
    objects, prefixes, next := [], [], [];
    if req.limit <= 0 { return; }
    var from := start;
    ghost var items: seq<Item> := [];
    while true
      invariant |items| <= req.limit && next == []
      invariant objects == ObjectsIn(items) && prefixes == GroupsIn(items)
      invariant Pages(keys, req, from, items) == Pages(keys, req, start, [])
      decreases req.limit - |items|
    {
      var want := Want(req);
      var ks := Scan(req.ns, keys, req.prefix, from, want);
      if |ks| == 0 { return; }
      var more;
      objects, prefixes, from, more, items := Report(ks, req, from, objects, prefixes, items);
      if more {
        next := from;
        return;
      }
      if |ks| < want || from == [] { return; }
    }
  }
}
