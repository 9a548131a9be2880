/** Resuming a version listing from the last key or group a client was shown, rather than from the
    position a page hands on. */
module Versions {
  import opened Basics
  import opened KeyOrder
  import opened Prefix
  import opened Listing
  import opened ListingTheorems

  const SLASH: byte := 0x2f
  const PERCENT: byte := 0x25

  function Scope(bucket: Key): Key { bucket + [SLASH] }

  function Scoped(bucket: Key, k: Key): Key {
    if k == [] then [] else Scope(bucket) + k
  }

  function Unscoped(bucket: Key, k: Key): Key { TrimPrefix(k, Scope(bucket)) }

  predicate Inside(bucket: Key, k: Key) { Scope(bucket) <= k }

  function LastReported(bucket: Key, objects: seq<Key>, prefixes: seq<Key>): Key {
    var last := if objects == [] then [] else Unscoped(bucket, objects[|objects| - 1]);
    if prefixes != [] && Less(last, Unscoped(bucket, prefixes[|prefixes| - 1]))
    then Unscoped(bucket, prefixes[|prefixes| - 1]) else last
  }

  predicate HasSuffix(k: Key, d: Key) {
    |d| <= |k| && k[|k| - |d|..] == d
  }

  /** A marker the server takes for a group it has already reported. */
  predicate TakenForGroup(marker: Key, prefix: Key, d: Key) {
    d != [] && marker != prefix && HasSuffix(marker, d)
  }

  /** Where the listing after a marker begins. */
  function ResumeFrom(bucket: Key, prefix: Key, d: Key, marker: Key): Key {
    if marker == [] then []
    else Scoped(bucket, if TakenForGroup(marker, prefix, d) then PastPrefix(marker) else After(marker))
  }

  function PastItem(x: Item): Key {
    match x
    case Object(k) => After(k)
    case Group(g) => PastPrefix(g)
  }

  predicate PastLast(items: seq<Item>, from: Key) {
    items != [] ==> from == PastItem(items[|items| - 1])
  }

  lemma {:induction false} WalkResumesPastLast(ks: seq<Key>, req: Request, group: Key, from: Key, items: seq<Item>)
    requires PastLast(items, from)
    ensures var w := Walk(ks, req, group, from, items); PastLast(w.items, w.from)
    decreases |ks|
  {
    if ks != [] {
      if group != [] && group <= ks[0] {
        WalkResumesPastLast(ks[1..], req, group, from, items);
      } else if |items| != req.limit {
        match GroupOf(ks[0], req.prefix, req.delimiter)
        case Some(g) => WalkResumesPastLast(ks[1..], req, g, PastPrefix(g), items + [Group(g)]);
        case None => WalkResumesPastLast(ks[1..], req, [], After(ks[0]), items + [Object(ks[0])]);
      }
    }
  }

  /** A page resumes just past the last thing it reported. */
  lemma {:induction false} PagesResumePastLast(keys: seq<Key>, req: Request, from: Key, items: seq<Item>)
    requires |items| <= req.limit && PastLast(items, from)
    ensures var page := Pages(keys, req, from, items); page.next != [] ==> PastLast(page.items, page.next)
    decreases req.limit - |items|
  {
    var ks := Scan(req.ns, keys, req.prefix, from, Want(req));
    WalkResumesPastLast(ks, req, [], from, items);
    var w := Walk(ks, req, [], from, items);
    if ks != [] && !w.more && !(|ks| < Want(req) || w.from == []) {
      PagesResumePastLast(keys, req, w.from, w.items);
    }
  }

  lemma {:induction false} ListsHoldItems(items: seq<Item>)
    ensures forall k :: k in ObjectsIn(items) ==> Object(k) in items
    ensures forall g :: g in GroupsIn(items) ==> Group(g) in items
  {
    if items != [] { ListsHoldItems(items[..|items| - 1]); }
  }

  lemma UnscopedOrder(bucket: Key, a: Key, b: Key)
    requires Inside(bucket, a) && Inside(bucket, b)
    ensures Less(Unscoped(bucket, a), Unscoped(bucket, b)) <==> Less(a, b)
    ensures a == Scope(bucket) + Unscoped(bucket, a)
  {
    LessShift(Scope(bucket), Unscoped(bucket, a), Unscoped(bucket, b));
    assert a == Scope(bucket) + Unscoped(bucket, a) && b == Scope(bucket) + Unscoped(bucket, b);
  }

  lemma LastOfLists(items: seq<Item>)
    requires items != [] && NamesAscending(items)
    ensures var x, objects, groups := items[|items| - 1], ObjectsIn(items), GroupsIn(items);
            && (x.Object? ==> objects != [] && objects[|objects| - 1] == x.name)
            && (x.Group? ==> groups != [] && groups[|groups| - 1] == x.name)
            && (x.Object? && groups != [] ==>
                  Group(groups[|groups| - 1]) in items && Less(groups[|groups| - 1], x.name))
            && (x.Group? && objects != [] ==>
                  Object(objects[|objects| - 1]) in items && Less(objects[|objects| - 1], x.name))
  {
    var front, x := items[..|items| - 1], items[|items| - 1];
    ListsHoldItems(front);
    forall y | y in front ensures y in items && Less(y.name, x.name) {
      var i :| 0 <= i < |front| && front[i] == y;
      assert items[i] == y;
    }
  }

  lemma LastIsObject(bucket: Key, name: Key, objects: seq<Key>, groups: seq<Key>)
    requires Inside(bucket, name) && objects != [] && objects[|objects| - 1] == name
    requires groups != [] ==> Inside(bucket, groups[|groups| - 1]) && Less(groups[|groups| - 1], name)
    ensures LastReported(bucket, objects, groups) == Unscoped(bucket, name)
  {
    if groups != [] {
      UnscopedOrder(bucket, name, groups[|groups| - 1]);
      NotLess(groups[|groups| - 1], name);
    }
  }

  lemma LastIsGroup(bucket: Key, name: Key, objects: seq<Key>, groups: seq<Key>)
    requires Inside(bucket, name) && groups != [] && groups[|groups| - 1] == name
    requires objects != [] ==> Inside(bucket, objects[|objects| - 1]) && Less(objects[|objects| - 1], name)
    ensures LastReported(bucket, objects, groups) == Unscoped(bucket, name)
  {
    if objects != [] { UnscopedOrder(bucket, objects[|objects| - 1], name); }
  }

  /** Keys and groups are shown in two lists; the later of their ends is the last thing reported. */
  lemma LastReportedIsLast(bucket: Key, items: seq<Item>, objects: seq<Key>, groups: seq<Key>)
    requires items != [] && NamesAscending(items) && objects == ObjectsIn(items) && groups == GroupsIn(items)
    requires forall x :: x in items ==> Inside(bucket, x.name)
    ensures LastReported(bucket, objects, groups) == Unscoped(bucket, items[|items| - 1].name)
  {
    LastOfLists(items);
    LaterEnd(bucket, items, items[|items| - 1], objects, groups);
  }

  lemma LaterEnd(bucket: Key, items: seq<Item>, x: Item, objects: seq<Key>, groups: seq<Key>)
    requires x in items && forall y :: y in items ==> Inside(bucket, y.name)
    requires if x.Object? then objects != [] && objects[|objects| - 1] == x.name
             else groups != [] && groups[|groups| - 1] == x.name
    requires x.Object? && groups != [] ==>
               Group(groups[|groups| - 1]) in items && Less(groups[|groups| - 1], x.name)
    requires x.Group? && objects != [] ==>
               Object(objects[|objects| - 1]) in items && Less(objects[|objects| - 1], x.name)
    ensures LastReported(bucket, objects, groups) == Unscoped(bucket, x.name)
  {
    if x.Object? {
      if groups != [] { InsideOf(bucket, items, Group(groups[|groups| - 1])); }
      LastIsObject(bucket, x.name, objects, groups);
    } else {
      if objects != [] { InsideOf(bucket, items, Object(objects[|objects| - 1])); }
      LastIsGroup(bucket, x.name, objects, groups);
    }
  }

  lemma InsideOf(bucket: Key, items: seq<Item>, x: Item)
    requires x in items && forall y :: y in items ==> Inside(bucket, y.name)
    ensures Inside(bucket, x.name)
  {
  }

  lemma ItemBelow(k: Key, prefix: Key, d: Key)
    requires prefix <= k
    ensures var x := ItemOf(k, prefix, d);
            prefix <= x.name && (x.Group? ==> HasSuffix(x.name, d) && d != [] && x.name != prefix)
  {
    if GroupOf(k, prefix, d).Some? { GroupIsPrefix(k, prefix, d); }
  }

  /** What a listing under a bucket may report. */
  lemma ReportedUnderScope(keys: seq<Key>, req: Request, from: Key, bucket: Key, prefix: Key, x: Item)
    requires Ascending(keys) && req.prefix == Scope(bucket) + prefix && x in Remaining(keys, req, from)
    ensures Inside(bucket, x.name) && req.prefix <= x.name
    ensures exists k :: k in keys && req.prefix <= k && x == ItemOf(k, req.prefix, req.delimiter)
  {
    var live := Live(keys, req.prefix, from);
    LiveAscending(keys, req.prefix, from);
    ItemsAreTheGrouping(live, req.prefix, req.delimiter);
    var k :| k in live && ItemOf(k, req.prefix, req.delimiter) == x;
    ItemBelow(k, req.prefix, req.delimiter);
    LiveKeys(keys, req.prefix, from, k);
    assert Scope(bucket) <= req.prefix;
  }

  lemma LiveKeys(keys: seq<Key>, prefix: Key, from: Key, k: Key)
    requires Ascending(keys) && k in Live(keys, prefix, from)
    ensures k in keys && prefix <= k
  {
    WithPrefixAscending(keys, prefix);
    var n := TailSuffix(WithPrefix(keys, prefix), from);
  }

  /** An object whose key ends in the delimiter, though the delimiter does not occur past the prefix. */
  predicate Straddles(x: Item, bucket: Key, prefix: Key, d: Key) {
    x.Object? && TakenForGroup(Unscoped(bucket, x.name), prefix, d)
  }

  /** A marker that goes on from this item: neither taken for a group nor empty. */
  predicate Marks(x: Item, bucket: Key, prefix: Key, d: Key) {
    !Straddles(x, bucket, prefix, d) && x != Object(Scope(bucket))
  }

  lemma ShorterPast(k: Key)
    ensures Clean(k) ==> |PastPrefix(k)| <= |k|
  {
    if Clean(k) {
      if AllHigh(k) { AllHighPast(k); } else { var stem, b, run := PastPrefixSplit(k); }
    }
  }

  lemma GroupMarker(scope: Key, prefix: Key, d: Key, marker: Key)
    requires d != [] && |marker| >= |prefix| + |d| && HasSuffix(scope + marker, d)
    ensures TakenForGroup(marker, prefix, d) && marker == marker[..|marker| - |d|] + d
  {
    assert marker[|marker| - |d|..] == (scope + marker)[|scope + marker| - |d|..];
  }

  lemma ResumePastGroup(bucket: Key, prefix: Key, d: Key, g: Key)
    requires Clean(d) && |g| >= |Scope(bucket)| + |prefix| + |d| && HasSuffix(g, d) && Scope(bucket) <= g
    ensures ResumeFrom(bucket, prefix, d, Unscoped(bucket, g)) == PastPrefix(g)
  {
    var scope, marker := Scope(bucket), Unscoped(bucket, g);
    assert g == scope + marker;
    GroupMarker(scope, prefix, d, marker);
    CleanSuffix(marker[..|marker| - |d|], d);
    CleanSuffix(scope, marker);
  }

  lemma ResumePastObject(bucket: Key, prefix: Key, d: Key, k: Key)
    requires Steppable(d) && Inside(bucket, k)
    ensures var marker := Unscoped(bucket, k);
            (ResumeFrom(bucket, prefix, d, marker) == After(k)
             <==> !TakenForGroup(marker, prefix, d) && k != Scope(bucket))
  {
    var scope, marker := Scope(bucket), Unscoped(bucket, k);
    assert k == scope + marker;
    if TakenForGroup(marker, prefix, d) {
      var stem := marker[..|marker| - |d|];
      assert marker == stem + d;
      CleanSuffix(stem, d);
      ShorterPast(marker);
    } else {
      assert scope + After(marker) == After(k);
      assert marker == [] <==> k == scope;
    }
  }

  lemma ItemName(k: Key, scope: Key, prefix: Key, d: Key)
    requires scope + prefix <= k && ItemOf(k, scope + prefix, d).Group?
    ensures var g := ItemOf(k, scope + prefix, d).name;
            d != [] && |g| >= |scope| + |prefix| + |d| && HasSuffix(g, d) && scope <= g
  {
    GroupIsPrefix(k, scope + prefix, d);
    assert scope <= scope + prefix;
  }

  lemma ResumePastItem(bucket: Key, prefix: Key, d: Key, x: Item)
    requires Steppable(d) && Inside(bucket, x.name)
    requires exists k :: Scope(bucket) + prefix <= k && x == ItemOf(k, Scope(bucket) + prefix, d)
    ensures ResumeFrom(bucket, prefix, d, Unscoped(bucket, x.name)) == PastItem(x) <==> Marks(x, bucket, prefix, d)
  {
    match x
    case Object(k) => ResumePastObject(bucket, prefix, d, k);
    case Group(g) =>
      var k :| Scope(bucket) + prefix <= k && x == ItemOf(k, Scope(bucket) + prefix, d);
      ItemName(k, Scope(bucket), prefix, d);
      ResumePastGroup(bucket, prefix, d, g);
  }

  lemma PageReports(keys: seq<Key>, req: Request, from: Key)
    requires Ascending(keys) && !AllHigh(req.ns) && Steppable(req.delimiter) && req.limit > 0
    requires Page(keys, req, from).next != []
    ensures var page := Page(keys, req, from);
            && page.items != [] && NamesAscending(page.items) && page.next == PastItem(page.items[|page.items| - 1])
            && forall x :: x in page.items ==> x in Remaining(keys, req, from)
  {
    PageIsNextItems(keys, req, from);
    LiveAscending(keys, req.prefix, from);
    ItemsAreTheGrouping(Live(keys, req.prefix, from), req.prefix, req.delimiter);
    PagesResumePastLast(keys, req, from, []);
  }

  /** The marker a page ends with. */
  function MarkerOf(bucket: Key, page: Listed): Key {
    LastReported(bucket, ObjectsIn(page.items), GroupsIn(page.items))
  }

  /** Resuming a version listing from the last thing it showed goes on exactly where the page itself
      would, unless that thing is an object whose key ends in the delimiter across the end of the
      prefix, or the object with the empty key. */
  lemma MarkerResumesIff(keys: seq<Key>, req: Request, from: Key, bucket: Key, prefix: Key)
    requires Ascending(keys) && !AllHigh(req.ns) && Steppable(req.delimiter) && req.limit > 0
    requires req.prefix == Scope(bucket) + prefix && Page(keys, req, from).next != []
    ensures var page := Page(keys, req, from);
            && page.items != []
            && (ResumeFrom(bucket, prefix, req.delimiter, MarkerOf(bucket, page)) == page.next
                <==> Marks(page.items[|page.items| - 1], bucket, prefix, req.delimiter))
  {
    var items := Page(keys, req, from).items;
    PageReports(keys, req, from);
    forall x | x in items ensures Inside(bucket, x.name) {
      ReportedUnderScope(keys, req, from, bucket, prefix, x);
    }
    LastReportedIsLast(bucket, items, ObjectsIn(items), GroupsIn(items));
    var x := items[|items| - 1];
    ReportedUnderScope(keys, req, from, bucket, prefix, x);
    ResumePastItem(bucket, prefix, req.delimiter, x);
  }

  // Which listings markers can be followed through

  /** The delimiter can begin inside the prefix and end past it. */
  ghost predicate Overlaps(prefix: Key, d: Key) {
    exists n :: 0 < n < |d| && HasSuffix(prefix, d[..n])
  }

  lemma SplitSuffix(prefix: Key, rest: Key, d: Key)
    requires rest != [] && HasSuffix(prefix + rest, d) && |rest| < |d|
    ensures Overlaps(prefix, d)
  {
    var n, all := |d| - |rest|, prefix + rest;
    assert d[..n] == all[|all| - |d|..][..n] == prefix[|prefix| - n..];
  }

  lemma OccursAtEnd(prefix: Key, rest: Key, d: Key)
    requires HasSuffix(prefix + rest, d) && |rest| >= |d|
    ensures OccursAt(rest, d, |rest| - |d|)
  {
    var all := prefix + rest;
    assert rest[|rest| - |d|..] == all[|all| - |d|..];
  }

  /** A key straddles only if the delimiter can. */
  lemma StraddlesOverlap(k: Key, bucket: Key, prefix: Key, d: Key)
    requires Scope(bucket) + prefix <= k && Straddles(ItemOf(k, Scope(bucket) + prefix, d), bucket, prefix, d)
    ensures Overlaps(prefix, d)
  {
    var full := Scope(bucket) + prefix;
    var rest, marker := k[|full|..], Unscoped(bucket, k);
    assert Scope(bucket) <= k by { assert Scope(bucket) <= full; }
    assert marker == prefix + rest by { assert k == full + rest; }
    if |rest| >= |d| {
      OccursAtEnd(prefix, rest, d);
    } else {
      SplitSuffix(prefix, rest, d);
    }
  }

  /** The page after this one, resumed by its marker, has exactly the rest to report. */
  ghost predicate GoesOn(keys: seq<Key>, req: Request, from: Key, bucket: Key, prefix: Key) {
    var page := Page(keys, req, from);
    page.next != [] ==>
      Remaining(keys, req, ResumeFrom(bucket, prefix, req.delimiter, MarkerOf(bucket, page)))
      == Remaining(keys, req, page.next)
  }

  /** So it does for every keyspace unless the delimiter can straddle the prefix, or the empty key is
      among those listed. */
  lemma MarkerResumes(keys: seq<Key>, req: Request, from: Key, bucket: Key, prefix: Key)
    requires Ascending(keys) && !AllHigh(req.ns) && Steppable(req.delimiter) && req.limit > 0
    requires req.prefix == Scope(bucket) + prefix && Page(keys, req, from).next != []
    requires !Overlaps(prefix, req.delimiter) && (prefix != [] || Scope(bucket) !in keys)
    ensures var page := Page(keys, req, from);
            ResumeFrom(bucket, prefix, req.delimiter, MarkerOf(bucket, page)) == page.next
  {
    MarkerResumesIff(keys, req, from, bucket, prefix);
    PageReports(keys, req, from);
    var items := Page(keys, req, from).items;
    var x := items[|items| - 1];
    ReportedUnderScope(keys, req, from, bucket, prefix, x);
    var k :| k in keys && req.prefix <= k && x == ItemOf(k, req.prefix, req.delimiter);
    if Straddles(x, bucket, prefix, req.delimiter) { StraddlesOverlap(k, bucket, prefix, req.delimiter); }
    assert |x.name| >= |Scope(bucket)| + |prefix|;
  }

  lemma TwoItems(a: Key, b: Key, req: Request)
    requires Less(a, b) && req.prefix <= a && req.prefix <= b && req.limit == 1
    requires !AllHigh(req.ns) && Steppable(req.delimiter) && GroupOf(a, req.prefix, req.delimiter).None?
    ensures Ascending([a, b]) && Page([a, b], req, []) == Listed([Object(a)], After(a))
    ensures Remaining([a, b], req, []) == [Object(a), ItemOf(b, req.prefix, req.delimiter)]
    ensures Remaining([a, b], req, After(a)) == [ItemOf(b, req.prefix, req.delimiter)]
  {
    var keys, second := [a, b], ItemOf(b, req.prefix, req.delimiter);
    LessIrreflexive(a);
    assert WithPrefix([b], req.prefix) == [b];
    assert keys[1..] == [b] && WithPrefix(keys, req.prefix) == keys;
    PrefixAtMost([], a);
    assert Live(keys, req.prefix, []) == keys;
    assert Items([b], req.prefix, req.delimiter) == [second];
    assert Items(keys, req.prefix, req.delimiter) == [Object(a), second];
    PageIsNextItems(keys, req, []);
    PageReports(keys, req, []);
  }

  lemma NoneRemain(a: Key, b: Key, req: Request, from: Key)
    requires Less(a, from) && Less(b, from) && req.prefix <= a && req.prefix <= b
    ensures Remaining([a, b], req, from) == []
  {
    NotLess(a, from);
    NotLess(b, from);
    assert WithPrefix([b], req.prefix) == [b];
    assert [a, b][1..] == [b] && WithPrefix([a, b], req.prefix) == [a, b];
    assert Tail([b], from) == [] && Tail([a, b], from) == [];
  }

  lemma PastTaken(bucket: Key, prefix: Key, d: Key, marker: Key, k: Key)
    requires Clean(d) && TakenForGroup(marker, prefix, d) && Scope(bucket) + marker <= k
    ensures Less(k, ResumeFrom(bucket, prefix, d, marker))
  {
    var scope, stem := Scope(bucket), marker[..|marker| - |d|];
    assert marker == stem + d;
    CleanSuffix(stem, d);
    CleanSuffix(scope, marker);
    PastPrefixExactIff(scope + marker);
    PrefixAtMost(scope + marker, k);
    NotLess(k, PastPrefix(scope + marker));
  }

  lemma StraddlingMarker(prefix: Key, d: Key, n: nat)
    requires 0 < n < |d| && HasSuffix(prefix, d[..n])
    ensures TakenForGroup(prefix + d[n..], prefix, d)
  {
    var stem := prefix[..|prefix| - n];
    assert prefix == stem + d[..n];
    assert prefix + d[n..] == stem + d;
  }

  /** Of a key taken for a group and the one after it, the second is never shown. */
  lemma TakenHidesNext(bucket: Key, prefix: Key, req: Request, marker: Key, shown: Key)
    requires req.prefix == Scope(bucket) + prefix && req.limit == 1 && !AllHigh(req.ns) && Clean(req.delimiter)
    requires TakenForGroup(marker, prefix, req.delimiter) && shown == Scope(bucket) + marker && req.prefix <= shown
    requires GroupOf(shown, req.prefix, req.delimiter).None?
    ensures var keys := [shown, After(shown)];
            && Ascending(keys)
            && Page(keys, req, []) == Listed([Object(shown)], After(shown))
            && Remaining(keys, req, After(shown)) == [ItemOf(After(shown), req.prefix, req.delimiter)]
            && Remaining(keys, req, ResumeFrom(bucket, prefix, req.delimiter, marker)) == []
  {
    AfterIsNext(shown, After(shown));
    TwoItems(shown, After(shown), req);
    PastTaken(bucket, prefix, req.delimiter, marker, shown);
    PastTaken(bucket, prefix, req.delimiter, marker, After(shown));
    NoneRemain(shown, After(shown), req, ResumeFrom(bucket, prefix, req.delimiter, marker));
  }

  lemma ShownKey(bucket: Key, prefix: Key, rest: Key, d: Key)
    requires rest != [] && |rest| < |d|
    ensures var shown := Scope(bucket) + prefix + rest;
            && shown == Scope(bucket) + (prefix + rest) && Unscoped(bucket, shown) == prefix + rest
            && Scope(bucket) + prefix <= shown && GroupOf(shown, Scope(bucket) + prefix, d).None?
            && Scope(bucket) !in [shown, After(shown)]
  {
    var full, shown := Scope(bucket) + prefix, Scope(bucket) + prefix + rest;
    assert shown == Scope(bucket) + (prefix + rest);
    assert Unscoped(bucket, shown) == prefix + rest;
    assert TrimPrefix(shown, full) == rest;
    assert |Scope(bucket)| < |shown| < |After(shown)|;
  }

  /** Where the delimiter can straddle, a key that ends in it is taken for a group, and the key that
      follows it is never shown. */
  lemma StraddlingKeyHidesOthers(bucket: Key, prefix: Key, d: Key, n: nat)
    requires Clean(d) && 0 < n < |d| && HasSuffix(prefix, d[..n])
    ensures var req := Request([0], Scope(bucket) + prefix, d, 1);
            var shown := req.prefix + d[n..];
            var keys := [shown, After(shown)];
            && Ascending(keys) && Scope(bucket) !in keys
            && Page(keys, req, []) == Listed([Object(shown)], After(shown))
            && Remaining(keys, req, After(shown)) == [ItemOf(After(shown), req.prefix, d)]
            && Remaining(keys, req, ResumeFrom(bucket, prefix, d, Unscoped(bucket, shown))) == []
  {
    var req := Request([0], Scope(bucket) + prefix, d, 1);
    ShownKey(bucket, prefix, d[n..], d);
    StraddlingMarker(prefix, d, n);
    TakenHidesNext(bucket, prefix, req, prefix + d[n..], req.prefix + d[n..]);
  }

  lemma OneObject(bucket: Key, k: Key, next: Key)
    ensures MarkerOf(bucket, Listed([Object(k)], next)) == Unscoped(bucket, k)
  {
    ItemAdded([], Object(k));
    assert [] + [Object(k)] == [Object(k)];
  }

  /** An empty marker starts the listing over. */
  lemma EmptyKeyStartsOver(bucket: Key, d: Key)
    requires Steppable(d)
    ensures var req := Request([0], Scope(bucket) + [], d, 1);
            var keys := [Scope(bucket), After(Scope(bucket))];
            Ascending(keys) && !GoesOn(keys, req, [], bucket, [])
  {
    var req, shown := Request([0], Scope(bucket) + [], d, 1), Scope(bucket);
    assert req.prefix == shown && TrimPrefix(shown, req.prefix) == [];
    AfterIsNext(shown, After(shown));
    TwoItems(shown, After(shown), req);
    OneObject(bucket, shown, After(shown));
  }

  ghost predicate AlwaysGoesOn(bucket: Key, prefix: Key, d: Key, emptyKey: bool) {
    forall keys, req: Request, from ::
      && Ascending(keys) && !AllHigh(req.ns) && req.limit > 0
      && req.prefix == Scope(bucket) + prefix && req.delimiter == d && (emptyKey || Scope(bucket) !in keys)
      ==> GoesOn(keys, req, from, bucket, prefix)
  }

  lemma ShownGoesWrong(keys: seq<Key>, req: Request, bucket: Key, prefix: Key, shown: Key)
    requires Page(keys, req, []) == Listed([Object(shown)], After(shown))
    requires Remaining(keys, req, After(shown)) != []
    requires Remaining(keys, req, ResumeFrom(bucket, prefix, req.delimiter, Unscoped(bucket, shown))) == []
    ensures !GoesOn(keys, req, [], bucket, prefix)
  {
    OneObject(bucket, shown, After(shown));
  }

  lemma OneGoesWrong(keys: seq<Key>, req: Request, bucket: Key, prefix: Key)
    requires Ascending(keys) && !AllHigh(req.ns) && req.limit > 0 && req.prefix == Scope(bucket) + prefix
    requires Scope(bucket) !in keys && !GoesOn(keys, req, [], bucket, prefix)
    ensures !AlwaysGoesOn(bucket, prefix, req.delimiter, false) && !AlwaysGoesOn(bucket, prefix, req.delimiter, true)
  {
  }

  lemma OverlapGoesWrong(bucket: Key, prefix: Key, d: Key)
    requires Clean(d) && Overlaps(prefix, d)
    ensures !AlwaysGoesOn(bucket, prefix, d, false) && !AlwaysGoesOn(bucket, prefix, d, true)
  {
    var n :| 0 < n < |d| && HasSuffix(prefix, d[..n]);
    var req := Request([0], Scope(bucket) + prefix, d, 1);
    var shown := req.prefix + d[n..];
    StraddlingKeyHidesOthers(bucket, prefix, d, n);
    ShownGoesWrong([shown, After(shown)], req, bucket, prefix, shown);
    OneGoesWrong([shown, After(shown)], req, bucket, prefix);
  }

  /** Whether a bucket can be listed by markers is decided by the prefix and the delimiter alone, and
      by whether it may hold the empty key. */
  lemma AlwaysGoesOnIff(bucket: Key, prefix: Key, d: Key, emptyKey: bool)
    requires Steppable(d)
    ensures AlwaysGoesOn(bucket, prefix, d, emptyKey) <==> !Overlaps(prefix, d) && (emptyKey ==> prefix != [])
  {
    if !Overlaps(prefix, d) && (emptyKey ==> prefix != []) {
      forall keys, req: Request, from |
        && Ascending(keys) && !AllHigh(req.ns) && req.limit > 0
        && req.prefix == Scope(bucket) + prefix && req.delimiter == d && (emptyKey || Scope(bucket) !in keys)
        ensures GoesOn(keys, req, from, bucket, prefix)
      {
        if Page(keys, req, from).next != [] { MarkerResumes(keys, req, from, bucket, prefix); }
      }
    } else if Overlaps(prefix, d) {
      OverlapGoesWrong(bucket, prefix, d);
    } else {
      EmptyKeyStartsOver(bucket, d);
    }
  }

  // The encoded form of a marker

  predicate Unreserved(c: byte) {
    || 0x41 <= c <= 0x5a || 0x61 <= c <= 0x7a || 0x30 <= c <= 0x39
    || c == 0x2d || c == 0x5f || c == 0x2e || c == 0x7e || c == SLASH
  }

  function HexDigit(n: byte): byte
    requires n < 16
  {
    if n < 10 then 0x30 + n else 0x41 + (n - 10)
  }

  function EscapeByte(c: byte): Key {
    if Unreserved(c) then [c] else [PERCENT, HexDigit(c / 16), HexDigit(c % 16)]
  }

  function Escaped(s: Key): Key {
    if s == [] then [] else Escaped(s[..|s| - 1]) + EscapeByte(s[|s| - 1])
  }

  method EscapeKey(s: Key) returns (b: Key)
    ensures b == Escaped(s)
  {
    b := [];
    for i := 0 to |s|
      invariant b == Escaped(s[..i])
    {
      assert s[..i + 1][..i] == s[..i];
      if Unreserved(s[i]) {
        b := b + [s[i]];
      } else {
        b := b + [PERCENT, HexDigit(s[i] / 16), HexDigit(s[i] % 16)];
      }
    }
    assert s[..|s|] == s;
  }

  lemma HexDigitIs(n: byte)
    requires n < 16
    ensures HexDigit(n) as char == "0123456789ABCDEF"[n as int]
  {
    var i := n as int;
    match i { case 0 => case 1 => case 2 => case 3 => case 4 => case 5 => case 6 => case 7 => case 8 => case 9 =>
              case 10 => case 11 => case 12 => case 13 => case 14 => case _ => }
  }

  /** A letter, a digit or one of -_.~/ stands for itself; every other byte is escaped as a percent sign and its two
      digits, in upper case. */
  lemma EscapeByteIs(c: byte)
    ensures var x, e := c as char, EscapeByte(c);
            if || 'A' <= x <= 'Z' || 'a' <= x <= 'z' || '0' <= x <= '9'
               || x == '-' || x == '_' || x == '.' || x == '~' || x == '/' then e == [c]
            else
              && |e| == 3 && e[0] as char == '%'
              && e[1] as char == "0123456789ABCDEF"[c as int / 16] && e[2] as char == "0123456789ABCDEF"[c as int % 16]
  {
    HexDigitIs(c / 16);
    HexDigitIs(c % 16);
  }

  lemma EscapedSnoc(s: Key, c: byte)
    ensures Escaped(s + [c]) == Escaped(s) + EscapeByte(c)
  {
    assert (s + [c])[..|s|] == s;
  }

  /** A key is escaped byte by byte. */
  lemma {:induction false} EscapedConcat(s: Key, t: Key)
    ensures Escaped(s + t) == Escaped(s) + Escaped(t)
  {
    if t == [] {
      assert s + t == s && Escaped(t) == [] && Escaped(s) + [] == Escaped(s);
    } else {
      var front, c := t[..|t| - 1], t[|t| - 1];
      assert s + t == s + front + [c];
      EscapedConcat(s, front);
      EscapedSnoc(s + front, c);
      Regroup(Escaped(s), Escaped(front), EscapeByte(c));
    }
  }

  function HexValue(c: byte): Option<byte> {
    if 0x30 <= c <= 0x39 then Some(c - 0x30)
    else if 0x41 <= c <= 0x46 then Some(c - 0x41 + 10)
    else if 0x61 <= c <= 0x66 then Some(c - 0x61 + 10)
    else None
  }

  /** Path unescaping: a percent sign takes two hex digits, and everything else stands for itself. */
  function Unescaped(s: Key): Option<Key> {
    if s == [] then Some([])
    else if s[0] == PERCENT then
      if |s| < 3 || HexValue(s[1]).None? || HexValue(s[2]).None? then None
      else
        var rest := Unescaped(s[3..]);
        if rest.None? then None else Some([HexValue(s[1]).value * 16 + HexValue(s[2]).value] + rest.value)
    else
      var rest := Unescaped(s[1..]);
      if rest.None? then None else Some([s[0]] + rest.value)
  }

  /** A digit may be in either case. */
  lemma HexValueIs(c: byte, n: byte)
    requires n < 16
    ensures HexValue(c) == Some(n) <==>
            c as char == "0123456789ABCDEF"[n as int] || c as char == "0123456789abcdef"[n as int]
  {
    var i := n as int;
    match i { case 0 => case 1 => case 2 => case 3 => case 4 => case 5 => case 6 => case 7 => case 8 => case 9 =>
              case 10 => case 11 => case 12 => case 13 => case 14 => case _ => }
  }

  /** A text without percent signs, plus signs and all, stands for itself. */
  lemma {:induction false} UnescapedPlain(s: Key)
    requires 0x25 !in s
    ensures Unescaped(s) == Some(s)
  {
    if s != [] {
      UnescapedPlain(s[1..]);
      assert s == [s[0]] + s[1..];
    }
  }

  lemma UnescapeByte(c: byte, s: Key)
    requires Unescaped(s).Some?
    ensures Unescaped(EscapeByte(c) + s) == Some([c] + Unescaped(s).value)
  {
    var e := EscapeByte(c) + s;
    if Unreserved(c) {
      assert e[1..] == s;
    } else {
      assert e[3..] == s;
      assert e[0] == PERCENT && e[1] == HexDigit(c / 16) && e[2] == HexDigit(c % 16);
    }
  }

  lemma Regroup(a: Key, b: Key, c: Key)
    ensures a + b + c == a + (b + c)
  {
  }

  lemma {:induction false} UnescapeEscapedThen(s: Key, t: Key, out: Key)
    requires Unescaped(t) == Some(out)
    ensures Unescaped(Escaped(s) + t) == Some(s + out)
  {
    if s == [] {
      assert Escaped(s) + t == t && s + out == out;
    } else {
      var front, c := s[..|s| - 1], s[|s| - 1];
      var e := EscapeByte(c);
      UnescapeByte(c, t);
      UnescapeEscapedThen(front, e + t, [c] + out);
      Regroup(Escaped(front), e, t);
      Regroup(front, [c], out);
      assert s == front + [c];
    }
  }

  /** Unescaping a marker gives back the key it was made from. */
  lemma EscapeRoundTrip(s: Key)
    ensures Unescaped(Escaped(s)) == Some(s)
  {
    UnescapeEscapedThen(s, [], []);
    assert Escaped(s) + [] == Escaped(s) && s + [] == s;
  }

  // A whole listing by markers

  function Sent(marker: Key, encoded: bool): Key { if encoded then Escaped(marker) else marker }

  /** A marker that cannot be unescaped is used as it came. */
  function Received(sent: Key, encoded: bool): Key {
    if encoded then match Unescaped(sent) case Some(k) => k case None => sent
    else sent
  }

  /** The pages a client gets by sending back each page's marker, encoded or not. */
  ghost function ShownByMarkers(
    keys: seq<Key>, req: Request, from: Key, bucket: Key, prefix: Key, encoded: bool): seq<Listed>
    requires Ascending(keys) && !AllHigh(req.ns) && Steppable(req.delimiter) && req.limit > 0
    requires req.prefix == Scope(bucket) + prefix
    requires !Overlaps(prefix, req.delimiter) && (prefix != [] || Scope(bucket) !in keys)
    decreases |Remaining(keys, req, from)|
  {
    var page := Page(keys, req, from);
    PageIsNextItems(keys, req, from);
    if page.next == [] then [page]
    else
      var marker := MarkerOf(bucket, page);
      MarkerResumes(keys, req, from, bucket, prefix);
      EscapeRoundTrip(marker);
      var resumed := ResumeFrom(bucket, prefix, req.delimiter, Received(Sent(marker, encoded), encoded));
      [page] + ShownByMarkers(keys, req, resumed, bucket, prefix, encoded)
  }

  /** Following markers shows the same pages as following the positions, hence the whole listing. */
  lemma {:induction false} MarkersShowTheWhole(
    keys: seq<Key>, req: Request, from: Key, bucket: Key, prefix: Key, encoded: bool)
    requires Ascending(keys) && !AllHigh(req.ns) && Steppable(req.delimiter) && req.limit > 0
    requires req.prefix == Scope(bucket) + prefix
    requires !Overlaps(prefix, req.delimiter) && (prefix != [] || Scope(bucket) !in keys)
    ensures var pages := ShownByMarkers(keys, req, from, bucket, prefix, encoded);
            pages == Followed(keys, req, from) && AllItems(pages) == Remaining(keys, req, from)
    decreases |Remaining(keys, req, from)|
  {
    FollowedIsWhole(keys, req, from);
    PageIsNextItems(keys, req, from);
    var page := Page(keys, req, from);
    if page.next != [] {
      MarkerResumes(keys, req, from, bucket, prefix);
      EscapeRoundTrip(MarkerOf(bucket, page));
      MarkersShowTheWhole(keys, req, page.next, bucket, prefix, encoded);
    }
  }
}
