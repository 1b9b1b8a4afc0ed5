/** How far what is collected depends on the order in which directories are listed and include items given. */
module ListingOrder {
  import opened Collections
  import opened SyncTypes
  import opened RelPaths
  import opened Collect
  import opened Collected

  // Another listing order.

  /** `u` is `t` with directories listed in another order: the same names lead to the same files, to
      directories, and nowhere. */
  ghost predicate Relisted(t: Node, u: Node) {
    GoodTree(u) && forall p: Names :: SameFound(Find(t, p), Find(u, p))
  }

  predicate SameFound(x: Lookup, y: Lookup) {
    match (x, y)
    case (Found(t), Found(u)) => if t.Dir? then u.Dir? else t == u
    case _ => x == y
  }

  /** The tree with the entries on the way to `c` listed last. */
  function Favored(node: Node, c: Names): Node
    decreases |c|
  {
    if c == [] || !node.Dir? then node
    else match Child(node.entries, c[0])
      case None => node
      case Some(child) => Dir(Others(node.entries, c[0]) + [Entry(c[0], Favored(child, c[1..]))])
  }

  function Others(entries: seq<Entry>, name: string): seq<Entry> {
    if entries == [] then []
    else
      var n := |entries| - 1;
      Others(entries[..n], name) + if entries[n].name == name then [] else [entries[n]]
  }

  lemma {:induction false} OthersMembers(entries: seq<Entry>, name: string)
    requires NamesDiffer(entries)
    ensures NamesDiffer(Others(entries, name))
    ensures forall e <- Others(entries, name) :: e in entries && e.name != name
  {
    if entries == [] {
    } else {
      var n := |entries| - 1;
      OthersMembers(entries[..n], name);
      forall e | e in Others(entries[..n], name) ensures e in entries && e.name != entries[n].name {
        var k :| 0 <= k < n && entries[k] == e;
      }
    }
  }

  lemma {:induction false} ChildAppended(entries: seq<Entry>, last: Entry, name: string)
    ensures Child(entries + [last], name) ==
      if Child(entries, name).Some? then Child(entries, name) else if last.name == name then Some(last.node) else None
  {
    if entries == [] {
      assert [] + [last] == [last];
    } else {
      assert (entries + [last])[1..] == entries[1..] + [last];
      ChildAppended(entries[1..], last, name);
    }
  }

  lemma {:induction false} ChildOfOthers(entries: seq<Entry>, name: string, other: string)
    ensures Child(Others(entries, name), other) == if other == name then None else Child(entries, other)
  {
    if entries == [] {
    } else {
      var n := |entries| - 1;
      ChildOfOthers(entries[..n], name, other);
      assert entries == entries[..n] + [entries[n]];
      ChildAppended(entries[..n], entries[n], other);
      if entries[n].name == name {
        assert Others(entries, name) == Others(entries[..n], name);
      } else {
        ChildAppended(Others(entries[..n], name), entries[n], other);
      }
    }
  }

  /** What a name leads to after favoring. */
  lemma FavoredChild(t: Node, c: Names, name: string)
    requires t.Dir? && c != [] && Child(t.entries, c[0]).Some?
    ensures Favored(t, c).Dir?
    ensures Child(Favored(t, c).entries, name) ==
      if name == c[0] then Some(Favored(Child(t.entries, c[0]).value, c[1..])) else Child(t.entries, name)
  {
    ChildOfOthers(t.entries, c[0], name);
    ChildAppended(Others(t.entries, c[0]), Entry(c[0], Favored(Child(t.entries, c[0]).value, c[1..])), name);
  }

  lemma {:induction false} FavoredFindsSame(t: Node, c: Names, p: Names)
    ensures SameFound(Find(t, p), Find(Favored(t, c), p))
    decreases |p|
  {
    if p == [] || c == [] || !t.Dir? || Child(t.entries, c[0]).None? {
    } else {
      FavoredChild(t, c, p[0]);
      if p[0] == c[0] {
        FavoredFindsSame(Child(t.entries, c[0]).value, c[1..], p[1..]);
      }
    }
  }

  lemma {:induction false} FavoredIsGood(t: Node, c: Names)
    requires GoodTree(t)
    ensures GoodTree(Favored(t, c))
    decreases |c|
  {
    if c == [] || !t.Dir? || Child(t.entries, c[0]).None? {
    } else {
      var i := ChildIndex(t.entries, c[0]);
      assert t.entries[i] in t.entries;
      OthersMembers(t.entries, c[0]);
      FavoredIsGood(t.entries[i].node, c[1..]);
      ReplacedIsGood(Others(t.entries, c[0]), Entry(c[0], Favored(t.entries[i].node, c[1..])));
    }
  }

  lemma ReplacedIsGood(others: seq<Entry>, last: Entry)
    requires NamesDiffer(others) && forall e <- others :: GoodName(e.name) && GoodTree(e.node) && e.name != last.name
    requires GoodName(last.name) && GoodTree(last.node)
    ensures GoodTree(Dir(others + [last]))
  {
    forall i, j | 0 <= i < j < |others + [last]| ensures (others + [last])[i].name != (others + [last])[j].name {
      assert i < |others| && others[i] in others;
    }
  }

  lemma FavoredIsRelisted(t: Node, c: Names)
    requires GoodTree(t)
    ensures Relisted(t, Favored(t, c))
  {
    FavoredIsGood(t, c);
    forall p: Names ensures SameFound(Find(t, p), Find(Favored(t, c), p)) {
      FavoredFindsSame(t, c, p);
    }
  }

  lemma {:induction false} FavoredFind(t: Node, root: Names, d: Names)
    requires Find(t, root).Found?
    ensures Find(Favored(t, root + d), root) == Found(Favored(Find(t, root).node, d))
    decreases |root|
  {
    if root == [] {
      assert root + d == d;
    } else {
      var child := Child(t.entries, root[0]).value;
      assert (root + d)[1..] == root[1..] + d;
      FavoredFind(child, root[1..], d);
      FavoredChild(t, root + d, root[0]);
    }
  }

  /** Listed last, a file wins over every other that has its path. */
  lemma {:induction false} FavoredWins(r: Rules, node: Node, root: Names, d: Names, body: Bytes)
    requires node.Dir? && d != [] && Find(node, d) == Found(File(body)) && Reaches(r, root, root + d)
    ensures Favored(node, d).Dir? && r.rel(root + d) in WalkedDir(r, Favored(node, d), root)
    ensures WalkedDir(r, Favored(node, d), root)[r.rel(root + d)] == body
    decreases |d|
  {
    var child, below := Child(node.entries, d[0]).value, root + [d[0]];
    var u := Favored(node, d);
    assert below + d[1..] == root + d;
    assert below <= root + d;
    ReachesExtend(r, root, d[0], root + d);
    if d[1..] == [] {
      assert below == root + d;
    } else {
      FavoredWins(r, child, below, d[1..], body);
    }
    var last := |u.entries| - 1;
    assert u.entries[last] == Entry(d[0], Favored(child, d[1..]));
    assert WalkedDir(r, u, root) == WalkedUpTo(r, u, root, last) + WalkedEntry(r, u.entries[last], root);
  }

  lemma FavoredIsCollected(at: Place, item: string, c: Names, body: Bytes)
    requires at.Valid() && Via(at, item, c, body)
    ensures var there := at.(tree := Favored(at.tree, c));
      && there.Valid() && Relisted(at.tree, there.tree)
      && RelOf(at.home, c) in WalkedRoot(there, item) && WalkedRoot(there, item)[RelOf(at.home, c)] == body
  {
    var root := Root(at.home, item);
    var d := c[|root|..];
    assert c == root + d && c[..|root|] == root;
    RootIsGood(at.home, item);
    WalkedNodeComplete(SyncRules(at.home), at.tree, root, c, body);
    FavoredIsRelisted(at.tree, c);
    FavoredNode(SyncRules(at.home), at.tree, root, d, body);
  }

  lemma FavoredNode(r: Rules, tree: Node, root: Names, d: Names, body: Bytes)
    requires Find(tree, root).Found? && Find(tree, root + d) == Found(File(body)) && Reaches(r, root, root + d)
    requires d != [] ==> Find(tree, root).node.Dir?
    ensures var found := Find(Favored(tree, root + d), root);
      && found.Found? && (d != [] ==> found.node.Dir?)
      && r.rel(root + d) in WalkedNode(r, found.node, root)
      && WalkedNode(r, found.node, root)[r.rel(root + d)] == body
  {
    FavoredFind(tree, root, d);
    FindSplit(tree, root, d);
    if d == [] {
      assert root + d == root;
    } else {
      FavoredWins(r, Find(tree, root).node, root, d, body);
    }
  }

  lemma {:induction false} FindSplit(t: Node, root: Names, d: Names)
    requires Find(t, root).Found?
    ensures Find(t, root + d) == Find(Find(t, root).node, d)
    decreases |root|
  {
    if root == [] {
      assert root + d == d;
    } else {
      assert (root + d)[1..] == root[1..] + d;
      FindSplit(Child(t.entries, root[0]).value, root[1..], d);
    }
  }

  // When the order does not matter.

  lemma ReachedRelisted(at: Place, items: seq<string>, u: Node, others: seq<string>)
    requires Relisted(at.tree, u) && Elements(others) == Elements(items)
    ensures forall c, body :: Reached(at, items, c, body) <==> Reached(at.(tree := u), others, c, body)
  {
    assert forall item :: item in items <==> item in Elements(items);
    assert forall item :: item in others <==> item in Elements(others);
    forall c, body, item ensures Via(at, item, c, body) <==> Via(at.(tree := u), item, c, body) {
      assert SameFound(Find(at.tree, c), Find(u, c));
    }
  }

  lemma RelistedIsValid(at: Place, u: Node)
    requires at.Valid() && Relisted(at.tree, u)
    ensures at.(tree := u).Valid()
  {
    assert SameFound(Find(at.tree, []), Find(u, []));
  }

  ghost predicate SameUpToOrder(at: Place, items: seq<string>, u: Node, others: seq<string>) {
    Relisted(at.tree, u) && Elements(others) == Elements(items)
  }

  /** Neither the listing order of the directories nor the order or repetition of the items changes what is
      collected. */
  ghost predicate OrderFree(at: Place, items: seq<string>) {
    forall u, others :: SameUpToOrder(at, items, u, others) ==>
      WalkedRoots(at.(tree := u), others) == WalkedRoots(at, items)
  }

  lemma UnambiguousIsCovered(at: Place, items: seq<string>, u: Node, others: seq<string>)
    requires at.Valid() && Unambiguous(at, items) && SameUpToOrder(at, items, u, others)
    ensures var there := at.(tree := u);
      forall rel <- WalkedRoots(at, items) ::
        rel in WalkedRoots(there, others) && WalkedRoots(there, others)[rel] == WalkedRoots(at, items)[rel]
  {
    var there := at.(tree := u);
    RelistedIsValid(at, u);
    ReachedRelisted(at, items, u, others);
    forall rel | rel in WalkedRoots(at, items)
      ensures rel in WalkedRoots(there, others) && WalkedRoots(there, others)[rel] == WalkedRoots(at, items)[rel]
    {
      var a := CollectedAreFiles(at, items, rel);
      ReachedAreCollected(there, others, a, WalkedRoots(at, items)[rel]);
      var b := CollectedAreFiles(there, others, rel);
      SameRelIff(at.home, a, b);
    }
  }

  lemma UnambiguousIsOrderFree(at: Place, items: seq<string>)
    requires at.Valid() && Unambiguous(at, items)
    ensures OrderFree(at, items)
  {
    forall u, others | SameUpToOrder(at, items, u, others)
      ensures WalkedRoots(at.(tree := u), others) == WalkedRoots(at, items)
    {
      var there := at.(tree := u);
      RelistedIsValid(at, u);
      ReachedRelisted(at, items, u, others);
      UnambiguousIsCovered(at, items, u, others);
      RelistedBack(at.tree, u);
      assert there.(tree := at.tree) == at;
      UnambiguousIsCovered(there, others, at.tree, items);
    }
  }

  lemma RelistedBack(t: Node, u: Node)
    requires GoodTree(t) && Relisted(t, u)
    ensures Relisted(u, t)
  {
    forall p: Names ensures SameFound(Find(u, p), Find(t, p)) {
      assert SameFound(Find(t, p), Find(u, p));
    }
  }

  /** Given last, and its way listed last, a reached file is what is collected under its path. */
  lemma CanWin(at: Place, items: seq<string>, c: Names, body: Bytes) returns (u: Node, others: seq<string>)
    requires at.Valid() && Reached(at, items, c, body)
    ensures SameUpToOrder(at, items, u, others)
    ensures RelOf(at.home, c) in WalkedRoots(at.(tree := u), others)
    ensures WalkedRoots(at.(tree := u), others)[RelOf(at.home, c)] == body
  {
    var item :| item in items && Via(at, item, c, body);
    FavoredIsCollected(at, item, c, body);
    u, others := Favored(at.tree, c), items + [item];
    ElementsAgain(items, item);
    ItemsYield(WalkOf(at.(tree := u)), others, |items|, RelOf(at.home, c));
  }

  /** What is collected depends on neither order exactly when no two reached files with different contents
      have the same names once cut at backslashes. */
  lemma OrderFreeIff(at: Place, items: seq<string>)
    requires at.Valid()
    ensures OrderFree(at, items) <==> Unambiguous(at, items)
  {
    if Unambiguous(at, items) {
      UnambiguousIsOrderFree(at, items);
    }
    if OrderFree(at, items) {
      forall a, x, b, y | Reached(at, items, a, x) && Reached(at, items, b, y) && SamePath(at.home, a, b)
        ensures x == y
      {
        var u, uItems := CanWin(at, items, a, x);
        var v, vItems := CanWin(at, items, b, y);
        SameRelIff(at.home, a, b);
        assert WalkedRoots(at.(tree := u), uItems) == WalkedRoots(at.(tree := v), vItems);
      }
    }
  }

  /** The listing order alone, the items as they are. */
  ghost predicate ListingFree(at: Place, items: seq<string>) {
    forall u :: Relisted(at.tree, u) ==> WalkedRoots(at.(tree := u), items) == WalkedRoots(at, items)
  }

  ghost predicate YieldsPath(at: Place, item: string, c: Names) {
    exists b, y :: Via(at, item, b, y) && SamePath(at.home, c, b)
  }

  /** Item `j` reaches both files, and no later item reaches any with their path. */
  ghost predicate Contested(at: Place, items: seq<string>, j: nat, a: Names, x: Bytes, b: Names, y: Bytes) {
    && j < |items| && Via(at, items[j], a, x) && Via(at, items[j], b, y) && SamePath(at.home, a, b)
    && forall k :: j < k < |items| ==> !YieldsPath(at, items[k], a)
  }

  lemma YieldsPathIff(at: Place, item: string, c: Names)
    requires at.Valid() && GoodNames(c)
    ensures YieldsPath(at, item, c) <==> RelOf(at.home, c) in WalkedRoot(at, item)
  {
    if b, y :| Via(at, item, b, y) && SamePath(at.home, c, b) {
      SameRelIff(at.home, c, b);
      WalkedRootComplete(at, item, b, y);
    }
    if RelOf(at.home, c) in WalkedRoot(at, item) {
      var b := WalkedRootSound(at, item, RelOf(at.home, c));
      SameRelIff(at.home, c, b);
    }
  }

  lemma ViaRelisted(at: Place, u: Node)
    requires Relisted(at.tree, u)
    ensures forall item, c, body :: Via(at, item, c, body) <==> Via(at.(tree := u), item, c, body)
  {
    forall item, c, body ensures Via(at, item, c, body) <==> Via(at.(tree := u), item, c, body) {
      assert SameFound(Find(at.tree, c), Find(u, c));
    }
  }

  lemma ContestedCanWin(at: Place, items: seq<string>, j: nat, a: Names, x: Bytes, b: Names, y: Bytes) returns (u: Node)
    requires at.Valid() && Contested(at, items, j, a, x, b, y)
    ensures Relisted(at.tree, u) && RelOf(at.home, a) in WalkedRoots(at.(tree := u), items)
    ensures WalkedRoots(at.(tree := u), items)[RelOf(at.home, a)] == x
  {
    u := Favored(at.tree, a);
    var there, rel := at.(tree := u), RelOf(at.home, a);
    FavoredIsCollected(at, items[j], a, x);
    ViaRelisted(at, u);
    forall k | j < k < |items| ensures rel !in WalkedRoot(there, items[k]) {
      YieldsPathIff(there, items[k], a);
      assert !YieldsPath(at, items[k], a);
    }
    ItemsYield(WalkOf(there), items, j, rel);
  }

  /** What the tree yields for a path comes from the last item that yields it, whatever the listing order. */
  lemma SameLastItem(at: Place, items: seq<string>, u: Node, rel: string) returns (j: nat, a: Names, b: Names)
    requires at.Valid() && Relisted(at.tree, u) && rel in WalkedRoots(at, items)
    ensures rel in WalkedRoots(at.(tree := u), items)
    ensures Contested(at, items, j, a, WalkedRoots(at, items)[rel], b, WalkedRoots(at.(tree := u), items)[rel])
  {
    var there := at.(tree := u);
    RelistedIsValid(at, u);
    ViaRelisted(at, u);
    j := LastItem(WalkOf(at), items, rel);
    a := WalkedRootSound(at, items[j], rel);
    WalkedRootComplete(there, items[j], a, WalkedRoots(at, items)[rel]);
    forall k | j < k < |items| ensures !YieldsPath(at, items[k], a) && rel !in WalkedRoot(there, items[k]) {
      YieldsPathIff(at, items[k], a);
      YieldsPathIff(there, items[k], a);
    }
    ItemsYield(WalkOf(there), items, j, rel);
    b := WalkedRootSound(there, items[j], rel);
    SameRelIff(at.home, a, b);
  }

  /** No item reaches two files of different contents whose names agree once cut at backslashes, unless a
      later item reaches such a file. */
  ghost predicate Uncontested(at: Place, items: seq<string>) {
    forall j: nat, a, x, b, y :: Contested(at, items, j, a, x, b, y) ==> x == y
  }

  lemma ContestedRelisted(at: Place, items: seq<string>, u: Node)
    requires Relisted(at.tree, u)
    ensures Uncontested(at, items) ==> Uncontested(at.(tree := u), items)
  {
    ViaRelisted(at, u);
    forall item, c ensures YieldsPath(at, item, c) <==> YieldsPath(at.(tree := u), item, c) {}
    forall j: nat, a, x, b, y | Contested(at.(tree := u), items, j, a, x, b, y)
      ensures Contested(at, items, j, a, x, b, y) {}
  }

  lemma UncontestedIsCovered(at: Place, items: seq<string>, u: Node)
    requires at.Valid() && Relisted(at.tree, u)
    requires Uncontested(at, items)
    ensures var there := at.(tree := u);
      forall rel <- WalkedRoots(at, items) ::
        rel in WalkedRoots(there, items) && WalkedRoots(there, items)[rel] == WalkedRoots(at, items)[rel]
  {
    forall rel | rel in WalkedRoots(at, items)
      ensures rel in WalkedRoots(at.(tree := u), items)
      ensures WalkedRoots(at.(tree := u), items)[rel] == WalkedRoots(at, items)[rel]
    {
      var j, a, b := SameLastItem(at, items, u, rel);
    }
  }

  lemma UncontestedIsListingFree(at: Place, items: seq<string>)
    requires at.Valid() && Uncontested(at, items)
    ensures ListingFree(at, items)
  {
    forall u | Relisted(at.tree, u) ensures WalkedRoots(at.(tree := u), items) == WalkedRoots(at, items) {
      RelistedIsValid(at, u);
      UncontestedIsCovered(at, items, u);
      ContestedRelisted(at, items, u);
      RelistedBack(at.tree, u);
      assert at.(tree := u).(tree := at.tree) == at;
      UncontestedIsCovered(at.(tree := u), items, at.tree);
    }
  }

  lemma ContestedBothWays(at: Place, items: seq<string>, j: nat, a: Names, x: Bytes, b: Names, y: Bytes)
    requires at.Valid() && Contested(at, items, j, a, x, b, y)
    ensures Contested(at, items, j, b, y, a, x) && RelOf(at.home, a) == RelOf(at.home, b)
  {
    SameRelIff(at.home, a, b);
    forall k | j < k < |items| ensures !YieldsPath(at, items[k], b) {
      YieldsPathIff(at, items[k], a);
      YieldsPathIff(at, items[k], b);
    }
  }

  /** With the items as they are, the listing order matters exactly when some path is contested. */
  lemma ListingFreeIff(at: Place, items: seq<string>)
    requires at.Valid()
    ensures ListingFree(at, items) <==> Uncontested(at, items)
  {
    if Uncontested(at, items) {
      UncontestedIsListingFree(at, items);
    }
    if ListingFree(at, items) {
      forall j: nat, a, x, b, y | Contested(at, items, j, a, x, b, y) ensures x == y {
        ContestedBothWays(at, items, j, a, x, b, y);
        var u := ContestedCanWin(at, items, j, a, x, b, y);
        var v := ContestedCanWin(at, items, j, b, y, a, x);
        assert WalkedRoots(at.(tree := u), items) == WalkedRoots(at.(tree := v), items);
      }
    }
  }

  /** An item that names a file decides its path for every item before it: files of other contents may share
      the path, and still the listing order does not matter for it. */
  lemma LaterRootSettles(at: Place, items: seq<string>, item: string, c: Names, body: Bytes, u: Node)
    requires at.Valid() && Via(at, item, c, body) && Root(at.home, item) == c && Relisted(at.tree, u)
    ensures var collected := WalkedRoots(at.(tree := u), items + [item]);
      RelOf(at.home, c) in collected && collected[RelOf(at.home, c)] == body
  {
    ViaRelisted(at, u);
    WalkedRootComplete(at.(tree := u), item, c, body);
    ItemsYield(WalkOf(at.(tree := u)), items + [item], |items|, RelOf(at.home, c));
  }

  // Colliding names.

  lemma CollidingPaths()
    ensures RelOf("v", ["v"]) == "" && RelOf("v", ["v", "a"]) == "a"
    ensures RelOf("v", ["v", "a", "b"]) == "a/b" == RelOf("v", ["v", "a\\b"])
    ensures !Excluded("a") && !Excluded("a/b")
  {
    assert ["v", "a", "b"][1..] == ["a", "b"] && ["a", "b"][..1] == ["a"];
  }

  /** With a backslash in a file name two files share a path, and the order of the directory listing decides
      which contents are collected. */
  lemma BackslashNamesCollide(x: Bytes, y: Bytes)
    ensures var plain := Entry("a", Dir([Entry("b", File(x))])); var odd := Entry("a\\b", File(y));
      && WalkedDir(SyncRules("v"), Dir([plain, odd]), ["v"]) == map["a/b" := y]
      && WalkedDir(SyncRules("v"), Dir([odd, plain]), ["v"]) == map["a/b" := x]
  {
    var r := SyncRules("v");
    var plain := Entry("a", Dir([Entry("b", File(x))]));
    var odd := Entry("a\\b", File(y));
    CollidingPaths();
    PlainYields(x);
    assert ["v"] + ["a\\b"] == ["v", "a\\b"];
    assert WalkedEntry(r, odd, ["v"]) == map["a/b" := y];
    TwoEntries(r, plain, odd, ["v"]);
    TwoEntries(r, odd, plain, ["v"]);
  }

  lemma PlainYields(x: Bytes)
    ensures WalkedEntry(SyncRules("v"), Entry("a", Dir([Entry("b", File(x))])), ["v"]) == map["a/b" := x]
  {
    var inner := Dir([Entry("b", File(x))]);
    CollidingPaths();
    assert ["v"] + ["a"] == ["v", "a"] && ["v", "a"] + ["b"] == ["v", "a", "b"];
    assert WalkedUpTo(SyncRules("v"), inner, ["v", "a"], 0) == map[];
    assert WalkedUpTo(SyncRules("v"), inner, ["v", "a"], 1) == map["a/b" := x];
  }

  lemma TwoEntries(r: Rules, e: Entry, f: Entry, c: Names)
    requires !Barred(r, c)
    ensures WalkedDir(r, Dir([e, f]), c) == WalkedEntry(r, e, c) + WalkedEntry(r, f, c)
  {
    assert WalkedUpTo(r, Dir([e, f]), c, 0) == map[];
    assert WalkedUpTo(r, Dir([e, f]), c, 1) == WalkedEntry(r, e, c);
  }
}
