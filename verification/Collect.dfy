/** Collecting the files to sync: which files a list of include items reaches in a directory tree. */
module Collect {
  import opened Collections
  import opened SyncTypes
  import opened Texts
  import opened RelPaths
  import ObjectKeys

  /** A directory lists its entries in the order `readdir` returns them. `Other` is neither file nor directory. */
  datatype Node = File(body: Bytes) | Dir(entries: seq<Entry>) | Other

  datatype Entry = Entry(name: string, node: Node)

  ghost predicate NamesDiffer(entries: seq<Entry>) {
    forall i, j :: 0 <= i < j < |entries| ==> entries[i].name != entries[j].name
  }

  /** Entry names of every directory are good and distinct. */
  ghost predicate GoodTree(node: Node) {
    node.Dir? ==> NamesDiffer(node.entries) && forall e <- node.entries :: GoodName(e.name) && GoodTree(e.node)
  }

  /** The directory that holds the vault directory, and the vault's name in it. */
  datatype Place = Place(tree: Node, home: string) {
    ghost predicate Valid() { tree.Dir? && GoodTree(tree) && GoodName(home) }
  }

  /** How the walkers see a path relative to the vault: one outside it starts with "..". */
  function Display(home: string, c: Names): Names {
    if c != [] && c[0] == home then c[1..] else [".."] + c
  }

  function RelOf(home: string, c: Names): string { PosixRel(Display(home, c)) }

  // Exclusion.

  const ALWAYS_EXCLUDE_REL := {"vault/providers.json", "memory.db", "Dashboard/logs", "sync.json", "clawql.env"}

  predicate Excluded(rel: string) {
    rel in ALWAYS_EXCLUDE_REL || StartsWith(rel, "vault/") || DotAfterSlash(rel)
  }

  /** How the walk names a file and which names it leaves out. */
  datatype Rules = Rules(rel: Names -> string, excluded: string -> bool)

  function SyncRules(home: string): Rules {
    Rules((c: Names) => RelOf(home, c), (rel: string) => Excluded(rel))
  }

  // Walking.

  function WalkedFile(r: Rules, body: Bytes, c: Names): map<string, Bytes> {
    if r.excluded(r.rel(c)) then map[] else map[r.rel(c) := body]
  }

  predicate Barred(r: Rules, c: Names) { r.rel(c) != "" && r.excluded(r.rel(c)) }

  function WalkedDir(r: Rules, node: Node, c: Names): map<string, Bytes>
    requires node.Dir?
    decreases node, |node.entries| + 1
  {
    if Barred(r, c) then map[] else WalkedUpTo(r, node, c, |node.entries|)
  }

  function WalkedUpTo(r: Rules, node: Node, c: Names, n: nat): map<string, Bytes>
    requires node.Dir? && n <= |node.entries|
    decreases node, n
  {
    if n == 0 then map[] else WalkedUpTo(r, node, c, n - 1) + WalkedEntry(r, node.entries[n - 1], c)
  }

  function WalkedEntry(r: Rules, e: Entry, c: Names): map<string, Bytes>
    decreases e
  {
    if StartsWith(e.name, ".") then map[]
    else match e.node
      case File(body) => WalkedFile(r, body, c + [e.name])
      case Dir(_) => WalkedDir(r, e.node, c + [e.name])
      case Other => map[]
  }

  lemma PlusAssociates<K, V>(a: map<K, V>, b: map<K, V>, c: map<K, V>)
    ensures (a + b) + c == a + (b + c)
  {
  }

  class Collector {
    const rules: Rules
    var out: map<string, Bytes>

    constructor (rules: Rules)
      ensures this.rules == rules && out == map[]
    {
      this.rules := rules;
      out := map[];
    }

    method WalkFile(body: Bytes, c: Names)
      modifies this
      ensures out == old(out) + WalkedFile(rules, body, c)
    {
      var rel := rules.rel(c);
      if rules.excluded(rel) { return; }
      out := out[rel := body];
    }

    method WalkDir(node: Node, c: Names)
      requires node.Dir?
      modifies this
      ensures out == old(out) + WalkedDir(rules, node, c)
      decreases node
    {
      var relDir := rules.rel(c);
      if relDir != "" && rules.excluded(relDir) { return; }
      for i := 0 to |node.entries|
        invariant out == old(out) + WalkedUpTo(rules, node, c, i)
      {
        assert node.entries[i] in node.entries;
        PlusAssociates(old(out), WalkedUpTo(rules, node, c, i), WalkedEntry(rules, node.entries[i], c));
        WalkEntry(node.entries[i], c);
      }
    }

    method WalkEntry(ent: Entry, c: Names)
      modifies this
      ensures out == old(out) + WalkedEntry(rules, ent, c)
      decreases ent
    {
      if StartsWith(ent.name, ".") { return; }
      if ent.node.Dir? {
        WalkDir(ent.node, c + [ent.name]);
      } else if ent.node.File? {
        WalkFile(ent.node.body, c + [ent.name]);
      }
    }

    /** One include item; an error other than "no such file" ends the collection. */
    method WalkRoot(at: Place, item: string) returns (ok: bool)
      requires rules == SyncRules(at.home)
      modifies this
      ensures ok <==> !Fails(at, item)
      ensures out == old(out) + if ok then WalkedRoot(at, item) else map[]
    {
      var rel := Normalized(item);
      if rel == "" || Excluded(rel) { return true; }
      match Target(at, item) {
        case Missing => ok := true;
        case NotADirectory => ok := false;
        case Found(node) =>
          ok := true;
          if node.Dir? {
            WalkDir(node, Root(at.home, item));
          } else if node.File? {
            WalkFile(node.body, Root(at.home, item));
          }
      }
    }
  }

  // Include items.

  datatype Lookup = Missing | NotADirectory | Found(node: Node)

  function Child(entries: seq<Entry>, name: string): Option<Node> {
    if entries == [] then None
    else if entries[0].name == name then Some(entries[0].node)
    else Child(entries[1..], name)
  }

  function Find(node: Node, c: Names): Lookup
    decreases |c|
  {
    if c == [] then Found(node)
    else if !node.Dir? then NotADirectory
    else match Child(node.entries, c[0])
      case None => Missing
      case Some(child) => Find(child, c[1..])
  }

  function Meaningful(c: Names): Names {
    if c == [] then [] else (if c[0] == "" || c[0] == "." then [] else [c[0]]) + Meaningful(c[1..])
  }

  function Normalized(item: string): string { ObjectKeys.StripSlashes(ObjectKeys.Posix(item)) }

  predicate Skipped(item: string) { Normalized(item) == "" || Excluded(Normalized(item)) }

  /** An item is joined to the vault directory; only a leading ".." can leave it, for any other is excluded. */
  function Root(home: string, item: string): Names {
    var c := Meaningful(Split(Normalized(item)));
    if c != [] && c[0] == ".." then c[1..] else [home] + c
  }

  predicate EndsInSlash(s: string) { s != "" && s[|s| - 1] == '/' }

  /** What `stat` finds: with a trailing slash only directories. */
  function Target(at: Place, item: string): Lookup {
    var found := Find(at.tree, Root(at.home, item));
    if found.Found? && !found.node.Dir? && EndsInSlash(Normalized(item)) then NotADirectory else found
  }

  function WalkedNode(r: Rules, node: Node, c: Names): map<string, Bytes> {
    match node
    case Dir(_) => WalkedDir(r, node, c)
    case File(body) => WalkedFile(r, body, c)
    case Other => map[]
  }

  function WalkedRoot(at: Place, item: string): map<string, Bytes> {
    if Skipped(item) then map[]
    else match Target(at, item)
      case Found(node) => WalkedNode(SyncRules(at.home), node, Root(at.home, item))
      case _ => map[]
  }

  /** An item that passes through something else than a directory makes `stat` fail with something else than
      "no such file". */
  predicate Fails(at: Place, item: string) {
    !Skipped(item) && Target(at, item).NotADirectory?
  }

  type Walk = string -> map<string, Bytes>

  function WalkOf(at: Place): Walk { (item: string) => WalkedRoot(at, item) }

  /** What the items yield, later ones over earlier ones. */
  function Overlaid(walk: Walk, items: seq<string>): map<string, Bytes> {
    if items == [] then map[] else Overlaid(walk, items[..|items| - 1]) + walk(items[|items| - 1])
  }

  function WalkedRoots(at: Place, items: seq<string>): map<string, Bytes> { Overlaid(WalkOf(at), items) }

  method CollectLocalSyncFiles(at: Place, items: seq<string>) returns (files: Option<map<string, Bytes>>)
    ensures files.None? <==> exists item <- items :: Fails(at, item)
    ensures files.Some? ==> files.value == WalkedRoots(at, items)
  {
    var walker := new Collector(SyncRules(at.home));
    for i := 0 to |items|
      invariant walker.out == WalkedRoots(at, items[..i])
      invariant forall item <- items[..i] :: !Fails(at, item)
      invariant fresh(walker) && walker.rules == SyncRules(at.home)
    {
      assert items[..i + 1][..i] == items[..i];
      assert items[..i + 1] == items[..i] + [items[i]];
      var ok := walker.WalkRoot(at, items[i]);
      if !ok { return None; }
    }
    assert items[..|items|] == items;
    files := Some(walker.out);
  }

  // What a walk yields.

  lemma {:induction false} ChildOf(entries: seq<Entry>, i: nat)
    requires i < |entries|
    requires NamesDiffer(entries)
    ensures Child(entries, entries[i].name) == Some(entries[i].node)
  {
    if i == 0 {
    } else {
      assert entries[0].name != entries[i].name;
      assert entries[1..][i - 1] == entries[i];
      ChildOf(entries[1..], i - 1);
    }
  }

  lemma {:induction false} ChildIndex(entries: seq<Entry>, name: string) returns (i: nat)
    requires Child(entries, name).Some?
    ensures i < |entries| && entries[i] == Entry(name, Child(entries, name).value)
  {
    if entries[0].name == name {
      i := 0;
    } else {
      i := ChildIndex(entries[1..], name);
      i := i + 1;
    }
  }

  lemma {:induction false} FindSnoc(tree: Node, c: Names, name: string)
    requires Find(tree, c).Found?
    decreases |c|
    ensures Find(tree, c + [name]) ==
      var d := Find(tree, c).node;
      if !d.Dir? then NotADirectory
      else match Child(d.entries, name) case None => Missing case Some(child) => Found(child)
  {
    if c == [] {
    } else {
      assert (c + [name])[1..] == c[1..] + [name];
      FindSnoc(Child(tree.entries, c[0]).value, c[1..], name);
    }
  }

  /** The file a collected path stands for. */
  ghost predicate IsFileAt(tree: Node, c: Names, body: Bytes) {
    GoodNames(c) && c != [] && Find(tree, c) == Found(File(body))
  }

  /** `c` lies under `root`; no name below the root starts with a dot; no directory on the way and not the
      path itself is excluded. */
  ghost predicate Reaches(r: Rules, root: Names, c: Names) {
    && root <= c && !r.excluded(r.rel(c))
    && (forall k :: |root| <= k < |c| ==> !StartsWith(c[k], ".") && !Barred(r, c[..k]))
  }

  lemma ReachesExtend(r: Rules, root: Names, name: string, c: Names)
    ensures Reaches(r, root, c) && root + [name] <= c <==>
      Reaches(r, root + [name], c) && !StartsWith(name, ".") && !Barred(r, root)
  {
    if root + [name] <= c {
      assert c[|root|] == name && c[..|root|] == root;
      assert root <= c;
      if Reaches(r, root + [name], c) && !StartsWith(name, ".") && !Barred(r, root) {
        forall k | |root| <= k < |c| ensures !StartsWith(c[k], ".") && !Barred(r, c[..k]) {
          assert k == |root| || |root + [name]| <= k;
        }
      }
    }
  }

  /** The entries of a directory found in the tree are found below it. */
  lemma EntryBelow(tree: Node, node: Node, root: Names, i: nat)
    requires node.Dir? && GoodTree(node) && GoodNames(root) && Find(tree, root) == Found(node) && i < |node.entries|
    ensures Find(tree, root + [node.entries[i].name]) == Found(node.entries[i].node)
    ensures GoodTree(node.entries[i].node) && GoodNames(root + [node.entries[i].name])
  {
    assert node.entries[i] in node.entries;
    ChildOf(node.entries, i);
    FindSnoc(tree, root, node.entries[i].name);
  }

  lemma EntryYields(r: Rules, e: Entry, root: Names, rel: string)
    requires rel in WalkedEntry(r, e, root)
    ensures var below := root + [e.name];
      && !StartsWith(e.name, ".")
      && (if e.node.Dir? then
            && !Barred(r, below)
            && WalkedEntry(r, e, root) == WalkedUpTo(r, e.node, below, |e.node.entries|)
          else
            && e.node.File? && rel == r.rel(below) && !r.excluded(rel)
            && WalkedEntry(r, e, root) == map[rel := e.node.body])
  {
  }

  /** Every path a walk yields names a file the walk's root reaches. */
  lemma {:induction false} WalkSound(r: Rules, tree: Node, node: Node, root: Names, n: nat, rel: string)
        returns (c: Names)
    requires node.Dir? && GoodTree(node) && GoodNames(root) && Find(tree, root) == Found(node) && n <= |node.entries|
    requires !Barred(r, root) && rel in WalkedUpTo(r, node, root, n)
    ensures rel == r.rel(c) && IsFileAt(tree, c, WalkedUpTo(r, node, root, n)[rel]) && Reaches(r, root, c)
    decreases node, n
  {
    var e := node.entries[n - 1];
    if rel in WalkedEntry(r, e, root) {
      EntryBelow(tree, node, root, n - 1);
      var below := root + [e.name];
      EntryYields(r, e, root, rel);
      if e.node.Dir? {
        assert e in node.entries;
        c := WalkSound(r, tree, e.node, below, |e.node.entries|, rel);
      } else {
        c := below;
      }
      ReachesExtend(r, root, e.name, c);
    } else {
      c := WalkSound(r, tree, node, root, n - 1, rel);
    }
  }

  /** And every file the root reaches is yielded. */
  lemma {:induction false} WalkComplete(r: Rules, tree: Node, node: Node, root: Names, c: Names, body: Bytes)
    requires node.Dir? && GoodTree(node) && GoodNames(root) && Find(tree, root) == Found(node)
    requires IsFileAt(tree, c, body) && Reaches(r, root, c)
    ensures r.rel(c) in WalkedDir(r, node, root)
    decreases |c| - |root|
  {
    var i := NextEntry(tree, node, root, c, body);
    var e := node.entries[i];
    var below := root + [e.name];
    EntryBelow(tree, node, root, i);
    ReachesExtend(r, root, e.name, c);
    if below == c {
    } else {
      WalkComplete(r, tree, e.node, below, c, body);
    }
    WalkedUpToKeeps(r, node, root, i, |node.entries|, r.rel(c));
  }

  /** The entry a path to a file takes out of a directory on its way. */
  lemma NextEntry(tree: Node, node: Node, root: Names, c: Names, body: Bytes) returns (i: nat)
    requires node.Dir? && Find(tree, root) == Found(node) && root <= c
    requires IsFileAt(tree, c, body)
    ensures i < |node.entries| && root + [node.entries[i].name] <= c
    ensures root + [node.entries[i].name] != c ==> node.entries[i].node.Dir?
    ensures root + [node.entries[i].name] == c ==> node.entries[i].node == File(body)
  {
    assert c[..|root|] == root;
    assert root != c;
    var below := c[..|root| + 1];
    assert below == root + [c[|root|]];
    FindPrefix(tree, c, |root| + 1);
    FindSnoc(tree, root, c[|root|]);
    i := ChildIndex(node.entries, c[|root|]);
    if below != c {
      FindPrefix(tree, c, |root| + 2);
      FindSnoc(tree, below, c[|root| + 1]);
      assert c[..|root| + 2] == below + [c[|root| + 1]];
    } else {
      assert c[..|c|] == c;
    }
  }

  lemma {:induction false} WalkedUpToKeeps(r: Rules, node: Node, root: Names, i: nat, n: nat, rel: string)
    requires node.Dir? && i < n <= |node.entries|
    requires rel in WalkedEntry(r, node.entries[i], root)
    ensures rel in WalkedUpTo(r, node, root, n)
    decreases n
  {
    if i == n - 1 {
    } else {
      WalkedUpToKeeps(r, node, root, i, n - 1, rel);
    }
  }

  lemma WalkedNodeSound(r: Rules, tree: Node, root: Names, rel: string) returns (c: Names)
    requires tree.Dir? && GoodTree(tree) && GoodNames(root) && Find(tree, root).Found?
    requires rel in WalkedNode(r, Find(tree, root).node, root)
    ensures rel == r.rel(c) && Reaches(r, root, c)
    ensures IsFileAt(tree, c, WalkedNode(r, Find(tree, root).node, root)[rel])
  {
    var node := Find(tree, root).node;
    if node.Dir? {
      FindGood(tree, root);
      c := WalkSound(r, tree, node, root, |node.entries|, rel);
    } else {
      c := root;
      assert root != [];
    }
  }

  lemma WalkedNodeComplete(r: Rules, tree: Node, root: Names, c: Names, body: Bytes)
    requires tree.Dir? && GoodTree(tree) && GoodNames(root) && IsFileAt(tree, c, body) && Reaches(r, root, c)
    ensures Find(tree, root).Found? && r.rel(c) in WalkedNode(r, Find(tree, root).node, root)
    ensures root != c ==> Find(tree, root).node.Dir?
  {
    assert c[..|root|] == root;
    FindPrefix(tree, c, |root|);
    FindGood(tree, root);
    var node := Find(tree, root).node;
    if root != c {
      FindPrefix(tree, c, |root| + 1);
      assert c[..|root| + 1] == root + [c[|root|]];
      FindSnoc(tree, root, c[|root|]);
      WalkComplete(r, tree, node, root, c, body);
    }
  }

  /** A path that leads somewhere has every prefix leading somewhere. */
  lemma {:induction false} FindPrefix(tree: Node, c: Names, k: nat)
    requires k <= |c| && Find(tree, c).Found?
    ensures Find(tree, c[..k]).Found?
    decreases |c|
  {
    if k == 0 {
    } else {
      var child := Child(tree.entries, c[0]).value;
      FindPrefix(child, c[1..], k - 1);
      assert c[..k][1..] == c[1..][..k - 1];
    }
  }

  lemma {:induction false} FindGood(tree: Node, c: Names)
    requires GoodTree(tree) && Find(tree, c).Found?
    ensures GoodTree(Find(tree, c).node)
    decreases |c|
  {
    if c == [] {
    } else {
      var i := ChildIndex(tree.entries, c[0]);
      assert tree.entries[i] in tree.entries;
      FindGood(Child(tree.entries, c[0]).value, c[1..]);
    }
  }
}
