/** What is collected: which files, under which paths, and under which object keys. */
module Collected {
  import opened Collections
  import opened SyncTypes
  import opened Texts
  import opened RelPaths
  import opened Collect
  import ObjectKeys

  // Include items reach files.

  ghost predicate ItemReaches(home: string, item: string, c: Names) {
    && !Skipped(item) && Reaches(SyncRules(home), Root(home, item), c)
    && (EndsInSlash(Normalized(item)) ==> c != Root(home, item))
  }

  /** The file `c` with contents `body` is there and the item reaches it. */
  ghost predicate Via(at: Place, item: string, c: Names, body: Bytes) {
    IsFileAt(at.tree, c, body) && ItemReaches(at.home, item, c)
  }

  ghost predicate Reached(at: Place, items: seq<string>, c: Names, body: Bytes) {
    exists item <- items :: Via(at, item, c, body)
  }

  ghost predicate SamePath(home: string, a: Names, b: Names) { Cuts(Display(home, a)) == Cuts(Display(home, b)) }

  /** A piece of an item's path. */
  predicate PlainName(n: string) { '/' !in n && '\\' !in n && n != "" && n != "." }

  lemma ItemNames(item: string, k: nat)
    requires !Skipped(item) && k < |Meaningful(Split(Normalized(item)))|
    ensures var c := Meaningful(Split(Normalized(item))); PlainName(c[k]) && (k > 0 ==> c[k] != "..")
  {
    var s := Normalized(item);
    NormalizedIsPosix(item);
    SplitPieces(s);
    MeaningfulMembers(Split(s));
    var n := Meaningful(Split(s))[k];
    assert n in Split(s);
    if k > 0 {
      var i :| 1 <= i < |Split(s)| && Split(s)[i] == n;
      assert !StartsWith(Split(s)[i], ".");
    }
  }

  /** An item that is not skipped has good names, and those below the vault hold no backslash. */
  lemma RootIsGood(home: string, item: string)
    requires GoodName(home) && !Skipped(item)
    ensures GoodNames(Root(home, item))
    ensures forall k :: 1 <= k < |Root(home, item)| ==> '\\' !in Root(home, item)[k]
  {
    var c, root := Meaningful(Split(Normalized(item))), Root(home, item);
    var up := c != [] && c[0] == "..";
    forall k | 0 <= k < |root| ensures GoodName(root[k]) && (k > 0 ==> '\\' !in root[k]) {
      if up {
        ItemNames(item, k + 1);
      } else if k > 0 {
        ItemNames(item, k - 1);
      }
    }
  }

  lemma NormalizedIsPosix(item: string)
    ensures '\\' !in Normalized(item)
  {
    StripSlashesKeeps(ObjectKeys.Posix(item));
  }

  lemma {:induction false} StripSlashesKeeps(s: string)
    requires '\\' !in s
    ensures '\\' !in ObjectKeys.StripSlashes(s)
  {
    if s != "" && s[0] == '/' {
      StripSlashesKeeps(s[1..]);
    } else {
    }
  }

  lemma {:induction false} MeaningfulMembers(c: Names)
    ensures forall n <- Meaningful(c) :: n in c && n != "" && n != "."
    ensures forall k :: 1 <= k < |Meaningful(c)| ==> exists i :: 1 <= i < |c| && c[i] == Meaningful(c)[k]
  {
    if c == [] {
    } else {
      MeaningfulMembers(c[1..]);
      var rest := Meaningful(c[1..]);
      assert c == [c[0]] + c[1..];
      forall k | 1 <= k < |Meaningful(c)| ensures exists i :: 1 <= i < |c| && c[i] == Meaningful(c)[k] {
        var n := Meaningful(c)[k];
        assert n in rest;
        var i :| 0 <= i < |c[1..]| && c[1..][i] == n;
        assert c[i + 1] == n;
      }
    }
  }

  lemma WalkedRootSound(at: Place, item: string, rel: string) returns (c: Names)
    requires at.Valid() && rel in WalkedRoot(at, item)
    ensures rel == RelOf(at.home, c) && Via(at, item, c, WalkedRoot(at, item)[rel])
  {
    RootIsGood(at.home, item);
    c := WalkedNodeSound(SyncRules(at.home), at.tree, Root(at.home, item), rel);
  }

  lemma WalkedRootComplete(at: Place, item: string, c: Names, body: Bytes)
    requires at.Valid() && Via(at, item, c, body)
    ensures RelOf(at.home, c) in WalkedRoot(at, item)
  {
    RootIsGood(at.home, item);
    WalkedNodeComplete(SyncRules(at.home), at.tree, Root(at.home, item), c, body);
  }

  // Which files are collected.

  /** A collected path comes from the last item that yields it. */
  lemma {:induction false} LastItem(walk: Walk, items: seq<string>, rel: string) returns (j: nat)
    requires rel in Overlaid(walk, items)
    ensures j < |items| && rel in walk(items[j]) && Overlaid(walk, items)[rel] == walk(items[j])[rel]
    ensures forall k :: j < k < |items| ==> rel !in walk(items[k])
  {
    var n := |items| - 1;
    if rel in walk(items[n]) {
      j := n;
    } else {
      j := LastItem(walk, items[..n], rel);
      forall k | j < k < |items| ensures rel !in walk(items[k]) {
        assert k < n ==> items[..n][k] == items[k];
      }
    }
  }

  lemma {:induction false} ItemsYield(walk: Walk, items: seq<string>, j: nat, rel: string)
    requires j < |items| && rel in walk(items[j])
    ensures rel in Overlaid(walk, items)
    ensures (forall k :: j < k < |items| ==> rel !in walk(items[k])) ==>
      Overlaid(walk, items)[rel] == walk(items[j])[rel]
  {
    var n := |items| - 1;
    if j == n {
    } else {
      ItemsYield(walk, items[..n], j, rel);
      assert items[..n][j] == items[j];
      assert forall k :: 0 <= k < n ==> items[..n][k] == items[k];
    }
  }

  /** Every collected path is the path of a reached file with the collected contents, and is not excluded. */
  lemma CollectedAreFiles(at: Place, items: seq<string>, rel: string) returns (c: Names)
    requires at.Valid() && rel in WalkedRoots(at, items)
    ensures rel == RelOf(at.home, c) && Reached(at, items, c, WalkedRoots(at, items)[rel]) && !Excluded(rel)
  {
    var j := LastItem(WalkOf(at), items, rel);
    c := WalkedRootSound(at, items[j], rel);
  }

  lemma ReachedAreCollected(at: Place, items: seq<string>, c: Names, body: Bytes)
    requires at.Valid() && Reached(at, items, c, body)
    ensures RelOf(at.home, c) in WalkedRoots(at, items)
  {
    var item :| item in items && Via(at, item, c, body);
    var j :| 0 <= j < |items| && items[j] == item;
    WalkedRootComplete(at, item, c, body);
    ItemsYield(WalkOf(at), items, j, RelOf(at.home, c));
  }

  lemma SameRelIff(home: string, a: Names, b: Names)
    requires GoodNames(a) && GoodNames(b)
    ensures RelOf(home, a) == RelOf(home, b) <==> SamePath(home, a, b)
  {
    DisplayIsNotBlank(home, a);
    DisplayIsNotBlank(home, b);
    if Display(home, a) != [] && Display(home, b) != [] {
      SamePathIff(Display(home, a), Display(home, b));
    }
  }

  lemma DisplayIsNotBlank(home: string, c: Names)
    requires GoodNames(c)
    ensures Display(home, c) != [] ==> RelOf(home, c) != "" && Cuts(Display(home, c)) != []
  {
    if Display(home, c) != [] {
      JoinFront(Display(home, c));
      SplitPosixRel(Display(home, c));
      assert c != [] && c[0] == home ==> GoodName(Display(home, c)[0]);
    }
  }

  /** No two reached files with different contents have the same names once cut at backslashes. */
  ghost predicate Unambiguous(at: Place, items: seq<string>) {
    forall a, x, b, y :: Reached(at, items, a, x) && Reached(at, items, b, y) && SamePath(at.home, a, b) ==> x == y
  }

  /** When the reached files are unambiguous, a path is collected with given contents exactly when a reached
      file of those contents has that path. */
  lemma CollectedIff(at: Place, items: seq<string>, c: Names, body: Bytes)
    requires at.Valid() && GoodNames(c) && Unambiguous(at, items)
    ensures RelOf(at.home, c) in WalkedRoots(at, items) && WalkedRoots(at, items)[RelOf(at.home, c)] == body <==>
      exists a :: Reached(at, items, a, body) && SamePath(at.home, a, c)
  {
    var rel := RelOf(at.home, c);
    if rel in WalkedRoots(at, items) {
      var a := CollectedAreFiles(at, items, rel);
      SameRelIff(at.home, a, c);
    }
    if a :| Reached(at, items, a, body) && SamePath(at.home, a, c) {
      SameRelIff(at.home, a, c);
      ReachedAreCollected(at, items, a, body);
      var b := CollectedAreFiles(at, items, rel);
      SameRelIff(at.home, b, c);
      assert SamePath(at.home, a, b);
    }
  }

  /** Trees without backslashes in the names of reached files are unambiguous. */
  lemma PlainIsUnambiguous(at: Place, items: seq<string>)
    requires at.Valid()
    requires forall c, body :: Reached(at, items, c, body) ==> NoBackslash(Display(at.home, c))
    ensures Unambiguous(at, items)
  {
    forall a, x, b, y | Reached(at, items, a, x) && Reached(at, items, b, y) && SamePath(at.home, a, b) ensures x == y {
      DisplayNotCut(at.home, a);
      DisplayNotCut(at.home, b);
      DisplayInjective(at.home, a, b);
    }
  }

  lemma DisplayInjective(home: string, a: Names, b: Names)
    requires GoodNames(a) && GoodNames(b) && Display(home, a) == Display(home, b)
    ensures a == b
  {
    DisplayUndone(home, a);
    DisplayUndone(home, b);
  }

  /** The names behind a displayed path. */
  function Undisplayed(home: string, d: Names): Names {
    if d != [] && d[0] == ".." then d[1..] else [home] + d
  }

  lemma DisplayUndone(home: string, c: Names)
    requires GoodNames(c)
    ensures Undisplayed(home, Display(home, c)) == c
  {
    if c != [] && c[0] == home {
      assert c == [c[0]] + c[1..];
      assert |c| > 1 ==> GoodName(c[1]);
    } else {
      assert ([".."] + c)[1..] == c;
    }
  }

  lemma DisplayNotCut(home: string, c: Names)
    requires GoodNames(c) && NoBackslash(Display(home, c))
    ensures Cuts(Display(home, c)) == Display(home, c)
  {
    forall n | n in Display(home, c) ensures '/' !in n {
      assert n == ".." || n in c;
    }
    CutsOfPlain(Display(home, c));
  }

  // The sync modules' view: a vault's files and the paths in scope.

  function NamesOf(home: string, p: Path): Names {
    Undisplayed(home, if p.text == "" then [] else Split(p.text))
  }

  /** The files of the tree by their paths. */
  ghost predicate IsContents(at: Place, files: Tree) {
    && (forall c, body :: IsFileAt(at.tree, c, body) ==> Holds(files, Rel(RelOf(at.home, c)), body))
    && (forall p <- files :: exists c :: IsFileAt(at.tree, c, files[p]) && p == Rel(RelOf(at.home, c)))
  }

  ghost predicate Holds(files: Tree, p: Path, body: Bytes) { p in files && files[p] == body }

  ghost predicate IsScope(at: Place, items: seq<string>, scope: Path -> bool) {
    forall p :: scope(p) <==> exists item <- items :: ItemReaches(at.home, item, NamesOf(at.home, p))
  }

  lemma NamesOfRel(home: string, c: Names)
    requires GoodNames(c) && NoBackslash(Display(home, c))
    ensures NamesOf(home, Rel(RelOf(home, c))) == c
  {
    DisplayUndone(home, c);
    DisplayIsNotBlank(home, c);
    if Display(home, c) != [] {
      DisplayNotCut(home, c);
      SplitPosixRel(Display(home, c));
    }
  }

  function AsTree(collected: map<string, Bytes>): Tree {
    map rel | rel in collected :: Rel(rel) := collected[rel]
  }

  /** In a tree without backslashes what is collected is the files whose paths some include item reaches: being
      in scope is being reached by an include item. */
  lemma CollectedIsRestricted(at: Place, items: seq<string>, files: Tree, scope: Path -> bool)
    requires at.Valid() && IsContents(at, files) && IsScope(at, items, scope)
    requires forall c, body :: IsFileAt(at.tree, c, body) ==> NoBackslash(Display(at.home, c))
    ensures AsTree(WalkedRoots(at, items)) == Restrict(files, scope)
  {
    var collected, restricted := AsTree(WalkedRoots(at, items)), Restrict(files, scope);
    forall p | p in collected ensures p in restricted && restricted[p] == collected[p] {
      CollectedInScope(at, items, files, scope, p);
    }
    forall p | p in restricted ensures p in collected {
      InScopeCollected(at, items, files, scope, p);
    }
    SameMaps(collected, restricted);
  }

  lemma CollectedInScope(at: Place, items: seq<string>, files: Tree, scope: Path -> bool, p: Path)
    requires at.Valid() && IsContents(at, files) && IsScope(at, items, scope)
    requires forall c, body :: IsFileAt(at.tree, c, body) ==> NoBackslash(Display(at.home, c))
    requires p.text in WalkedRoots(at, items)
    ensures scope(p) && Holds(files, p, WalkedRoots(at, items)[p.text])
  {
    var c := CollectedAreFiles(at, items, p.text);
    NamesOfRel(at.home, c);
    assert Holds(files, Rel(RelOf(at.home, c)), WalkedRoots(at, items)[p.text]);
  }

  lemma InScopeCollected(at: Place, items: seq<string>, files: Tree, scope: Path -> bool, p: Path)
    requires at.Valid() && IsContents(at, files) && IsScope(at, items, scope)
    requires forall c, body :: IsFileAt(at.tree, c, body) ==> NoBackslash(Display(at.home, c))
    requires p in files && scope(p)
    ensures p.text in WalkedRoots(at, items)
  {
    var c :| IsFileAt(at.tree, c, files[p]) && p == Rel(RelOf(at.home, c));
    NamesOfRel(at.home, c);
    var item :| item in items && ItemReaches(at.home, item, c);
    assert Via(at, item, c, files[p]);
    ReachedAreCollected(at, items, c, files[p]);
  }

  // Object keys of what is collected.

  /** No reached file's first name begins with a backslash. */
  ghost predicate NoLeadingBackslash(at: Place, items: seq<string>) {
    forall c, body :: Reached(at, items, c, body) ==> !BeginsWithBackslash(Display(at.home, c))
  }

  predicate BeginsWithBackslash(d: Names) { d != [] && StartsWith(d[0], "\\") }

  /** A path begins with a slash exactly when its first name begins with a backslash. */
  lemma LeadingSlashIff(home: string, c: Names)
    requires GoodNames(c)
    ensures StartsWith(RelOf(home, c), "/") <==> BeginsWithBackslash(Display(home, c))
  {
    var d := Display(home, c);
    if d != [] {
      JoinFront(d);
      assert GoodName(d[0]) || d[0] == ".." by { assert d[0] == ".." || d[0] in c; }
      assert d[0][0] in d[0];
      assert Join(d)[0] == d[0][0] && RelOf(home, c)[0] == ObjectKeys.Posix(Join(d))[0];
      StartsWithIs(RelOf(home, c), '/');
      StartsWithIs(d[0], '\\');
    }
  }

  lemma StartsWithIs(s: string, ch: char)
    ensures StartsWith(s, [ch]) <==> s != "" && s[0] == ch
  {
  }

  lemma CollectedHasNoBackslash(at: Place, items: seq<string>, rel: string)
    requires at.Valid() && rel in WalkedRoots(at, items)
    ensures '\\' !in rel
  {
    var c := CollectedAreFiles(at, items, rel);
  }

  /** Collected paths decode back from their object keys exactly when no reached file's first name begins with a
      backslash; then distinct paths have distinct keys. */
  lemma CollectedKeysIff(at: Place, items: seq<string>, prefix: string)
    requires at.Valid()
    ensures (forall rel <- WalkedRoots(at, items) :: DecodesBack(prefix, rel)) <==> NoLeadingBackslash(at, items)
    ensures NoLeadingBackslash(at, items) ==> forall a, b ::
      a in WalkedRoots(at, items) && b in WalkedRoots(at, items) && SameKey(prefix, a, b) ==> a == b
  {
    forall rel | rel in WalkedRoots(at, items) ensures DecodesBack(prefix, rel) <==> !StartsWith(rel, "/") {
      CollectedHasNoBackslash(at, items, rel);
      ObjectKeys.KeyRoundTripIff(prefix, rel);
    }
    forall rel | rel in WalkedRoots(at, items) && NoLeadingBackslash(at, items) ensures !StartsWith(rel, "/") {
      var c := CollectedAreFiles(at, items, rel);
      LeadingSlashIff(at.home, c);
    }
    forall c, body | Reached(at, items, c, body)
      ensures RelOf(at.home, c) in WalkedRoots(at, items)
      ensures StartsWith(RelOf(at.home, c), "/") <==> BeginsWithBackslash(Display(at.home, c))
    {
      ReachedAreCollected(at, items, c, body);
      LeadingSlashIff(at.home, c);
    }
  }

  /** A file named with a leading backslash has a path whose key decodes to another path. */
  lemma LeadingBackslash(prefix: string)
    ensures RelOf("v", ["v", "\\a"]) == "/a" && !DecodesBack(prefix, "/a")
  {
    assert ["v", "\\a"][1..] == ["\\a"];
    ObjectKeys.KeyRoundTripIff(prefix, "/a");
    StartsWithIs("/a", '/');
  }

  predicate DecodesBack(prefix: string, rel: string) {
    ObjectKeys.RelPathFromObjectKey(prefix, ObjectKeys.ObjectKeyForRelPath(prefix, rel)) == Some(rel)
  }

  predicate SameKey(prefix: string, a: string, b: string) {
    ObjectKeys.ObjectKeyForRelPath(prefix, a) == ObjectKeys.ObjectKeyForRelPath(prefix, b)
  }

  predicate InDotClawql(home: string, item: string) {
    !Skipped(item) && |Root(home, item)| > 1 && Root(home, item)[0] == home && Root(home, item)[1] == ".clawql"
  }

  /** The manifest's key belongs to a collected path only if some include item lies in the vault's `.clawql`. */
  lemma ManifestKeyNeedsDotRoot(at: Place, items: seq<string>, prefix: string, rel: string)
    requires at.Valid() && rel in WalkedRoots(at, items) && SameKey(prefix, rel, ObjectKeys.MANIFEST_REL_KEY)
    ensures exists item <- items :: InDotClawql(at.home, item)
  {
    var c := CollectedAreFiles(at, items, rel);
    CollectedHasNoBackslash(at, items, rel);
    ManifestKeyIsOwn(prefix, rel);
    ManifestNames(at.home, c);
    var item :| item in items && Via(at, item, c, WalkedRoots(at, items)[rel]);
    RootIsGood(at.home, item);
    var root := Root(at.home, item);
    assert |root| >= 2;
    assert root[1] == c[1] && '\\' !in root[1];
  }

  lemma {:induction false} StrippedDot(s: string)
    requires s != "" && s[0] == '/' && StartsWith(ObjectKeys.StripSlashes(s), ".")
    ensures DotAfterSlash(s)
  {
    StartsWithDot(ObjectKeys.StripSlashes(s));
    assert ObjectKeys.StripSlashes(s) == ObjectKeys.StripSlashes(s[1..]);
    assert ObjectKeys.StripSlashes("") == "";
    if s[1] == '/' {
      StrippedDot(s[1..]);
      var i :| 0 <= i < |s[1..]| - 1 && s[1..][i] == '/' && s[1..][i + 1] == '.';
      assert s[i + 1] == '/' && s[i + 2] == '.';
    } else {
      assert ObjectKeys.StripSlashes(s) == s[1..];
      assert s[0] == '/' && s[1] == '.';
    }
  }

  lemma ManifestKeyIsOwn(prefix: string, rel: string)
    requires '\\' !in rel && !Excluded(rel) && SameKey(prefix, rel, ObjectKeys.MANIFEST_REL_KEY)
    ensures rel == ObjectKeys.MANIFEST_REL_KEY
  {
    PosixKeeps(rel);
    ObjectKeys.ManifestKeyIsClean();
    var m := ObjectKeys.MANIFEST_REL_KEY;
    PosixKeeps(m);
    assert m[0] == '.';
    SameTail(ObjectKeys.NormalizePrefix(prefix), ObjectKeys.StripSlashes(rel), m);
    if rel != "" && rel[0] == '/' {
      StartsWithDot(m);
      StrippedDot(rel);
    }
  }

  lemma SameTail(p: string, a: string, b: string)
    requires p + a == p + b
    ensures a == b
  {
    assert a == (p + a)[|p|..] && b == (p + b)[|p|..];
  }

  /** A path with the manifest's text lies in the vault, and its first name starts with a dot; without a
      backslash that name is `.clawql`. */
  lemma ManifestNames(home: string, c: Names)
    requires GoodNames(c) && RelOf(home, c) == ObjectKeys.MANIFEST_REL_KEY
    ensures |c| > 1 && c[0] == home && StartsWith(c[1], ".") && ('\\' !in c[1] ==> c[1] == ".clawql")
  {
    var m, d := ObjectKeys.MANIFEST_REL_KEY, Display(home, c);
    ManifestStart();
    assert d != [];
    JoinFront(d);
    assert d[0] != "" by { assert d[0] == ".." || d[0] in c; }
    assert ObjectKeys.Posix(Join(d))[0] == m[0] && Join(d)[0] == d[0][0];
    StartsWithDot(d[0]);
    assert |d[0]| > 1 ==> d[0][1] == Join(d)[1];
    assert c[1] in c && d[0] == c[1];
    if '\\' !in c[1] { FirstName(d, m, 7); }
  }

  lemma ManifestStart()
    ensures var m := ObjectKeys.MANIFEST_REL_KEY;
      |m| > 7 && m[0] == '.' && m[1] == 'c' && m[7] == '/' && m[..7] == ".clawql" && '/' !in m[..7]
  {
  }

  lemma FirstName(d: Names, s: string, k: nat)
    requires d != [] && PosixRel(d) == s && '/' !in d[0] && '\\' !in d[0]
    requires k < |s| && s[k] == '/' && '/' !in s[..k]
    ensures d[0] == s[..k]
  {
    JoinFront(d);
    forall i | 0 <= i < k ensures s[i] != '/' {
      assert s[..k][i] in s[..k];
    }
    forall i | 0 <= i < |d[0]| ensures s[i] == d[0][i] && s[i] != '/' {
      assert d[0][i] in d[0] && Join(d)[i] == d[0][i];
    }
  }
}
