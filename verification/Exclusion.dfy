/** What is never synced, told by names instead of text, and what every include item does collect. */
module Exclusion {
  import opened SyncTypes
  import opened Texts
  import opened RelPaths
  import opened Collect
  import opened Collected
  import ObjectKeys

  /** Anything below the vault directory, four files and directories kept per machine, and whatever lies in or is a
      hidden directory or file below the first name. */
  predicate Private(d: Names) {
    || (|d| > 1 && d[0] == "vault")
    || d in [["memory.db"], ["sync.json"], ["clawql.env"], ["Dashboard", "logs"]]
    || Hides(d)
  }

  predicate Hides(d: Names) { exists k :: 1 <= k < |d| && d[k] != "" && d[k][0] == '.' }

  // The textual test means that.

  lemma FirstNameIs(s: string, first: string, name: string)
    requires '/' !in first && '/' !in name && first <= s
    requires if |s| == |first| then s == first else s[|first|] == '/'
    ensures StartsWith(s, name + "/") <==> |s| > |first| && first == name
  {
    var front := name + "/";
    if front <= s {
      assert s[|name|] == front[|name|] == '/';
      assert forall i :: 0 <= i < |name| ==> s[i] == front[i] == name[i];
      assert |first| == |name|;
      assert first == name;
    }
  }

  lemma BelowVaultIff(s: string)
    ensures StartsWith(s, "vault/") <==> |Split(s)| > 1 && Split(s)[0] == "vault"
  {
    var d := Split(s);
    SplitPieces(s);
    JoinSplit(s);
    JoinFront(d);
    assert d[0] in d;
    FirstNameIs(s, d[0], "vault");
    assert "vault" + "/" == "vault/";
  }

  lemma NameIff(s: string, name: string)
    requires '/' !in name
    ensures s == name <==> Split(s) == [name]
  {
    SplitName(name);
    JoinSplit(s);
  }

  lemma TwoNamesIff(s: string, a: string, b: string)
    requires '/' !in a && '/' !in b
    ensures s == a + "/" + b <==> Split(s) == [a, b]
  {
    var front := a + "/";
    SplitAfterSlash(front, b);
    assert front[..|front| - 1] == a;
    SplitName(a);
    SplitName(b);
    JoinSplit(s);
    assert [a, b][..1] == [a];
  }

  lemma LogsIff(s: string)
    ensures s == "Dashboard/logs" <==> Split(s) == ["Dashboard", "logs"]
  {
    TwoNamesIff(s, "Dashboard", "logs");
    assert "Dashboard" + "/" + "logs" == "Dashboard/logs";
  }

  /** A dot after a slash begins a piece. */
  lemma {:induction false} DotBegins(s: string, i: nat) returns (k: nat)
    requires i < |s| - 1 && s[i] == '/' && s[i + 1] == '.'
    ensures 1 <= k < |Split(s)| && Split(s)[k] != "" && Split(s)[k][0] == '.'
  {
    var n := |s| - 1;
    var front := Split(s[..n]);
    if i + 1 < n {
      k := DotBegins(s[..n], i);
      assert s[n] != '/' && k == |front| - 1 ==> Split(s)[k] == front[k] + [s[n]];
    } else {
      assert s[..n][..n - 1] == s[..n - 1];
      k := |front| - 1;
      assert front[k] == "";
    }
  }

  lemma DotIff(s: string)
    ensures DotAfterSlash(s) <==> Hides(Split(s))
  {
    var d := Split(s);
    SplitPieces(s);
    if DotAfterSlash(s) {
      var i :| 0 <= i < |s| - 1 && s[i] == '/' && s[i + 1] == '.';
      var k := DotBegins(s, i);
    } else {
      forall k | 1 <= k < |d| ensures d[k] == "" || d[k][0] != '.' {
        StartsWithDot(d[k]);
      }
    }
  }

  lemma SameTest(s: string, d: Names)
    requires StartsWith(s, "vault/") <==> |d| > 1 && d[0] == "vault"
    requires s == "memory.db" <==> d == ["memory.db"]
    requires s == "sync.json" <==> d == ["sync.json"]
    requires s == "clawql.env" <==> d == ["clawql.env"]
    requires s == "Dashboard/logs" <==> d == ["Dashboard", "logs"]
    requires DotAfterSlash(s) <==> Hides(d)
    ensures Excluded(s) <==> Private(d)
  {
    assert s == "vault/providers.json" ==> StartsWith(s, "vault/");
  }

  /** The walkers' test of a path's text is a test of its names. */
  lemma ExcludedIff(s: string)
    ensures Excluded(s) <==> Private(Split(s))
  {
    BelowVaultIff(s);
    NameIff(s, "memory.db");
    NameIff(s, "sync.json");
    NameIff(s, "clawql.env");
    LogsIff(s);
    DotIff(s);
    SameTest(s, Split(s));
  }

  // What is collected, without the textual test.

  predicate PrivatePath(home: string, c: Names) { Private(Cuts(Display(home, c))) }

  lemma PathExcludedIff(home: string, c: Names)
    ensures Excluded(RelOf(home, c)) <==> PrivatePath(home, c)
    ensures Barred(SyncRules(home), c) <==> PrivatePath(home, c)
  {
    ExcludedIff(RelOf(home, c));
    SplitName("");
    if Display(home, c) != [] { SplitPosixRel(Display(home, c)); }
  }

  /** The item is neither blank nor private, the path lies at or below it, no name below the item is hidden, and
      neither the path nor a directory on the way is private. */
  ghost predicate Allowed(home: string, item: string, c: Names) {
    && Normalized(item) != "" && !Private(Split(Normalized(item)))
    && Root(home, item) <= c && (EndsInSlash(Normalized(item)) ==> c != Root(home, item))
    && (forall k :: |Root(home, item)| <= k <= |c| ==> !PrivatePath(home, c[..k]))
    && (forall k :: |Root(home, item)| <= k < |c| ==> c[k] == "" || c[k][0] != '.')
  }

  lemma AllowedIff(home: string, item: string, c: Names)
    ensures ItemReaches(home, item, c) <==> Allowed(home, item, c)
  {
    var root := Root(home, item);
    ExcludedIff(Normalized(item));
    assert c[..|c|] == c;
    forall k | 0 <= k <= |c|
      ensures Excluded(RelOf(home, c[..k])) <==> PrivatePath(home, c[..k])
      ensures Barred(SyncRules(home), c[..k]) <==> PrivatePath(home, c[..k])
    {
      PathExcludedIff(home, c[..k]);
    }
    forall k | 0 <= k < |c| ensures StartsWith(c[k], ".") <==> c[k] != "" && c[k][0] == '.' { StartsWithDot(c[k]); }
  }

  /** Every collected path is that of a file some include item allows. */
  lemma CollectedAreAllowed(at: Place, items: seq<string>, rel: string) returns (item: string, c: Names)
    requires at.Valid() && rel in WalkedRoots(at, items)
    ensures item in items && Allowed(at.home, item, c)
    ensures rel == RelOf(at.home, c) && IsFileAt(at.tree, c, WalkedRoots(at, items)[rel])
  {
    c := CollectedAreFiles(at, items, rel);
    item :| item in items && Via(at, item, c, WalkedRoots(at, items)[rel]);
    AllowedIff(at.home, item, c);
  }

  /** And every such file's path is collected. */
  lemma AllowedAreCollected(at: Place, items: seq<string>, item: string, c: Names, body: Bytes)
    requires at.Valid() && item in items && IsFileAt(at.tree, c, body) && Allowed(at.home, item, c)
    ensures RelOf(at.home, c) in WalkedRoots(at, items)
  {
    AllowedIff(at.home, item, c);
    assert Via(at, item, c, body);
    ReachedAreCollected(at, items, c, body);
  }

  /** Whatever the include items, no secret and nothing hidden is collected. */
  lemma NothingPrivateCollected(at: Place, items: seq<string>, rel: string)
    requires at.Valid() && rel in WalkedRoots(at, items)
    ensures !Private(Split(rel)) && !("vault/" <= rel)
    ensures rel !in ["vault/providers.json", "memory.db", "Dashboard/logs", "sync.json", "clawql.env"]
    ensures forall i :: 0 <= i < |rel| - 1 && rel[i] == '/' ==> rel[i + 1] != '.'
  {
    var c := CollectedAreFiles(at, items, rel);
    ExcludedIff(rel);
    assert !DotAfterSlash(rel);
  }

  // What include items name.

  predicate PlainAt(q: Names, k: nat)
    requires k < |q|
  {
    PlainName(q[k]) && q[k][0] != '.'
  }

  ghost predicate PlainPath(q: Names) { forall k: nat :: k < |q| ==> PlainAt(q, k) }

  lemma PlainTake(q: Names, n: nat)
    requires PlainPath(q) && n <= |q|
    ensures PlainPath(q[..n])
  {
    forall k: nat | k < n ensures PlainAt(q[..n], k) { assert PlainAt(q, k); }
  }

  lemma {:induction false} JoinKeeps(q: Names)
    requires q != [] && PlainPath(q)
    ensures Join(q) != "" && '\\' !in Join(q)
    ensures Join(q)[0] != '/' && Join(q)[|Join(q)| - 1] != '/'
  {
    var n := |q| - 1;
    assert PlainAt(q, n);
    if n == 0 {
    } else {
      PlainTake(q, n);
      JoinKeeps(q[..n]);
    }
  }

  lemma PlainCuts(path: Names, k: nat)
    requires PlainPath(path) && k <= |path|
    ensures Cuts(path[..k]) == path[..k]
  {
    forall i | 0 <= i < k ensures '\\' !in path[..k][i] && '/' !in path[..k][i] { assert PlainAt(path, i); }
    CutsOfPlain(path[..k]);
  }

  lemma SplitJoin(q: Names)
    requires q != [] && PlainPath(q)
    ensures Split(Join(q)) == q && ObjectKeys.Posix(Join(q)) == Join(q)
  {
    JoinKeeps(q);
    PosixKeeps(Join(q));
    PlainCuts(q, |q|);
    assert q[..|q|] == q;
    SplitPosixRel(q);
  }

  lemma {:induction false} MeaningfulKeeps(q: Names)
    requires PlainPath(q)
    ensures Meaningful(q) == q
  {
    if q == [] {
    } else {
      assert PlainAt(q, 0);
      forall k: nat | k < |q[1..]| ensures PlainAt(q[1..], k) { assert PlainAt(q, k + 1); }
      MeaningfulKeeps(q[1..]);
    }
  }

  lemma NormalizedPath(q: Names)
    requires q != [] && PlainPath(q)
    ensures Normalized(Join(q)) == Join(q) && Split(Normalized(Join(q))) == q && !EndsInSlash(Join(q))
  {
    JoinKeeps(q);
    SplitJoin(q);
  }

  lemma RootInside(home: string, item: string, q: Names)
    requires q != [] && PlainPath(q) && Split(Normalized(item)) == q
    ensures Root(home, item) == [home] + q
  {
    MeaningfulKeeps(q);
    assert PlainAt(q, 0);
  }

  lemma RootBeside(home: string, item: string, q: Names)
    requires PlainPath(q) && Split(Normalized(item)) == [".."] + q
    ensures Root(home, item) == q
  {
    MeaningfulKeeps(q);
    assert ([".."] + q)[1..] == q;
  }

  lemma SlashBefore(s: string)
    ensures Normalized("/" + s) == Normalized(s)
  {
    assert ObjectKeys.Posix("/" + s) == "/" + ObjectKeys.Posix(s);
    assert ("/" + ObjectKeys.Posix(s))[1..] == ObjectKeys.Posix(s);
  }

  lemma NameBefore(name: string, s: string)
    requires '/' !in name
    ensures Split(name + "/" + s) == [name] + Split(s)
  {
    var front := name + "/";
    SplitAfterSlash(front, s);
    assert front[..|front| - 1] == name;
    SplitName(name);
  }

  lemma UpBefore(s: string)
    requires ObjectKeys.Posix(s) == s
    ensures Normalized(".." + "/" + s) == ".." + "/" + s
  {
    PosixConcat("..", s);
    PosixKeeps("..");
    assert (".." + "/" + s)[0] == '.';
  }

  /** An item that is a plain path names that path in the vault; slashes before it make no difference, and two dots
      and a slash before it name that path beside the vault. */
  lemma RootOfPath(home: string, q: Names)
    requires q != [] && PlainPath(q)
    ensures Root(home, Join(q)) == [home] + q && Root(home, "/" + Join(q)) == [home] + q
    ensures Root(home, ".." + "/" + Join(q)) == q
  {
    NormalizedPath(q);
    RootInside(home, Join(q), q);
    SlashBefore(Join(q));
    RootInside(home, "/" + Join(q), q);
    SplitJoin(q);
    UpBefore(Join(q));
    NameBefore("..", Join(q));
    RootBeside(home, ".." + "/" + Join(q), q);
  }

  lemma BelowIsAllowed(home: string, item: string, q: Names, path: Names)
    requires q != [] && q <= path && PlainPath(path)
    requires Split(Normalized(item)) == q && Normalized(item) != "" && !EndsInSlash(Normalized(item))
    requires Root(home, item) == [home] + q
    requires forall k :: |q| <= k <= |path| ==> !Private(path[..k])
    ensures Allowed(home, item, [home] + path)
  {
    var c := [home] + path;
    assert path[..|q|] == q;
    forall k | 1 + |q| <= k <= |c| ensures !PrivatePath(home, c[..k]) {
      assert c[..k][1..] == path[..k - 1];
      PlainCuts(path, k - 1);
    }
    forall k | 1 + |q| <= k < |c| ensures c[k] == "" || c[k][0] != '.' { assert PlainAt(path, k - 1); }
  }

  lemma ItemAllows(home: string, item: string, q: Names, path: Names)
    requires q != [] && q <= path && PlainPath(path) && item == Join(q)
    requires forall k :: |q| <= k <= |path| ==> !Private(path[..k])
    ensures Allowed(home, item, [home] + path)
  {
    PlainTake(path, |q|);
    assert path[..|q|] == q;
    NormalizedPath(q);
    JoinKeeps(q);
    RootInside(home, item, q);
    BelowIsAllowed(home, item, q, path);
  }

  lemma RelInside(home: string, path: Names)
    requires path != [] && PlainPath(path)
    ensures RelOf(home, [home] + path) == Join(path)
  {
    assert ([home] + path)[1..] == path;
    SplitJoin(path);
  }

  /** An item that is a plain path collects every plain file at or below it, unless the file or a directory on the
      way to it is private. */
  lemma ItemCollectsBelow(at: Place, items: seq<string>, item: string, q: Names, path: Names, body: Bytes)
    requires at.Valid() && item in items && item == Join(q) && q != [] && q <= path && PlainPath(path)
    requires IsFileAt(at.tree, [at.home] + path, body)
    requires forall k :: |q| <= k <= |path| ==> !Private(path[..k])
    ensures Join(path) in WalkedRoots(at, items)
  {
    ItemAllows(at.home, item, q, path);
    AllowedAreCollected(at, items, item, [at.home] + path, body);
    RelInside(at.home, path);
  }

  /** The first default item collects every plain note. */
  lemma MemoryIsCollected(at: Place, items: seq<string>, below: Names, body: Bytes)
    requires at.Valid() && "Memory" in items && PlainPath(below)
    requires IsFileAt(at.tree, [at.home] + (["Memory"] + below), body)
    ensures Join(["Memory"] + below) in WalkedRoots(at, items)
  {
    var path := ["Memory"] + below;
    forall k: nat | k < |path| ensures PlainAt(path, k) {
      if k > 0 { assert PlainAt(below, k - 1); }
    }
    forall k | 1 <= k <= |path| ensures !Private(path[..k]) {
      NotesAreNotPrivate(path, k);
    }
    assert Join(["Memory"]) == "Memory";
    ItemCollectsBelow(at, items, "Memory", ["Memory"], path, body);
  }

  lemma NotesAreNotPrivate(path: Names, k: nat)
    requires PlainPath(path) && 1 <= k <= |path| && path[0] == "Memory"
    ensures !Private(path[..k])
  {
    assert path[..k][0] == "Memory";
    forall i: nat | 1 <= i < k ensures path[..k][i] == "" || path[..k][i][0] != '.' { assert PlainAt(path, i); }
  }
}
