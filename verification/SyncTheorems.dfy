/** What one push, one pull and one status report guarantee, for arbitrary files, manifests and objects. */
module SyncTheorems {
  import opened Collections
  import opened SyncTypes
  import opened SyncEngine

  // Pushing and the agreement of manifest and objects.

  /** A bucket after some of the uploads of a push, before its manifest is put. */
  function CutOff(b: Bucket, local: Tree, done: set<Path>): Bucket {
    Bucket(Uploaded(b.objects, local, done), b.manifest)
  }

  /** Conflict paths whose object does not happen to hold the local contents. */
  function Stale(b: Bucket, local: Tree, force: bool): set<Path> {
    set p | p in ConflictSet(Hashes(local), b.Index(), force) && (p !in b.objects || b.objects[p] != local[p])
  }

  /** A push repairs what it uploads, leaves the rest alone, and breaks exactly the stale conflict paths:
      the merged manifest takes the local hash for them although nothing was uploaded. */
  lemma PushIncoherence(b: Bucket, local: Tree, force: bool)
    ensures PushBucket(b, local, force).Incoherent()
         == (b.Incoherent() - UploadSet(Hashes(local), b.Index(), force) - ConflictSet(Hashes(local), b.Index(), force))
            + Stale(b, local, force)
  {
  }

  /** On a coherent bucket the push leaves exactly its conflict paths incoherent. */
  lemma PushKeepsCoherenceIff(b: Bucket, local: Tree, force: bool)
    requires b.Coherent()
    ensures PushBucket(b, local, force).Incoherent() == ConflictSet(Hashes(local), b.Index(), force)
    ensures PushBucket(b, local, force).Coherent() <==> ConflictSet(Hashes(local), b.Index(), force) == {}
    ensures force ==> PushBucket(b, local, force).Coherent()
  {
    PushIncoherence(b, local, force);
    forall p | p in ConflictSet(Hashes(local), b.Index(), force) ensures p in Stale(b, local, force) {
      assert p !in b.Incoherent();
      assert b.Matches(p);
    }
  }

  /** Cut off after any of its uploads, an unforced push has disturbed no manifest path; a forced one
      has disturbed exactly the overwritten paths. */
  lemma CutOffPush(b: Bucket, local: Tree, force: bool, done: set<Path>)
    requires done <= UploadSet(Hashes(local), b.Index(), force)
    ensures !force ==> CutOff(b, local, done).Incoherent() == b.Incoherent()
    ensures b.Coherent() ==> CutOff(b, local, done).Incoherent() == done * Differing(Hashes(local), b.Index())
  {
    var after := CutOff(b, local, done);
    forall p | p in b.Index() && p !in done ensures after.Matches(p) <==> b.Matches(p) {}
    forall p | p in b.Index() && p in done
      ensures force && p in Differing(Hashes(local), b.Index()) && !after.Matches(p) {}
    if b.Coherent() {
      forall p | p in b.Index() ensures b.Matches(p) { assert p !in b.Incoherent(); }
    }
  }

  /** The manifest lists the contents for the path, and the object holds them. */
  predicate OnRemote(b: Bucket, p: Path, body: Bytes) {
    p in b.Index() && b.Matches(p) && b.objects[p] == body
  }

  /** Local paths a push leaves without their contents on the remote. */
  function LeftBehind(b: Bucket, local: Tree, force: bool): set<Path> {
    Stale(b, local, force) + (set p | p in Same(Hashes(local), b.Index()) && p in b.Incoherent())
  }

  /** After a push a local path's contents are on the remote exactly when they were uploaded or the object
      already held them: what is left behind are conflicts, and paths found in sync with a manifest hash whose
      object is another one. */
  lemma PushDeliversIff(b: Bucket, local: Tree, force: bool, p: Path)
    requires p in local
    ensures var after := PushBucket(b, local, force);
      && after.Index()[p] == Sha256(local[p])
      && (OnRemote(after, p, local[p]) <==>
          p in UploadSet(Hashes(local), b.Index(), force) || (p in b.objects && b.objects[p] == local[p]))
      && (OnRemote(after, p, local[p]) <==> p !in LeftBehind(b, local, force))
  {
  }

  /** A push leaves nothing behind when there is no conflict and every path in sync has its object. */
  lemma NothingLeftBehindIff(b: Bucket, local: Tree, force: bool)
    requires b.Coherent()
    ensures LeftBehind(b, local, force) == ConflictSet(Hashes(local), b.Index(), force)
  {
    forall p | p in ConflictSet(Hashes(local), b.Index(), force) ensures p in Stale(b, local, force) {
      assert p !in b.Incoherent();
      assert b.Matches(p);
    }
  }

  /** An unforced push makes every local path look in sync: pushing the same files again, forced or not,
      uploads nothing, reports no conflict and changes nothing, whatever the first push left behind. */
  lemma PushIsMasked(b: Bucket, local: Tree, force: bool)
    ensures var once := PushBucket(b, local, false);
      && UploadSet(Hashes(local), once.Index(), force) == {}
      && ConflictSet(Hashes(local), once.Index(), force) == {}
      && PushBucket(once, local, force) == once
  {
    var once := PushBucket(b, local, false);
    assert once.Index() + Hashes(local) == once.Index();
    assert Uploaded(once.objects, local, {}) == once.objects;
  }

  lemma StillLeftBehind(b: Bucket, local: Tree, force: bool, p: Path)
    requires p in local
    ensures p in LeftBehind(PushBucket(b, local, false), local, force) <==> p in LeftBehind(b, local, false)
  {
    PushIsMasked(b, local, force);
    PushDeliversIff(b, local, false, p);
    PushDeliversIff(PushBucket(b, local, false), local, force, p);
  }

  /** A forced push repairs a listed path exactly when the local hash is not the one the manifest has. */
  lemma ForceRepairsIff(b: Bucket, local: Tree, p: Path)
    requires p in local && p in b.Incoherent()
    ensures OnRemote(PushBucket(b, local, true), p, local[p]) <==> Sha256(local[p]) != b.Index()[p]
  {
    PushDeliversIff(b, local, true, p);
  }

  /** An unforced push, finished or cut off, never touches the object of a listed path. */
  lemma ListedObjectsStay(b: Bucket, local: Tree, done: set<Path>, p: Path)
    requires p in b.Index() && done <= UploadSet(Hashes(local), b.Index(), false)
    ensures p in PushBucket(b, local, false).Index() && p in CutOff(b, local, done).Index()
    ensures SameObject(b, PushBucket(b, local, false), p) && SameObject(b, CutOff(b, local, done), p)
  {
  }

  predicate SameObject(b: Bucket, after: Bucket, p: Path) {
    (p in b.objects <==> p in after.objects) && (p in b.objects ==> after.objects[p] == b.objects[p])
  }

  // Pulling.

  /** The objects the downloads `todo` fetch. */
  function Fetched(objects: Tree, todo: seq<Path>): Tree {
    map p | p in todo && p in objects :: objects[p]
  }

  predicate Acceptable(b: Bucket, p: Path)
    requires p in b.Index()
  {
    p in b.objects ==> b.Index()[p] == Text("") || b.Matches(p)
  }

  ghost predicate Unchanged(before: Tree, after: Tree, p: Path) {
    (p in before <==> p in after) && (p in before ==> before[p] == after[p])
  }

  /** After any number of downloads, failed or not, a file is untouched or was asked for and holds its object,
      which hashes to its manifest entry unless that entry's hash is the empty string. */
  lemma {:induction false} PullPrefixSafe(files: Tree, b: Bucket, todo: seq<Path>, p: Path)
    requires Elements(todo) <= b.Index().Keys
    ensures var after := Pulled(files, b.objects, b.Index(), todo).files;
      || Unchanged(files, after, p)
      || (p in todo && p in b.objects && p in after && after[p] == b.objects[p]
          && (b.Index()[p] == Text("") || Sha256(after[p]) == b.Index()[p]))
  {
    if todo == [] {
    } else {
      var n := |todo| - 1;
      assert Elements(todo[..n]) <= Elements(todo);
      PullPrefixSafe(files, b, todo[..n], p);
      assert todo[n] in Elements(todo);
    }
  }

  /** Pull leaves in-sync files and, unless forced, conflicting files as they were, wherever it stops. */
  lemma PullSparesSkipsAndConflicts(files: Tree, scope: Path -> bool, b: Bucket, force: bool, todo: seq<Path>,
          k: nat, p: Path)
    requires Lists(todo, DownloadSet(Hashes(Restrict(files, scope)), b.Index(), force)) && k <= |todo|
    requires p in Same(Hashes(Restrict(files, scope)), b.Index())
          || p in ConflictSet(Hashes(Restrict(files, scope)), b.Index(), force)
          || p !in b.Index()
    ensures Unchanged(files, Pulled(files, b.objects, b.Index(), todo[..k]).files, p)
  {
    assert Elements(todo[..k]) <= Elements(todo);
    assert p !in Elements(todo);
    PullPrefixSafe(files, b, todo[..k], p);
  }

  /** A pull runs to its end exactly when every object it fetches is acceptable, in whatever order. */
  lemma {:induction false} PullCompletesIff(files: Tree, b: Bucket, todo: seq<Path>)
    requires Elements(todo) <= b.Index().Keys
    ensures var st := Pulled(files, b.objects, b.Index(), todo);
      && (st.failed.None? <==> forall p <- todo :: Acceptable(b, p))
      && (st.failed.Some? ==> st.failed.value in todo && !Acceptable(b, st.failed.value))
  {
    if todo == [] {
    } else {
      var n := |todo| - 1;
      assert todo == todo[..n] + [todo[n]];
      ElementsSnoc(todo[..n], todo[n]);
      PullCompletesIff(files, b, todo[..n]);
      assert forall p :: p in todo <==> p in todo[..n] || p == todo[n];
    }
  }

  /** A completed pull has written exactly the objects there are. */
  lemma {:induction false} PullBrings(files: Tree, b: Bucket, todo: seq<Path>)
    requires Pulled(files, b.objects, b.Index(), todo).failed.None?
    ensures Pulled(files, b.objects, b.Index(), todo).files == files + Fetched(b.objects, todo)
  {
    if todo != [] {
      var n := |todo| - 1;
      PullBrings(files, b, todo[..n]);
      FetchedNext(files, b.objects, todo, n);
    } else {
      assert files + Fetched(b.objects, todo) == files;
    }
  }

  lemma FetchedNext(files: Tree, objects: Tree, todo: seq<Path>, n: nat)
    requires |todo| == n + 1
    ensures files + Fetched(objects, todo) ==
      if todo[n] in objects then (files + Fetched(objects, todo[..n]))[todo[n] := objects[todo[n]]]
      else files + Fetched(objects, todo[..n])
  {
  }

  function Arrived(objects: Tree, todo: seq<Path>): set<Path> { set p | p in todo && p in objects }

  /** The downloads a completed pull reports are the paths that had an object. */
  lemma {:induction false} PullCounts(files: Tree, b: Bucket, todo: seq<Path>)
    requires Distinct(todo)
    requires Pulled(files, b.objects, b.Index(), todo).failed.None?
    ensures Pulled(files, b.objects, b.Index(), todo).count == |Arrived(b.objects, todo)|
  {
    if todo == [] {
    } else {
      var n := |todo| - 1;
      DistinctNext(todo, n);
      PullCounts(files, b, todo[..n]);
      ArrivedNext(b.objects, todo, n);
    }
  }

  lemma DistinctNext(todo: seq<Path>, n: nat)
    requires |todo| == n + 1 && Distinct(todo)
    ensures Distinct(todo[..n]) && todo[n] !in todo[..n]
  {
    assert todo == todo[..n] + [todo[n]];
    DistinctSnoc(todo[..n], todo[n]);
  }

  lemma ArrivedNext(objects: Tree, todo: seq<Path>, n: nat)
    requires |todo| == n + 1 && todo[n] !in todo[..n]
    ensures |Arrived(objects, todo)| == |Arrived(objects, todo[..n])| + if todo[n] in objects then 1 else 0
  {
    assert todo == todo[..n] + [todo[n]];
    if todo[n] in objects {
      assert Arrived(objects, todo) == Arrived(objects, todo[..n]) + {todo[n]};
    } else {
      assert Arrived(objects, todo) == Arrived(objects, todo[..n]);
    }
  }

  /** The files a completed pull wrote all verify exactly when none of their manifest hashes is empty. */
  lemma PulledFilesVerifyIff(files: Tree, b: Bucket, todo: seq<Path>)
    requires Distinct(todo) && Elements(todo) <= b.Index().Keys
    requires Pulled(files, b.objects, b.Index(), todo).failed.None?
    ensures var after := Pulled(files, b.objects, b.Index(), todo).files;
      (forall p <- todo :: p in b.objects ==> p in after && Sha256(after[p]) == b.Index()[p]) <==>
      (forall p <- todo :: p in b.objects ==> b.Index()[p] != Text(""))
  {
    PullCompletesIff(files, b, todo);
    PullBrings(files, b, todo);
    var after := Pulled(files, b.objects, b.Index(), todo).files;
    forall p | p in todo && p in b.objects ensures p in after && after[p] == b.objects[p] {
      assert p in Fetched(b.objects, todo);
    }
    forall p | p in todo ensures p in b.Index() && Acceptable(b, p) { assert p in Elements(todo); }
  }

  /** A manifest entry with an empty hash lets unverified bytes in. */
  lemma EmptyHashIsNotChecked()
    ensures var p := Rel("Memory/a.md");
      Pulled(map[], map[p := [1]], map[p := Text("")], [p]) == PullState(map[p := [1]], 1, None)
  {
  }

  /** On a coherent bucket a pull never aborts and brings every path it plans. */
  lemma CoherentPull(files: Tree, scope: Path -> bool, b: Bucket, force: bool, todo: seq<Path>)
    requires b.Coherent()
    requires Lists(todo, DownloadSet(Hashes(Restrict(files, scope)), b.Index(), force))
    ensures Pulled(files, b.objects, b.Index(), todo)
         == PullState(files + Fetched(b.objects, todo), |todo|, None)
    ensures Fetched(b.objects, todo).Keys == DownloadSet(Hashes(Restrict(files, scope)), b.Index(), force)
  {
    PlannedHaveObjects(b, Hashes(Restrict(files, scope)), force, todo);
    PullCompletesIff(files, b, todo);
    PullBrings(files, b, todo);
    PullCounts(files, b, todo);
    AllArrive(b.objects, todo);
  }

  lemma PlannedHaveObjects(b: Bucket, local: Files, force: bool, todo: seq<Path>)
    requires b.Coherent() && Lists(todo, DownloadSet(local, b.Index(), force))
    ensures forall p <- todo :: p in b.Index() && p in b.objects && Acceptable(b, p)
  {
    forall p | p in todo ensures p in b.Index() && p in b.objects && Acceptable(b, p) {
      assert p in Elements(todo);
      assert p !in b.Incoherent();
      assert b.Matches(p);
    }
  }

  lemma AllArrive(objects: Tree, todo: seq<Path>)
    requires forall p <- todo :: p in objects
    ensures Arrived(objects, todo) == Elements(todo) && Fetched(objects, todo).Keys == Elements(todo)
  {
  }

  /** A second pull downloads again exactly the manifest paths collection does not reach, and finds
      the conflicts the first one left. */
  lemma SecondPull(files: Tree, scope: Path -> bool, b: Bucket, force: bool, todo: seq<Path>)
    requires b.Coherent()
    requires Lists(todo, DownloadSet(Hashes(Restrict(files, scope)), b.Index(), force))
    ensures var local := Hashes(Restrict(files, scope));
      var again := Hashes(Restrict(Pulled(files, b.objects, b.Index(), todo).files, scope));
      && DownloadSet(again, b.Index(), force) == (set p | p in b.Index() && !scope(p))
      && ConflictSet(again, b.Index(), force) == ConflictSet(local, b.Index(), force)
      && Same(again, b.Index()) == (set p | p in b.Index() && scope(p)) - ConflictSet(local, b.Index(), force)
  {
    var local := Hashes(Restrict(files, scope));
    var again := Hashes(Restrict(Pulled(files, b.objects, b.Index(), todo).files, scope));
    forall p | p in b.Index()
      ensures p in again <==> scope(p)
      ensures p in again ==> (again[p] == b.Index()[p] <==> p !in ConflictSet(local, b.Index(), force))
    {
      AfterPull(files, scope, b, force, todo, p);
    }
  }

  /** What one manifest path looks like to collection after a pull from a coherent bucket. */
  lemma AfterPull(files: Tree, scope: Path -> bool, b: Bucket, force: bool, todo: seq<Path>, p: Path)
    requires b.Coherent() && p in b.Index()
    requires Lists(todo, DownloadSet(Hashes(Restrict(files, scope)), b.Index(), force))
    ensures var local := Hashes(Restrict(files, scope));
      var after := Pulled(files, b.objects, b.Index(), todo).files;
      && p in after
      && (Sha256(after[p]) == b.Index()[p] <==> p !in ConflictSet(local, b.Index(), force))
  {
    CoherentPull(files, scope, b, force, todo);
    assert p !in b.Incoherent();
    assert b.Matches(p);
    assert p in Fetched(b.objects, todo) <==> p in DownloadSet(Hashes(Restrict(files, scope)), b.Index(), force);
  }

  /** A pull from a coherent bucket changes a local file exactly when the manifest lists other contents for it
      and collection does not reach it or the pull is forced: a file out of scope looks missing. */
  lemma PullOverwritesIff(files: Tree, scope: Path -> bool, b: Bucket, force: bool, todo: seq<Path>, p: Path)
    requires b.Coherent() && p in files
    requires Lists(todo, DownloadSet(Hashes(Restrict(files, scope)), b.Index(), force))
    ensures var after := Pulled(files, b.objects, b.Index(), todo).files;
      && p in after
      && (after[p] != files[p] <==>
          p in b.Index() && Sha256(files[p]) != b.Index()[p] && (force || !scope(p)))
  {
    CoherentPull(files, scope, b, force, todo);
    assert p in b.Index() ==> b.Matches(p) by { assert p !in b.Incoherent(); }
    assert p in Fetched(b.objects, todo) <==> p in DownloadSet(Hashes(Restrict(files, scope)), b.Index(), force);
  }

  // Plans and status.

  /** Status, the unforced push plan and the unforced pull plan tell one story, and their counts add up. */
  lemma PlansAndStatusAgree(r: Status, push: Plan, pull: Plan, local: Files, remote: Files)
    requires IsStatus(r, local, remote)
    requires IsPushPlan(push, local, remote, false) && IsPullPlan(pull, local, remote, false)
    ensures Elements(r.localOnly) == Elements(Select(push, Upload))
    ensures Elements(r.remoteOnly) == Elements(Select(pull, Download))
    ensures Elements(r.conflicts) == Elements(Select(push, Conflict)) == Elements(Select(pull, Conflict))
    ensures r.inSync == |Select(push, Skip)| == |Select(pull, Skip)|
    ensures r.inSync + |r.localOnly| + |r.conflicts| == r.localCount
    ensures r.inSync + |r.remoteOnly| + |r.conflicts| == r.remoteCount
  {
    PushPlanLists(push, local, remote, false);
    PullPlanLists(pull, local, remote, false);
    assert UploadSet(local, remote, false) == OnlyIn(local, remote);
    assert DownloadSet(local, remote, false) == OnlyIn(remote, local);
    assert ConflictSet(local, remote, false) == Differing(local, remote);
    CompareSplits(local, remote);
    CompareSplits(remote, local);
    CompareSymmetric(local, remote);
  }
}
