/** The sync engine: planning, uploading, downloading, merging the manifest, and status.
    Each loop is a method proved against a declarative description of what it computes. */
module SyncEngine {
  import opened Collections
  import opened SyncTypes

  datatype Action = Upload | Download | Skip | Conflict

  datatype PlanEntry = PlanEntry(path: Path, action: Action)

  type Plan = seq<PlanEntry>

  // What each path of a push or pull is for.

  function UploadSet(local: Files, remote: Files, force: bool): set<Path> {
    set p | p in local && (p in remote ==> force && local[p] != remote[p])
  }

  function DownloadSet(local: Files, remote: Files, force: bool): set<Path> {
    set p | p in remote && (p in local ==> force && local[p] != remote[p])
  }

  function ConflictSet(local: Files, remote: Files, force: bool): set<Path> {
    set p | p in local && p in remote && !force && local[p] != remote[p]
  }

  function Paths(plan: Plan): seq<Path> {
    seq(|plan|, i requires 0 <= i < |plan| => plan[i].path)
  }

  /** The paths of the entries with one action, in plan order. */
  function Select(plan: Plan, action: Action): seq<Path> {
    if plan == [] then []
    else
      var n := |plan| - 1;
      Select(plan[..n], action) + if plan[n].action == action then [plan[n].path] else []
  }

  lemma {:induction false} SelectMembers(plan: Plan, action: Action)
    ensures forall p :: p in Select(plan, action) <==> PlanEntry(p, action) in plan
  {
    if plan == [] {
    } else {
      var n := |plan| - 1;
      SelectMembers(plan[..n], action);
      assert plan == plan[..n] + [plan[n]];
    }
  }

  lemma {:induction false} SelectDistinct(plan: Plan, action: Action)
    requires Distinct(Paths(plan))
    ensures Distinct(Select(plan, action))
  {
    if plan == [] {
    } else {
      var n := |plan| - 1;
      assert Paths(plan) == Paths(plan[..n]) + [plan[n].path];
      DistinctSnoc(Paths(plan[..n]), plan[n].path);
      SelectDistinct(plan[..n], action);
      SelectMembers(plan[..n], action);
      assert plan[n].path !in Select(plan[..n], action) by {
        assert forall i :: 0 <= i < n ==> Paths(plan[..n])[i] == plan[..n][i].path;
      }
      DistinctSnoc(Select(plan[..n], action), plan[n].path);
      assert Select(plan[..n], action) + [] == Select(plan[..n], action);
    }
  }

  lemma SelectNext(plan: Plan, action: Action, i: nat)
    requires i < |plan|
    ensures plan[i].action == action ==>
      Select(plan[..i + 1], action) == Select(plan[..i], action) + [plan[i].path]
    ensures plan[i].action != action ==> Select(plan[..i + 1], action) == Select(plan[..i], action)
  {
    assert plan[..i + 1][..i] == plan[..i];
  }

  /** The entries with one action list a set exactly when that set gets that action. */
  lemma SelectLists(plan: Plan, action: Action, s: set<Path>)
    requires Distinct(Paths(plan))
    requires forall e <- plan :: e.action == action ==> e.path in s
    requires forall p <- s :: PlanEntry(p, action) in plan
    ensures Lists(Select(plan, action), s)
  {
    SelectMembers(plan, action);
    SelectDistinct(plan, action);
    assert Elements(Select(plan, action)) == s;
  }

  lemma EntryFor(plan: Plan, s: set<Path>, p: Path) returns (e: PlanEntry)
    requires Lists(Paths(plan), s) && p in s
    ensures e in plan && e == PlanEntry(p, e.action)
  {
    assert p in Elements(Paths(plan));
    var i :| 0 <= i < |Paths(plan)| && Paths(plan)[i] == p;
    e := plan[i];
  }

  /** Every local path appears once, with the action its comparison with the remote index calls for. */
  ghost predicate IsPushPlan(plan: Plan, local: Files, remote: Files, force: bool) {
    && Lists(Paths(plan), local.Keys)
    && (forall e <- plan :: IsPushEntry(e, local, remote, force))
  }

  ghost predicate IsPushEntry(e: PlanEntry, local: Files, remote: Files, force: bool) {
    match e.action
    case Upload => e.path in UploadSet(local, remote, force)
    case Skip => e.path in Same(local, remote)
    case Conflict => e.path in ConflictSet(local, remote, force)
    case Download => false
  }

  /** Every remote path appears once, with the action its comparison with the local files calls for. */
  ghost predicate IsPullPlan(plan: Plan, local: Files, remote: Files, force: bool) {
    && Lists(Paths(plan), remote.Keys)
    && (forall e <- plan :: IsPullEntry(e, local, remote, force))
  }

  ghost predicate IsPullEntry(e: PlanEntry, local: Files, remote: Files, force: bool) {
    match e.action
    case Download => e.path in DownloadSet(local, remote, force)
    case Skip => e.path in Same(local, remote)
    case Conflict => e.path in ConflictSet(local, remote, force)
    case Upload => false
  }

  lemma PushEntries(local: Files, remote: Files, force: bool, p: Path)
    requires p in local
    ensures p !in remote ==> IsPushEntry(PlanEntry(p, Upload), local, remote, force)
    ensures p in remote && remote[p] == local[p] ==> IsPushEntry(PlanEntry(p, Skip), local, remote, force)
    ensures p in remote && remote[p] != local[p] ==>
      IsPushEntry(PlanEntry(p, if force then Upload else Conflict), local, remote, force)
  {
  }

  method PlanPush(local: Files, remote: Option<Files>, force: bool) returns (actions: Plan)
    ensures IsPushPlan(actions, local, OrEmpty(remote), force)
  {
    actions := [];
    var remoteFiles := OrEmpty(remote);
    var order := Enumerate(local.Keys);
    for i := 0 to |order|
      invariant |actions| == i
      invariant forall k :: 0 <= k < i ==> actions[k].path == order[k]
      invariant forall e <- actions :: IsPushEntry(e, local, remoteFiles, force)
    {
      var path := order[i];
      ListsPrefix(order, local.Keys, i);
      PushEntries(local, remoteFiles, force, path);
      if path !in remoteFiles {
        actions := actions + [PlanEntry(path, Upload)];
      } else if remoteFiles[path] == local[path] {
        actions := actions + [PlanEntry(path, Skip)];
      } else {
        actions := actions + [PlanEntry(path, if force then Upload else Conflict)];
      }
    }
    assert Paths(actions) == order;
  }

  lemma PullEntries(local: Files, remote: Files, force: bool, p: Path)
    requires p in remote
    ensures p !in local ==> IsPullEntry(PlanEntry(p, Download), local, remote, force)
    ensures p in local && local[p] == remote[p] ==> IsPullEntry(PlanEntry(p, Skip), local, remote, force)
    ensures p in local && local[p] != remote[p] ==>
      IsPullEntry(PlanEntry(p, if force then Download else Conflict), local, remote, force)
  {
  }

  method PlanPull(local: Files, remote: Option<Files>, force: bool) returns (actions: Plan)
    ensures IsPullPlan(actions, local, OrEmpty(remote), force)
  {
    actions := [];
    if remote.None? {
      assert Lists(Paths(actions), OrEmpty(remote).Keys);
      return;
    }
    var order := Enumerate(remote.value.Keys);
    for i := 0 to |order|
      invariant |actions| == i
      invariant forall k :: 0 <= k < i ==> actions[k].path == order[k]
      invariant forall e <- actions :: IsPullEntry(e, local, remote.value, force)
    {
      var path := order[i];
      ListsPrefix(order, remote.value.Keys, i);
      PullEntries(local, remote.value, force, path);
      if path !in local {
        actions := actions + [PlanEntry(path, Download)];
      } else if local[path] == remote.value[path] {
        actions := actions + [PlanEntry(path, Skip)];
      } else {
        actions := actions + [PlanEntry(path, if force then Download else Conflict)];
      }
    }
    assert Paths(actions) == order;
  }

  /** In a plan, the entries with each action list exactly the set of paths that action is for. */
  lemma PushPlanLists(plan: Plan, local: Files, remote: Files, force: bool)
    requires IsPushPlan(plan, local, remote, force)
    ensures Lists(Select(plan, Upload), UploadSet(local, remote, force))
    ensures Lists(Select(plan, Skip), Same(local, remote))
    ensures Lists(Select(plan, Conflict), ConflictSet(local, remote, force))
  {
    forall p | p in local
      ensures p in UploadSet(local, remote, force) ==> PlanEntry(p, Upload) in plan
      ensures p in Same(local, remote) ==> PlanEntry(p, Skip) in plan
      ensures p in ConflictSet(local, remote, force) ==> PlanEntry(p, Conflict) in plan
    {
      var e := EntryFor(plan, local.Keys, p);
      assert IsPushEntry(e, local, remote, force);
    }
    SelectLists(plan, Upload, UploadSet(local, remote, force));
    SelectLists(plan, Skip, Same(local, remote));
    SelectLists(plan, Conflict, ConflictSet(local, remote, force));
  }

  lemma PullPlanLists(plan: Plan, local: Files, remote: Files, force: bool)
    requires IsPullPlan(plan, local, remote, force)
    ensures Lists(Select(plan, Download), DownloadSet(local, remote, force))
    ensures Lists(Select(plan, Skip), Same(local, remote))
    ensures Lists(Select(plan, Conflict), ConflictSet(local, remote, force))
  {
    forall p | p in remote
      ensures p in DownloadSet(local, remote, force) ==> PlanEntry(p, Download) in plan
      ensures p in Same(local, remote) ==> PlanEntry(p, Skip) in plan
      ensures p in ConflictSet(local, remote, force) ==> PlanEntry(p, Conflict) in plan
    {
      var e := EntryFor(plan, remote.Keys, p);
      assert IsPullEntry(e, local, remote, force);
    }
    SelectLists(plan, Download, DownloadSet(local, remote, force));
    SelectLists(plan, Skip, Same(local, remote));
    SelectLists(plan, Conflict, ConflictSet(local, remote, force));
  }

  // Uploading.

  /** The objects after the contents of `paths` have been put. */
  function Uploaded(objects: Tree, files: Tree, paths: set<Path>): Tree {
    objects + map p | p in paths && p in files :: files[p]
  }

  lemma UploadedNext(objects: Tree, files: Tree, done: seq<Path>, p: Path)
    requires p in files
    ensures Elements(done + [p]) == Elements(done) + {p}
    ensures Uploaded(objects, files, Elements(done + [p])) == Uploaded(objects, files, Elements(done))[p := files[p]]
  {
  }

  /** The bucket a complete push leaves behind. */
  function PushBucket(b: Bucket, local: Tree, force: bool): Bucket {
    var mine := Hashes(local);
    Bucket(Uploaded(b.objects, local, UploadSet(mine, b.Index(), force)), Some(b.Index() + mine))
  }

  class ObjectStore {
    var objects: Tree
    var manifest: Option<Files>

    function View(): Bucket
      reads this
    {
      Bucket(objects, manifest)
    }
  }

  /** A machine's vault directory. `scope` says which paths collection reaches. */
  class Home {
    var files: Tree
    const scope: Path -> bool

    function Collected(): Tree
      reads this
    {
      Restrict(files, scope)
    }
  }

  datatype Outcome<T> = Done(value: T) | Failed(path: Path)

  /** Reads and puts the files to upload one by one; stops at a file that has vanished. */
  method ApplyUploads(store: ObjectStore, home: Home, actions: Plan, dryRun: bool)
      returns (r: Outcome<nat>)
    modifies store
    ensures store.manifest == old(store.manifest)
    ensures dryRun ==> store.objects == old(store.objects) && r == Done(|Select(actions, Upload)|)
    ensures r.Done? ==> r.value == |Select(actions, Upload)|
    ensures !dryRun && r.Done? ==>
      && Elements(Select(actions, Upload)) <= home.files.Keys
      && store.objects == Uploaded(old(store.objects), home.files, Elements(Select(actions, Upload)))
    ensures !dryRun && r.Failed? ==>
      exists k :: 0 <= k < |actions| && actions[k] == PlanEntry(r.path, Upload) && r.path !in home.files
        && store.objects == Uploaded(old(store.objects), home.files, Elements(Select(actions[..k], Upload)))
    ensures (forall e <- actions :: e.action == Upload ==> e.path in home.files) ==> r.Done?
  {
    var count := 0;
    for i := 0 to |actions|
      invariant count == |Select(actions[..i], Upload)|
      invariant store.manifest == old(store.manifest)
      invariant dryRun ==> store.objects == old(store.objects)
      invariant !dryRun ==> Elements(Select(actions[..i], Upload)) <= home.files.Keys
      invariant !dryRun ==>
        store.objects == Uploaded(old(store.objects), home.files, Elements(Select(actions[..i], Upload)))
    {
      var a := actions[i];
      SelectNext(actions, Upload, i);
      if a.action != Upload { continue; }
      if dryRun {
        count := count + 1;
        continue;
      }
      if a.path !in home.files {
        return Failed(a.path);
      }
      UploadedNext(old(store.objects), home.files, Select(actions[..i], Upload), a.path);
      store.objects := store.objects[a.path := home.files[a.path]];
      count := count + 1;
    }
    assert actions[..|actions|] == actions;
    r := Done(count);
  }

  // Downloading.

  /** The fail-closed check on downloaded bytes. */
  predicate MatchesManifest(body: Bytes, expected: Hash) { Sha256(body) == expected }

  datatype PullState = PullState(files: Tree, count: nat, failed: Option<Path>)

  /** One download: a missing object is passed over, an empty hash is not checked, a wrong hash stops the pull. */
  function DownloadStep(st: PullState, objects: Tree, remote: Files, p: Path): PullState {
    if p !in objects then st
    else if p in remote && remote[p] != Text("") && !MatchesManifest(objects[p], remote[p]) then
      st.(failed := Some(p))
    else PullState(st.files[p := objects[p]], st.count + 1, None)
  }

  /** The local files after the downloads `todo`, or up to the first one that fails. */
  function Pulled(files: Tree, objects: Tree, remote: Files, todo: seq<Path>): PullState {
    if todo == [] then PullState(files, 0, None)
    else
      var n := |todo| - 1;
      var before := Pulled(files, objects, remote, todo[..n]);
      if before.failed.Some? then before else DownloadStep(before, objects, remote, todo[n])
  }

  lemma PulledNext(files: Tree, objects: Tree, remote: Files, done: seq<Path>, p: Path)
    ensures Pulled(files, objects, remote, done + [p]) ==
      var before := Pulled(files, objects, remote, done);
      if before.failed.Some? then before else DownloadStep(before, objects, remote, p)
  {
  }

  /** A failed pull stays where it failed. */
  lemma {:induction false} PulledAfterFailure(files: Tree, objects: Tree, remote: Files, todo: seq<Path>, k: nat)
    requires k <= |todo| && Pulled(files, objects, remote, todo[..k]).failed.Some?
    ensures Pulled(files, objects, remote, todo) == Pulled(files, objects, remote, todo[..k])
    decreases |todo|
  {
    if k < |todo| {
      assert todo[..|todo| - 1][..k] == todo[..k];
      PulledAfterFailure(files, objects, remote, todo[..|todo| - 1], k);
    } else {
      assert todo[..k] == todo;
    }
  }

  lemma {:induction false} SelectPrefix(plan: Plan, action: Action, k: nat)
    requires k <= |plan|
    ensures Select(plan[..k], action) <= Select(plan, action)
    decreases |plan|
  {
    if k < |plan| {
      assert plan[..|plan| - 1][..k] == plan[..k];
      SelectPrefix(plan[..|plan| - 1], action, k);
    } else {
      assert plan[..k] == plan;
    }
  }

  /** A download that fails ends the pull, whatever is planned after it. */
  lemma DownloadFails(files: Tree, objects: Tree, remote: Files, actions: Plan, i: nat)
    requires i < |actions| && actions[i].action == Download
    requires var p := actions[i].path;
      p in objects && p in remote && remote[p] != Text("") && !MatchesManifest(objects[p], remote[p])
    requires Pulled(files, objects, remote, Select(actions[..i], Download)).failed.None?
    ensures Pulled(files, objects, remote, Select(actions, Download)) ==
      Pulled(files, objects, remote, Select(actions[..i], Download)).(failed := Some(actions[i].path))
  {
    var done, p := Select(actions[..i], Download), actions[i].path;
    SelectNext(actions, Download, i);
    SelectPrefix(actions, Download, i + 1);
    PulledNext(files, objects, remote, done, p);
    assert Select(actions, Download)[..|done| + 1] == done + [p];
    PulledAfterFailure(files, objects, remote, Select(actions, Download), |done| + 1);
  }

  method ApplyDownloads(store: ObjectStore, home: Home, actions: Plan, dryRun: bool, remote: Option<Files>)
      returns (r: Outcome<nat>)
    modifies home`files
    ensures dryRun ==> home.files == old(home.files) && r == Done(|Select(actions, Download)|)
    ensures !dryRun ==>
      var st := Pulled(old(home.files), store.objects, OrEmpty(remote), Select(actions, Download));
      && home.files == st.files
      && st.failed == (if r.Done? then None else Some(r.path))
      && (r.Done? ==> r.value == st.count)
  {
    var count := 0;
    var remoteFiles := OrEmpty(remote);
    for i := 0 to |actions|
      invariant dryRun ==> home.files == old(home.files) && count == |Select(actions[..i], Download)|
      invariant !dryRun ==>
        Pulled(old(home.files), store.objects, remoteFiles, Select(actions[..i], Download)) ==
        PullState(home.files, count, None)
    {
      var a := actions[i];
      SelectNext(actions, Download, i);
      if a.action != Download { continue; }
      if dryRun {
        count := count + 1;
        continue;
      }
      PulledNext(old(home.files), store.objects, remoteFiles, Select(actions[..i], Download), a.path);
      if a.path !in store.objects { continue; }
      var body := store.objects[a.path];
      if a.path in remoteFiles && remoteFiles[a.path] != Text("") {
        if !MatchesManifest(body, remoteFiles[a.path]) {
          DownloadFails(old(home.files), store.objects, remoteFiles, actions, i);
          return Failed(a.path);
        }
      }
      home.files := home.files[a.path := body];
      count := count + 1;
    }
    assert actions[..|actions|] == actions;
    r := Done(count);
  }

  // The merged manifest.

  method MergeManifestFiles(local: Files, remote: Option<Files>) returns (files: Files)
    ensures files == OrEmpty(remote) + local
  {
    files := map[];
    if remote.Some? {
      files := CopyInto(files, remote.value);
    }
    files := CopyInto(files, local);
  }

  /** Copies every entry of `m`, one by one, over those of `start`. */
  method CopyInto(start: Files, m: Files) returns (files: Files)
    ensures files == start + m
  {
    files := start;
    var order := Enumerate(m.Keys);
    for i := 0 to |order|
      invariant files == start + Entries(m, order[..i])
    {
      EntriesNext(start, m, order, i);
      files := files[order[i] := m[order[i]]];
    }
    EntriesAll(m, order);
  }

  ghost function Entries(m: Files, order: seq<Path>): Files {
    map p | p in m && p in order :: m[p]
  }

  lemma EntriesNext(start: Files, m: Files, order: seq<Path>, i: nat)
    requires Lists(order, m.Keys) && i < |order|
    ensures order[i] in m
    ensures start + Entries(m, order[..i + 1]) == (start + Entries(m, order[..i]))[order[i] := m[order[i]]]
  {
  }

  lemma EntriesAll(m: Files, order: seq<Path>)
    requires Lists(order, m.Keys)
    ensures Entries(m, order[..|order|]) == m
  {
  }

  // Whole runs.

  datatype RunResult = RunResult(uploaded: nat, downloaded: nat, skipped: nat, conflicts: nat, dryRun: bool,
          actions: Plan)

  function Summarize(actions: Plan, uploaded: nat, downloaded: nat, dryRun: bool): RunResult {
    RunResult(uploaded, downloaded, |Select(actions, Skip)|, |Select(actions, Conflict)|, dryRun, actions)
  }

  /** Collect, fetch the manifest, plan, upload, put the merged manifest; nothing else touches the bucket meanwhile. */
  method RunSyncPush(store: ObjectStore, home: Home, force: bool, dryRun: bool) returns (r: RunResult)
    modifies store
    ensures IsPushPlan(r.actions, Hashes(home.Collected()), old(store.View().Index()), force)
    ensures r.dryRun == dryRun && r.downloaded == 0
    ensures r.uploaded == |UploadSet(Hashes(home.Collected()), old(store.View().Index()), force)|
    ensures r.skipped == |Same(Hashes(home.Collected()), old(store.View().Index()))|
    ensures r.conflicts == |ConflictSet(Hashes(home.Collected()), old(store.View().Index()), force)|
    ensures store.View() ==
      if dryRun then old(store.View()) else PushBucket(old(store.View()), home.Collected(), force)
  {
    var local := home.Collected();
    var remote := store.manifest;
    var actions := PlanPush(Hashes(local), remote, force);
    PushPlanLists(actions, Hashes(local), OrEmpty(remote), force);
    UploadsAreLocal(home.files, home.scope, OrEmpty(remote), force);
    forall e <- actions ensures e.action == Upload ==> e.path in home.files {
      assert IsPushEntry(e, Hashes(local), OrEmpty(remote), force);
    }
    var uploaded := ApplyUploads(store, home, actions, dryRun);
    if !dryRun {
      UploadedCollected(old(store.objects), home.files, home.scope, OrEmpty(remote), force);
      var merged := MergeManifestFiles(Hashes(local), remote);
      store.manifest := Some(merged);
    }
    r := Summarize(actions, uploaded.value, 0, dryRun);
  }

  lemma UploadsAreLocal(files: Tree, scope: Path -> bool, remote: Files, force: bool)
    ensures UploadSet(Hashes(Restrict(files, scope)), remote, force) <= files.Keys
  {
  }

  lemma UploadedCollected(objects: Tree, files: Tree, scope: Path -> bool, remote: Files, force: bool)
    ensures
      var local := Restrict(files, scope);
      var uploads := UploadSet(Hashes(local), remote, force);
      Uploaded(objects, files, uploads) == Uploaded(objects, local, uploads)
  {
  }

  /** `st` is where the planned downloads, in some order, can end. */
  ghost predicate PullsTo(files: Tree, b: Bucket, local: Files, force: bool, st: PullState) {
    exists todo :: Lists(todo, DownloadSet(local, b.Index(), force))
      && Pulled(files, b.objects, b.Index(), todo) == st
  }

  lemma PullsToIntro(files: Tree, b: Bucket, local: Files, force: bool, todo: seq<Path>)
    requires Lists(todo, DownloadSet(local, b.Index(), force))
    ensures PullsTo(files, b, local, force, Pulled(files, b.objects, b.Index(), todo))
  {
  }

  /** Collect, fetch the manifest, plan, download; a hash mismatch ends the run with the files written so far. */
  method RunSyncPull(store: ObjectStore, home: Home, force: bool, dryRun: bool) returns (r: Outcome<RunResult>)
    modifies home`files
    ensures dryRun ==> home.files == old(home.files) && r.Done?
    ensures !dryRun && r.Done? ==>
      PullsTo(old(home.files), store.View(), Hashes(old(home.Collected())), force,
              PullState(home.files, r.value.downloaded, None))
    ensures !dryRun && r.Failed? ==> exists n: nat ::
      PullsTo(old(home.files), store.View(), Hashes(old(home.Collected())), force,
              PullState(home.files, n, Some(r.path)))
    ensures r.Done? ==>
      && IsPullPlan(r.value.actions, Hashes(old(home.Collected())), store.View().Index(), force)
      && r.value.dryRun == dryRun && r.value.uploaded == 0
      && (dryRun ==> r.value.downloaded == |DownloadSet(Hashes(old(home.Collected())), store.View().Index(), force)|)
      && r.value.skipped == |Same(Hashes(old(home.Collected())), store.View().Index())|
      && r.value.conflicts == |ConflictSet(Hashes(old(home.Collected())), store.View().Index(), force)|
  {
    var local := home.Collected();
    var remote := store.manifest;
    var actions := PlanPull(Hashes(local), remote, force);
    PullPlanLists(actions, Hashes(local), OrEmpty(remote), force);
    var downloaded := ApplyDownloads(store, home, actions, dryRun, remote);
    ghost var st := Pulled(old(home.files), store.objects, OrEmpty(remote), Select(actions, Download));
    PullsToIntro(old(home.files), store.View(), Hashes(local), force, Select(actions, Download));
    if downloaded.Failed? {
      assert st == PullState(home.files, st.count, Some(downloaded.path));
      return Failed(downloaded.path);
    }
    r := Done(Summarize(actions, 0, downloaded.value, dryRun));
  }

  datatype Status = Status(localCount: nat, remoteCount: nat, inSync: nat,
                           localOnly: seq<Path>, remoteOnly: seq<Path>, conflicts: seq<Path>)

  ghost predicate IsStatus(r: Status, local: Files, remote: Files) {
    && r.localCount == |local| && r.remoteCount == |remote|
    && r.inSync == |Same(local, remote)|
    && Lists(r.localOnly, OnlyIn(local, remote))
    && Lists(r.remoteOnly, OnlyIn(remote, local))
    && Lists(r.conflicts, Differing(local, remote))
  }

  method RunSyncStatus(store: ObjectStore, home: Home) returns (r: Status)
    ensures IsStatus(r, Hashes(home.Collected()), store.View().Index())
  {
    var local := Hashes(home.Collected());
    var remoteFiles := OrEmpty(store.manifest);
    var localOnly, remoteOnly, conflicts: seq<Path>, inSync: nat := [], [], [], 0;
    ghost var same: seq<Path> := [];
    var order := Enumerate(local.Keys);
    for i := 0 to |order|
      invariant Lists(localOnly, Among(order[..i], OnlyIn(local, remoteFiles)))
      invariant Lists(conflicts, Among(order[..i], Differing(local, remoteFiles)))
      invariant Lists(same, Among(order[..i], Same(local, remoteFiles))) && |same| == inSync
    {
      var path := order[i];
      ListsPrefix(order, local.Keys, i);
      if path !in remoteFiles {
        ListsGrow(localOnly, order, i, OnlyIn(local, remoteFiles));
        localOnly := localOnly + [path];
      } else if remoteFiles[path] == local[path] {
        ListsGrow(same, order, i, Same(local, remoteFiles));
        inSync := inSync + 1;
        same := same + [path];
      } else {
        ListsGrow(conflicts, order, i, Differing(local, remoteFiles));
        conflicts := conflicts + [path];
      }
      AmongNext(order, i, OnlyIn(local, remoteFiles));
      AmongNext(order, i, Same(local, remoteFiles));
      AmongNext(order, i, Differing(local, remoteFiles));
    }
    assert order[..|order|] == order;
    assert forall p :: p in order <==> p in Elements(order);
    assert Among(order, OnlyIn(local, remoteFiles)) == OnlyIn(local, remoteFiles);
    assert Among(order, Same(local, remoteFiles)) == Same(local, remoteFiles);
    assert Among(order, Differing(local, remoteFiles)) == Differing(local, remoteFiles);
    var remoteOrder := Enumerate(remoteFiles.Keys);
    for i := 0 to |remoteOrder|
      invariant Lists(remoteOnly, Among(remoteOrder[..i], OnlyIn(remoteFiles, local)))
    {
      var path := remoteOrder[i];
      ListsPrefix(remoteOrder, remoteFiles.Keys, i);
      if path !in local {
        ListsGrow(remoteOnly, remoteOrder, i, OnlyIn(remoteFiles, local));
        remoteOnly := remoteOnly + [path];
      }
      AmongNext(remoteOrder, i, OnlyIn(remoteFiles, local));
    }
    assert remoteOrder[..|remoteOrder|] == remoteOrder;
    assert forall p :: p in remoteOrder <==> p in Elements(remoteOrder);
    assert Among(remoteOrder, OnlyIn(remoteFiles, local)) == OnlyIn(remoteFiles, local);
    HashesSize(home.Collected());
    r := Status(|home.Collected()|, |remoteFiles|, inSync, localOnly, remoteOnly, conflicts);
  }

  lemma HashesSize(tree: Tree)
    ensures Hashes(tree).Keys == tree.Keys && |Hashes(tree)| == |tree|
  {
  }
}
