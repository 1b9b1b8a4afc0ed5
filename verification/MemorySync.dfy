/** The memory_sync tool: status, then pull, then push, and one report over both runs. */
module MemorySync {
  import opened Collections
  import opened SyncTypes
  import opened SyncEngine
  import opened SyncTheorems

  datatype Direction = Auto | PullOnly | PushOnly

  datatype MemorySyncResult = MemorySyncResult(
    ok: bool, direction: Direction, dryRun: bool, pulled: nat, pushed: nat, skipped: nat,
    conflicts: seq<Path>, conflictCount: nat, statusBefore: Status,
    pull: Option<RunResult>, push: Option<RunResult>)

  /** What a caller reads off a result. */
  datatype Report = Report(pulled: nat, pushed: nat, conflicts: set<Path>)

  function ReportOf(r: MemorySyncResult): Report {
    Report(r.pulled, r.pushed, Elements(r.conflicts))
  }

  /** A dry run plans both directions against the local files as they are. */
  function DryReport(local: Files, remote: Files, force: bool): Report {
    Report(|DownloadSet(local, remote, force)|, |UploadSet(local, remote, force)|, ConflictSet(local, remote, force))
  }

  /** A real run plans the push against the local files the pull left. */
  function RealReport(files: Tree, scope: Path -> bool, b: Bucket, force: bool, todo: seq<Path>): Report {
    var st := Pulled(files, b.objects, b.Index(), todo);
    var before, after := Hashes(Restrict(files, scope)), Hashes(Restrict(st.files, scope));
    Report(st.count, |UploadSet(after, b.Index(), force)|,
           ConflictSet(before, b.Index(), force) + ConflictSet(after, b.Index(), force))
  }

  method MergeConflicts(pull: Option<RunResult>, push: Option<RunResult>) returns (paths: seq<Path>)
    ensures Distinct(paths)
    ensures forall p :: p in paths <==>
      (pull.Some? && PlanEntry(p, Conflict) in pull.value.actions) ||
      (push.Some? && PlanEntry(p, Conflict) in push.value.actions)
  {
    paths := [];
    if pull.Some? { paths := AddConflicts(paths, pull.value.actions); }
    if push.Some? { paths := AddConflicts(paths, push.value.actions); }
  }

  method AddConflicts(start: seq<Path>, actions: Plan) returns (paths: seq<Path>)
    requires Distinct(start)
    ensures Distinct(paths)
    ensures forall p :: p in paths <==> p in start || PlanEntry(p, Conflict) in actions
  {
    paths := start;
    for i := 0 to |actions|
      invariant Distinct(paths)
      invariant forall p :: p in paths <==> p in start || PlanEntry(p, Conflict) in actions[..i]
    {
      assert actions[..i + 1] == actions[..i] + [actions[i]];
      if actions[i].action == Conflict && actions[i].path !in paths {
        DistinctSnoc(paths, actions[i].path);
        paths := paths + [actions[i].path];
      }
    }
    assert actions[..|actions|] == actions;
  }

  function SumSkipped(pull: Option<RunResult>, push: Option<RunResult>): nat {
    (if pull.Some? then pull.value.skipped else 0) + (if push.Some? then push.value.skipped else 0)
  }

  /** A pull's result: its plan is of the files and the manifest it saw. */
  ghost predicate IsPullRun(run: RunResult, dryRun: bool, force: bool, local: Files, remote: Files) {
    && IsPullPlan(run.actions, local, remote, force)
    && run.dryRun == dryRun && run.uploaded == 0
    && (dryRun ==> run.downloaded == |DownloadSet(local, remote, force)|)
    && run.skipped == |Same(local, remote)|
    && run.conflicts == |ConflictSet(local, remote, force)|
  }

  ghost predicate IsPushRun(run: RunResult, dryRun: bool, force: bool, local: Files, remote: Files) {
    && IsPushPlan(run.actions, local, remote, force)
    && run.dryRun == dryRun && run.downloaded == 0
    && run.uploaded == |UploadSet(local, remote, force)|
    && run.skipped == |Same(local, remote)|
    && run.conflicts == |ConflictSet(local, remote, force)|
  }

  /** A result holds the runs its direction calls for, the pull over the files `before` and the push over those
      `after`, and their counts. */
  ghost predicate HoldsRuns(r: MemorySyncResult, direction: Direction, dryRun: bool, force: bool,
                            before: Files, after: Files, remote: Files)
  {
    && r.direction == direction && r.dryRun == dryRun
    && (r.pull.Some? <==> direction != PushOnly) && (r.push.Some? <==> direction != PullOnly)
    && (r.pull.Some? ==> IsPullRun(r.pull.value, dryRun, force, before, remote))
    && (r.push.Some? ==> IsPushRun(r.push.value, dryRun, force, after, remote))
    && r.pulled == (if r.pull.Some? then r.pull.value.downloaded else 0)
    && r.pushed == (if r.push.Some? then r.push.value.uploaded else 0)
  }

  /** Where a real auto run ends: the planned downloads in some order, then the push of what is there. */
  ghost predicate EndsAt(files: Tree, scope: Path -> bool, b: Bucket, force: bool,
                         after: Tree, bucket: Bucket, report: Report)
  {
    exists todo :: EndsVia(files, scope, b, force, after, bucket, report, todo)
  }

  ghost predicate EndsVia(files: Tree, scope: Path -> bool, b: Bucket, force: bool,
                          after: Tree, bucket: Bucket, report: Report, todo: seq<Path>)
  {
    && Lists(todo, DownloadSet(Hashes(Restrict(files, scope)), b.Index(), force))
    && Pulled(files, b.objects, b.Index(), todo) == PullState(after, report.pulled, None)
    && bucket == PushBucket(b, Restrict(after, scope), force)
    && report == RealReport(files, scope, b, force, todo)
  }

  method RunAuto(store: ObjectStore, home: Home, force: bool, dryRun: bool)
      returns (r: Outcome<(RunResult, RunResult)>)
    modifies store, home`files
    ensures dryRun ==> r.Done? && home.files == old(home.files) && store.View() == old(store.View())
    ensures r.Done? ==>
      && IsPullRun(r.value.0, dryRun, force, Hashes(old(home.Collected())), old(store.View().Index()))
      && IsPushRun(r.value.1, dryRun, force, Hashes(home.Collected()), old(store.View().Index()))
    ensures !dryRun && r.Done? ==>
      EndsAt(old(home.files), home.scope, old(store.View()), force, home.files, store.View(),
             Report(r.value.0.downloaded, r.value.1.uploaded,
                    ConflictSet(Hashes(old(home.Collected())), old(store.View().Index()), force)
                    + ConflictSet(Hashes(home.Collected()), old(store.View().Index()), force)))
    ensures r.Failed? ==> store.View() == old(store.View())
  {
    var pull := RunSyncPull(store, home, force, dryRun);
    if pull.Failed? {
      return Failed(pull.path);
    }
    var push := RunSyncPush(store, home, force, dryRun);
    r := Done((pull.value, push));
    if !dryRun {
      ghost var b := old(store.View());
      ghost var todo :| Lists(todo, DownloadSet(Hashes(old(home.Collected())), b.Index(), force))
        && Pulled(old(home.files), b.objects, b.Index(), todo) == PullState(home.files, pull.value.downloaded, None);
      assert EndsVia(old(home.files), home.scope, b, force, home.files, store.View(),
                     RealReport(old(home.files), home.scope, b, force, todo), todo);
    }
  }

  method RunOneWay(store: ObjectStore, home: Home, pushing: bool, force: bool, dryRun: bool)
      returns (r: Outcome<RunResult>)
    modifies store, home`files
    ensures dryRun ==> r.Done? && home.files == old(home.files) && store.View() == old(store.View())
    ensures pushing ==> r.Done? && home.files == old(home.files)
    ensures pushing && !dryRun ==> store.View() == PushBucket(old(store.View()), old(home.Collected()), force)
    ensures !pushing ==> store.View() == old(store.View())
    ensures !pushing && !dryRun ==>
      PullEnds(old(home.files), home.scope, old(store.View()), force, home.files,
               if r.Done? then Done(r.value.downloaded) else Failed(r.path))
    ensures r.Done? ==>
      IsOneWay(r.value, pushing, dryRun, force, Hashes(old(home.Collected())), old(store.View().Index()))
  {
    if pushing {
      var run := RunSyncPush(store, home, force, dryRun);
      PushPlanLists(run.actions, Hashes(old(home.Collected())), old(store.View().Index()), force);
      r := Done(run);
    } else {
      r := RunSyncPull(store, home, force, dryRun);
      if r.Done? {
        PullPlanLists(r.value.actions, Hashes(old(home.Collected())), old(store.View().Index()), force);
      }
    }
  }

  /** Where a real pull leaves the files, and what it says when it fails. */
  ghost predicate PullEnds(files: Tree, scope: Path -> bool, b: Bucket, force: bool, after: Tree, r: Outcome<nat>) {
    match r
    case Done(count) => PullsTo(files, b, Hashes(Restrict(files, scope)), force, PullState(after, count, None))
    case Failed(p) =>
      exists n: nat :: PullsTo(files, b, Hashes(Restrict(files, scope)), force, PullState(after, n, Some(p)))
  }

  /** A single push or pull. */
  ghost predicate IsOneWay(run: RunResult, pushing: bool, dryRun: bool, force: bool, local: Files, remote: Files) {
    && (if pushing then IsPushRun(run, dryRun, force, local, remote) else IsPullRun(run, dryRun, force, local, remote))
    && ConflictPaths(Some(run)) == ConflictSet(local, remote, force)
  }

  /** What a one-way run reports. */
  ghost predicate OneWayReport(r: MemorySyncResult, pushing: bool, dryRun: bool, force: bool,
                               local: Files, remote: Files)
  {
    && r.pushed == (if pushing then |UploadSet(local, remote, force)| else 0)
    && (pushing ==> r.pulled == 0)
    && (!pushing && dryRun ==> r.pulled == |DownloadSet(local, remote, force)|)
    && r.skipped == |Same(local, remote)|
    && Elements(r.conflicts) == ConflictSet(local, remote, force)
  }

  method AutoSync(store: ObjectStore, home: Home, statusBefore: Status, force: bool, dryRun: bool)
      returns (r: Outcome<MemorySyncResult>)
    modifies store, home`files
    ensures dryRun ==> r.Done? && home.files == old(home.files) && store.View() == old(store.View())
    ensures r.Done? ==> r.value.statusBefore == statusBefore && IsReport(r.value)
    ensures r.Done? ==>
      HoldsRuns(r.value, Auto, dryRun, force, Hashes(old(home.Collected())), Hashes(home.Collected()),
                old(store.View().Index()))
    ensures dryRun ==>
      ReportOf(r.value) == DryReport(Hashes(old(home.Collected())), old(store.View().Index()), force)
    ensures !dryRun && r.Done? ==>
      EndsAt(old(home.files), home.scope, old(store.View()), force, home.files, store.View(), ReportOf(r.value))
    ensures r.Done? ==>
      r.value.skipped == |Same(Hashes(old(home.Collected())), old(store.View().Index()))|
                         + |Same(Hashes(home.Collected()), old(store.View().Index()))|
    ensures r.Failed? ==> store.View() == old(store.View())
  {
    ghost var remote := store.View().Index();
    var both := RunAuto(store, home, force, dryRun);
    if both.Failed? { return Failed(both.path); }
    ConflictsOfBoth(both.value.0.actions, both.value.1.actions,
                    Hashes(old(home.Collected())), Hashes(home.Collected()), remote, force);
    var result := Compose(Auto, dryRun, statusBefore, Some(both.value.0), Some(both.value.1));
    r := Done(result);
  }

  method OneWaySync(store: ObjectStore, home: Home, statusBefore: Status, pushing: bool, force: bool, dryRun: bool)
      returns (r: Outcome<MemorySyncResult>)
    modifies store, home`files
    ensures dryRun ==> r.Done? && home.files == old(home.files) && store.View() == old(store.View())
    ensures r.Done? ==> r.value.statusBefore == statusBefore && IsReport(r.value)
    ensures r.Done? ==>
      HoldsRuns(r.value, if pushing then PushOnly else PullOnly, dryRun, force,
                Hashes(old(home.Collected())), Hashes(home.Collected()), old(store.View().Index()))
    ensures r.Done? ==>
      OneWayReport(r.value, pushing, dryRun, force, Hashes(old(home.Collected())), old(store.View().Index()))
    ensures pushing ==> r.Done? && home.files == old(home.files)
    ensures pushing && !dryRun ==> store.View() == PushBucket(old(store.View()), old(home.Collected()), force)
    ensures !pushing ==> store.View() == old(store.View())
    ensures !pushing && !dryRun ==>
      PullEnds(old(home.files), home.scope, old(store.View()), force, home.files,
               if r.Done? then Done(r.value.pulled) else Failed(r.path))
  {
    var run := RunOneWay(store, home, pushing, force, dryRun);
    if run.Failed? { return Failed(run.path); }
    var direction := if pushing then PushOnly else PullOnly;
    var pull, push := if pushing then None else Some(run.value), if pushing then Some(run.value) else None;
    var result := Compose(direction, dryRun, statusBefore, pull, push);
    OneRunComposed(result, run.value, pushing, dryRun, force, Hashes(old(home.Collected())), Hashes(home.Collected()),
                   old(store.View().Index()));
    r := Done(result);
  }

  lemma OneRunComposed(r: MemorySyncResult, run: RunResult, pushing: bool, dryRun: bool, force: bool,
          before: Files, after: Files, remote: Files)
    requires IsOneWay(run, pushing, dryRun, force, before, remote) && (pushing ==> after == before)
    requires r.direction == (if pushing then PushOnly else PullOnly) && r.dryRun == dryRun
    requires r.pull == (if pushing then None else Some(run)) && r.push == (if pushing then Some(run) else None)
    requires r.pulled == (if r.pull.Some? then r.pull.value.downloaded else 0)
    requires r.pushed == (if r.push.Some? then r.push.value.uploaded else 0)
    requires r.skipped == SumSkipped(r.pull, r.push)
    requires Elements(r.conflicts) == ConflictPaths(r.pull) + ConflictPaths(r.push)
    ensures HoldsRuns(r, if pushing then PushOnly else PullOnly, dryRun, force, before, after, remote)
    ensures OneWayReport(r, pushing, dryRun, force, before, remote)
  {
  }

  /** The parts of a result that belong together. */
  ghost predicate IsReport(r: MemorySyncResult) {
    Distinct(r.conflicts) && r.conflictCount == |r.conflicts| && (r.ok <==> r.conflicts == [])
  }

  method RunMemorySync(store: ObjectStore, home: Home, direction: Direction, force: bool, dryRun: bool)
      returns (r: Outcome<MemorySyncResult>)
    modifies store, home`files
    ensures dryRun ==> r.Done? && home.files == old(home.files) && store.View() == old(store.View())
    ensures r.Done? ==> IsStatus(r.value.statusBefore, Hashes(old(home.Collected())), old(store.View().Index()))
    ensures r.Done? ==> IsReport(r.value)
    ensures r.Done? ==>
      HoldsRuns(r.value, direction, dryRun, force, Hashes(old(home.Collected())), Hashes(home.Collected()),
                old(store.View().Index()))
    ensures dryRun && direction == Auto ==>
      ReportOf(r.value) == DryReport(Hashes(old(home.Collected())), old(store.View().Index()), force)
    ensures !dryRun && direction == Auto && r.Done? ==>
      EndsAt(old(home.files), home.scope, old(store.View()), force, home.files, store.View(), ReportOf(r.value))
    ensures direction == Auto && r.Done? ==>
      r.value.skipped == |Same(Hashes(old(home.Collected())), old(store.View().Index()))|
                         + |Same(Hashes(home.Collected()), old(store.View().Index()))|
    ensures direction != Auto && r.Done? ==>
      OneWayReport(r.value, direction == PushOnly, dryRun, force,
                   Hashes(old(home.Collected())), old(store.View().Index()))
    ensures direction == PushOnly ==> r.Done? && home.files == old(home.files)
    ensures direction == PushOnly && !dryRun ==>
      store.View() == PushBucket(old(store.View()), old(home.Collected()), force)
    ensures direction == PullOnly ==> store.View() == old(store.View())
    ensures direction == PullOnly && !dryRun ==>
      PullEnds(old(home.files), home.scope, old(store.View()), force, home.files,
               if r.Done? then Done(r.value.pulled) else Failed(r.path))
    ensures r.Failed? ==> store.View() == old(store.View())
  {
    var statusBefore := RunSyncStatus(store, home);
    if direction == Auto {
      r := AutoSync(store, home, statusBefore, force, dryRun);
    } else {
      r := OneWaySync(store, home, statusBefore, direction == PushOnly, force, dryRun);
    }
  }

  function ConflictPaths(run: Option<RunResult>): set<Path> {
    if run.None? then {} else Elements(Select(run.value.actions, Conflict))
  }

  method Compose(direction: Direction, dryRun: bool, statusBefore: Status, pull: Option<RunResult>,
          push: Option<RunResult>)
      returns (r: MemorySyncResult)
    ensures r.pulled == (if pull.Some? then pull.value.downloaded else 0)
    ensures r.pushed == (if push.Some? then push.value.uploaded else 0)
    ensures r.direction == direction && r.dryRun == dryRun && r.pull == pull && r.push == push
    ensures r.statusBefore == statusBefore && r.skipped == SumSkipped(pull, push)
    ensures Elements(r.conflicts) == ConflictPaths(pull) + ConflictPaths(push)
    ensures Distinct(r.conflicts) && r.conflictCount == |r.conflicts| && (r.ok <==> r.conflicts == [])
  {
    var conflicts := MergeConflicts(pull, push);
    BothConflicts(conflicts, pull, push);
    r := MemorySyncResult(
      |conflicts| == 0, direction, dryRun,
      if pull.Some? then pull.value.downloaded else 0,
      if push.Some? then push.value.uploaded else 0,
      SumSkipped(pull, push), conflicts, |conflicts|, statusBefore, pull, push);
  }

  lemma BothConflicts(paths: seq<Path>, pull: Option<RunResult>, push: Option<RunResult>)
    requires forall p :: p in paths <==>
      (pull.Some? && PlanEntry(p, Conflict) in pull.value.actions) ||
      (push.Some? && PlanEntry(p, Conflict) in push.value.actions)
    ensures Elements(paths) == ConflictPaths(pull) + ConflictPaths(push)
  {
    if pull.Some? { SelectMembers(pull.value.actions, Conflict); }
    if push.Some? { SelectMembers(push.value.actions, Conflict); }
    forall p ensures p in Elements(paths) <==> p in ConflictPaths(pull) || p in ConflictPaths(push) {
      assert p in Elements(paths) <==> p in paths;
    }
  }

  lemma ConflictsOfBoth(pull: Plan, push: Plan, before: Files, after: Files, remote: Files, force: bool)
    requires IsPullPlan(pull, before, remote, force) && IsPushPlan(push, after, remote, force)
    ensures Elements(Select(pull, Conflict)) == ConflictSet(before, remote, force)
    ensures Elements(Select(push, Conflict)) == ConflictSet(after, remote, force)
  {
    PullPlanLists(pull, before, remote, force);
    PushPlanLists(push, after, remote, force);
  }

  /** After a pull from a coherent bucket the push has the same uploads and conflicts ahead of it, except
      that nothing differs any more when the pull was forced. */
  lemma PushAfterPull(files: Tree, scope: Path -> bool, b: Bucket, force: bool, todo: seq<Path>)
    requires b.Coherent()
    requires Lists(todo, DownloadSet(Hashes(Restrict(files, scope)), b.Index(), force))
    ensures var before := Hashes(Restrict(files, scope));
      var after := Hashes(Restrict(Pulled(files, b.objects, b.Index(), todo).files, scope));
      && UploadSet(after, b.Index(), force) == OnlyIn(before, b.Index())
      && ConflictSet(after, b.Index(), force) == ConflictSet(before, b.Index(), force)
  {
    var st := Pulled(files, b.objects, b.Index(), todo);
    var before, after := Hashes(Restrict(files, scope)), Hashes(Restrict(st.files, scope));
    forall p | p in b.Index()
      ensures p in after && force ==> after[p] == b.Index()[p]
    {
      AfterPull(files, scope, b, force, todo, p);
    }
    CoherentPull(files, scope, b, force, todo);
    SecondPull(files, scope, b, force, todo);
  }

  /** Without force, on a coherent bucket, a dry run reports exactly what the real run then does, although
      the real push plans against the files the pull has changed. */
  lemma DryRunPredicts(files: Tree, scope: Path -> bool, b: Bucket, after: Tree, bucket: Bucket, report: Report)
    requires b.Coherent()
    requires EndsAt(files, scope, b, false, after, bucket, report)
    ensures report == DryReport(Hashes(Restrict(files, scope)), b.Index(), false)
  {
    var todo :| EndsVia(files, scope, b, false, after, bucket, report, todo);
    PushAfterPull(files, scope, b, false, todo);
    CoherentPull(files, scope, b, false, todo);
    var local := Hashes(Restrict(files, scope));
    assert UploadSet(local, b.Index(), false) == OnlyIn(local, b.Index());
  }

  /** With force, on a coherent bucket, the run ends without conflicts, remote contents win on overlap, the
      bucket is coherent, and the dry run over-counts the pushes by exactly the differing paths. */
  lemma ForcedRun(files: Tree, scope: Path -> bool, b: Bucket, after: Tree, bucket: Bucket, report: Report)
    requires b.Coherent()
    requires EndsAt(files, scope, b, true, after, bucket, report)
    ensures report.conflicts == {} && bucket.Coherent()
    ensures var dry := DryReport(Hashes(Restrict(files, scope)), b.Index(), true);
      && report.pulled == dry.pulled
      && dry.pushed == report.pushed + |Differing(Hashes(Restrict(files, scope)), b.Index())|
    ensures forall p <- b.Index() :: p in after && Sha256(after[p]) == b.Index()[p]
    ensures Hashes(Restrict(after, scope)) == bucket.Index() <==> forall p <- b.Index() :: scope(p)
  {
    var todo :| EndsVia(files, scope, b, true, after, bucket, report, todo);
    var before := Hashes(Restrict(files, scope));
    PushAfterPull(files, scope, b, true, todo);
    CoherentPull(files, scope, b, true, todo);
    PushKeepsCoherenceIff(b, Restrict(after, scope), true);
    UploadsSplit(before, b.Index());
    forall p | p in b.Index() ensures p in after && Sha256(after[p]) == b.Index()[p] {
      AfterPull(files, scope, b, true, todo, p);
    }
    MatchesIff(after, scope, b.Index(), bucket.Index());
  }

  /** After an unforced run from a coherent bucket every former conflict looks in sync, its object being the other
      machine's: a second run, forced or not, neither downloads nor uploads it nor reports a conflict, and leaves
      it as it is. */
  lemma RerunDoesNothing(files: Tree, scope: Path -> bool, b: Bucket, after: Tree, bucket: Bucket, report: Report,
          force: bool, p: Path)
    requires b.Coherent()
    requires EndsAt(files, scope, b, false, after, bucket, report)
    requires p in ConflictSet(Hashes(Restrict(files, scope)), b.Index(), false)
    ensures var local := Restrict(after, scope);
      && p in files && p in after && after[p] == files[p]
      && p in Same(Hashes(local), bucket.Index())
      && p !in DownloadSet(Hashes(local), bucket.Index(), force)
      && p !in UploadSet(Hashes(local), bucket.Index(), force)
      && p !in ConflictSet(Hashes(local), bucket.Index(), force)
      && p in bucket.Incoherent() && p in PushBucket(bucket, local, force).Incoherent()
  {
    var todo :| EndsVia(files, scope, b, false, after, bucket, report, todo);
    PushAfterPull(files, scope, b, false, todo);
    assert todo[..|todo|] == todo;
    PullSparesSkipsAndConflicts(files, scope, b, false, todo, |todo|, p);
    PushKeepsCoherenceIff(b, Restrict(after, scope), false);
    PushIsMasked(b, Restrict(after, scope), force);
  }

  /** Of a listed path whose object is another one than the manifest says, a push with force brings the local
      contents exactly when their hash is not the manifest's; a forced pull of it, and so a forced run in both
      directions, fails before that, unless the object is missing or the hash is not checked. */
  lemma ForceStillWorksIff(files: Tree, scope: Path -> bool, b: Bucket, todo: seq<Path>, p: Path)
    requires p in Restrict(files, scope) && p in b.Incoherent()
    requires Lists(todo, DownloadSet(Hashes(Restrict(files, scope)), b.Index(), true))
    ensures OnRemote(PushBucket(b, Restrict(files, scope), true), p, files[p]) <==>
      Sha256(files[p]) != b.Index()[p]
    ensures Sha256(files[p]) != b.Index()[p] && p in b.objects && b.Index()[p] != Text("") ==>
      Pulled(files, b.objects, b.Index(), todo).failed.Some?
  {
    ForceRepairsIff(b, Restrict(files, scope), p);
    PullCompletesIff(files, b, todo);
    assert p in todo <==> p in Elements(todo);
  }

  lemma UploadsSplit(local: Files, remote: Files)
    ensures |UploadSet(local, remote, true)| == |OnlyIn(local, remote)| + |Differing(local, remote)|
  {
    PartitionSize(OnlyIn(local, remote), Differing(local, remote), {}, UploadSet(local, remote, true));
  }

  lemma MatchesIff(after: Tree, scope: Path -> bool, base: Files, merged: Files)
    requires merged == base + Hashes(Restrict(after, scope))
    requires forall p <- base :: p in after && Sha256(after[p]) == base[p]
    ensures Hashes(Restrict(after, scope)) == merged <==> forall p <- base :: scope(p)
  {
  }

  /** On any bucket, the pull part of the prediction holds exactly when every planned path has an object
      that verification will accept. */
  lemma PullPredictionIff(files: Tree, scope: Path -> bool, b: Bucket, force: bool, todo: seq<Path>)
    requires Lists(todo, DownloadSet(Hashes(Restrict(files, scope)), b.Index(), force))
    ensures var local := Hashes(Restrict(files, scope));
      var st := Pulled(files, b.objects, b.Index(), todo);
      st.failed.None? && st.count == |DownloadSet(local, b.Index(), force)| <==>
      forall p <- DownloadSet(local, b.Index(), force) :: p in b.objects && Acceptable(b, p)
  {
    var planned := DownloadSet(Hashes(Restrict(files, scope)), b.Index(), force);
    assert forall p :: p in todo <==> p in Elements(todo);
    assert planned <= b.Index().Keys;
    PullCompletesIff(files, b, todo);
    if Pulled(files, b.objects, b.Index(), todo).failed.None? {
      PullCounts(files, b, todo);
      SameSizeIff(Arrived(b.objects, todo), planned);
    }
  }

  lemma SameSizeIff<T>(a: set<T>, b: set<T>)
    requires a <= b
    ensures |a| == |b| <==> forall x <- b :: x in a
  {
    if x :| x in b && x !in a {
      assert a <= b - {x};
      SubsetSize(a, b - {x});
    } else {
      assert a == b;
    }
  }

  // The conflict of two machines, and a run over it.

  /** One listed path whose object is `theirs`, and a vault that has `mine` for it. */
  function TheirBucket(p: Path, theirs: Bytes): Bucket {
    Bucket(map[p := theirs], Some(map[p := Sha256(theirs)]))
  }

  /** A push over one conflict puts a manifest that disagrees with the object; a forced dry run counts an upload
      the real run, which pulls first, does not make. */
  lemma OneConflict(p: Path, theirs: Bytes, mine: Bytes)
    requires theirs != mine
    ensures var b, local: Tree := TheirBucket(p, theirs), map[p := mine];
      && b.Coherent()
      && PushBucket(b, local, false) == Bucket(map[p := theirs], Some(map[p := Sha256(mine)]))
      && PushBucket(b, local, false).Incoherent() == {p}
      && DryReport(Hashes(local), b.Index(), true).pushed == 1
      && UploadSet(Hashes(map[p := theirs]), b.Index(), true) == {}
  {
    var b, local: Tree := TheirBucket(p, theirs), map[p := mine];
    assert UploadSet(Hashes(local), b.Index(), false) == {};
    assert UploadSet(Hashes(local), b.Index(), true) == {p};
    assert Uploaded(b.objects, local, {}) == b.objects;
    assert b.Index() + Hashes(local) == map[p := Sha256(mine)];
  }

  /** A path out of scope is planned for download although it was just downloaded. */
  lemma DownloadedAgain(p: Path, x: Bytes)
    ensures var b, nowhere: Path -> bool := TheirBucket(p, x), (q: Path) => false;
      && DownloadSet(Hashes(Restrict(map[], nowhere)), b.Index(), false) == {p}
      && Pulled(map[], b.objects, b.Index(), [p]) == PullState(map[p := x], 1, None)
      && DownloadSet(Hashes(Restrict(map[p := x], nowhere)), b.Index(), false) == {p}
  {
    assert [p][..0] == [];
    var none: Tree := map[];
    assert none[p := x] == map[p := x];
    assert Pulled(none, map[p := x], map[p := Sha256(x)], []) == PullState(none, 0, None);
  }
}
