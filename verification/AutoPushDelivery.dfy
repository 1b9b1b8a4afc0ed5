/** What auto-pushes bring to the remote: which ingested contents get there, which are stranded, and which the
    pushes leave behind. */
module AutoPushDelivery {
  import opened Collections
  import opened SyncTypes
  import opened SyncEngine
  import opened SyncTheorems
  import opened AutoPush

  // After a success, everything ingested was collected by it or came too late for it.

  function AfterPush(push: Push): Bucket { PushBucket(push.before, push.snapshot, false) }

  ghost predicate WriteInv(w: World) {
    && (forall p <- w.ingested :: Holds(w.vault, p, w.ingested[p]))
    && (forall p <- w.stranded :: p in w.ingested && w.last.Some? && !Holds(w.last.value.snapshot, p, w.ingested[p]))
    && (!w.sched.dirty ==>
        forall p <- w.ingested :: p !in w.stranded ==> w.last.Some? && Holds(w.last.value.snapshot, p, w.ingested[p]))
  }

  lemma StepKeepsWrites(c: Config, w: World, step: Step)
    requires c.enabled && Enabled(w, step) && WriteInv(w)
    ensures WriteInv(Do(c, w, step))
  {
  }

  lemma {:induction false} RunsKeepWrites(c: Config, worlds: seq<World>, steps: seq<Step>, i: nat)
    requires c.enabled && IsRun(c, worlds, steps) && StartsFresh(worlds[0]) && i <= |steps|
    ensures FlightInv(worlds[i]) && WriteInv(worlds[i])
  {
    if i == 0 {
    } else {
      RunsKeepWrites(c, worlds, steps, i - 1);
      StepKeepsFlight(c, worlds[i - 1], steps[i - 1]);
      StepKeepsWrites(c, worlds[i - 1], steps[i - 1]);
    }
  }

  /** When nothing is dirty, every ingested path is stranded, or the last successful push collected it as it
      is; and that push then brought it to the remote unless it left it behind. */
  lemma NoLostWrite(c: Config, worlds: seq<World>, steps: seq<Step>, i: nat, p: Path)
    requires c.enabled && IsRun(c, worlds, steps) && StartsFresh(worlds[0]) && i <= |steps|
    requires p in worlds[i].ingested
    ensures worlds[i].sched.dirty ==> worlds[i].sched.timer.Some? || worlds[i].flight.Some? || worlds[i].lastFailed
    ensures !worlds[i].sched.dirty && p !in worlds[i].stranded ==>
      && worlds[i].last.Some?
      && var last := worlds[i].last.value;
      && Holds(last.snapshot, p, worlds[i].ingested[p])
      && (OnRemote(AfterPush(last), p, worlds[i].ingested[p]) <==> p !in LeftBehind(last.before, last.snapshot, false))
  {
    RunsKeepWrites(c, worlds, steps, i);
    if !worlds[i].sched.dirty && p !in worlds[i].stranded {
      var last := worlds[i].last.value;
      PushDeliversIff(last.before, last.snapshot, false, p);
    }
  }

  // The window in which an ingest is stranded.

  /** The path's contents at step `k` were not yet there at the snapshot at step `a`, were ingested at step `k`,
      before the push of that snapshot succeeded at step `b`, the last success so far, and have not changed since. */
  ghost predicate InWindow(worlds: seq<World>, steps: seq<Step>, i: nat, p: Path, a: nat, k: nat, b: nat)
    requires |worlds| == |steps| + 1 && i <= |steps|
  {
    && a < k < b < i
    && steps[a] == Snapshot && (forall q :: a < q < b ==> steps[q] != Snapshot)
    && steps[k] == Ingest(p) && Kept(worlds, p, k, i)
    && p in worlds[k].vault && !Holds(worlds[a].vault, p, worlds[k].vault[p])
    && steps[b] == Succeed && (forall q :: b < q < i ==> steps[q] != Succeed)
  }

  /** The path keeps its contents from step `k` to step `i`. */
  ghost predicate Kept(worlds: seq<World>, p: Path, k: nat, i: nat) {
    && k <= i < |worlds| && p in worlds[k].vault
    && forall q :: k <= q <= i ==> Holds(worlds[q].vault, p, worlds[k].vault[p])
  }

  lemma KeptAt(worlds: seq<World>, p: Path, k: nat, i: nat, q: nat)
    requires Kept(worlds, p, k, i) && k <= q <= i
    ensures Holds(worlds[q].vault, p, worlds[k].vault[p])
  {
  }

  lemma KeptNext(worlds: seq<World>, p: Path, k: nat, i: nat)
    requires k < i < |worlds| && p in worlds[k].vault
    requires k == i - 1 || Kept(worlds, p, k, i - 1)
    requires Holds(worlds[i].vault, p, worlds[k].vault[p])
    ensures Kept(worlds, p, k, i)
  {
  }

  lemma JustIngested(c: Config, w: World, p: Path)
    requires Enabled(w, Ingest(p)) && p in Late(Do(c, w, Ingest(p)))
    ensures HasSnapshot(w) && SnapshotOf(w) == SnapshotOf(Do(c, w, Ingest(p)))
    ensures Do(c, w, Ingest(p)).ingested[p] == w.vault[p]
  {
  }

  lemma KeptOn(worlds: seq<World>, p: Path, k: nat, b: nat, i: nat)
    requires Kept(worlds, p, k, b) && Kept(worlds, p, b, i)
    ensures Kept(worlds, p, k, i)
  {
  }

  /** One step back from an ingested path that this step did not ingest. */
  lemma IngestedBefore(c: Config, w: World, step: Step, p: Path)
    requires Enabled(w, step) && p in Do(c, w, step).ingested && step != Ingest(p)
    ensures p in w.ingested && w.ingested[p] == Do(c, w, step).ingested[p]
  {
  }

  lemma VaultHolds(c: Config, worlds: seq<World>, steps: seq<Step>, i: nat, p: Path)
    requires c.enabled && IsRun(c, worlds, steps) && StartsFresh(worlds[0]) && i <= |steps|
    requires p in worlds[i].ingested
    ensures Holds(worlds[i].vault, p, worlds[i].ingested[p])
  {
    RunsKeepWrites(c, worlds, steps, i);
  }

  lemma SnapshotBefore(c: Config, w: World, step: Step)
    requires Enabled(w, step) && HasSnapshot(Do(c, w, step))
    ensures if step == Snapshot then SnapshotOf(Do(c, w, step)) == w.vault
      else HasSnapshot(w) && SnapshotOf(w) == SnapshotOf(Do(c, w, step))
  {
  }

  lemma LateStepBack(c: Config, worlds: seq<World>, steps: seq<Step>, i: nat, p: Path)
    requires c.enabled && IsRun(c, worlds, steps) && StartsFresh(worlds[0]) && 0 < i <= |steps|
    requires p in Late(worlds[i]) && steps[i - 1] != Ingest(p)
    ensures p in Late(worlds[i - 1]) && worlds[i - 1].ingested[p] == worlds[i].ingested[p]
    ensures steps[i - 1] != Snapshot && SnapshotOf(worlds[i - 1]) == SnapshotOf(worlds[i])
  {
    IngestedBefore(c, worlds[i - 1], steps[i - 1], p);
    SnapshotBefore(c, worlds[i - 1], steps[i - 1]);
    VaultHolds(c, worlds, steps, i - 1, p);
  }

  lemma {:induction false} SnapshotStep(c: Config, worlds: seq<World>, steps: seq<Step>, i: nat) returns (a: nat)
    requires IsRun(c, worlds, steps) && worlds[0].flight.None? && i <= |steps|
    requires HasSnapshot(worlds[i])
    ensures a < i && steps[a] == Snapshot && (forall q :: a < q < i ==> steps[q] != Snapshot)
    ensures SnapshotOf(worlds[i]) == worlds[a].vault
  {
    if steps[i - 1] == Snapshot {
      a := i - 1;
    } else {
      SnapshotBefore(c, worlds[i - 1], steps[i - 1]);
      a := SnapshotStep(c, worlds, steps, i - 1);
    }
  }

  lemma LateNow(c: Config, worlds: seq<World>, steps: seq<Step>, i: nat, p: Path) returns (a: nat)
    requires IsRun(c, worlds, steps) && worlds[0].flight.None? && 0 < i <= |steps|
    requires p in Late(worlds[i]) && steps[i - 1] == Ingest(p)
    ensures a < i - 1 && steps[a] == Snapshot && (forall q :: a < q < i ==> steps[q] != Snapshot)
    ensures SnapshotOf(worlds[i]) == worlds[a].vault
    ensures p in worlds[i - 1].vault && worlds[i - 1].vault[p] == worlds[i].ingested[p]
  {
    JustIngested(c, worlds[i - 1], p);
    a := SnapshotStep(c, worlds, steps, i - 1);
  }

  lemma {:induction false} LateArrival(c: Config, worlds: seq<World>, steps: seq<Step>, i: nat, p: Path)
      returns (a: nat, k: nat)
    requires c.enabled && IsRun(c, worlds, steps) && StartsFresh(worlds[0]) && i <= |steps|
    requires p in Late(worlds[i])
    ensures a < k < i && steps[a] == Snapshot && (forall q :: a < q < i ==> steps[q] != Snapshot)
    ensures SnapshotOf(worlds[i]) == worlds[a].vault
    ensures steps[k] == Ingest(p) && Kept(worlds, p, k, i) && worlds[k].vault[p] == worlds[i].ingested[p]
  {
    VaultHolds(c, worlds, steps, i, p);
    if steps[i - 1] == Ingest(p) {
      a := LateNow(c, worlds, steps, i, p);
      k := i - 1;
    } else {
      LateStepBack(c, worlds, steps, i, p);
      a, k := LateArrival(c, worlds, steps, i - 1, p);
    }
    KeptNext(worlds, p, k, i);
  }

  lemma StrandedBefore(c: Config, w: World, step: Step, p: Path)
    requires Enabled(w, step) && p in Do(c, w, step).stranded && step != Succeed
    ensures p in w.stranded && (p in w.ingested ==> p in Do(c, w, step).ingested)
  {
  }

  lemma StrandedIngested(c: Config, worlds: seq<World>, steps: seq<Step>, i: nat, p: Path)
    requires c.enabled && IsRun(c, worlds, steps) && StartsFresh(worlds[0]) && i <= |steps|
    requires p in worlds[i].stranded
    ensures p in worlds[i].ingested && Holds(worlds[i].vault, p, worlds[i].ingested[p])
  {
    RunsKeepWrites(c, worlds, steps, i);
  }

  lemma StrandedStepBack(c: Config, worlds: seq<World>, steps: seq<Step>, i: nat, p: Path)
    requires c.enabled && IsRun(c, worlds, steps) && StartsFresh(worlds[0]) && 0 < i <= |steps|
    requires p in worlds[i].stranded && steps[i - 1] != Succeed
    ensures p in worlds[i - 1].stranded && p in worlds[i - 1].ingested
    ensures p in worlds[i].ingested && worlds[i - 1].ingested[p] == worlds[i].ingested[p]
  {
    var w := worlds[i - 1];
    StrandedBefore(c, w, steps[i - 1], p);
    StrandedIngested(c, worlds, steps, i - 1, p);
    if steps[i - 1] == Ingest(p) {
      assert worlds[i].ingested == w.ingested[p := w.vault[p]];
    } else {
      IngestedBefore(c, w, steps[i - 1], p);
    }
  }

  lemma JustStranded(c: Config, w: World, p: Path)
    requires Enabled(w, Succeed) && p in Do(c, w, Succeed).stranded
    ensures p in Late(w) && Do(c, w, Succeed).ingested == w.ingested && Do(c, w, Succeed).vault == w.vault
  {
  }

  lemma {:induction false} LastSuccess(c: Config, worlds: seq<World>, steps: seq<Step>, i: nat, p: Path)
      returns (b: nat)
    requires c.enabled && IsRun(c, worlds, steps) && StartsFresh(worlds[0]) && i <= |steps|
    requires p in worlds[i].stranded
    ensures b < i && steps[b] == Succeed && (forall q :: b < q < i ==> steps[q] != Succeed)
    ensures p in Late(worlds[b]) && p in worlds[i].ingested && worlds[i].ingested[p] == worlds[b].ingested[p]
    ensures Kept(worlds, p, b, i) && worlds[b].vault[p] == worlds[b].ingested[p]
  {
    StrandedIngested(c, worlds, steps, i, p);
    if steps[i - 1] == Succeed {
      b := i - 1;
      JustStranded(c, worlds[b], p);
      VaultHolds(c, worlds, steps, b, p);
    } else {
      StrandedStepBack(c, worlds, steps, i, p);
      b := LastSuccess(c, worlds, steps, i - 1, p);
    }
    KeptNext(worlds, p, b, i);
  }

  /** Contents that do not change stay ingested. */
  lemma {:induction false} StaysIngested(c: Config, worlds: seq<World>, steps: seq<Step>, k: nat, i: nat, p: Path)
    requires IsRun(c, worlds, steps) && k < i <= |steps| && steps[k] == Ingest(p) && Kept(worlds, p, k, i)
    ensures p in worlds[i].ingested && worlds[i].ingested[p] == worlds[k].vault[p]
    decreases i
  {
    if i == k + 1 {
      assert worlds[i] == Do(c, worlds[k], steps[k]);
    } else {
      StaysIngested(c, worlds, steps, k, i - 1, p);
      KeptAt(worlds, p, k, i, i);
      KeptAt(worlds, p, k, i, i - 1);
      UnchangedStep(c, worlds[i - 1], steps[i - 1], p);
    }
  }

  lemma UnchangedStep(c: Config, w: World, step: Step, p: Path)
    requires Enabled(w, step) && p in w.ingested && Holds(w.vault, p, w.ingested[p])
    requires Holds(Do(c, w, step).vault, p, w.ingested[p])
    ensures p in Do(c, w, step).ingested && Do(c, w, step).ingested[p] == w.ingested[p]
    ensures step != Succeed && p in w.stranded ==> p in Do(c, w, step).stranded
  {
  }

  lemma {:induction false} StaysStranded(c: Config, worlds: seq<World>, steps: seq<Step>, q: nat, i: nat, p: Path)
    requires IsRun(c, worlds, steps) && q <= i <= |steps| && Kept(worlds, p, q, i)
    requires p in worlds[q].stranded && p in worlds[q].ingested && worlds[q].ingested[p] == worlds[q].vault[p]
    requires forall r :: q <= r < i ==> steps[r] != Succeed
    ensures p in worlds[i].stranded && p in worlds[i].ingested && worlds[i].ingested[p] == worlds[q].vault[p]
    decreases i
  {
    if i == q {
    } else {
      StaysStranded(c, worlds, steps, q, i - 1, p);
      KeptAt(worlds, p, q, i, i);
      KeptAt(worlds, p, q, i, i - 1);
      UnchangedStep(c, worlds[i - 1], steps[i - 1], p);
    }
  }

  /** Inside the window the snapshot stays the one taken at `a`. */
  lemma {:induction false} WindowSnapshot(c: Config, worlds: seq<World>, steps: seq<Step>, a: nat, b: nat)
    requires IsRun(c, worlds, steps) && worlds[0].flight.None? && a < b < |steps|
    requires steps[a] == Snapshot && steps[b] == Succeed
    requires forall r :: a < r < b ==> steps[r] != Snapshot
    ensures SnapshotOf(worlds[b]) == worlds[a].vault
  {
    var last := SnapshotStep(c, worlds, steps, b);
    assert last == a;
  }

  /** A path is stranded exactly when its contents were written and ingested between the snapshot and the
      success of the last successful push, and are still the same: the success clears the dirty flag the ingest
      had just set. */
  lemma StrandedIffInWindow(c: Config, worlds: seq<World>, steps: seq<Step>, i: nat, p: Path)
    requires c.enabled && IsRun(c, worlds, steps) && StartsFresh(worlds[0]) && i <= |steps|
    ensures p in worlds[i].stranded <==> exists a: nat, k: nat, b: nat :: InWindow(worlds, steps, i, p, a, k, b)
  {
    if p in worlds[i].stranded {
      var b := LastSuccess(c, worlds, steps, i, p);
      var a, k := LateArrival(c, worlds, steps, b, p);
      KeptOn(worlds, p, k, b, i);
      assert InWindow(worlds, steps, i, p, a, k, b);
    }
    if a: nat, k: nat, b: nat :| InWindow(worlds, steps, i, p, a, k, b) {
      WindowSnapshot(c, worlds, steps, a, b);
      StaysIngested(c, worlds, steps, k, b, p);
      assert p in Late(worlds[b]) && worlds[b + 1] == Pushed(worlds[b]);
      StaysStranded(c, worlds, steps, b + 1, i, p);
    }
  }

  // What one success brings.

  /** After a success ingested contents are on the remote exactly when the push collected them and did not
      leave them behind, or they came too late for a push that collected nothing at their path and had been
      there before. */
  lemma SuccessDeliversIff(w: World, p: Path)
    requires HasSnapshot(w) && p in w.ingested
    ensures OnRemote(Pushed(w).bucket, p, w.ingested[p]) <==>
      if p in Late(w) then p !in SnapshotOf(w) && OnRemote(w.bucket, p, w.ingested[p])
      else p !in LeftBehind(w.bucket, SnapshotOf(w), false)
  {
    if p in SnapshotOf(w) {
      PushDeliversIff(w.bucket, SnapshotOf(w), false, p);
    }
  }

  // Runs in which nobody else changes the bucket.

  ghost predicate Alone(steps: seq<Step>) { forall q :: 0 <= q < |steps| ==> !steps[q].Others? }

  ghost predicate ConflictFree(worlds: seq<World>, steps: seq<Step>)
    requires |worlds| == |steps| + 1
  {
    forall q :: 0 <= q < |steps| && steps[q] == Succeed && HasSnapshot(worlds[q]) ==>
      ConflictSet(Hashes(SnapshotOf(worlds[q])), worlds[q].bucket.Index(), false) == {}
  }

  /** The last success left nothing behind, and what it brought is still there. */
  ghost predicate AllBrought(w: World) {
    && w.bucket.Coherent()
    && (w.last.Some? ==> forall p <- w.last.value.snapshot :: OnRemote(w.bucket, p, w.last.value.snapshot[p]))
  }

  lemma StepKeepsBrought(c: Config, w: World, step: Step)
    requires Enabled(w, step) && !step.Others? && AllBrought(w)
    requires step == Succeed ==> ConflictSet(Hashes(SnapshotOf(w)), w.bucket.Index(), false) == {}
    ensures AllBrought(Do(c, w, step))
  {
    match step
    case Succeed =>
      var s := SnapshotOf(w);
      PushKeepsCoherenceIff(w.bucket, s, false);
      NothingLeftBehindIff(w.bucket, s, false);
      forall p | p in s ensures OnRemote(Pushed(w).bucket, p, s[p]) {
        PushDeliversIff(w.bucket, s, false, p);
      }
    case Fail(done) => if HasSnapshot(w) { FailKeepsBrought(w, done); }
    case _ =>
  }

  lemma FailKeepsBrought(w: World, done: set<Path>)
    requires HasSnapshot(w) && Enabled(w, Fail(done)) && AllBrought(w)
    ensures var b := CutOff(w.bucket, SnapshotOf(w), done);
      && b.Coherent()
      && (w.last.Some? ==> forall p <- w.last.value.snapshot :: OnRemote(b, p, w.last.value.snapshot[p]))
  {
    CutOffPush(w.bucket, SnapshotOf(w), false, done);
    if w.last.Some? {
      forall p | p in w.last.value.snapshot
        ensures OnRemote(CutOff(w.bucket, SnapshotOf(w), done), p, w.last.value.snapshot[p])
      {
        assert OnRemote(w.bucket, p, w.last.value.snapshot[p]);
        ListedObjectsStay(w.bucket, SnapshotOf(w), done, p);
      }
    }
  }

  /** In a run alone on a coherent bucket whose pushes have no conflicts, each ingested write is on the remote,
      or dirty is set, or it is stranded. */
  lemma {:induction false} ConflictFreeDelivers(c: Config, worlds: seq<World>, steps: seq<Step>, i: nat)
    requires c.enabled && IsRun(c, worlds, steps) && StartsFresh(worlds[0]) && i <= |steps|
    requires Alone(steps) && ConflictFree(worlds, steps) && worlds[0].bucket.Coherent()
    ensures AllBrought(worlds[i])
    ensures forall p <- worlds[i].ingested ::
      worlds[i].sched.dirty || p in worlds[i].stranded || OnRemote(worlds[i].bucket, p, worlds[i].ingested[p])
  {
    if i == 0 {
    } else {
      ConflictFreeDelivers(c, worlds, steps, i - 1);
      StepKeepsBrought(c, worlds[i - 1], steps[i - 1]);
    }
    RunsKeepWrites(c, worlds, steps, i);
  }

  lemma ListedStep(c: Config, w: World, step: Step, p: Path)
    requires Enabled(w, step) && p in w.bucket.Index()
    requires step.Others? ==> p in step.bucket.Index() && SameObject(w.bucket, step.bucket, p)
    ensures p in Do(c, w, step).bucket.Index() && SameObject(w.bucket, Do(c, w, step).bucket, p)
  {
    match step
    case Succeed => ListedObjectsStay(w.bucket, SnapshotOf(w), {}, p);
    case Fail(done) => if HasSnapshot(w) { ListedObjectsStay(w.bucket, SnapshotOf(w), done, p); }
    case _ =>
  }

  /** No other machine unlists the path or puts another object there; their unforced pushes do neither
      (`ListedObjectsStay`). */
  ghost predicate OthersLeave(worlds: seq<World>, steps: seq<Step>, p: Path)
    requires |worlds| == |steps| + 1
  {
    forall q :: 0 <= q < |steps| && steps[q].Others? && p in worlds[q].bucket.Index() ==>
      p in steps[q].bucket.Index() && SameObject(worlds[q].bucket, steps[q].bucket, p)
  }

  /** Once a path is listed no auto-push changes its object again: the remote never gets other contents than
      those it had, and a changed note is a conflict for its own author. */
  lemma {:induction false} ListedPathsAreFrozen(c: Config, worlds: seq<World>, steps: seq<Step>, i: nat, j: nat,
          p: Path, body: Bytes)
    requires IsRun(c, worlds, steps) && OthersLeave(worlds, steps, p)
    requires i <= j <= |steps| && p in worlds[i].bucket.Index()
    ensures p in worlds[j].bucket.Index() && SameObject(worlds[i].bucket, worlds[j].bucket, p)
    ensures OnRemote(worlds[j].bucket, p, body) ==> p in worlds[i].bucket.objects && worlds[i].bucket.objects[p] == body
    decreases j
  {
    if i == j {
    } else {
      ListedPathsAreFrozen(c, worlds, steps, i, j - 1, p, body);
      ListedStep(c, worlds[j - 1], steps[j - 1], p);
    }
  }

  /** What a push leaves behind no later auto-push brings, however often the same contents are pushed again. */
  lemma LeftBehindStays(c: Config, worlds: seq<World>, steps: seq<Step>, b: nat, j: nat, p: Path)
    requires IsRun(c, worlds, steps) && OthersLeave(worlds, steps, p) && b < j <= |steps| && steps[b] == Succeed
    requires p in LeftBehind(worlds[b].bucket, SnapshotOf(worlds[b]), false)
    ensures p in SnapshotOf(worlds[b]) && !OnRemote(worlds[j].bucket, p, SnapshotOf(worlds[b])[p])
  {
    var s := SnapshotOf(worlds[b]);
    assert worlds[b + 1] == Pushed(worlds[b]);
    PushDeliversIff(worlds[b].bucket, s, false, p);
    ListedPathsAreFrozen(c, worlds, steps, b + 1, j, p, s[p]);
  }

  /** Without a further ingest no timer and no flush pushes anything: what is stranded or left behind stays so. */
  lemma {:induction false} NothingPushesStranded(c: Config, worlds: seq<World>, steps: seq<Step>, i: nat)
    requires c.enabled && IsRun(c, worlds, steps) && i <= |steps|
    requires FlightInv(worlds[0]) && !worlds[0].sched.dirty
    requires forall q :: 0 <= q < |steps| ==> !steps[q].Ingest?
    ensures Quiet(worlds[0], worlds[i]) && (Alone(steps) ==> worlds[i].bucket == worlds[0].bucket)
  {
    if i == 0 {
    } else {
      NothingPushesStranded(c, worlds, steps, i - 1);
      QuietStep(c, worlds[0], worlds[i - 1], steps[i - 1]);
    }
  }

  /** Nothing is dirty or in flight, and no push has succeeded since `first`. */
  ghost predicate Quiet(first: World, w: World) {
    !w.sched.dirty && w.flight.None? && w.last == first.last && w.log == first.log
  }

  lemma QuietStep(c: Config, first: World, w: World, step: Step)
    requires Enabled(w, step) && Quiet(first, w) && !step.Ingest?
    ensures Quiet(first, Do(c, w, step)) && (!step.Others? ==> Do(c, w, step).bucket == w.bucket)
  {
  }

  // What a flush achieves.

  /** A push in flight stays until it settles, and a snapshot once taken stays or, taken later, is of the files
      of that time. */
  lemma {:induction false} FlightKept(c: Config, worlds: seq<World>, steps: seq<Step>, q: nat, b: nat, p: Path)
    requires IsRun(c, worlds, steps) && q <= b <= |steps| && worlds[q].flight.Some? && worlds[q].sched.inFlight
    requires forall r :: q <= r < b ==> !steps[r].Succeed? && !steps[r].Fail?
    requires Kept(worlds, p, q, b)
    ensures worlds[b].flight.Some? && worlds[b].sched.inFlight
    ensures HasSnapshot(worlds[q]) ==> HasSnapshot(worlds[b]) && SnapshotOf(worlds[b]) == SnapshotOf(worlds[q])
    ensures !HasSnapshot(worlds[q]) && HasSnapshot(worlds[b]) ==> Holds(SnapshotOf(worlds[b]), p, worlds[q].vault[p])
    decreases b
  {
    if q == b {
    } else {
      FlightKept(c, worlds, steps, q, b - 1, p);
      KeptAt(worlds, p, q, b, b - 1);
      FlightStep(c, worlds[b - 1], steps[b - 1]);
    }
  }

  lemma FlightStep(c: Config, w: World, step: Step)
    requires Enabled(w, step) && w.flight.Some? && w.sched.inFlight && !step.Succeed? && !step.Fail?
    ensures var v := Do(c, w, step);
      && v.flight.Some? && v.sched.inFlight
      && (HasSnapshot(w) ==> HasSnapshot(v) && SnapshotOf(v) == SnapshotOf(w))
      && (!HasSnapshot(w) && HasSnapshot(v) ==> SnapshotOf(v) == w.vault)
  {
  }

  lemma {:induction false} IngestedKept(c: Config, worlds: seq<World>, steps: seq<Step>, q: nat, b: nat, p: Path)
    requires IsRun(c, worlds, steps) && q <= b <= |steps| && Kept(worlds, p, q, b)
    requires p in worlds[q].ingested && worlds[q].ingested[p] == worlds[q].vault[p]
    ensures p in worlds[b].ingested && worlds[b].ingested[p] == worlds[q].vault[p]
    decreases b
  {
    if q == b {
    } else {
      IngestedKept(c, worlds, steps, q, b - 1, p);
      KeptAt(worlds, p, q, b, b);
      KeptAt(worlds, p, q, b, b - 1);
      UnchangedStep(c, worlds[b - 1], steps[b - 1], p);
    }
  }

  /** A flush of a dirty scheduler, and the success of the push then in flight: a path ingested at the call and
      unchanged since is on the remote exactly when it was not late for a push already past its snapshot and the
      push did not leave it behind, or it was there before. So a flush that starts the push, or finds one that has
      not read its files yet, is in time for everything ingested; one that finds a later push only cancels the
      timer. */
  lemma FlushDeliversIff(c: Config, worlds: seq<World>, steps: seq<Step>, i: nat, b: nat, p: Path)
    requires c.enabled && IsRun(c, worlds, steps) && StartsFresh(worlds[0]) && i < b < |steps|
    requires steps[i] == Flush && worlds[i].sched.dirty && steps[b] == Succeed
    requires forall q :: i < q < b ==> !steps[q].Succeed? && !steps[q].Fail?
    requires p in worlds[i].ingested && Kept(worlds, p, i, b)
    ensures var body, s := worlds[i].ingested[p], SnapshotOf(worlds[b]);
      OnRemote(worlds[b + 1].bucket, p, body) <==>
        if p in Late(worlds[i]) then p !in s && OnRemote(worlds[b].bucket, p, body)
        else p !in LeftBehind(worlds[b].bucket, s, false)
    ensures worlds[i].flight.Some? ==> worlds[i + 1].flight == worlds[i].flight && worlds[i + 1].sched.timer.None?
    ensures worlds[i].flight.None? ==> worlds[i + 1].flight == Some(Flight(true, worlds[i].now, None))
  {
    RunsKeepWrites(c, worlds, steps, i);
    var w := worlds[i];
    assert worlds[i + 1] == Do(c, w, Flush);
    assert Holds(w.vault, p, w.ingested[p]);
    assert Kept(worlds, p, i + 1, b);
    FlightKept(c, worlds, steps, i + 1, b, p);
    IngestedKept(c, worlds, steps, i + 1, b, p);
    assert p in Late(worlds[b]) <==> p in Late(w);
    assert worlds[b + 1] == Pushed(worlds[b]);
    SuccessDeliversIff(worlds[b], p);
  }

  // Two concrete runs, of a scheduler with a debounce of 2 and an interval of 3.

  const SMALL := Config(true, 2, 3)

  const NOTHING_STORED := Bucket(map[], None)

  function Stored(p: Path, x: Bytes, hashed: Bytes): Bucket { Bucket(map[p := x], Some(map[p := Sha256(hashed)])) }

  /** A note is written, ingested, and collected by a flush. */
  function Collecting(p: Path, x: Bytes, i: nat): World {
    var v: Tree := map[p := x];
    var w := Initial(10, map[], NOTHING_STORED);
    if i == 0 then w
    else if i == 1 then w.(vault := v)
    else if i == 2 then w.(vault := v, ingested := v, sched := Sched(Some(12), false, true, 0))
    else if i == 3 then
      w.(vault := v, ingested := v, sched := Sched(None, true, true, 0), flight := Some(Flight(true, 10, None)))
    else
      w.(vault := v, ingested := v, sched := Sched(None, true, true, 0), flight := Some(Flight(true, 10, Some(v))))
  }

  ghost predicate Leads(w: World, step: Step, v: World) { Enabled(w, step) && Do(SMALL, w, step) == v }

  /** The worlds of a run given one by one. */
  lemma StagesAreRun(stage: nat -> World, steps: seq<Step>) returns (worlds: seq<World>)
    requires forall i: nat :: i < |steps| ==> Leads(stage(i), steps[i], stage(i + 1))
    ensures IsRun(SMALL, worlds, steps) && worlds[0] == stage(0) && worlds[|steps|] == stage(|steps|)
  {
    worlds := seq(|steps| + 1, i requires 0 <= i < |steps| + 1 => stage(i));
    forall i | 0 <= i < |steps|
      ensures Enabled(worlds[i], steps[i]) && worlds[i + 1] == Do(SMALL, worlds[i], steps[i])
    {
      assert Leads(stage(i), steps[i], stage(i + 1));
    }
  }

  function CollectingStep(p: Path, x: Bytes, i: nat): Step {
    if i == 0 then WriteFile(p, x) else if i == 1 then Ingest(p) else if i == 2 then Flush else Snapshot
  }

  lemma CollectingLeads(p: Path, x: Bytes, i: nat)
    requires i < 4
    ensures Leads(Collecting(p, x, i), CollectingStep(p, x, i), Collecting(p, x, i + 1))
  {
    var none: Tree := map[];
    assert none[p := x] == map[p := x] && none - {p} == none;
    assert Changed(Collecting(p, x, 0), p) == Collecting(p, x, 0);
  }

  /** A second note arrives before the push of the first succeeds. */
  function Stranding(p: Path, x: Bytes, q: Path, y: Bytes, i: nat): World {
    var w, v: Tree, both: Tree := Collecting(p, x, 4), map[p := x], map[p := x, q := y];
    if i <= 4 then Collecting(p, x, i)
    else if i == 5 then w.(vault := both)
    else if i == 6 then w.(vault := both, ingested := both, sched := Sched(Some(12), true, true, 0))
    else
      World(10, Sched(Some(12), false, false, 10), None, both, both, Stored(p, x, x), {q},
            Some(Push(v, NOTHING_STORED)), false, [Completion(10, true)])
  }

  lemma FirstPush(p: Path, x: Bytes)
    ensures PushBucket(NOTHING_STORED, map[p := x], false) == Stored(p, x, x)
  {
    assert UploadSet(Hashes(map[p := x]), map[], false) == {p};
    var none: Tree := map[];
    assert none + (map r | r in {p} && r in map[p := x] :: map[p := x][r]) == map[p := x];
    var nothing: Files := map[];
    assert nothing + Hashes(map[p := x]) == map[p := Sha256(x)];
  }

  function StrandingStep(p: Path, x: Bytes, q: Path, y: Bytes, i: nat): Step {
    if i < 4 then CollectingStep(p, x, i) else if i == 4 then WriteFile(q, y) else if i == 5 then Ingest(q) else Succeed
  }

  lemma StrandingLeads(p: Path, x: Bytes, q: Path, y: Bytes, i: nat)
    requires p != q && 4 <= i < 7
    ensures Leads(Stranding(p, x, q, y, i), StrandingStep(p, x, q, y, i), Stranding(p, x, q, y, i + 1))
  {
    var v: Tree := map[p := x];
    assert v[q := y] == map[p := x, q := y] && v - {q} == v;
    FirstPush(p, x);
    assert Late(Stranding(p, x, q, y, 6)) == {q};
  }

  /** The run ends idle and clean, with an ingested note missing from the remote. */
  lemma StrandedRun(p: Path, x: Bytes, q: Path, y: Bytes) returns (worlds: seq<World>, steps: seq<Step>)
    requires p != q
    ensures IsRun(SMALL, worlds, steps) && |steps| == 7 && worlds[0] == Initial(10, map[], NOTHING_STORED)
    ensures var w := worlds[7];
      !w.sched.dirty && w.flight.None? && q in w.ingested && !OnRemote(w.bucket, q, w.ingested[q])
  {
    steps := seq(7, i requires 0 <= i < 7 => StrandingStep(p, x, q, y, i));
    var stage := (i: nat) => Stranding(p, x, q, y, i);
    forall i: nat | i < 7 ensures Leads(stage(i), steps[i], stage(i + 1)) {
      if i < 4 { CollectingLeads(p, x, i); } else { StrandingLeads(p, x, q, y, i); }
    }
    worlds := StagesAreRun(stage, steps);
  }

  /** The note is pushed, changed, ingested and pushed again. */
  function Changing(p: Path, x: Bytes, y: Bytes, i: nat): World {
    var v: Tree, u: Tree := map[p := x], map[p := y];
    var first := World(10, Sched(None, false, false, 10), None, v, v, Stored(p, x, x), {},
                       Some(Push(v, NOTHING_STORED)), false, [Completion(10, true)]);
    if i <= 4 then Collecting(p, x, i)
    else if i == 5 then first
    else if i == 6 then first.(vault := u, ingested := map[])
    else if i == 7 then first.(vault := u, ingested := u, sched := Sched(Some(12), false, true, 10))
    else if i == 8 then
      first.(vault := u, ingested := u, sched := Sched(None, true, true, 10), flight := Some(Flight(true, 10, None)))
    else if i == 9 then
      first.(vault := u, ingested := u, sched := Sched(None, true, true, 10), flight := Some(Flight(true, 10, Some(u))))
    else
      World(10, Sched(None, false, false, 10), None, u, u, Stored(p, x, y), {},
            Some(Push(u, Stored(p, x, x))), false, [Completion(10, true), Completion(10, true)])
  }

  lemma SecondPush(p: Path, x: Bytes, y: Bytes)
    requires x != y
    ensures PushBucket(Stored(p, x, x), map[p := y], false) == Stored(p, x, y)
  {
    var b, u: Tree := Stored(p, x, x), map[p := y];
    assert UploadSet(Hashes(u), b.Index(), false) == {};
    assert Uploaded(b.objects, u, {}) == b.objects;
    assert b.Index() + Hashes(u) == map[p := Sha256(y)];
  }

  function ChangingStep(p: Path, x: Bytes, y: Bytes, i: nat): Step {
    if i < 4 then CollectingStep(p, x, i)
    else if i == 4 then Succeed
    else if i < 9 then CollectingStep(p, y, i - 5)
    else Succeed
  }

  lemma ChangingBegins(p: Path, x: Bytes, y: Bytes, i: nat)
    requires x != y && 4 <= i < 7
    ensures Leads(Changing(p, x, y, i), ChangingStep(p, x, y, i), Changing(p, x, y, i + 1))
  {
    FirstPush(p, x);
    var v: Tree, none: Tree := map[p := x], map[];
    assert Late(Collecting(p, x, 4)) == {};
    assert v[p := y] == map[p := y] && v - {p} == none && none[p := y] == map[p := y];
  }

  lemma ChangingEnds(p: Path, x: Bytes, y: Bytes, i: nat)
    requires x != y && 7 <= i < 10
    ensures Leads(Changing(p, x, y, i), ChangingStep(p, x, y, i), Changing(p, x, y, i + 1))
  {
    SecondPush(p, x, y);
    assert Late(Changing(p, x, y, 9)) == {};
    assert [Completion(10, true)] + [Completion(10, true)] == [Completion(10, true), Completion(10, true)];
  }

  /** Alone on an empty bucket, one machine pushes a note, changes it and pushes it again: the run ends clean, the
      manifest has the new hash and the object the old contents. */
  lemma ChangedNoteRun(p: Path, x: Bytes, y: Bytes) returns (worlds: seq<World>, steps: seq<Step>)
    requires x != y
    ensures IsRun(SMALL, worlds, steps) && Alone(steps) && |steps| == 10
    ensures worlds[0] == Initial(10, map[], NOTHING_STORED)
    ensures !worlds[10].sched.dirty && worlds[10].ingested == map[p := y] && worlds[10].bucket == Stored(p, x, y)
  {
    steps := seq(10, i requires 0 <= i < 10 => ChangingStep(p, x, y, i));
    var stage := (i: nat) => Changing(p, x, y, i);
    forall i: nat | i < 10 ensures Leads(stage(i), steps[i], stage(i + 1)) {
      if i < 4 { CollectingLeads(p, x, i); }
      else if i < 7 { ChangingBegins(p, x, y, i); }
      else { ChangingEnds(p, x, y, i); }
    }
    worlds := StagesAreRun(stage, steps);
  }
}
