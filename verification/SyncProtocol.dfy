/** Any number of machines push and pull against one bucket. A push or pull is a job that takes one
    step at a time; steps of different jobs and local edits interleave freely, and a job may vanish
    between any two steps. The manifest is put without comparing it to the one fetched. */
module SyncProtocol {
  import opened Collections
  import opened SyncTypes
  import opened SyncEngine

  type MachineId = nat

  type JobId = nat

  datatype Vault = Vault(files: Tree, scope: Path -> bool) {
    function Collected(): Tree { Restrict(files, scope) }
  }

  datatype Job =
    | PushStarted(machine: MachineId, force: bool, local: Files)
    | Pushing(machine: MachineId, local: Files, remote: Option<Files>, todo: seq<Path>)
    | PullStarted(machine: MachineId, force: bool, local: Files)
    | Pulling(machine: MachineId, index: Files, todo: seq<Path>)

  datatype System = System(bucket: Bucket, homes: map<MachineId, Vault>, jobs: map<JobId, Job>)

  datatype Step =
    | Write(machine: MachineId, path: Path, body: Bytes)
    | Remove(machine: MachineId, path: Path)
    | BeginPush(job: JobId, machine: MachineId, force: bool)
    | FetchForPush(job: JobId, order: seq<Path>)
    | UploadNext(job: JobId)
    | PutManifest(job: JobId)
    | BeginPull(job: JobId, machine: MachineId, force: bool)
    | FetchForPull(job: JobId, order: seq<Path>)
    | DownloadNext(job: JobId)
    | Drop(job: JobId)

  ghost predicate Enabled(s: System, step: Step) {
    match step
    case Write(m, _, _) => m in s.homes
    case Remove(m, _) => m in s.homes
    case BeginPush(j, m, _) => j !in s.jobs && m in s.homes
    case FetchForPush(j, order) =>
      && j in s.jobs && s.jobs[j].PushStarted?
      && Lists(order, UploadSet(s.jobs[j].local, s.bucket.Index(), s.jobs[j].force))
    case UploadNext(j) =>
      j in s.jobs && s.jobs[j].Pushing? && s.jobs[j].todo != [] && s.jobs[j].machine in s.homes
    case PutManifest(j) => j in s.jobs && s.jobs[j].Pushing? && s.jobs[j].todo == []
    case BeginPull(j, m, _) => j !in s.jobs && m in s.homes
    case FetchForPull(j, order) =>
      && j in s.jobs && s.jobs[j].PullStarted?
      && Lists(order, DownloadSet(s.jobs[j].local, s.bucket.Index(), s.jobs[j].force))
    case DownloadNext(j) =>
      j in s.jobs && s.jobs[j].Pulling? && s.jobs[j].todo != [] && s.jobs[j].machine in s.homes
    case Drop(j) => j in s.jobs
  }

  function WithFiles(s: System, m: MachineId, files: Tree): System
    requires m in s.homes
  {
    s.(homes := s.homes[m := s.homes[m].(files := files)])
  }

  function Without(s: System, j: JobId): System { s.(jobs := s.jobs - {j}) }

  /** The upload reads the file as it is now; if it is gone the push fails. */
  function Upload1(s: System, j: JobId): System
    requires Enabled(s, UploadNext(j))
  {
    var job, p := s.jobs[j], s.jobs[j].todo[0];
    var files := s.homes[job.machine].files;
    if p !in files then Without(s, j)
    else System(s.bucket.(objects := s.bucket.objects[p := files[p]]), s.homes,
                s.jobs[j := Pushing(job.machine, job.local, job.remote, job.todo[1..])])
  }

  function Download1(s: System, j: JobId): System
    requires Enabled(s, DownloadNext(j))
  {
    var job, p := s.jobs[j], s.jobs[j].todo[0];
    var st := DownloadStep(PullState(s.homes[job.machine].files, 0, None), s.bucket.objects, job.index, p);
    if st.failed.Some? then Without(s, j)
    else WithFiles(s, job.machine, st.files).(jobs := s.jobs[j := Pulling(job.machine, job.index, job.todo[1..])])
  }

  function Do(s: System, step: Step): System
    requires Enabled(s, step)
  {
    match step
    case Write(m, p, body) => WithFiles(s, m, s.homes[m].files[p := body])
    case Remove(m, p) => WithFiles(s, m, s.homes[m].files - {p})
    case BeginPush(j, m, force) =>
      s.(jobs := s.jobs[j := PushStarted(m, force, Hashes(s.homes[m].Collected()))])
    case FetchForPush(j, order) =>
      s.(jobs := s.jobs[j := Pushing(s.jobs[j].machine, s.jobs[j].local, s.bucket.manifest, order)])
    case UploadNext(j) => Upload1(s, j)
    case PutManifest(j) =>
      Without(s.(bucket := s.bucket.(manifest := Some(OrEmpty(s.jobs[j].remote) + s.jobs[j].local))), j)
    case BeginPull(j, m, force) =>
      s.(jobs := s.jobs[j := PullStarted(m, force, Hashes(s.homes[m].Collected()))])
    case FetchForPull(j, order) =>
      s.(jobs := s.jobs[j := Pulling(s.jobs[j].machine, s.bucket.Index(), order)])
    case DownloadNext(j) => Download1(s, j)
    case Drop(j) => Without(s, j)
  }

  ghost predicate IsRun(states: seq<System>, steps: seq<Step>) {
    && |states| == |steps| + 1
    && forall i :: 0 <= i < |steps| ==> Enabled(states[i], steps[i]) && states[i + 1] == Do(states[i], steps[i])
  }

  ghost predicate NoPushInFlight(s: System) {
    forall j <- s.jobs :: !s.jobs[j].Pushing?
  }

  // Every manifest path has an object, whatever the contents and however pushes interleave.

  ghost predicate BackedJob(job: Job, objects: Tree) {
    job.Pushing? ==>
      && OrEmpty(job.remote).Keys <= objects.Keys
      && forall p <- job.local :: p in job.todo || p in objects
  }

  ghost predicate Backed(s: System) {
    && s.bucket.Index().Keys <= s.bucket.objects.Keys
    && forall j <- s.jobs :: BackedJob(s.jobs[j], s.bucket.objects)
  }

  lemma ObjectsGrow(s: System, step: Step)
    requires Enabled(s, step)
    ensures s.bucket.objects.Keys <= Do(s, step).bucket.objects.Keys
  {
  }

  lemma StepKeepsBacked(s: System, step: Step)
    requires Enabled(s, step) && Backed(s)
    ensures Backed(Do(s, step))
  {
    var t := Do(s, step);
    ObjectsGrow(s, step);
    forall j | j in t.jobs ensures BackedJob(t.jobs[j], t.bucket.objects) {
      if j in s.jobs {
        assert BackedJob(s.jobs[j], s.bucket.objects);
      }
      if step.FetchForPush? && step.job == j {
        forall p | p in t.jobs[j].local ensures p in t.jobs[j].todo || p in t.bucket.objects {
          if p !in s.bucket.Index() {
            assert p in Elements(step.order);
          }
        }
      }
    }
    if step.PutManifest? {
      assert BackedJob(s.jobs[step.job], s.bucket.objects);
    }
  }

  /** In every run, crashes and conflicts included, an object once stored stays, and every path of every
      manifest ever put has an object. */
  lemma {:induction false} ManifestPathsHaveObjects(states: seq<System>, steps: seq<Step>, i: nat)
    requires IsRun(states, steps) && i <= |steps|
    requires NoPushInFlight(states[0]) && states[0].bucket.Index().Keys <= states[0].bucket.objects.Keys
    ensures Backed(states[i])
    ensures states[0].bucket.objects.Keys <= states[i].bucket.objects.Keys
  {
    if i == 0 {
    } else {
      ManifestPathsHaveObjects(states, steps, i - 1);
      StepKeepsBacked(states[i - 1], steps[i - 1]);
      ObjectsGrow(states[i - 1], steps[i - 1]);
    }
  }

  // Coherence when the machines agree on the contents of every path.

  ghost predicate AgreedFile(content: Path -> Bytes, index: Files, objects: Tree, p: Path)
    requires p in index
  {
    index[p] == Sha256(content(p)) && p in objects && objects[p] == content(p)
  }

  ghost predicate AgreedIndex(content: Path -> Bytes, index: Files, objects: Tree) {
    forall p <- index :: AgreedFile(content, index, objects, p)
  }

  ghost predicate AgreedTree(content: Path -> Bytes, tree: Tree) {
    forall p <- tree :: tree[p] == content(p)
  }

  ghost predicate AgreedLocal(content: Path -> Bytes, local: Files) {
    forall p <- local :: local[p] == Sha256(content(p))
  }

  ghost predicate AgreedJob(content: Path -> Bytes, job: Job, objects: Tree) {
    match job
    case PushStarted(_, _, local) => AgreedLocal(content, local)
    case Pushing(_, local, remote, todo) =>
      && AgreedLocal(content, local)
      && AgreedIndex(content, OrEmpty(remote), objects)
      && forall p <- local :: p in todo || (p in objects && objects[p] == content(p))
    case PullStarted(_, _, _) => true
    case Pulling(_, remote, todo) => AgreedIndex(content, remote, objects) && Elements(todo) <= remote.Keys
  }

  ghost predicate Agreed(content: Path -> Bytes, s: System) {
    && (forall m <- s.homes :: AgreedTree(content, s.homes[m].files))
    && AgreedIndex(content, s.bucket.Index(), s.bucket.objects)
    && (forall j <- s.jobs :: AgreedJob(content, s.jobs[j], s.bucket.objects))
  }

  /** Local edits write only the agreed contents. */
  ghost predicate Respects(content: Path -> Bytes, step: Step) {
    step.Write? ==> step.body == content(step.path)
  }

  lemma AgreedJobFrame(content: Path -> Bytes, job: Job, objects: Tree, after: Tree)
    requires AgreedJob(content, job, objects)
    requires forall p <- objects :: p in after && (after[p] == objects[p] || after[p] == content(p))
    ensures AgreedJob(content, job, after)
  {
  }

  lemma AgreedIndexFrame(content: Path -> Bytes, index: Files, objects: Tree, after: Tree)
    requires AgreedIndex(content, index, objects)
    requires forall p <- objects :: p in after && (after[p] == objects[p] || after[p] == content(p))
    ensures AgreedIndex(content, index, after)
  {
  }

  lemma AgreedFetch(content: Path -> Bytes, s: System, step: Step)
    requires Enabled(s, step) && (step.FetchForPush? || step.FetchForPull?) && Agreed(content, s)
    ensures AgreedJob(content, Do(s, step).jobs[step.job], s.bucket.objects)
  {
    var job := s.jobs[step.job];
    assert AgreedJob(content, job, s.bucket.objects);
    if step.FetchForPush? {
      forall p | p in job.local
        ensures p in step.order || (p in s.bucket.objects && s.bucket.objects[p] == content(p))
      {
        if p in s.bucket.Index() {
          assert AgreedFile(content, s.bucket.Index(), s.bucket.objects, p);
        } else {
          assert p in Elements(step.order);
        }
      }
    }
  }

  lemma AgreedUpload(content: Path -> Bytes, s: System, j: JobId)
    requires Enabled(s, UploadNext(j)) && Agreed(content, s)
    ensures Agreed(content, Upload1(s, j))
  {
  }

  lemma AgreedDownload(content: Path -> Bytes, s: System, j: JobId)
    requires Enabled(s, DownloadNext(j)) && Agreed(content, s)
    ensures Agreed(content, Download1(s, j))
  {
  }

  lemma AgreedPut(content: Path -> Bytes, s: System, j: JobId)
    requires Enabled(s, PutManifest(j)) && Agreed(content, s)
    ensures Agreed(content, Do(s, PutManifest(j)))
  {
  }

  lemma StepKeepsAgreed(content: Path -> Bytes, s: System, step: Step)
    requires Enabled(s, step) && Respects(content, step) && Agreed(content, s)
    ensures Agreed(content, Do(s, step))
  {
    match step
    case UploadNext(j) => AgreedUpload(content, s, j);
    case DownloadNext(j) => AgreedDownload(content, s, j);
    case PutManifest(j) => AgreedPut(content, s, j);
    case FetchForPush(_, _) => AgreedFetch(content, s, step);
    case FetchForPull(_, _) => AgreedFetch(content, s, step);
    case Write(m, p, body) => assert AgreedTree(content, s.homes[m].files);
    case Remove(m, p) => assert AgreedTree(content, s.homes[m].files);
    case BeginPush(j, m, _) => assert AgreedTree(content, s.homes[m].files);
    case _ =>
  }

  lemma AgreedIsCoherent(content: Path -> Bytes, s: System)
    requires Agreed(content, s)
    ensures s.bucket.Coherent()
  {
  }

  /** Machines that never disagree on a path's contents keep the bucket coherent through every
      interleaving of pushes, pulls, edits, deletions and crashes. */
  lemma {:induction false} InterleavingCoherence(content: Path -> Bytes, states: seq<System>, steps: seq<Step>, i: nat)
    requires IsRun(states, steps) && i <= |steps|
    requires forall k :: 0 <= k < |steps| ==> Respects(content, steps[k])
    requires Agreed(content, states[0])
    ensures Agreed(content, states[i]) && states[i].bucket.Coherent()
  {
    if i == 0 {
    } else {
      InterleavingCoherence(content, states, steps, i - 1);
      StepKeepsAgreed(content, states[i - 1], steps[i - 1]);
    }
    AgreedIsCoherent(content, states[i]);
  }

  /** In such a run no download ever misses its object or fails verification, even when the manifest
      has been replaced since the pull fetched it. */
  lemma PullsNeverFail(content: Path -> Bytes, states: seq<System>, steps: seq<Step>, i: nat)
    requires IsRun(states, steps) && i < |steps|
    requires forall k :: 0 <= k < |steps| ==> Respects(content, steps[k])
    requires Agreed(content, states[0])
    requires steps[i].DownloadNext?
    ensures var job := states[i].jobs[steps[i].job];
      && job.todo[0] in states[i + 1].homes[job.machine].files
      && states[i + 1].homes[job.machine].files[job.todo[0]] == content(job.todo[0])
      && steps[i].job in states[i + 1].jobs
  {
    InterleavingCoherence(content, states, steps, i);
    var s, j := states[i], steps[i].job;
    assert AgreedJob(content, s.jobs[j], s.bucket.objects);
    assert s.jobs[j].todo[0] in Elements(s.jobs[j].todo);
    assert AgreedFile(content, s.jobs[j].index, s.bucket.objects, s.jobs[j].todo[0]);
  }

  // Lost manifest entries.

  /** What job `j` holds as the remote manifest is what it fetched at step `k`, and it has put nothing since. */
  ghost predicate FetchedAt(states: seq<System>, steps: seq<Step>, i: nat, j: JobId, k: nat)
    requires IsRun(states, steps) && i <= |steps|
    requires j in states[i].jobs && states[i].jobs[j].Pushing?
  {
    && k < i && steps[k].FetchForPush? && steps[k].job == j
    && states[i].jobs[j].remote == states[k].bucket.manifest
    && (forall a :: k < a < i ==> steps[a] != PutManifest(j))
  }

  lemma {:induction false} EveryPushFetched(states: seq<System>, steps: seq<Step>, i: nat, j: JobId) returns (k: nat)
    requires IsRun(states, steps) && i <= |steps|
    requires NoPushInFlight(states[0])
    requires j in states[i].jobs && states[i].jobs[j].Pushing?
    ensures FetchedAt(states, steps, i, j, k)
  {
    if steps[i - 1].FetchForPush? && steps[i - 1].job == j {
      k := i - 1;
    } else {
      PushingSince(states[i - 1], steps[i - 1], j);
      k := EveryPushFetched(states, steps, i - 1, j);
    }
  }

  /** Only a fetch turns a job into one that pushes, and what was fetched stays. */
  lemma PushingSince(s: System, step: Step, j: JobId)
    requires Enabled(s, step) && j in Do(s, step).jobs && Do(s, step).jobs[j].Pushing?
    requires !(step.FetchForPush? && step.job == j)
    ensures j in s.jobs && s.jobs[j].Pushing? && s.jobs[j].remote == Do(s, step).jobs[j].remote
    ensures step != PutManifest(j)
  {
  }

  lemma {:induction false} Appeared(states: seq<System>, steps: seq<Step>, k: nat, i: nat, p: Path) returns (a: nat)
    requires IsRun(states, steps) && k < i <= |steps|
    requires p !in states[k].bucket.Index() && p in states[i].bucket.Index()
    ensures k <= a < i && steps[a].PutManifest?
    ensures p !in states[a].bucket.Index() && p in states[a + 1].bucket.Index()
    decreases i
  {
    if p in states[i - 1].bucket.Index() {
      a := Appeared(states, steps, k, i - 1, p);
    } else {
      a := i - 1;
    }
  }

  /** A manifest path disappears only when a push puts a manifest it assembled from an older one, and then
      another push added the path after that one fetched. */
  lemma LossNeedsOverlap(states: seq<System>, steps: seq<Step>, i: nat, p: Path) returns (k: nat, a: nat)
    requires IsRun(states, steps) && i < |steps|
    requires NoPushInFlight(states[0])
    requires p in states[i].bucket.Index() && p !in states[i + 1].bucket.Index()
    ensures steps[i].PutManifest? && p !in states[i].jobs[steps[i].job].local
    ensures k < a < i
    ensures steps[k].FetchForPush? && steps[k].job == steps[i].job && p !in states[k].bucket.Index()
    ensures steps[a].PutManifest? && steps[a].job != steps[i].job
    ensures p !in states[a].bucket.Index() && p in states[a + 1].bucket.Index()
  {
    var j := steps[i].job;
    k := EveryPushFetched(states, steps, i, j);
    assert p !in states[k].bucket.Index();
    a := Appeared(states, steps, k, i, p);
  }

  /** A put keeps every manifest path exactly when the pusher fetched or holds all of them. */
  lemma PutKeepsManifestIff(s: System, j: JobId)
    requires Enabled(s, PutManifest(j))
    ensures s.bucket.Index().Keys <= Do(s, PutManifest(j)).bucket.Index().Keys <==>
            s.bucket.Index().Keys <= OrEmpty(s.jobs[j].remote).Keys + s.jobs[j].local.Keys
  {
  }

  /** A put that adds a path between `k` and `i`. */
  ghost predicate AddedBetween(states: seq<System>, steps: seq<Step>, k: nat, i: nat, p: Path, a: nat)
    requires |states| == |steps| + 1 && i <= |steps|
  {
    k < a < i && steps[a].PutManifest? && p !in states[a].bucket.Index() && p in states[a + 1].bucket.Index()
  }

  /** The put at `i` of a push that fetched at `k` drops a path exactly when another push's put added the path
      in between, it is still listed, and the putting machine neither fetched nor holds it. */
  lemma LostIff(states: seq<System>, steps: seq<Step>, k: nat, i: nat, p: Path)
    requires IsRun(states, steps) && i < |steps| && steps[i].PutManifest?
    requires FetchedAt(states, steps, i, steps[i].job, k)
    ensures var job := states[i].jobs[steps[i].job];
      p in states[i].bucket.Index() && p !in states[i + 1].bucket.Index() <==>
      && (exists a: nat :: AddedBetween(states, steps, k, i, p, a) && steps[a].job != steps[i].job)
      && p in states[i].bucket.Index() && p !in states[k].bucket.Index() && p !in job.local
  {
    if p in states[i].bucket.Index() && p !in states[i + 1].bucket.Index() {
      assert p !in states[k].bucket.Index();
      var a := Appeared(states, steps, k, i, p);
      assert AddedBetween(states, steps, k, i, p, a);
    }
  }

  // Two machines pushing one new file each, both fetching before either puts.

  ghost function Race(a: Path, b: Path, x: Bytes, y: Bytes, i: nat): System {
    var all := (p: Path) => true;
    var homes := map[1 := Vault(map[a := x], all), 2 := Vault(map[b := y], all)];
    var la, lb := map[a := Sha256(x)], map[b := Sha256(y)];
    var p1, p2 := PushStarted(1, false, la), PushStarted(2, false, lb);
    var q1, q2 := Pushing(1, la, None, [a]), Pushing(2, lb, None, [b]);
    var r1, r2 := Pushing(1, la, None, []), Pushing(2, lb, None, []);
    var both := map[a := x, b := y];
    if i == 0 then System(Bucket(map[], None), homes, map[])
    else if i == 1 then System(Bucket(map[], None), homes, map[1 := p1])
    else if i == 2 then System(Bucket(map[], None), homes, map[1 := p1, 2 := p2])
    else if i == 3 then System(Bucket(map[], None), homes, map[1 := q1, 2 := p2])
    else if i == 4 then System(Bucket(map[], None), homes, map[1 := q1, 2 := q2])
    else if i == 5 then System(Bucket(map[a := x], None), homes, map[1 := r1, 2 := q2])
    else if i == 6 then System(Bucket(both, None), homes, map[1 := r1, 2 := r2])
    else if i == 7 then System(Bucket(both, Some(la)), homes, map[2 := r2])
    else System(Bucket(both, Some(lb)), homes, map[])
  }

  function RaceSteps(a: Path, b: Path): seq<Step> {
    [BeginPush(1, 1, false), BeginPush(2, 2, false), FetchForPush(1, [a]), FetchForPush(2, [b]),
     UploadNext(1), UploadNext(2), PutManifest(1), PutManifest(2)]
  }

  lemma RaceBegins(a: Path, b: Path, x: Bytes, y: Bytes, i: nat)
    requires a != b && i < 2
    ensures Enabled(Race(a, b, x, y, i), RaceSteps(a, b)[i])
    ensures Do(Race(a, b, x, y, i), RaceSteps(a, b)[i]) == Race(a, b, x, y, i + 1)
  {
    var homes := Race(a, b, x, y, 0).homes;
    assert Hashes(homes[1].Collected()) == map[a := Sha256(x)];
    assert Hashes(homes[2].Collected()) == map[b := Sha256(y)];
  }

  lemma RaceFetches(a: Path, b: Path, x: Bytes, y: Bytes, i: nat)
    requires a != b && 2 <= i < 4
    ensures Enabled(Race(a, b, x, y, i), RaceSteps(a, b)[i])
    ensures Do(Race(a, b, x, y, i), RaceSteps(a, b)[i]) == Race(a, b, x, y, i + 1)
  {
    assert Elements([a]) == {a} == UploadSet(map[a := Sha256(x)], map[], false);
    assert Elements([b]) == {b} == UploadSet(map[b := Sha256(y)], map[], false);
    var s, t := Race(a, b, x, y, i), Race(a, b, x, y, i + 1);
    assert t.jobs == s.jobs[i - 1 := t.jobs[i - 1]];
  }

  lemma RaceUploads(a: Path, b: Path, x: Bytes, y: Bytes, i: nat)
    requires a != b && 4 <= i < 6
    ensures Enabled(Race(a, b, x, y, i), RaceSteps(a, b)[i])
    ensures Do(Race(a, b, x, y, i), RaceSteps(a, b)[i]) == Race(a, b, x, y, i + 1)
  {
    assert [a][1..] == [] && [b][1..] == [];
    var s, t := Race(a, b, x, y, i), Race(a, b, x, y, i + 1);
    assert t.jobs == s.jobs[i - 3 := t.jobs[i - 3]];
    assert map[a := x][b := y] == map[a := x, b := y];
  }

  lemma RacePuts(a: Path, b: Path, x: Bytes, y: Bytes, i: nat)
    requires a != b && 6 <= i < 8
    ensures Enabled(Race(a, b, x, y, i), RaceSteps(a, b)[i])
    ensures Do(Race(a, b, x, y, i), RaceSteps(a, b)[i]) == Race(a, b, x, y, i + 1)
  {
    var s, t := Race(a, b, x, y, i), Race(a, b, x, y, i + 1);
    assert t.jobs == s.jobs - {i - 5};
    var la, lb := map[a := Sha256(x)], map[b := Sha256(y)];
    assert map[] + la == la && map[] + lb == lb;
  }

  /** The first entry put is lost by the second put, while its object stays. */
  lemma LostEntry(a: Path, b: Path, x: Bytes, y: Bytes) returns (states: seq<System>)
    requires a != b
    ensures IsRun(states, RaceSteps(a, b)) && |states| == 9
    ensures states[0].jobs == map[] && states[0].bucket == Bucket(map[], None)
    ensures states[7].bucket == Bucket(map[a := x, b := y], Some(map[a := Sha256(x)]))
    ensures states[8].bucket == Bucket(map[a := x, b := y], Some(map[b := Sha256(y)]))
  {
    states := seq(9, i requires 0 <= i < 9 => Race(a, b, x, y, i));
    forall i | 0 <= i < 8
      ensures Enabled(states[i], RaceSteps(a, b)[i]) && Do(states[i], RaceSteps(a, b)[i]) == states[i + 1]
    {
      if i < 2 { RaceBegins(a, b, x, y, i); }
      else if i < 4 { RaceFetches(a, b, x, y, i); }
      else if i < 6 { RaceUploads(a, b, x, y, i); }
      else { RacePuts(a, b, x, y, i); }
    }
  }
}
