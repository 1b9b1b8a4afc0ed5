/** Serial pushes and pulls as uninterrupted runs of the protocol, and what a round of each leads to. */
module Convergence {
  import opened Collections
  import opened SyncTypes
  import opened SyncEngine
  import opened SyncTheorems
  import opened SyncProtocol

  function PushBy(s: System, m: MachineId, force: bool): System
    requires m in s.homes
  {
    s.(bucket := PushBucket(s.bucket, s.homes[m].Collected(), force))
  }

  ghost predicate PulledBy(s: System, m: MachineId, force: bool, t: System)
    requires m in s.homes
  {
    exists order :: Lists(order, DownloadSet(Hashes(s.homes[m].Collected()), s.bucket.Index(), force))
      && t == WithFiles(s, m, Pulled(s.homes[m].files, s.bucket.objects, s.bucket.Index(), order).files)
  }

  // A push or pull that nothing interrupts is a run of the protocol.

  lemma Extend(states: seq<System>, steps: seq<Step>, step: Step) returns (longer: seq<System>)
    requires IsRun(states, steps) && Enabled(states[|steps|], step)
    ensures longer == states + [Do(states[|steps|], step)] && IsRun(longer, steps + [step])
    ensures longer[0] == states[0]
  {
    longer := states + [Do(states[|steps|], step)];
  }

  function HalfPushed(s: System, m: MachineId, j: JobId, order: seq<Path>, k: nat): System
    requires m in s.homes && k <= |order|
  {
    var local := s.homes[m].Collected();
    System(CutOff(s.bucket, local, Elements(order[..k])), s.homes,
           s.jobs[j := Pushing(m, Hashes(local), s.bucket.manifest, order[k..])])
  }

  lemma {:induction false} PushPrefixIsRun(s: System, m: MachineId, j: JobId, force: bool, order: seq<Path>, k: nat)
      returns (states: seq<System>, steps: seq<Step>)
    requires j !in s.jobs && m in s.homes && k <= |order|
    requires Lists(order, UploadSet(Hashes(s.homes[m].Collected()), s.bucket.Index(), force))
    ensures IsRun(states, steps) && states[0] == s && states[|steps|] == HalfPushed(s, m, j, order, k)
  {
    if k == 0 {
      states, steps := [s], [];
      states := Extend(states, steps, BeginPush(j, m, force));
      steps := steps + [BeginPush(j, m, force)];
      states := Extend(states, steps, FetchForPush(j, order));
      steps := steps + [FetchForPush(j, order)];
      StartedPush(s, m, j, force, order);
    } else {
      states, steps := PushPrefixIsRun(s, m, j, force, order, k - 1);
      UploadAdvances(s, m, j, force, order, k - 1);
      states := Extend(states, steps, UploadNext(j));
      steps := steps + [UploadNext(j)];
    }
  }

  lemma StartedPush(s: System, m: MachineId, j: JobId, force: bool, order: seq<Path>)
    requires j !in s.jobs && m in s.homes
    requires Lists(order, UploadSet(Hashes(s.homes[m].Collected()), s.bucket.Index(), force))
    ensures Do(Do(s, BeginPush(j, m, force)), FetchForPush(j, order)) == HalfPushed(s, m, j, order, 0)
  {
  }

  lemma UploadAdvances(s: System, m: MachineId, j: JobId, force: bool, order: seq<Path>, k: nat)
    requires j !in s.jobs && m in s.homes && k < |order|
    requires Lists(order, UploadSet(Hashes(s.homes[m].Collected()), s.bucket.Index(), force))
    ensures Enabled(HalfPushed(s, m, j, order, k), UploadNext(j))
    ensures Do(HalfPushed(s, m, j, order, k), UploadNext(j)) == HalfPushed(s, m, j, order, k + 1)
  {
    var local := s.homes[m].Collected();
    assert order[k] in Elements(order);
    assert order[..k + 1] == order[..k] + [order[k]];
    UploadedNext(s.bucket.objects, local, order[..k], order[k]);
    assert order[k..][1..] == order[k + 1..] && order[k..][0] == order[k];
    var before, after := HalfPushed(s, m, j, order, k).jobs, HalfPushed(s, m, j, order, k + 1).jobs;
    SetTwice(s.jobs, j, before[j], after[j]);
  }

  lemma SetTwice<K, V>(m: map<K, V>, k: K, first: V, second: V)
    ensures m[k := first][k := second] == m[k := second]
  {
  }

  /** An uninterrupted push leads to exactly the bucket the engine's push computes. */
  lemma SerialPushIsRun(s: System, m: MachineId, j: JobId, force: bool)
      returns (states: seq<System>, steps: seq<Step>)
    requires j !in s.jobs && m in s.homes
    ensures IsRun(states, steps) && states[0] == s && states[|steps|] == PushBy(s, m, force)
  {
    var order := ListExists(UploadSet(Hashes(s.homes[m].Collected()), s.bucket.Index(), force));
    states, steps := PushPrefixIsRun(s, m, j, force, order, |order|);
    var last := HalfPushed(s, m, j, order, |order|);
    assert order[|order|..] == [] && order[..|order|] == order;
    assert last.jobs - {j} == s.jobs;
    assert Do(last, PutManifest(j)) == PushBy(s, m, force);
    states := Extend(states, steps, PutManifest(j));
    steps := steps + [PutManifest(j)];
  }

  function HalfPulled(s: System, m: MachineId, j: JobId, order: seq<Path>, k: nat): System
    requires m in s.homes && k <= |order|
  {
    var st := Pulled(s.homes[m].files, s.bucket.objects, s.bucket.Index(), order[..k]);
    var t := WithFiles(s, m, st.files);
    if st.failed.Some? then t else t.(jobs := s.jobs[j := Pulling(m, s.bucket.Index(), order[k..])])
  }

  lemma StartedPull(s: System, m: MachineId, j: JobId, force: bool, order: seq<Path>)
    requires j !in s.jobs && m in s.homes
    requires Lists(order, DownloadSet(Hashes(s.homes[m].Collected()), s.bucket.Index(), force))
    ensures Do(Do(s, BeginPull(j, m, force)), FetchForPull(j, order)) == HalfPulled(s, m, j, order, 0)
  {
  }

  lemma DownloadAdvances(s: System, m: MachineId, j: JobId, order: seq<Path>, k: nat)
    requires j !in s.jobs && m in s.homes && k < |order|
    requires Pulled(s.homes[m].files, s.bucket.objects, s.bucket.Index(), order[..k]).failed.None?
    ensures Enabled(HalfPulled(s, m, j, order, k), DownloadNext(j))
    ensures Do(HalfPulled(s, m, j, order, k), DownloadNext(j)) == HalfPulled(s, m, j, order, k + 1)
  {
    assert order[..k + 1] == order[..k] + [order[k]];
    PulledNext(s.homes[m].files, s.bucket.objects, s.bucket.Index(), order[..k], order[k]);
    assert order[k..][1..] == order[k + 1..];
    var before, after := HalfPulled(s, m, j, order, k), HalfPulled(s, m, j, order, k + 1);
    assert before.homes[m := after.homes[m]] == after.homes;
    if j in after.jobs {
      assert before.jobs[j := after.jobs[j]] == after.jobs;
    } else {
      assert before.jobs - {j} == after.jobs;
      assert before.homes == after.homes;
    }
  }

  lemma {:induction false} PullPrefixIsRun(s: System, m: MachineId, j: JobId, force: bool, order: seq<Path>, k: nat)
      returns (states: seq<System>, steps: seq<Step>)
    requires j !in s.jobs && m in s.homes && k <= |order|
    requires Lists(order, DownloadSet(Hashes(s.homes[m].Collected()), s.bucket.Index(), force))
    ensures IsRun(states, steps) && states[0] == s && states[|steps|] == HalfPulled(s, m, j, order, k)
  {
    if k == 0 {
      states, steps := [s], [];
      states := Extend(states, steps, BeginPull(j, m, force));
      steps := steps + [BeginPull(j, m, force)];
      states := Extend(states, steps, FetchForPull(j, order));
      steps := steps + [FetchForPull(j, order)];
      StartedPull(s, m, j, force, order);
    } else {
      states, steps := PullPrefixIsRun(s, m, j, force, order, k - 1);
      assert order[..k] == order[..k - 1] + [order[k - 1]];
      PulledNext(s.homes[m].files, s.bucket.objects, s.bucket.Index(), order[..k - 1], order[k - 1]);
      if Pulled(s.homes[m].files, s.bucket.objects, s.bucket.Index(), order[..k - 1]).failed.None? {
        DownloadAdvances(s, m, j, order, k - 1);
        states := Extend(states, steps, DownloadNext(j));
        steps := steps + [DownloadNext(j)];
      }
    }
  }

  /** An uninterrupted pull, in any download order and whether or not it fails, leads to exactly the files
      the engine's pull computes. */
  lemma SerialPullIsRun(s: System, m: MachineId, j: JobId, force: bool, order: seq<Path>)
      returns (states: seq<System>, steps: seq<Step>)
    requires j !in s.jobs && m in s.homes
    requires Lists(order, DownloadSet(Hashes(s.homes[m].Collected()), s.bucket.Index(), force))
    ensures IsRun(states, steps) && states[0] == s
    ensures states[|steps|] ==
      WithFiles(s, m, Pulled(s.homes[m].files, s.bucket.objects, s.bucket.Index(), order).files)
  {
    states, steps := PullPrefixIsRun(s, m, j, force, order, |order|);
    assert order[..|order|] == order;
    var last := states[|steps|];
    if j in last.jobs {
      assert last.jobs - {j} == s.jobs;
      states := Extend(states, steps, Drop(j));
      steps := steps + [Drop(j)];
    }
  }

  // A round of pushes.

  function PushRound(s: System, order: seq<MachineId>): System
    requires forall m <- order :: m in s.homes
    ensures PushRound(s, order).homes == s.homes && PushRound(s, order).jobs == s.jobs
  {
    if order == [] then s
    else var n := |order| - 1; PushBy(PushRound(s, order[..n]), order[n], false)
  }

  /** The paths the machines in `order` collect. */
  function Collectable(s: System, order: seq<MachineId>): set<Path>
    requires forall m <- order :: m in s.homes
  {
    set m, p | m in order && p in s.homes[m].Collected() :: p
  }

  lemma PushKeepsAgreed(content: Path -> Bytes, s: System, m: MachineId)
    requires m in s.homes && Agreed(content, s)
    ensures Agreed(content, PushBy(s, m, false))
  {
    var t, local := PushBy(s, m, false), s.homes[m].Collected();
    assert AgreedTree(content, s.homes[m].files);
    AgreedIndexFrame(content, s.bucket.Index(), s.bucket.objects, t.bucket.objects);
    forall p | p in t.bucket.Index() ensures AgreedFile(content, t.bucket.Index(), t.bucket.objects, p) {
      if p in s.bucket.Index() {
        assert AgreedFile(content, s.bucket.Index(), t.bucket.objects, p);
      }
    }
    forall j | j in t.jobs ensures AgreedJob(content, t.jobs[j], t.bucket.objects) {
      AgreedJobFrame(content, s.jobs[j], s.bucket.objects, t.bucket.objects);
    }
  }

  lemma {:induction false} PushRoundMerges(content: Path -> Bytes, s: System, order: seq<MachineId>)
    requires forall m <- order :: m in s.homes
    requires Agreed(content, s)
    ensures Agreed(content, PushRound(s, order))
    ensures PushRound(s, order).bucket.Index().Keys == s.bucket.Index().Keys + Collectable(s, order)
  {
    if order != [] {
      var n := |order| - 1;
      var before := PushRound(s, order[..n]);
      PushRoundMerges(content, s, order[..n]);
      PushKeepsAgreed(content, before, order[n]);
      PushMerges(before, order[n]);
      CollectableNext(s, order, n);
      UnionAssociates(s.bucket.Index().Keys, Collectable(s, order[..n]), s.homes[order[n]].Collected().Keys);
    } else {
      assert Collectable(s, order) == {};
    }
  }

  lemma PushMerges(s: System, m: MachineId)
    requires m in s.homes
    ensures PushBy(s, m, false).bucket.Index().Keys == s.bucket.Index().Keys + s.homes[m].Collected().Keys
  {
  }

  lemma CollectableNext(s: System, order: seq<MachineId>, n: nat)
    requires |order| == n + 1
    requires forall m <- order :: m in s.homes
    ensures Collectable(s, order) == Collectable(s, order[..n]) + s.homes[order[n]].Collected().Keys
  {
  }

  // A round of pulls.

  ghost predicate IsPullRound(states: seq<System>, order: seq<MachineId>) {
    && |states| == |order| + 1
    && forall i :: 0 <= i < |order| ==>
      order[i] in states[i].homes && PulledBy(states[i], order[i], false, states[i + 1])
  }

  /** A machine's vault holds the whole manifest. */
  ghost predicate Complete(content: Path -> Bytes, b: Bucket, v: Vault) {
    forall p <- b.Index() :: p in v.files && v.files[p] == content(p)
  }

  /** `after` is `before` plus manifest files. */
  ghost predicate OnlyManifestAdded(b: Bucket, before: Vault, after: Vault) {
    && after.scope == before.scope
    && (forall p <- before.files :: p in after.files)
    && (forall p <- after.files :: p in before.files || p in b.Index())
  }

  lemma PullCompletesVault(content: Path -> Bytes, s: System, m: MachineId, t: System)
    requires m in s.homes && Agreed(content, s) && PulledBy(s, m, false, t)
    ensures t.bucket == s.bucket && t.jobs == s.jobs && t.homes.Keys == s.homes.Keys
    ensures Agreed(content, t) && Complete(content, t.bucket, t.homes[m])
    ensures OnlyManifestAdded(s.bucket, s.homes[m], t.homes[m])
    ensures forall k <- s.homes :: k != m ==> t.homes[k] == s.homes[k]
  {
    var v, b := s.homes[m], s.bucket;
    var order :| Lists(order, DownloadSet(Hashes(v.Collected()), b.Index(), false))
      && t == WithFiles(s, m, Pulled(v.files, b.objects, b.Index(), order).files);
    PulledFiles(content, s, m, order);
  }

  lemma PulledFiles(content: Path -> Bytes, s: System, m: MachineId, order: seq<Path>)
    requires m in s.homes && Agreed(content, s)
    requires Lists(order, DownloadSet(Hashes(s.homes[m].Collected()), s.bucket.Index(), false))
    ensures var after := Pulled(s.homes[m].files, s.bucket.objects, s.bucket.Index(), order).files;
      && AgreedTree(content, after)
      && (forall p <- s.bucket.Index() :: p in after)
      && (forall p <- s.homes[m].files :: p in after)
      && (forall p <- after :: p in s.homes[m].files || p in s.bucket.Index())
  {
    AgreedIsCoherent(content, s);
    var v, b := s.homes[m], s.bucket;
    CoherentPull(v.files, v.scope, b, false, order);
    var fetched := Fetched(b.objects, order);
    assert AgreedTree(content, v.files);
    forall p | p in fetched ensures p in b.Index() && fetched[p] == content(p) {
      assert AgreedFile(content, b.Index(), b.objects, p);
    }
    forall p | p in b.Index() ensures p in v.files + fetched {
      assert p !in fetched ==> p in v.Collected();
    }
  }

  /** What pulls since `s0` have made of the system, seen from machine `m`. */
  ghost predicate PulledSoFar(content: Path -> Bytes, s0: System, s: System, m: MachineId, pulled: bool)
    requires m in s0.homes
  {
    && s.bucket == s0.bucket && s.homes.Keys == s0.homes.Keys && Agreed(content, s)
    && OnlyManifestAdded(s0.bucket, s0.homes[m], s.homes[m])
    && (pulled ==> Complete(content, s.bucket, s.homes[m]))
  }

  lemma AnotherPull(content: Path -> Bytes, s0: System, s: System, k: MachineId, t: System, m: MachineId, pulled: bool)
    requires m in s0.homes && PulledSoFar(content, s0, s, m, pulled)
    requires k in s.homes && PulledBy(s, k, false, t)
    ensures PulledSoFar(content, s0, t, m, pulled || k == m)
  {
    PullCompletesVault(content, s, k, t);
    if k == m {
      AddedTwice(s0.bucket, s0.homes[m], s.homes[m], t.homes[m]);
    } else {
      assert t.homes[m] == s.homes[m];
    }
  }

  lemma AddedTwice(b: Bucket, first: Vault, before: Vault, after: Vault)
    requires OnlyManifestAdded(b, first, before) && OnlyManifestAdded(b, before, after)
    ensures OnlyManifestAdded(b, first, after)
  {
  }

  lemma InPrefix<T>(order: seq<T>, n: nat, x: T)
    requires n < |order|
    ensures x in order[..n + 1] <==> x in order[..n] || order[n] == x
  {
    assert order[..n + 1] == order[..n] + [order[n]];
  }

  lemma {:induction false} PullRoundCompletes(content: Path -> Bytes, states: seq<System>,
          order: seq<MachineId>, n: nat, m: MachineId)
    requires IsPullRound(states, order) && n <= |order|
    requires Agreed(content, states[0]) && m in states[0].homes
    ensures PulledSoFar(content, states[0], states[n], m, m in order[..n])
  {
    if n == 0 {
    } else {
      PullRoundCompletes(content, states, order, n - 1, m);
      InPrefix(order, n - 1, m);
      assert PulledBy(states[n - 1], order[n - 1], false, states[n]);
      AnotherPull(content, states[0], states[n - 1], order[n - 1], states[n], m, m in order[..n - 1]);
    }
  }

  /** What collection sees of a vault that holds the manifest and collected nothing else before. */
  lemma VaultMatchesManifestIff(content: Path -> Bytes, b: Bucket, before: Vault, after: Vault)
    requires AgreedTree(content, after.files) && AgreedIndex(content, b.Index(), b.objects)
    requires Complete(content, b, after) && OnlyManifestAdded(b, before, after)
    requires before.Collected().Keys <= b.Index().Keys
    ensures Hashes(after.Collected()) == b.Index() <==> forall p <- b.Index() :: after.scope(p)
  {
  }

  /** From any agreed state, one push per machine in any order makes the manifest the union of the old one
      and everything collected; then one pull per machine, in any order and with any download orders, gives
      every machine the whole manifest. Its collected files equal the manifest exactly when collection
      reaches every manifest path. */
  lemma Convergence(content: Path -> Bytes, s: System, pushers: seq<MachineId>, states: seq<System>,
          pullers: seq<MachineId>, m: MachineId)
    requires Agreed(content, s) && m in s.homes
    requires Elements(pushers) == s.homes.Keys && Elements(pullers) == s.homes.Keys
    requires forall k <- pushers :: k in s.homes
    requires IsPullRound(states, pullers) && states[0] == PushRound(s, pushers)
    ensures var end := states[|pullers|];
      && end.bucket.Index().Keys == s.bucket.Index().Keys + Collectable(s, pushers)
      && (forall p <- end.bucket.Index() :: end.bucket.Index()[p] == Sha256(content(p)))
      && m in end.homes && Complete(content, end.bucket, end.homes[m])
      && (Hashes(end.homes[m].Collected()) == end.bucket.Index() <==>
          forall p <- end.bucket.Index() :: s.homes[m].scope(p))
  {
    PushRoundMerges(content, s, pushers);
    PullRoundCompletes(content, states, pullers, |pullers|, m);
    var end := states[|pullers|];
    assert pullers[..|pullers|] == pullers && m in Elements(pullers) && m in Elements(pushers);
    forall p | p in end.bucket.Index() ensures end.bucket.Index()[p] == Sha256(content(p)) {
      assert AgreedFile(content, end.bucket.Index(), end.bucket.objects, p);
    }
    assert s.homes[m].Collected().Keys <= Collectable(s, pushers);
    assert AgreedTree(content, end.homes[m].files);
    VaultMatchesManifestIff(content, end.bucket, s.homes[m], end.homes[m]);
  }

  /** Every state a content-respecting run reaches, whatever was interrupted on the way, is one from which
      the rounds converge. */
  lemma ReachableStatesConverge(content: Path -> Bytes, run: seq<System>, steps: seq<Step>,
      pushers: seq<MachineId>, states: seq<System>, pullers: seq<MachineId>, m: MachineId)
    requires IsRun(run, steps) && Agreed(content, run[0])
    requires forall k :: 0 <= k < |steps| ==> Respects(content, steps[k])
    requires var s := run[|steps|];
      && m in s.homes && Elements(pushers) == s.homes.Keys && Elements(pullers) == s.homes.Keys
      && (forall k <- pushers :: k in s.homes)
      && IsPullRound(states, pullers) && states[0] == PushRound(s, pushers)
    requires forall p <- states[|pullers|].bucket.Index() :: run[|steps|].homes[m].scope(p)
    ensures var end := states[|pullers|];
      m in end.homes && Hashes(end.homes[m].Collected()) == end.bucket.Index()
  {
    InterleavingCoherence(content, run, steps, |steps|);
    Convergence(content, run[|steps|], pushers, states, pullers, m);
  }
}
