/** The auto-push scheduler: debounce after ingest, throttle between pushes, one push at a time, retry on
    the next ingest or flush. Each stretch of the source between two suspension points is one step. */
module AutoPush {
  import opened Collections
  import opened SyncTypes
  import opened SyncEngine
  import opened SyncTheorems

  datatype Config = Config(enabled: bool, debounce: nat, minInterval: nat)

  /** The module variables; a pending timer is its deadline. */
  datatype Sched = Sched(timer: Option<int>, inFlight: bool, dirty: bool, lastPush: int)

  function AfterIngest(c: Config, s: Sched, now: int): Sched {
    if c.enabled then s.(dirty := true, timer := Some(now + c.debounce)) else s
  }

  function Wait(c: Config, s: Sched, now: int): int {
    if c.minInterval - (now - s.lastPush) > 0 then c.minInterval - (now - s.lastPush) else 0
  }

  predicate Starts(c: Config, s: Sched, now: int, force: bool) {
    s.dirty && !s.inFlight && (force || Wait(c, s, now) == 0)
  }

  function AfterTry(c: Config, s: Sched, now: int, force: bool): Sched {
    if Starts(c, s, now, force) then s.(inFlight := true)
    else if s.dirty && !s.inFlight then s.(timer := Some(now + Wait(c, s, now)))
    else s
  }

  function AfterFire(c: Config, s: Sched, now: int): Sched {
    AfterTry(c, s.(timer := None), now, false)
  }

  predicate FlushStarts(c: Config, s: Sched, now: int) {
    c.enabled && Starts(c, s.(timer := None), now, true)
  }

  function AfterFlush(c: Config, s: Sched, now: int): Sched {
    if c.enabled then AfterTry(c, s.(timer := None), now, true) else s
  }

  class AutoSync {
    const config: Config
    var pushTimer: Option<int>
    var pushInFlight: bool
    var pushDirty: bool
    var lastPushMs: int

    function View(): Sched
      reads this
    {
      Sched(pushTimer, pushInFlight, pushDirty, lastPushMs)
    }

    constructor (config: Config)
      ensures this.config == config && View() == Sched(None, false, false, 0)
    {
      this.config := config;
      pushTimer, pushInFlight, pushDirty, lastPushMs := None, false, false, 0;
    }

    method ArmPushTimer(now: int, delay: int)
      modifies this`pushTimer
      ensures pushTimer == Some(now + if delay < 0 then 0 else delay)
    {
      pushTimer := None;
      pushTimer := Some(now + if delay < 0 then 0 else delay);
    }

    method ScheduleAfterIngest(now: int)
      modifies this
      ensures View() == AfterIngest(config, old(View()), now)
    {
      if !config.enabled { return; }
      pushDirty := true;
      ArmPushTimer(now, config.debounce);
    }

    method TryAutoPush(now: int, force: bool) returns (started: bool)
      modifies this
      ensures started == Starts(config, old(View()), now, force)
      ensures View() == AfterTry(config, old(View()), now, force)
    {
      if !pushDirty { return false; }
      if pushInFlight { return false; }
      if !force {
        var wait := config.minInterval - (now - lastPushMs);
        if wait > 0 {
          ArmPushTimer(now, wait);
          return false;
        }
      }
      pushInFlight := true;
      return true;
    }

    method TimerFires(now: int) returns (started: bool)
      modifies this
      ensures started == Starts(config, old(View()), now, false)
      ensures View() == AfterFire(config, old(View()), now)
    {
      pushTimer := None;
      started := TryAutoPush(now, false);
    }

    method PushSucceeds(now: int)
      modifies this
      ensures View() == old(View()).(inFlight := false, dirty := false, lastPush := now)
    {
      pushDirty := false;
      lastPushMs := now;
      pushInFlight := false;
    }

    method PushFails()
      modifies this
      ensures View() == old(View()).(inFlight := false)
    {
      pushInFlight := false;
    }

    method FlushPending(now: int) returns (started: bool)
      modifies this
      ensures started == FlushStarts(config, old(View()), now)
      ensures View() == AfterFlush(config, old(View()), now)
    {
      if !config.enabled { return false; }
      pushTimer := None;
      if !pushDirty && !pushInFlight { return false; }
      started := TryAutoPush(now, true);
    }
  }

  // Runs: the scheduler with a clock, the vault and the bucket.

  datatype Flight = Flight(forced: bool, started: int, snapshot: Option<Tree>)

  datatype Completion = Completion(at: int, forced: bool)

  /** A successful push: the files it collected and the bucket it found. */
  datatype Push = Push(snapshot: Tree, before: Bucket)

  /** `vault` is what collection sees; `ingested` is the part of it ingested since it last changed; `stranded`
      are ingested paths the last successful push had not collected in that form. */
  datatype World = World(
    now: int, sched: Sched, flight: Option<Flight>, vault: Tree, ingested: Tree, bucket: Bucket,
    stranded: set<Path>, last: Option<Push>, lastFailed: bool, log: seq<Completion>)

  /** `Fail` names the uploads made before the push broke off, `Others` what other machines make of the bucket. */
  datatype Step =
    | Tick(dt: nat)
    | WriteFile(path: Path, body: Bytes)
    | Delete(path: Path)
    | Ingest(path: Path)
    | Fire
    | Flush
    | Snapshot
    | Succeed
    | Fail(done: set<Path>)
    | Others(bucket: Bucket)

  predicate HasSnapshot(w: World) { w.flight.Some? && w.flight.value.snapshot.Some? }

  function SnapshotOf(w: World): Tree
    requires HasSnapshot(w)
  {
    w.flight.value.snapshot.value
  }

  predicate Holds(tree: Tree, p: Path, body: Bytes) { p in tree && tree[p] == body }

  /** Ingested paths the push in flight has not collected in that form. */
  function Late(w: World): set<Path> {
    set p | p in w.ingested && HasSnapshot(w) && !Holds(SnapshotOf(w), p, w.ingested[p])
  }

  predicate Enabled(w: World, step: Step) {
    match step
    case Ingest(p) => p in w.vault
    case Fire => w.sched.timer.Some? && w.sched.timer.value <= w.now
    case Snapshot => w.flight.Some? && w.flight.value.snapshot.None?
    case Succeed => HasSnapshot(w)
    case Fail(done) =>
      w.flight.Some? && done <= if HasSnapshot(w) then UploadSet(Hashes(SnapshotOf(w)), w.bucket.Index(), false) else {}
    case _ => true
  }

  function Start(w: World, sched: Sched, started: bool, forced: bool): World {
    w.(sched := sched, flight := if started then Some(Flight(forced, w.now, None)) else w.flight)
  }

  /** Changed contents have not been ingested. */
  function Changed(w: World, p: Path): World { w.(ingested := w.ingested - {p}, stranded := w.stranded - {p}) }

  /** Auto-pushes are not forced: a flush only ignores the interval. */
  function Pushed(w: World): World
    requires HasSnapshot(w)
  {
    w.(sched := w.sched.(inFlight := false, dirty := false, lastPush := w.now), flight := None,
       bucket := PushBucket(w.bucket, SnapshotOf(w), false), stranded := Late(w),
       last := Some(Push(SnapshotOf(w), w.bucket)), lastFailed := false,
       log := w.log + [Completion(w.now, w.flight.value.forced)])
  }

  function Do(c: Config, w: World, step: Step): World
    requires Enabled(w, step)
  {
    match step
    case Tick(dt) => w.(now := w.now + dt)
    case WriteFile(p, body) => if Holds(w.vault, p, body) then w else Changed(w, p).(vault := w.vault[p := body])
    case Delete(p) => Changed(w, p).(vault := w.vault - {p})
    case Ingest(p) => w.(sched := AfterIngest(c, w.sched, w.now), ingested := w.ingested[p := w.vault[p]])
    case Fire => Start(w, AfterFire(c, w.sched, w.now), Starts(c, w.sched, w.now, false), false)
    case Flush => Start(w, AfterFlush(c, w.sched, w.now), FlushStarts(c, w.sched, w.now), true)
    case Snapshot => w.(flight := Some(w.flight.value.(snapshot := Some(w.vault))))
    case Succeed => Pushed(w)
    case Fail(done) =>
      w.(sched := w.sched.(inFlight := false), flight := None, lastFailed := true,
         bucket := if HasSnapshot(w) then CutOff(w.bucket, SnapshotOf(w), done) else w.bucket)
    case Others(b) => w.(bucket := b)
  }

  ghost predicate IsRun(c: Config, worlds: seq<World>, steps: seq<Step>) {
    && |worlds| == |steps| + 1
    && forall i :: 0 <= i < |steps| ==> Enabled(worlds[i], steps[i]) && worlds[i + 1] == Do(c, worlds[i], steps[i])
  }

  function Initial(now: nat, vault: Tree, bucket: Bucket): World {
    World(now, Sched(None, false, false, 0), None, vault, map[], bucket, {}, None, false, [])
  }

  ghost predicate StartsFresh(w: World) {
    w.now >= 0 && w == Initial(w.now, w.vault, w.bucket)
  }

  ghost predicate FlightInv(w: World) {
    && (w.sched.inFlight <==> w.flight.Some?)
    && (w.flight.Some? ==> w.sched.dirty)
    && (w.sched.dirty ==> w.sched.timer.Some? || w.flight.Some? || w.lastFailed)
  }

  lemma StepKeepsFlight(c: Config, w: World, step: Step)
    requires c.enabled && Enabled(w, step) && FlightInv(w)
    ensures FlightInv(Do(c, w, step))
  {
  }

  /** In every run dirty always has something that will act on it, unless the last attempt failed. */
  lemma {:induction false} DirtyIsActedOn(c: Config, worlds: seq<World>, steps: seq<Step>, i: nat)
    requires c.enabled && IsRun(c, worlds, steps) && StartsFresh(worlds[0]) && i <= |steps|
    ensures FlightInv(worlds[i])
  {
    if i == 0 {
    } else {
      DirtyIsActedOn(c, worlds, steps, i - 1);
      StepKeepsFlight(c, worlds[i - 1], steps[i - 1]);
    }
  }

  /** A push starts only when none is in flight, whether a timer or a flush starts it. */
  lemma OnePushAtATime(c: Config, worlds: seq<World>, steps: seq<Step>, i: nat)
    requires c.enabled && IsRun(c, worlds, steps) && StartsFresh(worlds[0]) && i < |steps|
    requires worlds[i].flight != worlds[i + 1].flight && worlds[i + 1].flight.Some?
    ensures if steps[i] == Snapshot then
        worlds[i].flight.Some? && worlds[i + 1].flight.value.started == worlds[i].flight.value.started
      else
        worlds[i].flight.None? && (steps[i] == Fire || steps[i] == Flush)
        && worlds[i + 1].flight.value.started == worlds[i].now
  {
    DirtyIsActedOn(c, worlds, steps, i);
  }

  // The rate bound.

  ghost predicate RateInv(c: Config, w: World) {
    && (w.log == [] ==> w.sched.lastPush == 0)
    && (w.log != [] ==> w.sched.lastPush == w.log[|w.log| - 1].at <= w.now)
    && (w.flight.Some? ==> w.flight.value.started <= w.now)
    && (w.flight.Some? && !w.flight.value.forced ==> w.flight.value.started - w.sched.lastPush >= c.minInterval)
    && (forall i :: 1 <= i < |w.log| ==> Spaced(c, w.log[i - 1], w.log[i]))
  }

  predicate Spaced(c: Config, x: Completion, y: Completion) {
    x.at <= y.at && (!y.forced ==> y.at - x.at >= c.minInterval)
  }

  lemma {:induction false} PushesAreSpaced(c: Config, worlds: seq<World>, steps: seq<Step>, i: nat)
    requires IsRun(c, worlds, steps) && StartsFresh(worlds[0]) && i <= |steps|
    ensures RateInv(c, worlds[i]) && (worlds[i].sched.inFlight <==> worlds[i].flight.Some?)
  {
    if i == 0 {
    } else {
      PushesAreSpaced(c, worlds, steps, i - 1);
      StepKeepsRate(c, worlds[i - 1], steps[i - 1]);
    }
  }

  lemma StepKeepsRate(c: Config, w: World, step: Step)
    requires Enabled(w, step) && RateInv(c, w) && (w.sched.inFlight <==> w.flight.Some?)
    ensures RateInv(c, Do(c, w, step)) && (Do(c, w, step).sched.inFlight <==> Do(c, w, step).flight.Some?)
  {
  }

  /** Unforced completions in `log[i + 1..j + 1]`. */
  function Unforced(log: seq<Completion>, i: nat, j: nat): nat
    requires i <= j < |log|
    decreases j
  {
    if i == j then 0 else Unforced(log, i, j - 1) + if log[j].forced then 0 else 1
  }

  lemma {:induction false} SpacingAddsUp(c: Config, log: seq<Completion>, i: nat, j: nat)
    requires i <= j < |log|
    requires forall k :: 1 <= k < |log| ==> Spaced(c, log[k - 1], log[k])
    ensures log[j].at - log[i].at >= Unforced(log, i, j) * c.minInterval
    decreases j
  {
    if i == j {
    } else {
      SpacingAddsUp(c, log, i, j - 1);
      assert Spaced(c, log[j - 1], log[j]);
      assert (Unforced(log, i, j - 1) + 1) * c.minInterval == Unforced(log, i, j - 1) * c.minInterval + c.minInterval;
    }
  }

  /** Whatever ingests, failures and flushes happen in between, the successful pushes from one to another
      take at least the interval for every one of them that was not forced. */
  lemma RateBound(c: Config, worlds: seq<World>, steps: seq<Step>, n: nat, i: nat, j: nat)
    requires IsRun(c, worlds, steps) && StartsFresh(worlds[0]) && n <= |steps|
    requires i <= j < |worlds[n].log|
    ensures worlds[n].log[j].at - worlds[n].log[i].at >= Unforced(worlds[n].log, i, j) * c.minInterval
  {
    PushesAreSpaced(c, worlds, steps, n);
    SpacingAddsUp(c, worlds[n].log, i, j);
  }

  // Debouncing and switching off.

  lemma StepKeepsDeadline(c: Config, w: World, step: Step, at: int)
    requires Enabled(w, step) && c.enabled
    requires w.now >= at && (w.sched.timer.Some? ==> w.sched.timer.value >= at + c.debounce)
    ensures var v := Do(c, w, step);
      && v.now >= at && (v.sched.timer.Some? ==> v.sched.timer.value >= at + c.debounce)
      && (!step.Ingest? && !step.Fire? && !step.Flush? ==> v.sched.timer == w.sched.timer)
  {
  }

  /** An ingest arms the timer a debounce ahead, whether one was pending or not, and a push is in flight or not;
      it stays so armed until it fires, a flush cancels it or another ingest restarts it, and no timer is due
      earlier. */
  lemma {:induction false} IngestRestartsTimer(c: Config, worlds: seq<World>, steps: seq<Step>, i: nat, j: nat)
    requires c.enabled && IsRun(c, worlds, steps) && i < j <= |steps| && steps[i].Ingest?
    ensures worlds[j].now >= worlds[i].now
    ensures worlds[j].sched.timer.Some? ==> worlds[j].sched.timer.value >= worlds[i].now + c.debounce
    ensures (forall q :: i < q < j ==> !steps[q].Ingest? && !steps[q].Fire? && !steps[q].Flush?) ==>
      worlds[j].sched.timer == Some(worlds[i].now + c.debounce)
    decreases j
  {
    if j == i + 1 {
      assert worlds[j] == Do(c, worlds[i], steps[i]);
    } else {
      IngestRestartsTimer(c, worlds, steps, i, j - 1);
      StepKeepsDeadline(c, worlds[j - 1], steps[j - 1], worlds[i].now);
    }
  }

  /** A timer only fires when every ingest so far is at least a debounce ago: a burst of ingests is not pushed in
      its middle, unless a flush asks for it. */
  lemma DebounceHolds(c: Config, worlds: seq<World>, steps: seq<Step>, i: nat, j: nat)
    requires c.enabled && IsRun(c, worlds, steps) && i < j < |steps|
    requires steps[i].Ingest? && steps[j] == Fire
    ensures worlds[j].now >= worlds[i].now + c.debounce
  {
    IngestRestartsTimer(c, worlds, steps, i, j);
    assert Enabled(worlds[j], steps[j]);
  }

  /** Switched off, the scheduler never pushes, whatever is ingested or flushed. */
  lemma {:induction false} OffNeverPushes(c: Config, worlds: seq<World>, steps: seq<Step>, i: nat)
    requires !c.enabled && IsRun(c, worlds, steps) && StartsFresh(worlds[0]) && i <= |steps|
    ensures worlds[i].sched == worlds[0].sched && worlds[i].flight.None? && worlds[i].log == []
    ensures (forall q :: 0 <= q < |steps| ==> !steps[q].Others?) ==> worlds[i].bucket == worlds[0].bucket
  {
    if i == 0 {
    } else {
      OffNeverPushes(c, worlds, steps, i - 1);
      assert worlds[i] == Do(c, worlds[i - 1], steps[i - 1]);
    }
  }

  // The latency bound.

  function Bound(c: Config, t: int, lastPush: int): int {
    if t + c.debounce >= lastPush + c.minInterval then t + c.debounce else lastPush + c.minInterval
  }

  /** The clock never runs more than `delta` past a pending deadline. */
  ghost predicate Punctual(worlds: seq<World>, delta: nat) {
    forall i :: 0 <= i < |worlds| ==>
      worlds[i].sched.timer.Some? ==> worlds[i].now <= worlds[i].sched.timer.value + delta
  }

  ghost predicate Waiting(c: Config, w: World, t: int, lastPush: int) {
    && w.sched.dirty && !w.sched.inFlight && w.flight.None? && w.sched.lastPush == lastPush
    && w.sched.timer.Some?
    && (|| w.sched.timer.value == t + c.debounce
        || (w.sched.timer.value == Bound(c, t, lastPush) && w.now >= t + c.debounce))
  }

  /** When its deadline has come, a waiting scheduler starts a push, or arms the timer for the moment the
      throttle ends; that second firing starts it. */
  lemma FireStartsOrRearms(c: Config, w: World, t: int, lastPush: int)
    requires Waiting(c, w, t, lastPush) && Enabled(w, Fire)
    ensures var v := Do(c, w, Fire);
      if w.now >= Bound(c, t, lastPush) then v.flight == Some(Flight(false, w.now, None))
      else
        && Waiting(c, v, t, lastPush)
        && w.sched.timer == Some(t + c.debounce) && v.sched.timer == Some(Bound(c, t, lastPush))
  {
  }

  /** One step of waiting: the clock runs on up to the lateness, or a due timer acts. */
  lemma WaitStep(c: Config, w: World, step: Step, t: int, last: int, delta: nat)
    requires c.enabled && Enabled(w, step) && !step.Ingest? && !step.Flush?
    requires Waiting(c, w, t, last) && w.now <= Bound(c, t, last) + delta
    requires var v := Do(c, w, step); v.sched.timer.Some? ==> v.now <= v.sched.timer.value + delta
    ensures var v := Do(c, w, step);
      || (Waiting(c, v, t, last) && v.now <= Bound(c, t, last) + delta)
      || (step == Fire && Bound(c, t, last) <= w.now && v.flight == Some(Flight(false, w.now, None)))
  {
    if step == Fire { FireStartsOrRearms(c, w, t, last); }
  }

  /** From a waiting scheduler, without ingests and flushes, a push starts in time or is still waited for. */
  lemma {:induction false} WaitsOrStarts(c: Config, worlds: seq<World>, steps: seq<Step>, t: int, last: int,
          delta: nat, i: nat, j: nat)
    requires c.enabled && IsRun(c, worlds, steps) && i <= j <= |steps| && Punctual(worlds, delta)
    requires Waiting(c, worlds[i], t, last)
    requires forall q :: i <= q < j ==> !steps[q].Ingest? && !steps[q].Flush?
    ensures var bound := Bound(c, t, last);
      || (Waiting(c, worlds[j], t, last) && worlds[j].now <= bound + delta)
      || exists k :: i <= k < j && StartsAt(worlds, steps, k) && bound <= worlds[k].now <= bound + delta
    decreases j
  {
    var bound := Bound(c, t, last);
    if j == i {
    } else {
      WaitsOrStarts(c, worlds, steps, t, last, delta, i, j - 1);
      var w := worlds[j - 1];
      if Waiting(c, w, t, last) && w.now <= bound + delta {
        assert worlds[j] == Do(c, w, steps[j - 1]);
        assert worlds[j].sched.timer.Some? ==> worlds[j].now <= worlds[j].sched.timer.value + delta;
        WaitStep(c, w, steps[j - 1], t, last, delta);
        assert steps[j - 1] == Fire && worlds[j].flight == Some(Flight(false, w.now, None)) ==>
            StartsAt(worlds, steps, j - 1);
      } else {
        var k :| i <= k < j - 1 && StartsAt(worlds, steps, k) && bound <= worlds[k].now <= bound + delta;
      }
    }
  }

  /** After an ingest with no push in flight, the last one for a while and with no flush, either a push has
      started, no earlier than the bound and no later than the bound plus the clock's lateness, or it is still
      waited for and the clock has not passed that moment. */
  lemma LatencyBound(c: Config, worlds: seq<World>, steps: seq<Step>, delta: nat, i: nat, j: nat)
    requires c.enabled && IsRun(c, worlds, steps) && i < j <= |steps| && Punctual(worlds, delta)
    requires steps[i].Ingest? && worlds[i].flight.None? && !worlds[i].sched.inFlight
    requires forall q :: i < q < j ==> !steps[q].Ingest? && !steps[q].Flush?
    ensures var t, last := worlds[i].now, worlds[i].sched.lastPush; var bound := Bound(c, t, last);
      || (Waiting(c, worlds[j], t, last) && worlds[j].now <= bound + delta)
      || exists k :: i < k < j && StartsAt(worlds, steps, k) && bound <= worlds[k].now <= bound + delta
  {
    var t, last := worlds[i].now, worlds[i].sched.lastPush;
    assert worlds[i + 1] == Do(c, worlds[i], steps[i]);
    assert Waiting(c, worlds[i + 1], t, last);
    WaitsOrStarts(c, worlds, steps, t, last, delta, i + 1, j);
  }

  ghost predicate StartsAt(worlds: seq<World>, steps: seq<Step>, k: nat)
    requires |worlds| == |steps| + 1
  {
    k < |steps| && steps[k] == Fire && worlds[k + 1].flight == Some(Flight(false, worlds[k].now, None))
  }
}
