/** The throttled pull before a recall: one at a time, and at most one attempt per interval. */
module AutoPull {

  datatype Config = Config(enabled: bool, minPull: nat)

  datatype Throttle = Throttle(inFlight: bool, lastPull: int)

  predicate Starts(c: Config, t: Throttle, now: int) {
    c.enabled && !t.inFlight && now - t.lastPull >= c.minPull
  }

  class AutoPuller {
    const config: Config
    var pullInFlight: bool
    var lastPullMs: int

    function View(): Throttle
      reads this
    {
      Throttle(pullInFlight, lastPullMs)
    }

    /** The stretch before the pull runs; the interval counts from here, whether or not the pull succeeds. */
    method MaybeAutoPullBeforeRecall(now: int) returns (started: bool)
      modifies this
      ensures started == Starts(config, old(View()), now)
      ensures View() == if started then Throttle(true, now) else old(View())
    {
      if !config.enabled { return false; }
      if pullInFlight || now - lastPullMs < config.minPull { return false; }
      pullInFlight := true;
      lastPullMs := now;
      return true;
    }

    method PullSettles()
      modifies this
      ensures View() == old(View()).(inFlight := false)
    {
      pullInFlight := false;
    }
  }

  // Runs. `started` are the times at which pulls began, `settled` how many have ended.

  datatype World = World(now: int, throttle: Throttle, started: seq<int>, settled: nat)

  datatype Step = Tick(dt: nat) | Recall | Settle

  predicate Enabled(w: World, step: Step) { step.Settle? ==> w.settled < |w.started| }

  function Do(c: Config, w: World, step: Step): World {
    match step
    case Tick(dt) => w.(now := w.now + dt)
    case Recall =>
      if Starts(c, w.throttle, w.now) then w.(throttle := Throttle(true, w.now), started := w.started + [w.now]) else w
    case Settle => w.(throttle := w.throttle.(inFlight := false), settled := w.settled + 1)
  }

  ghost predicate IsRun(c: Config, worlds: seq<World>, steps: seq<Step>) {
    && |worlds| == |steps| + 1
    && forall i :: 0 <= i < |steps| ==> Enabled(worlds[i], steps[i]) && worlds[i + 1] == Do(c, worlds[i], steps[i])
  }

  function Initial(now: nat): World { World(now, Throttle(false, 0), [], 0) }

  ghost predicate Spaced(c: Config, w: World) {
    && w.throttle.lastPull <= w.now
    && (w.started != [] ==> w.throttle.lastPull == w.started[|w.started| - 1])
    && w.settled + (if w.throttle.inFlight then 1 else 0) == |w.started|
    && forall i, j :: 0 <= i < j < |w.started| ==> w.started[j] - w.started[i] >= (j - i) * c.minPull
  }

  lemma StepKeepsSpaced(c: Config, w: World, step: Step)
    requires Enabled(w, step) && Spaced(c, w)
    ensures Spaced(c, Do(c, w, step))
  {
    var v := Do(c, w, step);
    var n := |w.started|;
    forall i, j | 0 <= i < j < |v.started| ensures v.started[j] - v.started[i] >= (j - i) * c.minPull {
      if j == n {
        if i < n - 1 {
          assert w.started[n - 1] - w.started[i] >= (n - 1 - i) * c.minPull;
        }
        assert (n - i) * c.minPull == (n - 1 - i) * c.minPull + c.minPull;
      }
    }
  }

  /** In every run at most one pull is unfinished, and the starts of any two are at least the interval apart
      for each pull from one to the other, whatever recalls and failures come in between. */
  lemma {:induction false} PullRateBound(c: Config, worlds: seq<World>, steps: seq<Step>, start: nat, i: nat)
    requires IsRun(c, worlds, steps) && worlds[0] == Initial(start) && i <= |steps|
    ensures Spaced(c, worlds[i])
    ensures |worlds[i].started| - 1 <= worlds[i].settled <= |worlds[i].started|
    ensures forall a, b :: 0 <= a < b < |worlds[i].started| ==>
      worlds[i].started[b] - worlds[i].started[a] >= (b - a) * c.minPull
  {
    if i == 0 {
    } else {
      PullRateBound(c, worlds, steps, start, i - 1);
      StepKeepsSpaced(c, worlds[i - 1], steps[i - 1]);
    }
  }

  /** A recall is served without a pull exactly when pulls are off, one is unfinished, one began within the
      interval, or the clock itself is still within the first interval. */
  lemma RecallSkipsIff(c: Config, worlds: seq<World>, steps: seq<Step>, start: nat, i: nat)
    requires IsRun(c, worlds, steps) && worlds[0] == Initial(start) && i < |steps| && steps[i] == Recall
    ensures worlds[i + 1] == worlds[i] <==>
      || !c.enabled
      || worlds[i].settled < |worlds[i].started|
      || (exists at <- worlds[i].started :: worlds[i].now - at < c.minPull)
      || (worlds[i].started == [] && worlds[i].now < c.minPull)
  {
    PullRateBound(c, worlds, steps, start, i);
    NoPullYet(c, worlds, steps, start, i);
    LastPullIsLatest(c, worlds[i]);
    assert Starts(c, worlds[i].throttle, worlds[i].now) ==> |worlds[i + 1].started| == |worlds[i].started| + 1;
  }

  lemma LastPullIsLatest(c: Config, w: World)
    requires Spaced(c, w) && (w.started == [] ==> w.throttle.lastPull == 0)
    ensures w.now - w.throttle.lastPull < c.minPull <==>
      (exists at <- w.started :: w.now - at < c.minPull) || (w.started == [] && w.now < c.minPull)
  {
    if w.started != [] {
      assert w.throttle.lastPull in w.started;
      forall at | at in w.started ensures at <= w.throttle.lastPull {
        var k :| 0 <= k < |w.started| && w.started[k] == at;
        NoEarlierThan(c, w, k);
      }
    }
  }

  lemma NoEarlierThan(c: Config, w: World, k: nat)
    requires Spaced(c, w) && k < |w.started|
    ensures w.started[k] <= w.throttle.lastPull
  {
  }

  lemma {:induction false} NoPullYet(c: Config, worlds: seq<World>, steps: seq<Step>, start: nat, i: nat)
    requires IsRun(c, worlds, steps) && worlds[0] == Initial(start) && i <= |steps|
    ensures worlds[i].started == [] ==> worlds[i].throttle.lastPull == 0
  {
    if i == 0 {
    } else {
      NoPullYet(c, worlds, steps, start, i - 1);
    }
  }
}
