/** Streamable-HTTP sessions: admission under a cap, registration after further awaits, and idle eviction. */
module Sessions {
  import opened Collections

  type SessionId = nat

  type Transport = nat

  /** Sessions whose last touch is at least `idle` ago. A session without a touch counts as touched now. */
  function IdleSessions(transports: map<SessionId, Transport>, lastTouch: map<SessionId, int>, idle: nat,
          now: int): set<SessionId> {
    set sid | sid in transports && sid in lastTouch && now - lastTouch[sid] >= idle
  }

  function SweptTransports(transports: map<SessionId, Transport>, lastTouch: map<SessionId, int>, idle: nat,
          now: int): map<SessionId, Transport> {
    if idle == 0 then transports
    else map sid | sid in transports && sid !in IdleSessions(transports, lastTouch, idle, now) :: transports[sid]
  }

  /** A sweep forgets the touches of every session that is gone. */
  function SweptTouches(transports: map<SessionId, Transport>, lastTouch: map<SessionId, int>, idle: nat,
          now: int): map<SessionId, int> {
    if idle == 0 then lastTouch
    else map sid | sid in lastTouch && sid in SweptTransports(transports, lastTouch, idle, now) :: lastTouch[sid]
  }

  /** The interval between timer sweeps. */
  function TickMs(idle: nat): nat {
    var quarter := if idle / 4 > 250 then idle / 4 else 250;
    if quarter < 5000 then quarter else 5000
  }

  class SessionTable {
    const idleMs: nat
    const sessionMax: nat
    var transports: map<SessionId, Transport>
    var lastTouch: map<SessionId, int>

    constructor (idleMs: nat, sessionMax: nat)
      ensures this.idleMs == idleMs && this.sessionMax == sessionMax
      ensures transports == map[] && lastTouch == map[]
    {
      this.idleMs, this.sessionMax := idleMs, sessionMax;
      transports, lastTouch := map[], map[];
    }

    method Touch(sid: SessionId, now: int)
      modifies this`lastTouch
      ensures lastTouch == if idleMs == 0 then old(lastTouch) else old(lastTouch)[sid := now]
    {
      if idleMs == 0 { return; }
      lastTouch := lastTouch[sid := now];
    }

    method Sweep(now: int) returns (evicted: nat)
      modifies this
      ensures transports == SweptTransports(old(transports), old(lastTouch), idleMs, now)
      ensures lastTouch == SweptTouches(old(transports), old(lastTouch), idleMs, now)
      ensures idleMs > 0 ==> evicted == |IdleSessions(old(transports), old(lastTouch), idleMs, now)|
    {
      if idleMs == 0 { return 0; }
      evicted := EvictIdle(now);
      ForgetGone();
      EvictedMeansSwept(old(transports), old(lastTouch), idleMs, now);
    }

    method EvictIdle(now: int) returns (evicted: nat)
      requires idleMs > 0
      modifies this
      ensures transports == old(transports) - IdleSessions(old(transports), old(lastTouch), idleMs, now)
      ensures lastTouch == old(lastTouch) - IdleSessions(old(transports), old(lastTouch), idleMs, now)
      ensures evicted == |IdleSessions(old(transports), old(lastTouch), idleMs, now)|
    {
      evicted := 0;
      ghost var idle := IdleSessions(transports, lastTouch, idleMs, now);
      var entries := Enumerate(transports.Keys);
      for i := 0 to |entries|
        invariant transports == old(transports) - Among(entries[..i], idle)
        invariant lastTouch == old(lastTouch) - Among(entries[..i], idle)
        invariant evicted == |Among(entries[..i], idle)|
      {
        var sid := entries[i];
        AmongNext(entries, i, idle);
        DropNext(old(transports), entries, i, idle);
        DropNext(old(lastTouch), entries, i, idle);
        IdleNext(old(transports), old(lastTouch), idleMs, now, entries, i);
        var touched := if sid in lastTouch then lastTouch[sid] else now;
        if now - touched < idleMs { continue; }
        lastTouch := lastTouch - {sid};
        transports := transports - {sid};
        evicted := evicted + 1;
      }
      AmongAll(entries, old(transports).Keys, idle);
    }

    /** Whether the next session is idle can be told from the touches left so far. */
    static lemma IdleNext(transports: map<SessionId, Transport>, lastTouch: map<SessionId, int>, idle: nat, now: int,
            entries: seq<SessionId>, i: nat)
      requires 0 < idle && Lists(entries, transports.Keys) && i < |entries|
      ensures var part := IdleSessions(transports, lastTouch, idle, now);
        var left := lastTouch - Among(entries[..i], part);
        now - (if entries[i] in left then left[entries[i]] else now) < idle <==> entries[i] !in part
    {
      ListsPrefix(entries, transports.Keys, i);
      AmongNext(entries, i, IdleSessions(transports, lastTouch, idle, now));
    }

    static lemma EvictedMeansSwept(transports: map<SessionId, Transport>, lastTouch: map<SessionId, int>,
            idle: nat, now: int)
      requires idle > 0
      ensures var gone := IdleSessions(transports, lastTouch, idle, now);
        && transports - gone == SweptTransports(transports, lastTouch, idle, now)
        && SweptTouches(transports, lastTouch, idle, now)
          == map sid | sid in lastTouch - gone && sid in transports - gone :: (lastTouch - gone)[sid]
    {
    }

    method ForgetGone()
      modifies this`lastTouch
      ensures lastTouch == map sid | sid in old(lastTouch) && sid in transports :: old(lastTouch)[sid]
    {
      var keys := Enumerate(lastTouch.Keys);
      for i := 0 to |keys|
        invariant lastTouch ==
          map sid | sid in old(lastTouch) && (sid in keys[..i] ==> sid in transports) :: old(lastTouch)[sid]
      {
        ListsPrefix(keys, old(lastTouch).Keys, i);
        assert keys[..i + 1] == keys[..i] + [keys[i]];
        if keys[i] !in transports {
          lastTouch := lastTouch - {keys[i]};
        }
      }
      assert forall sid :: sid in old(lastTouch) ==> sid in Elements(keys[..|keys|]);
    }

    /** The synchronous part of an initialize request: sweep, then compare with the cap. */
    method Admit(now: int) returns (admitted: bool)
      modifies this
      ensures transports == SweptTransports(old(transports), old(lastTouch), idleMs, now)
      ensures lastTouch == SweptTouches(old(transports), old(lastTouch), idleMs, now)
      ensures admitted <==> |transports| < sessionMax
    {
      var _ := Sweep(now);
      admitted := !(|transports| >= sessionMax);
    }

    /** The callback that runs once the handshake has produced a session id. */
    method Register(sid: SessionId, transport: Transport, now: int)
      modifies this
      ensures transports == old(transports)[sid := transport]
      ensures lastTouch == if idleMs == 0 then old(lastTouch) else old(lastTouch)[sid := now]
    {
      transports := transports[sid := transport];
      Touch(sid, now);
    }

    method OnClose(sid: SessionId)
      modifies this`transports
      ensures transports == old(transports) - {sid}
    {
      transports := transports - {sid};
    }

    /** A later request of a session: found sessions are touched, others are refused. */
    method Lookup(sid: SessionId, now: int) returns (transport: Option<Transport>)
      modifies this`lastTouch
      ensures transport == if sid in transports then Some(transports[sid]) else None
      ensures lastTouch == if sid in transports && idleMs > 0 then old(lastTouch)[sid := now] else old(lastTouch)
    {
      if sid !in transports { return None; }
      Touch(sid, now);
      transport := Some(transports[sid]);
    }
  }

  // Runs. `pending` counts the initializes that have passed the check and not yet registered or given up.

  datatype Config = Config(idle: nat, max: nat)

  datatype World = World(now: int, transports: map<SessionId, Transport>, lastTouch: map<SessionId, int>,
          pending: nat, lastSweep: int)

  datatype Step =
    | Tick(dt: nat)
    | TimerSweep
    | Initialize
    | Register(sid: SessionId, transport: Transport)
    | GiveUp
    | Close(sid: SessionId)
    | Request(sid: SessionId)

  predicate Enabled(w: World, step: Step) {
    match step
    case Register(_, _) => w.pending > 0
    case GiveUp => w.pending > 0
    case Request(sid) => sid in w.transports
    case _ => true
  }

  function Swept(c: Config, w: World): World {
    w.(transports := SweptTransports(w.transports, w.lastTouch, c.idle, w.now),
       lastTouch := SweptTouches(w.transports, w.lastTouch, c.idle, w.now))
  }

  function Touched(c: Config, w: World, sid: SessionId): World {
    if c.idle == 0 then w else w.(lastTouch := w.lastTouch[sid := w.now])
  }

  function Do(c: Config, w: World, step: Step): World
    requires Enabled(w, step)
  {
    match step
    case Tick(dt) => w.(now := w.now + dt)
    case TimerSweep => Swept(c, w).(lastSweep := w.now)
    case Initialize =>
      var v := Swept(c, w);
      if |v.transports| < c.max then v.(pending := v.pending + 1) else v
    case Register(sid, transport) =>
      Touched(c, w.(transports := w.transports[sid := transport], pending := w.pending - 1), sid)
    case GiveUp => w.(pending := w.pending - 1)
    case Close(sid) => w.(transports := w.transports - {sid})
    case Request(sid) => Touched(c, w, sid)
  }

  ghost predicate IsRun(c: Config, worlds: seq<World>, steps: seq<Step>) {
    && |worlds| == |steps| + 1
    && forall i :: 0 <= i < |steps| ==> Enabled(worlds[i], steps[i]) && worlds[i + 1] == Do(c, worlds[i], steps[i])
  }

  function Initial(now: int): World { World(now, map[], map[], 0, now) }

  // Capacity.

  lemma SweepShrinks(transports: map<SessionId, Transport>, lastTouch: map<SessionId, int>, idle: nat, now: int)
    ensures |SweptTransports(transports, lastTouch, idle, now)| <= |transports|
  {
    var after := SweptTransports(transports, lastTouch, idle, now);
    assert after.Keys <= transports.Keys;
    SubsetSize(after.Keys, transports.Keys);
    assert |after| == |after.Keys| && |transports| == |transports.Keys|;
  }

  lemma StepKeepsCapacity(c: Config, w: World, step: Step, k: nat)
    requires Enabled(w, step) && |w.transports| + w.pending < c.max + k
    requires Do(c, w, step).pending <= k
    ensures |Do(c, w, step).transports| + Do(c, w, step).pending < c.max + k
  {
    match step
    case Register(sid, transport) => SizeAfterSet(w.transports, sid, transport);
    case Close(sid) => SizeAfterDrop(w.transports, sid);
    case TimerSweep => SweepShrinks(w.transports, w.lastTouch, c.idle, w.now);
    case Initialize => SweepShrinks(w.transports, w.lastTouch, c.idle, w.now);
    case _ =>
  }

  lemma SizeAfterSet(m: map<SessionId, Transport>, sid: SessionId, t: Transport)
    ensures |m[sid := t]| <= |m| + 1
  {
  }

  lemma SizeAfterDrop(m: map<SessionId, Transport>, sid: SessionId)
    ensures |m - {sid}| <= |m|
  {
  }

  /** If never more than `k` initializes are between the check and their registration, the live sessions
      never exceed the cap by more than `k - 1`. */
  lemma {:induction false} CapacityBound(c: Config, worlds: seq<World>, steps: seq<Step>, start: int, k: nat, i: nat)
    requires IsRun(c, worlds, steps) && worlds[0] == Initial(start) && i <= |steps|
    requires 1 <= c.max && 1 <= k
    requires forall q :: 0 <= q < |worlds| ==> worlds[q].pending <= k
    ensures |worlds[i].transports| + worlds[i].pending <= c.max + k - 1
    ensures |worlds[i].transports| <= c.max + k - 1
  {
    if i == 0 {
    } else {
      CapacityBound(c, worlds, steps, start, k, i - 1);
      assert worlds[i].pending <= k;
      StepKeepsCapacity(c, worlds[i - 1], steps[i - 1], k);
    }
  }

  // The bound is met: `k` overlapping initializes at one session below the cap all register.

  function Numbered(n: nat): (m: map<SessionId, Transport>)
    ensures forall sid: nat :: sid in m <==> sid < n
    ensures |m| == n
  {
    if n == 0 then map[] else Numbered(n - 1)[n - 1 := n - 1]
  }

  function TouchedAt(n: nat, now: int): (m: map<SessionId, int>)
    ensures forall sid: nat :: (sid in m <==> sid < n) && (sid in m ==> m[sid] == now)
  {
    if n == 0 then map[] else TouchedAt(n - 1, now)[n - 1 := now]
  }

  function Full(c: Config, n: nat, now: int, pending: nat): World {
    World(now, Numbered(n), if c.idle == 0 then map[] else TouchedAt(n, now), pending, now)
  }

  lemma AdmitsBelowCap(c: Config, n: nat, now: int, pending: nat)
    requires n < c.max
    ensures Do(c, Full(c, n, now, pending), Initialize) == Full(c, n, now, pending + 1)
  {
    var w := Full(c, n, now, pending);
    assert SweptTransports(w.transports, w.lastTouch, c.idle, now) == w.transports;
    assert SweptTouches(w.transports, w.lastTouch, c.idle, now) == w.lastTouch;
  }

  lemma RegistersNext(c: Config, n: nat, now: int, pending: nat)
    requires pending > 0
    ensures Do(c, Full(c, n, now, pending), Step.Register(n, n)) == Full(c, n + 1, now, pending - 1)
  {
  }

  ghost predicate PendingAtMost(worlds: seq<World>, k: nat) {
    forall q :: 0 <= q < |worlds| ==> worlds[q].pending <= k
  }

  lemma Extend(c: Config, worlds: seq<World>, steps: seq<Step>, step: Step, w: World, k: nat)
        returns (longer: seq<World>)
    requires IsRun(c, worlds, steps) && Enabled(worlds[|steps|], step) && Do(c, worlds[|steps|], step) == w
    requires PendingAtMost(worlds, k) && w.pending <= k
    ensures longer == worlds + [w] && IsRun(c, longer, steps + [step]) && longer[0] == worlds[0]
    ensures PendingAtMost(longer, k)
  {
    longer := worlds + [w];
  }

  lemma {:induction false} FillOneByOne(c: Config, n: nat, now: int, k: nat)
        returns (worlds: seq<World>, steps: seq<Step>)
    requires n < c.max && 1 <= k
    ensures IsRun(c, worlds, steps) && worlds[0] == Initial(now) && worlds[|steps|] == Full(c, n, now, 0)
    ensures PendingAtMost(worlds, k)
  {
    if n == 0 {
      worlds, steps := [Initial(now)], [];
    } else {
      worlds, steps := FillOneByOne(c, n - 1, now, k);
      AdmitsBelowCap(c, n - 1, now, 0);
      worlds := Extend(c, worlds, steps, Initialize, Full(c, n - 1, now, 1), k);
      steps := steps + [Initialize];
      RegistersNext(c, n - 1, now, 1);
      worlds := Extend(c, worlds, steps, Step.Register(n - 1, n - 1), Full(c, n, now, 0), k);
      steps := steps + [Step.Register(n - 1, n - 1)];
    }
  }

  lemma {:induction false} AdmitTogether(c: Config, now: int, k: nat, j: nat)
        returns (worlds: seq<World>, steps: seq<Step>)
    requires 1 <= c.max && 1 <= k && j <= k
    ensures IsRun(c, worlds, steps) && worlds[0] == Initial(now) && worlds[|steps|] == Full(c, c.max - 1, now, j)
    ensures PendingAtMost(worlds, k)
  {
    if j == 0 {
      worlds, steps := FillOneByOne(c, c.max - 1, now, k);
    } else {
      worlds, steps := AdmitTogether(c, now, k, j - 1);
      AdmitsBelowCap(c, c.max - 1, now, j - 1);
      worlds := Extend(c, worlds, steps, Initialize, Full(c, c.max - 1, now, j), k);
      steps := steps + [Initialize];
    }
  }

  lemma {:induction false} RegisterTogether(c: Config, now: int, k: nat, j: nat)
        returns (worlds: seq<World>, steps: seq<Step>)
    requires 1 <= c.max && 1 <= k && j <= k
    ensures IsRun(c, worlds, steps) && worlds[0] == Initial(now)
    ensures worlds[|steps|] == Full(c, c.max - 1 + j, now, k - j)
    ensures PendingAtMost(worlds, k)
  {
    if j == 0 {
      worlds, steps := AdmitTogether(c, now, k, k);
    } else {
      worlds, steps := RegisterTogether(c, now, k, j - 1);
      var n := c.max - 1 + (j - 1);
      RegistersNext(c, n, now, k - (j - 1));
      worlds := Extend(c, worlds, steps, Step.Register(n, n), Full(c, n + 1, now, k - j), k);
      steps := steps + [Step.Register(n, n)];
    }
  }

  /** For every cap and every `k` some run with at most `k` overlapping initializes has `max + k - 1` sessions. */
  lemma CapacityBoundIsTight(c: Config, now: int, k: nat) returns (worlds: seq<World>, steps: seq<Step>)
    requires 1 <= c.max && 1 <= k
    ensures IsRun(c, worlds, steps) && worlds[0] == Initial(now) && PendingAtMost(worlds, k)
    ensures |worlds[|steps|].transports| == c.max + k - 1
  {
    worlds, steps := RegisterTogether(c, now, k, k);
  }

  // Idle eviction.

  ghost predicate Aligned(c: Config, w: World) {
    && w.transports.Keys <= w.lastTouch.Keys
    && (forall sid <- w.lastTouch :: w.lastTouch[sid] <= w.now)
    && (forall sid <- w.transports :: w.lastSweep - w.lastTouch[sid] < c.idle)
    && w.lastSweep <= w.now
  }

  /** Timer sweeps come at most `late` after their due time. */
  ghost predicate Punctual(c: Config, worlds: seq<World>, late: nat) {
    forall q :: 0 <= q < |worlds| ==> worlds[q].now <= worlds[q].lastSweep + TickMs(c.idle) + late
  }

  lemma StepKeepsAligned(c: Config, w: World, step: Step)
    requires 0 < c.idle && Enabled(w, step) && Aligned(c, w)
    ensures Aligned(c, Do(c, w, step))
  {
  }

  lemma {:induction false} RunsStayAligned(c: Config, worlds: seq<World>, steps: seq<Step>, start: int, i: nat)
    requires 0 < c.idle && IsRun(c, worlds, steps) && worlds[0] == Initial(start) && i <= |steps|
    ensures Aligned(c, worlds[i])
    ensures worlds[i].transports.Keys <= worlds[i].lastTouch.Keys
  {
    if i == 0 {
    } else {
      RunsStayAligned(c, worlds, steps, start, i - 1);
      StepKeepsAligned(c, worlds[i - 1], steps[i - 1]);
    }
  }

  /** No session outlives its last touch by the idle time plus one sweep interval. */
  lemma IdleSessionsGo(c: Config, worlds: seq<World>, steps: seq<Step>, start: int, late: nat, i: nat)
    requires 0 < c.idle && IsRun(c, worlds, steps) && worlds[0] == Initial(start) && i <= |steps|
    requires Punctual(c, worlds, late)
    ensures worlds[i].transports.Keys <= worlds[i].lastTouch.Keys
    ensures forall sid <- worlds[i].transports ::
      worlds[i].now - worlds[i].lastTouch[sid] < c.idle + TickMs(c.idle) + late
  {
    RunsStayAligned(c, worlds, steps, start, i);
    var w := worlds[i];
    forall sid | sid in w.transports ensures w.now - w.lastTouch[sid] < c.idle + TickMs(c.idle) + late {
      assert w.lastSweep - w.lastTouch[sid] < c.idle;
    }
  }

  /** In a run a session disappears without being closed only in a sweep, and then exactly when its last
      touch is at least the idle time ago; the touches left are those of the live sessions. */
  lemma EvictsExactlyIdle(c: Config, worlds: seq<World>, steps: seq<Step>, start: int, i: nat, sid: SessionId)
    requires 0 < c.idle && IsRun(c, worlds, steps) && worlds[0] == Initial(start) && i < |steps|
    requires sid in worlds[i].transports && steps[i] != Close(sid)
    ensures sid in worlds[i].lastTouch
    ensures sid !in worlds[i + 1].transports <==>
      (steps[i].TimerSweep? || steps[i].Initialize?) && worlds[i].now - worlds[i].lastTouch[sid] >= c.idle
    ensures steps[i].TimerSweep? || steps[i].Initialize? ==>
      worlds[i + 1].lastTouch.Keys == worlds[i + 1].transports.Keys
  {
    RunsStayAligned(c, worlds, steps, start, i);
    var v := Swept(c, worlds[i]);
    forall s | s in v.transports ensures s in v.lastTouch {
      assert s in worlds[i].transports.Keys;
    }
    assert v.lastTouch.Keys == v.transports.Keys;
  }

  // Sessions in use.

  predicate Touches(step: Step, sid: SessionId) {
    (step.Register? && step.sid == sid) || (step.Request? && step.sid == sid)
  }

  /** The touch of a live session is the time of its last registration or request. */
  lemma {:induction false} TouchedLast(c: Config, worlds: seq<World>, steps: seq<Step>, start: int, i: nat,
          sid: SessionId)
        returns (k: nat)
    requires 0 < c.idle && IsRun(c, worlds, steps) && worlds[0] == Initial(start) && i <= |steps|
    requires sid in worlds[i].transports
    ensures k < i && Touches(steps[k], sid) && forall q :: k < q < i ==> !Touches(steps[q], sid)
    ensures sid in worlds[i].lastTouch && worlds[i].lastTouch[sid] == worlds[k].now
  {
    RunsStayAligned(c, worlds, steps, start, i);
    assert sid in worlds[i].transports.Keys;
    if Touches(steps[i - 1], sid) {
      k := i - 1;
    } else {
      UntouchedStep(c, worlds[i - 1], steps[i - 1], sid);
      k := TouchedLast(c, worlds, steps, start, i - 1, sid);
    }
  }

  lemma UntouchedStep(c: Config, w: World, step: Step, sid: SessionId)
    requires Enabled(w, step) && !Touches(step, sid)
    requires sid in Do(c, w, step).transports && sid in Do(c, w, step).lastTouch
    ensures sid in w.transports && sid in w.lastTouch && w.lastTouch[sid] == Do(c, w, step).lastTouch[sid]
    ensures step != Close(sid)
  {
  }

  /** A session stays while its last registration or request is less than the idle time ago, and when idle
      eviction is off, unless it is closed. */
  lemma {:induction false} SessionsInUseStay(c: Config, worlds: seq<World>, steps: seq<Step>, k: nat, i: nat,
          sid: SessionId)
    requires IsRun(c, worlds, steps) && k < i <= |steps| && Touches(steps[k], sid)
    requires forall q :: k < q < i ==> steps[q] != Close(sid)
    requires c.idle == 0 || worlds[i].now - worlds[k].now < c.idle
    ensures sid in worlds[i].transports
    ensures 0 < c.idle ==> sid in worlds[i].lastTouch && worlds[i].lastTouch[sid] >= worlds[k].now
    ensures worlds[i].now >= worlds[k].now
    decreases i
  {
    if i == k + 1 {
      assert worlds[i] == Do(c, worlds[k], steps[k]);
    } else {
      assert worlds[i] == Do(c, worlds[i - 1], steps[i - 1]);
      ClockGoesOn(c, worlds[i - 1], steps[i - 1]);
      SessionsInUseStay(c, worlds, steps, k, i - 1, sid);
      InUseStep(c, worlds[i - 1], steps[i - 1], sid, worlds[k].now);
    }
  }

  lemma ClockGoesOn(c: Config, w: World, step: Step)
    requires Enabled(w, step)
    ensures Do(c, w, step).now >= w.now
  {
  }

  lemma InUseStep(c: Config, w: World, step: Step, sid: SessionId, at: int)
    requires Enabled(w, step) && sid in w.transports && step != Close(sid) && w.now >= at
    requires 0 < c.idle ==> sid in w.lastTouch && w.lastTouch[sid] >= at && w.now - at < c.idle
    ensures sid in Do(c, w, step).transports
    ensures 0 < c.idle ==> sid in Do(c, w, step).lastTouch && Do(c, w, step).lastTouch[sid] >= at
  {
  }

  /** A closed or evicted session does not come back unless it is registered again. */
  lemma {:induction false} GoneStaysGone(c: Config, worlds: seq<World>, steps: seq<Step>, k: nat, i: nat,
          sid: SessionId)
    requires IsRun(c, worlds, steps) && k < i <= |steps|
    requires steps[k] == Close(sid) || sid !in worlds[k + 1].transports
    requires forall q :: k < q < i ==> !(steps[q].Register? && steps[q].sid == sid)
    ensures sid !in worlds[i].transports
    decreases i
  {
    if i == k + 1 {
      assert worlds[i] == Do(c, worlds[k], steps[k]);
    } else {
      GoneStaysGone(c, worlds, steps, k, i - 1, sid);
      assert worlds[i] == Do(c, worlds[i - 1], steps[i - 1]);
    }
  }

  /** A sweep evicts a session exactly when its last registration or request is at least the idle time ago. */
  lemma SweepEvictsIff(c: Config, worlds: seq<World>, steps: seq<Step>, start: int, k: nat, i: nat, sid: SessionId)
    requires 0 < c.idle && IsRun(c, worlds, steps) && worlds[0] == Initial(start) && k < i < |steps|
    requires sid in worlds[i].transports && (steps[i].TimerSweep? || steps[i].Initialize?)
    requires Touches(steps[k], sid) && forall q :: k < q < i ==> !Touches(steps[q], sid)
    ensures sid !in worlds[i + 1].transports <==> worlds[i].now - worlds[k].now >= c.idle
  {
    var last := TouchedLast(c, worlds, steps, start, i, sid);
    assert last == k;
    EvictsExactlyIdle(c, worlds, steps, start, i, sid);
  }

  /** From one second of idle time on, the sweep interval is a quarter of it in whole milliseconds, up to its
      limit. */
  lemma TickWithinQuarter(idle: nat)
    ensures 1000 <= idle ==> 4 * TickMs(idle) <= idle
    ensures 1000 <= idle <= 20000 ==> idle < 4 * TickMs(idle) + 4
    ensures (idle <= 1000 ==> TickMs(idle) == 250) && (20000 <= idle ==> TickMs(idle) == 5000)
    ensures 250 <= TickMs(idle) <= 5000
  {
  }
}
