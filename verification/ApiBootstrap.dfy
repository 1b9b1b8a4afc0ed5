/** Single-flight creation of the process-wide API handle: `ensure`, its build, and `dispose`. */
module ApiBootstrap {
  import opened Collections

  type BuildId = nat

  type Handle = nat

  /** How a call to `ensure` is answered: with the handle there is, by waiting on a build already begun, or
      by waiting on the one it begins. */
  datatype Ticket = Have(handle: Handle) | Waits(build: BuildId) | Starts(build: BuildId)

  /** The module variables `apiHandle` and `ensureApiPromise`. */
  datatype Slots = Slots(handle: Option<Handle>, promise: Option<BuildId>)

  function Ask(s: Slots, nextBuild: BuildId): Ticket {
    if s.handle.Some? then Have(s.handle.value)
    else if s.promise.Some? then Waits(s.promise.value)
    else Starts(nextBuild)
  }

  class ApiHolder {
    var apiHandle: Option<Handle>
    var ensureApiPromise: Option<BuildId>

    function View(): Slots
      reads this
    {
      Slots(apiHandle, ensureApiPromise)
    }

    /** The synchronous part of `ensure`; `nextBuild` names the build it begins if it has to. */
    method Ensure(nextBuild: BuildId) returns (ticket: Ticket)
      modifies this
      ensures ticket == Ask(old(View()), nextBuild)
      ensures View() == if ticket.Starts? then Slots(None, Some(nextBuild)) else old(View())
    {
      if apiHandle.Some? { return Have(apiHandle.value); }
      if ensureApiPromise.Some? { return Waits(ensureApiPromise.value); }
      ensureApiPromise := Some(nextBuild);
      ticket := Starts(nextBuild);
    }

    method BuildSucceeds(handle: Handle)
      modifies this
      ensures View() == old(View()).(handle := Some(handle))
    {
      apiHandle := Some(handle);
    }

    /** The starting call resumes, whatever became of its build. */
    method StarterResumes()
      modifies this
      ensures View() == old(View()).(promise := None)
    {
      ensureApiPromise := None;
    }

    method Dispose() returns (handle: Option<Handle>)
      modifies this
      ensures handle == old(apiHandle) && View() == Slots(None, None)
    {
      handle := apiHandle;
      apiHandle := None;
      ensureApiPromise := None;
    }
  }

  // Runs. A build's handle carries the build's number. `waiting` are builds whose starter has not resumed;
  // `created` and `tickets` are those since the last disposal.

  datatype World = World(
    slots: Slots, running: set<BuildId>, settled: map<BuildId, bool>, waiting: set<BuildId>, next: BuildId,
    created: set<Handle>, tickets: seq<Ticket>)

  datatype Step = Ensure | Succeed(build: BuildId) | Fail(build: BuildId) | Resume(build: BuildId) | Dispose

  predicate Enabled(w: World, step: Step) {
    match step
    case Succeed(b) => b in w.running
    case Fail(b) => b in w.running
    case Resume(b) => b in w.waiting && b in w.settled
    case _ => true
  }

  function Do(w: World, step: Step): World
    requires Enabled(w, step)
  {
    match step
    case Ensure =>
      var ticket := Ask(w.slots, w.next);
      var v := w.(tickets := w.tickets + [ticket]);
      if ticket.Starts? then
        v.(slots := Slots(None, Some(w.next)), running := w.running + {w.next},
           waiting := w.waiting + {w.next}, next := w.next + 1)
      else v
    case Succeed(b) =>
      w.(slots := w.slots.(handle := Some(b)), running := w.running - {b}, settled := w.settled[b := true],
         created := w.created + {b})
    case Fail(b) => w.(running := w.running - {b}, settled := w.settled[b := false])
    case Resume(b) => w.(slots := w.slots.(promise := None), waiting := w.waiting - {b})
    case Dispose => w.(slots := Slots(None, None), created := {}, tickets := [])
  }

  function Initial(): World { World(Slots(None, None), {}, map[], {}, 0, {}, []) }

  ghost predicate IsRun(worlds: seq<World>, steps: seq<Step>) {
    && |worlds| == |steps| + 1
    && forall i :: 0 <= i < |steps| ==> Enabled(worlds[i], steps[i]) && worlds[i + 1] == Do(worlds[i], steps[i])
  }

  /** The handle a call ends up with, if it has succeeded. */
  function Result(w: World, t: Ticket): Option<Handle> {
    match t
    case Have(h) => Some(h)
    case Waits(b) => if b in w.settled && w.settled[b] then Some(b) else None
    case Starts(b) => if b in w.settled && w.settled[b] then Some(b) else None
  }

  ghost predicate SingleFlight(w: World) {
    && w.waiting == (if w.slots.promise.Some? then {w.slots.promise.value} else {})
    && w.running <= w.waiting
    && (forall b <- w.waiting :: b < w.next && (b in w.running <==> b !in w.settled))
    && (forall b <- w.waiting :: b in w.settled && w.settled[b] ==> w.slots.handle == Some(b))
    && (forall b <- w.settled :: b < w.next)
    && w.created == (if w.slots.handle.Some? then {w.slots.handle.value} else {})
    && (w.slots.handle.Some? ==> w.running == {})
    && (forall t <- w.tickets :: TicketOk(w, t))
  }

  ghost predicate TicketOk(w: World, t: Ticket) {
    && (Result(w, t).Some? ==> w.slots.handle == Result(w, t))
    && (!t.Have? ==> t.build in w.running || t.build in w.settled)
  }

  lemma StepKeepsSingleFlight(w: World, step: Step)
    requires Enabled(w, step) && SingleFlight(w)
    requires step == Dispose ==> w.waiting == {}
    ensures SingleFlight(Do(w, step))
  {
  }

  /** While no disposal lands between a call that begins a build and that call's resumption: at most one
      build runs, at most one handle is created between disposals, and every call that has succeeded since
      the last disposal has that handle. */
  lemma {:induction false} SingleFlightBootstrap(worlds: seq<World>, steps: seq<Step>, i: nat)
    requires IsRun(worlds, steps) && worlds[0] == Initial() && i <= |steps|
    requires forall k :: 0 <= k < |steps| && steps[k] == Dispose ==> worlds[k].waiting == {}
    ensures SingleFlight(worlds[i]) && |worlds[i].running| <= 1 && |worlds[i].created| <= 1
    ensures forall t <- worlds[i].tickets ::
      Result(worlds[i], t).Some? ==> Result(worlds[i], t) == worlds[i].slots.handle
  {
    if i == 0 {
    } else {
      SingleFlightBootstrap(worlds, steps, i - 1);
      StepKeepsSingleFlight(worlds[i - 1], steps[i - 1]);
    }
    SingleFlightMeans(worlds[i]);
  }

  lemma SingleFlightMeans(w: World)
    requires SingleFlight(w)
    ensures |w.running| <= 1 && |w.created| <= 1
    ensures forall t <- w.tickets :: Result(w, t).Some? ==> Result(w, t) == w.slots.handle
  {
    assert w.running == {} || w.running == w.waiting;
    forall t | t in w.tickets && Result(w, t).Some? ensures Result(w, t) == w.slots.handle {
      assert TicketOk(w, t);
    }
  }

  /** From the moment a build has succeeded until a disposal, every call gets its handle without waiting and begins
      nothing, whether or not the starter has resumed; before that it begins a build or joins the one there is. */
  lemma ReadyAtOnce(worlds: seq<World>, steps: seq<Step>, i: nat)
    requires IsRun(worlds, steps) && worlds[0] == Initial() && i < |steps| && steps[i] == Ensure
    requires forall k :: 0 <= k < |steps| && steps[k] == Dispose ==> worlds[k].waiting == {}
    ensures forall h <- worlds[i].created :: worlds[i + 1] == worlds[i].(tickets := worlds[i].tickets + [Have(h)])
    ensures worlds[i].created == {} ==>
      worlds[i + 1].waiting != {} && !worlds[i + 1].tickets[|worlds[i].tickets|].Have?
  {
    SingleFlightBootstrap(worlds, steps, i);
    assert worlds[i + 1] == Do(worlds[i], steps[i]);
  }

  /** After a build has failed, calls join the failed build until its starter resumes; the first call after
      that begins a fresh one. */
  lemma RetryAfterFailure(w: World, b: BuildId)
    requires SingleFlight(w) && b in w.running
    ensures var failed := Do(w, Fail(b));
      && Ask(failed.slots, failed.next) == Waits(b)
      && Enabled(failed, Resume(b))
      && var resumed := Do(failed, Resume(b));
         Ask(resumed.slots, resumed.next) == Starts(w.next) && Do(resumed, Ensure).running == {w.next}
  {
  }

  /** A disposal during a build lets the next call begin a second one beside it. */
  lemma DisposeDuringBuild(w: World, b: BuildId)
    requires SingleFlight(w) && b in w.running
    ensures Do(Do(w, Dispose), Ensure).running == {b, w.next} && b != w.next
    ensures !SingleFlight(Do(Do(w, Dispose), Ensure))
  {
  }

  /** A disposal keeps single flight exactly when no starter is still waiting. */
  lemma DisposeKeepsSingleFlightIff(w: World)
    requires SingleFlight(w)
    ensures SingleFlight(Do(w, Dispose)) <==> w.waiting == {}
  {
  }

  /** Even a disposal after the build has settled, but before its starter resumes, can end with two builds:
      the late resumption clears the promise of the next build. */
  lemma LateResumeClearsNextPromise(w: World, b: BuildId)
    requires SingleFlight(w) && b in w.waiting && b in w.settled
    ensures var again := Do(Do(w, Dispose), Ensure);
      && Enabled(again, Resume(b))
      && Do(Do(again, Resume(b)), Ensure).running == {w.next, w.next + 1}
  {
  }
}
