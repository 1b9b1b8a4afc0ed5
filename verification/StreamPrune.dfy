/** Pruning the stream map of a Streamable-HTTP transport in JSON-response mode. */
module StreamPrune {
  import opened Collections

  type StreamId = nat

  type RequestId = nat

  /** Which fields of a stream registration are set. */
  datatype Entry = Entry(resolveJson: bool, controller: bool, cleanup: bool) {
    predicate JsonOnly() { resolveJson && !controller }
  }

  type Streams = map<StreamId, Entry>

  type Requests = map<RequestId, StreamId>

  function Active(requests: Requests): set<StreamId> {
    set r | r in requests :: requests[r]
  }

  /** JSON-only registrations nothing refers to any more. */
  function Orphans(streams: Streams, requests: Requests, standalone: StreamId): set<StreamId> {
    set id | id in streams && id != standalone && id !in Active(requests) && streams[id].JsonOnly()
  }

  class StreamMaps {
    const jsonResponse: bool
    const standalone: StreamId
    var streams: Streams
    var requests: Requests

    /** A registration's own cleanup deletes its entry. */
    method Cleanup(id: StreamId)
      modifies this`streams
      ensures streams == old(streams) - {id}
    {
      streams := streams - {id};
    }

    method CollectActive() returns (active: set<StreamId>)
      ensures active == Active(requests)
    {
      active := {};
      var order := Enumerate(requests.Keys);
      for i := 0 to |order|
        invariant active == set r | r in order[..i] && r in requests :: requests[r]
      {
        ListsPrefix(order, requests.Keys, i);
        assert order[..i + 1] == order[..i] + [order[i]];
        active := active + {requests[order[i]]};
      }
      assert order[..|order|] == order;
      assert forall r :: r in requests <==> r in Elements(order);
    }

    method Prune() returns (pruned: nat)
      modifies this`streams
      ensures !jsonResponse ==> streams == old(streams) && pruned == 0
      ensures jsonResponse ==>
        && streams == old(streams) - Orphans(old(streams), requests, standalone)
        && pruned == |Orphans(old(streams), requests, standalone)|
    {
      if !jsonResponse { return 0; }
      var active := CollectActive();
      pruned := 0;
      ghost var orphans := Orphans(streams, requests, standalone);
      var entries := Enumerate(streams.Keys);
      for i := 0 to |entries|
        invariant streams == old(streams) - Among(entries[..i], orphans)
        invariant pruned == |Among(entries[..i], orphans)|
      {
        var id := entries[i];
        ListsPrefix(entries, old(streams).Keys, i);
        AmongNext(entries, i, orphans);
        DropNext(old(streams), entries, i, orphans);
        if id == standalone { continue; }
        if id in active { continue; }
        var stream := streams[id];
        if stream.resolveJson && !stream.controller {
          if stream.cleanup { Cleanup(id); } else { streams := streams - {id}; }
          pruned := pruned + 1;
        }
      }
      AmongAll(entries, old(streams).Keys, orphans);
    }
  }

  function Pruned(streams: Streams, requests: Requests, standalone: StreamId): Streams {
    streams - Orphans(streams, requests, standalone)
  }

  /** Pruning spares streams a pending request refers to, the standalone stream and SSE streams, leaves no
      other JSON-only stream, and a second pass finds nothing. */
  lemma PruneExact(streams: Streams, requests: Requests, standalone: StreamId, id: StreamId)
    requires id in streams
    ensures id in Pruned(streams, requests, standalone) <==>
      || id == standalone || (exists r <- requests :: requests[r] == id)
      || !streams[id].resolveJson || streams[id].controller
    ensures Orphans(Pruned(streams, requests, standalone), requests, standalone) == {}
  {
  }

  // Runs of overlapping POSTs. A POST registers a stream of its own and stays open until its handler returns;
  // it returns once none of its requests is pending, and prunes as it does.

  datatype World = World(streams: Streams, requests: Requests, open: set<StreamId>)

  datatype Step =
    | Post(id: StreamId, asked: set<RequestId>, cleanup: bool)
    | Answered(id: StreamId)
    | PostReturns(id: StreamId)
    | OpenSse(id: StreamId, cleanup: bool)
    | CloseStream(id: StreamId)

  predicate Enabled(w: World, step: Step) {
    match step
    case Post(id, _, _) => id !in w.streams && id !in w.open
    case PostReturns(id) => id in w.open && id !in Active(w.requests)
    case _ => true
  }

  function Do(w: World, standalone: StreamId, step: Step): World {
    match step
    case Post(id, asked, cleanup) =>
      World(w.streams[id := Entry(true, false, cleanup)], w.requests + (map r | r in asked :: id), w.open + {id})
    case Answered(id) =>
      w.(requests := map r | r in w.requests && w.requests[r] != id :: w.requests[r])
    case PostReturns(id) =>
      w.(streams := Pruned(w.streams, w.requests, standalone), open := w.open - {id})
    case OpenSse(id, cleanup) => w.(streams := w.streams[id := Entry(false, true, cleanup)])
    case CloseStream(id) => w.(streams := w.streams - {id})
  }

  ghost predicate IsRun(worlds: seq<World>, standalone: StreamId, steps: seq<Step>) {
    && |worlds| == |steps| + 1
    && forall i :: 0 <= i < |steps| ==>
      Enabled(worlds[i], steps[i]) && worlds[i + 1] == Do(worlds[i], standalone, steps[i])
  }

  function Sse(streams: Streams): set<StreamId> {
    set id | id in streams && !streams[id].JsonOnly()
  }

  /** Pending requests belong to open POSTs, and so does every JSON-only entry but the standalone one. */
  ghost predicate Accounted(w: World, standalone: StreamId) {
    && Active(w.requests) <= w.open
    && forall id <- w.streams :: w.streams[id].JsonOnly() ==> id in w.open || id == standalone
  }

  lemma StepKeepsAccounted(w: World, standalone: StreamId, step: Step)
    requires Enabled(w, step) && Accounted(w, standalone)
    ensures Accounted(Do(w, standalone, step), standalone)
  {
  }

  lemma AccountedSize(w: World, standalone: StreamId)
    requires Accounted(w, standalone)
    ensures |w.streams| <= |w.open| + |Sse(w.streams)| + 1
    ensures standalone !in w.streams ==> |w.streams| <= |w.open| + |Sse(w.streams)|
  {
    var json := if standalone in w.streams then w.open + {standalone} else w.open;
    SubsetSize(w.streams.Keys, json + Sse(w.streams));
    assert |w.streams| == |w.streams.Keys|;
  }

  /** Answered POSTs whose handlers have not returned yet: the streams an idle entry can belong to. */
  function Finished(w: World): set<StreamId> { w.open - Active(w.requests) }

  lemma {:induction false} RunsStayAccounted(worlds: seq<World>, standalone: StreamId, steps: seq<Step>, i: nat)
    requires IsRun(worlds, standalone, steps) && i <= |steps|
    requires worlds[0] == World(map[], map[], {})
    ensures Accounted(worlds[i], standalone)
  {
    if i == 0 {
    } else {
      RunsStayAccounted(worlds, standalone, steps, i - 1);
      StepKeepsAccounted(worlds[i - 1], standalone, steps[i - 1]);
    }
  }

  lemma OpenSplits(w: World, standalone: StreamId)
    requires Accounted(w, standalone)
    ensures |w.open| == |Active(w.requests)| + |Finished(w)|
  {
    PartitionSize(Active(w.requests), Finished(w), {}, w.open);
  }

  /** Over every run of overlapping requests the map holds at most the distinct active streams, the streams
      of answered POSTs still to return, the SSE entries and the standalone one. With no POST open, nothing
      is left but SSE entries and the standalone one, however many POSTs there were. */
  lemma StreamMapBound(worlds: seq<World>, standalone: StreamId, steps: seq<Step>, i: nat)
    requires IsRun(worlds, standalone, steps) && i <= |steps|
    requires worlds[0] == World(map[], map[], {})
    ensures |worlds[i].streams| <= |Active(worlds[i].requests)| + |Finished(worlds[i])| + |Sse(worlds[i].streams)| + 1
    ensures Finished(worlds[i]) == {} ==>
      |worlds[i].streams| <= |Active(worlds[i].requests)| + |Sse(worlds[i].streams)| + 1
    ensures worlds[i].open == {} ==> |worlds[i].streams| <= |Sse(worlds[i].streams)| + 1
  {
    RunsStayAccounted(worlds, standalone, steps, i);
    AccountedSize(worlds[i], standalone);
    OpenSplits(worlds[i], standalone);
  }

  /** As a POST returns, whatever is still in the map is active, SSE or standalone: the entries of all answered
      POSTs are gone, also of those yet to return. */
  lemma ReturnLeavesActive(worlds: seq<World>, standalone: StreamId, steps: seq<Step>, i: nat, id: StreamId)
    requires IsRun(worlds, standalone, steps) && i < |steps| && steps[i].PostReturns?
    requires worlds[0] == World(map[], map[], {})
    ensures id in worlds[i + 1].streams <==>
      id in worlds[i].streams && (id in Active(worlds[i].requests) || id == standalone || id in Sse(worlds[i].streams))
    ensures |worlds[i + 1].streams| <= |Active(worlds[i + 1].requests)| + |Sse(worlds[i + 1].streams)| + 1
  {
    var v := worlds[i + 1];
    if id in worlds[i].streams {
      PruneExact(worlds[i].streams, worlds[i].requests, standalone, id);
    }
    forall s | s in v.streams ensures s in Active(v.requests) + Sse(v.streams) + {standalone} {
      PruneExact(worlds[i].streams, worlds[i].requests, standalone, s);
    }
    SubsetSize(v.streams.Keys, Active(v.requests) + Sse(v.streams) + {standalone});
  }

  // Without the prune.

  /** The step a handler would take if it returned without pruning. */
  function Unpruned(w: World, step: Step): World
    requires step.PostReturns?
  {
    w.(open := w.open - {step.id})
  }

  /** One POST from beginning to end. */
  function Served(w: World, standalone: StreamId, id: StreamId, request: RequestId, prunes: bool): World {
    var answered := Do(Do(w, standalone, Post(id, {request}, false)), standalone, Answered(id));
    if prunes then Do(answered, standalone, PostReturns(id)) else Unpruned(answered, PostReturns(id))
  }

  type Serve = (World, StreamId) -> World

  function ServeOf(standalone: StreamId, prunes: bool): Serve {
    (w: World, id: StreamId) => Served(w, standalone, id, 0, prunes)
  }

  function ServedAll(serve: Serve, n: nat, standalone: StreamId): World {
    if n == 0 then Idle(map[]) else serve(ServedAll(serve, n - 1, standalone), standalone + n)
  }

  function Idle(streams: Streams): World { World(streams, map[], {}) }

  function Leftover(n: nat, standalone: StreamId): (m: Streams)
    ensures |m| == n && forall id <- m :: standalone < id <= standalone + n
  {
    if n == 0 then map[] else Leftover(n - 1, standalone)[standalone + n := Entry(true, false, false)]
  }

  /** After any number of POSTs one after the other the map is empty; without the prune it has one entry for each. */
  lemma PruneStopsGrowth(n: nat, standalone: StreamId)
    ensures ServedAll(ServeOf(standalone, true), n, standalone).streams == map[]
    ensures |ServedAll(ServeOf(standalone, false), n, standalone).streams| == n
  {
    forall streams: Streams, id | id !in streams && id != standalone
      ensures ServeOf(standalone, false)(Idle(streams), id) == Idle(streams[id := Entry(true, false, false)])
    {
      ServedOnce(streams, standalone, id);
    }
    forall id | id != standalone ensures ServeOf(standalone, true)(Idle(map[]), id) == Idle(map[]) {
      ServedOnce(map[], standalone, id);
    }
    StaysEmpty(ServeOf(standalone, true), n, standalone);
    Grows(ServeOf(standalone, false), n, standalone);
  }

  lemma {:induction false} StaysEmpty(serve: Serve, n: nat, standalone: StreamId)
    requires forall id :: id != standalone ==> serve(Idle(map[]), id) == Idle(map[])
    ensures ServedAll(serve, n, standalone) == Idle(map[])
  {
    if n == 0 {
    } else {
      StaysEmpty(serve, n - 1, standalone);
    }
  }

  lemma {:induction false} Grows(serve: Serve, n: nat, standalone: StreamId)
    requires forall streams: Streams, id :: id !in streams && id != standalone ==>
      serve(Idle(streams), id) == Idle(streams[id := Entry(true, false, false)])
    ensures ServedAll(serve, n, standalone) == Idle(Leftover(n, standalone))
  {
    if n == 0 {
    } else {
      Grows(serve, n - 1, standalone);
      assert standalone + n !in Leftover(n - 1, standalone);
    }
  }

  lemma ServedOnce(streams: Streams, standalone: StreamId, id: StreamId)
    requires id !in streams && id != standalone
    ensures streams == map[] ==> Served(Idle(streams), standalone, id, 0, true) == Idle(streams)
    ensures Served(Idle(streams), standalone, id, 0, false) == Idle(streams[id := Entry(true, false, false)])
  {
    var w := Idle(streams);
    var posted := Do(w, standalone, Post(id, {0}, false));
    var answered := Do(posted, standalone, Answered(id));
    assert answered.requests == map[];
    assert answered.open - {id} == {};
    if streams == map[] {
      assert Orphans(answered.streams, map[], standalone) == {id};
      assert answered.streams - {id} == map[];
    }
  }
}
