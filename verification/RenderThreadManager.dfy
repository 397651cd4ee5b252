/** The meeting point of the two threads: the queue of frames and the map of returned resources. */
module RenderThreadManagers {
  import opened Options
  import opened Frames
  import opened FramePipeline

  /** Inserts batch after batch. */
  function InsertedAll(m: ReturnedMap, bs: seq<Batch>): ReturnedMap {
    if bs == [] then m else Inserted(InsertedAll(m, bs[..|bs| - 1]), bs[|bs| - 1])
  }

  lemma {:induction false} InsertedAllConcat(m: ReturnedMap, a: seq<Batch>, b: seq<Batch>)
    ensures InsertedAll(m, a + b) == InsertedAll(InsertedAll(m, a), b)
    decreases |b|
  {
    if b == [] {
      assert a + b == a;
    } else {
      InsertedAllConcat(m, a, b[..|b| - 1]);
      LastApart(a, b);
    }
  }

  function Stores(n: nat): (steps: seq<Step>)
    ensures |steps| == n
  {
    seq(n, i => Store)
  }

  /** Step by step, what the render thread is about to return ends up in the map as by one loop. */
  lemma {:induction false} OutboxDrains(s: State, n: nat)
    requires n <= |s.outbox|
    ensures Run(s, Stores(n)).outbox == s.outbox[n..]
    ensures Run(s, Stores(n)).returned == InsertedAll(s.returned, s.outbox[..n])
  {
    if n > 0 {
      OutboxDrains(s, n - 1);
      assert Stores(n)[..n - 1] == Stores(n - 1);
      assert s.outbox[..n][..n - 1] == s.outbox[..n - 1];
    }
  }

  class RenderThreadManager {
    var childFrames: Queue
    var hasReceivedFrame: bool
    var returnedResources: ReturnedMap

    constructor ()
      ensures childFrames == [] && !hasReceivedFrame && returnedResources == map[]
    {
      childFrames, hasReceivedFrame, returnedResources := [], false, map[];
    }

    /** Takes a new frame, without waiting for it, and hands back the one nobody will commit any more. */
    method SetFrameOnUI(newFrame: ChildFrame) returns (uncommitted: Option<ChildFrame>)
      requires ValidFrames(Values(childFrames)) && newFrame !in childFrames
      modifies this`childFrames, this`hasReceivedFrame, childFrames
      ensures hasReceivedFrame && newFrame.Value() == old(newFrame.Value())
      ensures Values(childFrames) == Placed(old(Values(childFrames)), newFrame.Value())
      ensures Handed(uncommitted) == HandedBack(old(Values(childFrames)), newFrame.Value())
      ensures forall f | f in childFrames :: f == newFrame || f in old(childFrames)
      ensures uncommitted.Some? ==> uncommitted.value in old(childFrames)
    {
      hasReceivedFrame := true;
      uncommitted := None;
      if childFrames == [] {
        childFrames := [newFrame];
        return;
      }
      if newFrame.frame.Some? {
        uncommitted := Some(childFrames[0]);
        childFrames := childFrames[1..] + [newFrame];
        return;
      }
      var kept;
      kept, uncommitted := PruneFrames();
      childFrames := kept + [newFrame];
      assert Values(childFrames) == Values(kept) + [newFrame.Value()];
    }

    /** Waits for the frames and prunes them; one that was pruned is handed back. */
    method PruneFrames() returns (kept: Queue, uncommitted: Option<ChildFrame>)
      requires ValidFrames(Values(childFrames))
      modifies childFrames
      ensures Values(kept) == Kept(old(Values(childFrames))) && forall f | f in kept :: f in childFrames
      ensures Handed(uncommitted) == if Pruned(old(Values(childFrames))) == [] then [] else Pruned(old(Values(childFrames)))[..1]
      ensures uncommitted.Some? ==> uncommitted.value in childFrames
    {
      var pruned;
      kept, pruned := WaitAndPruneFrameQueue(childFrames);
      uncommitted := None;
      if pruned != [] {
        assert pruned[0].Value() == Values(pruned)[0];
        uncommitted := Some(pruned[0]);
      }
      assert forall f | f in kept :: f in kept + pruned;
      assert pruned != [] ==> pruned[0] in kept + pruned;
    }

    method PassFramesOnRT() returns (frames: Queue)
      modifies this`childFrames
      ensures frames == old(childFrames) && childFrames == []
    {
      frames := [];
      frames, childFrames := childFrames, frames;
    }

    method PassUncommittedFrameOnUI() returns (frames: Queue)
      requires ValidFrames(Values(childFrames))
      modifies this`childFrames, childFrames
      ensures frames == old(childFrames) && childFrames == []
      ensures Values(frames) == AllWaited(old(Values(childFrames)))
    {
      var _ := WaitForAll(childFrames);
      assert Values(childFrames) == AllWaited(old(Values(childFrames)));
      frames := [];
      frames, childFrames := childFrames, frames;
    }

    method InsertReturnedResourcesOnRT(resources: seq<Resource>, compositor: CompositorId, sink: SinkId)
      modifies this`returnedResources
      ensures returnedResources == Inserted(old(returnedResources), Batch(compositor, sink, resources))
    {
      var entry := if compositor in returnedResources then returnedResources[compositor] else Returned(NO_SINK, []);
      if entry.sink != sink {
        entry := entry.(resources := []);
      }
      entry := Returned(sink, entry.resources + resources);
      returnedResources := returnedResources[compositor := entry];
    }

    method SwapReturnedResourcesOnUI() returns (taken: ReturnedMap)
      modifies this`returnedResources
      ensures taken == old(returnedResources) && returnedResources == map[]
    {
      taken := map[];
      taken, returnedResources := returnedResources, taken;
    }
  }

  function Handed(f: Option<ChildFrame>): seq<Frame>
    reads if f.Some? then {f.value} else {}
  {
    if f.Some? then [f.value.Value()] else []
  }
}
