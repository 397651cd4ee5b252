/** The render thread's side: committing frames, submitting them to the display, and returning resources. */
module HardwareRenderers {
  import opened Options
  import opened Frames
  import opened FramePipeline
  import opened FrameQueues
  import opened FrameReturns
  import opened RenderThreadManagers

  // ----- What the calls amount to, in the pipeline's terms -----

  function PrunedByCommit(queue: seq<Frame>, frames: seq<Frame>): seq<Batch> {
    if frames == [] then [] else BatchesOf(Pruned(queue + AllButLast(frames)))
  }

  /** The renderer after it submitted a frame. */
  function Submitted(r: Renderer, f: Frame): Renderer {
    var held := if ChangesSupport(r, f) then multiset{} else r.held;
    Renderer([], f.sink, f.sink, f.compositor, held + FrameItems(f), f.frame)
  }

  function Drawn(r: Renderer): Renderer {
    if Kept(r.queue) == [] then r.(queue := []) else Submitted(r, Kept(r.queue)[0])
  }

  /** What is returned while a frame is submitted: the display's resources, when its support is reset. */
  function ReturnedBySubmit(r: Renderer, f: Frame, calls: seq<seq<Resource>>): seq<Batch> {
    if ChangesSupport(r, f) then OfSink(f.sink, Reclaimed(r, calls)) else []
  }

  /** What a draw returns: the pruned frames of the sink committed before, then what the display gives up for the new one. */
  function ReturnedByDraw(r: Renderer, calls: seq<seq<Resource>>): seq<Batch> {
    OfSink(r.committedSink, BatchesOf(Pruned(r.queue)))
    + if Kept(r.queue) == [] then [] else ReturnedBySubmit(r, Kept(r.queue)[0], calls)
  }

  /** The pipeline's draw does just that. */
  lemma PipelineDraws(s: State, calls: seq<seq<Resource>>)
    requires s.renderer.Some?
    ensures Draw(s, calls).renderer == Some(Drawn(s.renderer.value))
    ensures Draw(s, calls).outbox == s.outbox + ReturnedByDraw(s.renderer.value, calls)
  {
    var r := s.renderer.value;
    var emptied := s.(renderer := Some(r.(queue := [])));
    FilterIsExact(emptied, r.committedSink, BatchesOf(Pruned(r.queue)));
    ReturningIsAside(emptied, [], r.committedSink, BatchesOf(Pruned(r.queue)));
    if Kept(r.queue) != [] {
      var t := ReturnAll(emptied, r.committedSink, BatchesOf(Pruned(r.queue)));
      PipelineSubmits(t, r, Kept(r.queue)[0], calls);
    }
  }

  lemma PipelineSubmits(t: State, r: Renderer, f: Frame, calls: seq<seq<Resource>>)
    requires f.frame.Some?
    ensures Submit(t, r, f, calls).renderer == Some(Submitted(r, f))
    ensures Submit(t, r, f, calls).outbox == t.outbox + ReturnedBySubmit(r, f, calls)
  {
    if ChangesSupport(r, f) {
      FilterIsExact(Abandon(t, r, calls), f.sink, Reclaimed(r, calls));
    } else {
      assert t.outbox + [] == t.outbox;
    }
  }

  /** And so does its commit. */
  lemma PipelineCommits(s: State)
    requires s.renderer.Some?
    ensures var r := s.renderer.value;
      && Commit(s).frames == []
      && Commit(s).renderer == Some(r.(queue := TakenOver(r.queue, s.frames)))
      && Commit(s).outbox == s.outbox + OfSink(r.committedSink, PrunedByCommit(r.queue, s.frames))
  {
    var r := s.renderer.value;
    if s.frames != [] {
      var t := s.(frames := [], renderer := Some(r.(queue := TakenOver(r.queue, s.frames))));
      FilterIsExact(t, r.committedSink, PrunedByCommit(r.queue, s.frames));
      ReturningIsAside(t, [], r.committedSink, PrunedByCommit(r.queue, s.frames));
    }
  }

  class HardwareRenderer {
    const manager: RenderThreadManager
    var childFrameQueue: Queue
    var childFrame: Option<ChildFrame>
    var lastCommittedSink: SinkId
    var lastSubmittedSink: SinkId
    var compositor: CompositorId
    var held: multiset<Item>
    var shown: Option<Content>

    constructor (manager: RenderThreadManager)
      ensures this.manager == manager && Value() == NEW_RENDERER && childFrame == None
    {
      this.manager := manager;
      childFrameQueue, childFrame := [], None;
      lastCommittedSink, lastSubmittedSink, compositor := NO_SINK, NO_SINK, NO_COMPOSITOR;
      held, shown := multiset{}, None;
    }

    function Value(): Renderer
      reads this, childFrameQueue
    {
      Renderer(Values(childFrameQueue), lastCommittedSink, lastSubmittedSink, compositor, held, shown)
    }

    method ReturnResourcesToCompositor(resources: seq<Resource>, compositor: CompositorId, sink: SinkId)
      modifies manager`returnedResources
      ensures manager.returnedResources == InsertedAll(old(manager.returnedResources), OfSink(lastCommittedSink, [Batch(compositor, sink, resources)]))
    {
      assert [Batch(compositor, sink, resources)][..0] == [];
      if sink != lastCommittedSink {
        return;
      }
      manager.InsertReturnedResourcesOnRT(resources, compositor, sink);
    }

    method ReturnChildFrame(f: ChildFrame)
      requires f.frame.Some? ==> f.Value().IsWaited()
      modifies manager`returnedResources
      ensures manager.returnedResources
           == InsertedAll(old(manager.returnedResources), if f.frame.Some? then OfSink(lastCommittedSink, [BatchOf(f.Value())]) else [])
    {
      if f.frame.None? {
        return;
      }
      ReturnResourcesToCompositor(f.frame.value.resources, f.compositor, f.sink);
    }

    /** Returns the frames of a queue, first to last. */
    method ReturnFrames(q: Queue)
      requires forall f | f in q :: f.Value().IsWaited() && f.frame.Some?
      modifies manager`returnedResources
      ensures manager.returnedResources == InsertedAll(old(manager.returnedResources), OfSink(lastCommittedSink, BatchesOf(Values(q))))
    {
      ghost var bs := BatchesOf(Values(q));
      for i := 0 to |q|
        invariant manager.returnedResources == InsertedAll(old(manager.returnedResources), OfSink(lastCommittedSink, bs[..i]))
      {
        ReturnChildFrame(q[i]);
        OneMoreOfSink(old(manager.returnedResources), lastCommittedSink, bs, i);
      }
      assert bs[..|q|] == bs;
    }

    /** Prunes a queue and returns what was pruned. */
    method PruneAndReturn(queue: Queue) returns (kept: Queue)
      requires ValidFrames(Values(queue))
      modifies manager`returnedResources, queue
      ensures Values(kept) == Kept(old(Values(queue))) && forall f | f in kept :: f in queue
      ensures manager.returnedResources
           == InsertedAll(old(manager.returnedResources), OfSink(lastCommittedSink, BatchesOf(Pruned(old(Values(queue))))))
    {
      var pruned;
      kept, pruned := WaitAndPruneFrameQueue(queue);
      assert forall f | f in kept :: f in kept + pruned;
      PrunedAreWaited(pruned, old(Values(queue)));
      ReturnFrames(pruned);
    }

    /** Takes over the manager's frames; all but the current one are waited for and pruned. */
    method CommitFrame()
      requires ValidFrames(Values(childFrameQueue)) && ValidFrames(Values(manager.childFrames))
      requires Separate(childFrameQueue + manager.childFrames)
      modifies this`childFrameQueue, manager`childFrames, manager`returnedResources, childFrameQueue, manager.childFrames
      ensures Values(childFrameQueue) == TakenOver(old(Values(childFrameQueue)), old(Values(manager.childFrames)))
      ensures manager.childFrames == []
      ensures manager.returnedResources == InsertedAll(old(manager.returnedResources),
        OfSink(lastCommittedSink, PrunedByCommit(old(Values(childFrameQueue)), old(Values(manager.childFrames)))))
    {
      ghost var before := Values(manager.childFrames);
      var frames := manager.PassFramesOnRT();
      if frames == [] {
        return;
      }
      var rest, current := frames[..|frames| - 1], frames[|frames| - 1];
      var queue := childFrameQueue + rest;
      QueueWithoutCurrent(childFrameQueue, frames);
      LastIsSeparate(childFrameQueue, frames);
      assert manager.childFrames == [];
      var kept := PruneAndReturn(queue);
      assert manager.childFrames == [];
      ValuesWithLast(kept, current);
      childFrameQueue := kept + [current];
    }

    /** The frame received last has given its content away, and its sink is the committed one. */
    predicate Received()
      reads this, if childFrame.Some? then {childFrame.value} else {}
    {
      childFrame.Some? ==> childFrame.value.frame.None? && childFrame.value.sink == lastCommittedSink
    }

    /** The support is reset: the display gives back what it has of the old frames. */
    method ResetSupport(calls: seq<seq<Resource>>)
      requires Reclaims(Value(), calls)
      modifies this`held, manager`returnedResources
      ensures held == multiset{}
      ensures manager.returnedResources
           == InsertedAll(old(manager.returnedResources), OfSink(lastCommittedSink, Reclaimed(old(Value()), calls)))
    {
      ghost var bs := Reclaimed(Value(), calls);
      for i := 0 to |calls|
        invariant manager.returnedResources == InsertedAll(old(manager.returnedResources), OfSink(lastCommittedSink, bs[..i]))
      {
        ReturnResourcesToCompositor(calls[i], compositor, lastSubmittedSink);
        OneMoreOfSink(old(manager.returnedResources), lastCommittedSink, bs, i);
      }
      assert bs[..|calls|] == bs;
      held := multiset{};
    }

    /** Submits the frame received last, if it still has its content. */
    method SubmitFrame(f: ChildFrame, calls: seq<seq<Resource>>)
      requires f.Value().IsWaited() && f.frame.Some? && f.sink == lastCommittedSink && childFrameQueue == []
      requires ChangesSupport(Value(), f.Value()) ==> Reclaims(Value(), calls)
      modifies this`held, this`compositor, this`lastSubmittedSink, this`shown, manager`returnedResources, f
      ensures f.Value() == old(f.Value()).(frame := None)
      ensures Value() == Submitted(old(Value()), old(f.Value()))
      ensures manager.returnedResources
           == InsertedAll(old(manager.returnedResources), ReturnedBySubmit(old(Value()), old(f.Value()), calls))
    {
      if compositor != f.compositor || lastSubmittedSink != f.sink {
        ResetSupport(calls);
        compositor, lastSubmittedSink := f.compositor, f.sink;
      }
      var content := f.frame.value;
      held := held + FrameItems(f.Value());
      shown := Some(content);
      f.frame := None;
    }

    /** Prunes the queue, takes the frame that is left and commits its sink. */
    method TakeNewest() returns (newest: Option<ChildFrame>)
      requires ValidFrames(Values(childFrameQueue))
      modifies this`childFrameQueue, this`childFrame, this`lastCommittedSink, childFrameQueue, manager`returnedResources
      ensures newest.None? <==> Kept(old(Values(childFrameQueue))) == []
      ensures newest.None? ==> Value() == old(Value()).(queue := []) && childFrame == old(childFrame)
      ensures newest.Some? ==>
        && newest.value in old(childFrameQueue) && newest.value.Value() == Kept(old(Values(childFrameQueue)))[0]
        && Value() == old(Value()).(queue := [], committedSink := newest.value.sink) && childFrame == newest
      ensures manager.returnedResources
           == InsertedAll(old(manager.returnedResources), OfSink(old(lastCommittedSink), BatchesOf(Pruned(old(Values(childFrameQueue))))))
    {
      newest := None;
      var kept := PruneAndReturn(childFrameQueue);
      childFrameQueue := [];
      if kept != [] {
        assert kept[0] in kept && kept[0].Value() == Values(kept)[0];
        newest := Some(kept[0]);
        childFrame := newest;
        lastCommittedSink := kept[0].sink;
      }
    }

    /** Draws: prunes the queue, commits the sink of the frame that is left, and submits it. */
    method DrawGL(calls: seq<seq<Resource>>)
      requires ValidFrames(Values(childFrameQueue)) && Received()
      requires childFrame.Some? ==> childFrame.value !in childFrameQueue
      requires ResetsSupport(Value()) ==> Reclaims(Value(), calls)
      modifies this, childFrameQueue, manager`returnedResources
      ensures Value() == Drawn(old(Value())) && Received()
      ensures manager.returnedResources == InsertedAll(old(manager.returnedResources), ReturnedByDraw(old(Value()), calls))
    {
      ghost var was, before := Value(), manager.returnedResources;
      var newest := TakeNewest();
      SubmitsAfterPruning(before, was, calls);
      if newest.Some? {
        assert Reclaimed(Value(), calls) == Reclaimed(was, calls);
        SubmitFrame(newest.value, calls);
      }
    }

    /** The end of a renderer: the display gives back what it has, then the frames in the queue go. */
    method Release(calls: seq<seq<Resource>>)
      requires ValidFrames(Values(childFrameQueue)) && Reclaims(Value(), calls)
      modifies this, childFrameQueue, manager`returnedResources
      ensures manager.returnedResources == InsertedAll(old(manager.returnedResources), ReturnedByRelease(old(Value()), calls))
      ensures childFrameQueue == [] && held == multiset{}
    {
      ghost var was, before := Value(), manager.returnedResources;
      ResetSupport(calls);
      var _ := WaitForAll(childFrameQueue);
      var left := childFrameQueue;
      childFrameQueue := [];
      ReturnAnyFrames(left);
      InsertedAllConcat(before, OfSink(was.committedSink, Reclaimed(was, calls)), OfSink(was.committedSink, BatchesOf(NonEmpty(was.queue))));
      NonEmptyIgnoresWaiting(was.queue, Values(left));
    }

    method ReturnAnyFrames(q: Queue)
      requires forall f | f in q :: f.Value().IsWaited()
      modifies manager`returnedResources
      ensures manager.returnedResources
           == InsertedAll(old(manager.returnedResources), OfSink(lastCommittedSink, BatchesOf(NonEmpty(Values(q)))))
    {
      ghost var v := Values(q);
      for i := 0 to |q|
        invariant manager.returnedResources
               == InsertedAll(old(manager.returnedResources), OfSink(lastCommittedSink, BatchesOf(NonEmpty(v[..i]))))
      {
        ReturnChildFrame(q[i]);
        OneMoreFrame(old(manager.returnedResources), lastCommittedSink, v, i);
      }
      assert v[..|q|] == v;
    }
  }

  /** A draw returns the pruned frames first. */
  lemma SubmitsAfterPruning(m: ReturnedMap, r: Renderer, calls: seq<seq<Resource>>)
    ensures var pruned := InsertedAll(m, OfSink(r.committedSink, BatchesOf(Pruned(r.queue))));
      InsertedAll(m, ReturnedByDraw(r, calls))
      == if Kept(r.queue) == [] then pruned else InsertedAll(pruned, ReturnedBySubmit(r, Kept(r.queue)[0], calls))
  {
    var pruned := OfSink(r.committedSink, BatchesOf(Pruned(r.queue)));
    if Kept(r.queue) == [] {
      assert pruned + [] == pruned;
    } else {
      InsertedAllConcat(m, pruned, ReturnedBySubmit(r, Kept(r.queue)[0], calls));
    }
  }

  function ReturnedByRelease(r: Renderer, calls: seq<seq<Resource>>): seq<Batch> {
    OfSink(r.committedSink, Reclaimed(r, calls)) + OfSink(r.committedSink, BatchesOf(NonEmpty(r.queue)))
  }

  lemma OutboxAdds<T>(a: seq<T>, b: seq<T>, c: seq<T>)
    ensures a + b + c == a + (b + c)
  {
  }

  /** The pipeline's teardown does just that. */
  lemma PipelineStops(s: State, calls: seq<seq<Resource>>)
    requires s.renderer.Some?
    ensures Teardown(s, calls).renderer == None
    ensures Teardown(s, calls).outbox == s.outbox + ReturnedByRelease(s.renderer.value, calls)
  {
    var r := s.renderer.value;
    var gone := s.(renderer := None);
    StopQueues(s, calls);
    var abandoned := Abandon(gone, r, calls);
    FilterIsExact(abandoned, r.committedSink, Reclaimed(r, calls));
    var returned := ReturnAll(abandoned, r.committedSink, Reclaimed(r, calls));
    FilterIsExact(returned, r.committedSink, BatchesOf(NonEmpty(r.queue)));
    OutboxAdds(s.outbox, OfSink(r.committedSink, Reclaimed(r, calls)), OfSink(r.committedSink, BatchesOf(NonEmpty(r.queue))));
  }

  lemma OneMoreFrame(m: ReturnedMap, sink: SinkId, v: seq<Frame>, i: nat)
    requires i < |v| && v[i].IsWaited()
    ensures InsertedAll(m, OfSink(sink, BatchesOf(NonEmpty(v[..i + 1]))))
         == InsertedAll(InsertedAll(m, OfSink(sink, BatchesOf(NonEmpty(v[..i])))), if v[i].frame.Some? then OfSink(sink, [BatchOf(v[i])]) else [])
  {
    assert v[..i + 1][..i] == v[..i];
    if v[i].frame.Some? {
      var bs := BatchesOf(NonEmpty(v[..i + 1]));
      assert bs[..|bs| - 1] == BatchesOf(NonEmpty(v[..i]));
      OneMoreOfSink(m, sink, bs, |bs| - 1);
      assert bs[..|bs|] == bs;
    }
  }

  lemma QueueWithoutCurrent(queue: Queue, frames: Queue)
    requires frames != [] && ValidFrames(Values(queue)) && ValidFrames(Values(frames))
    ensures Values(queue + frames[..|frames| - 1]) == Values(queue) + AllButLast(Values(frames))
    ensures ValidFrames(Values(queue + frames[..|frames| - 1]))
    ensures LastOf(Values(frames)) == [frames[|frames| - 1].Value()]
  {
    assert Values(frames[..|frames| - 1]) == AllButLast(Values(frames));
  }

  lemma ValuesWithLast(queue: Queue, last: ChildFrame)
    ensures Values(queue + [last]) == Values(queue) + [last.Value()]
  {
  }

  lemma LastIsSeparate(queue: Queue, frames: Queue)
    requires frames != [] && Separate(queue + frames)
    ensures frames[|frames| - 1] !in queue + frames[..|frames| - 1]
  {
    var all := queue + frames;
    assert forall i | 0 <= i < |all| - 1 :: all[i] != all[|all| - 1];
    assert queue + frames[..|frames| - 1] == all[..|all| - 1];
  }

  lemma PrunedAreWaited(pruned: Queue, was: seq<Frame>)
    requires Values(pruned) == Pruned(was)
    ensures forall f | f in pruned :: f.Value().IsWaited() && f.frame.Some?
  {
    forall f | f in pruned ensures f.Value().IsWaited() && f.frame.Some? {
      var i :| 0 <= i < |pruned| && pruned[i] == f;
      assert Values(pruned)[i] == f.Value();
    }
  }

  lemma OneMoreOfSink(m: ReturnedMap, sink: SinkId, bs: seq<Batch>, i: nat)
    requires i < |bs|
    ensures InsertedAll(m, OfSink(sink, bs[..i + 1])) == InsertedAll(InsertedAll(m, OfSink(sink, bs[..i])), OfSink(sink, [bs[i]]))
  {
    assert bs[..i + 1][..i] == bs[..i] && [bs[i]][..0] == [];
    assert OfSink(sink, [bs[i]]) == if bs[i].sink == sink then [bs[i]] else [];
    InsertedAllConcat(m, OfSink(sink, bs[..i]), OfSink(sink, [bs[i]]));
  }
}
