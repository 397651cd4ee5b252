/** The UI thread's side: producing frames, and giving resources back to the child compositors. */
module BrowserViewRenderers {
  import opened Options
  import opened Frames
  import opened FramePipeline
  import opened FrameBounds
  import opened FrameConservation
  import opened RenderThreadManagers

  /** The calls that give back what an unused frame holds. */
  function GivenFor(f: Frame, registered: set<CompositorId>): seq<Batch> {
    if f.frame.Some? && f.compositor in registered && f.frame.value.resources != [] then [BatchOf(f)] else []
  }

  function GivenForAll(q: seq<Frame>, registered: set<CompositorId>): seq<Batch> {
    if q == [] then [] else GivenForAll(q[..|q| - 1], registered) + GivenFor(q[|q| - 1], registered)
  }

  /** They deliver what the pipeline's steps deliver. */
  lemma {:induction false} GivenIsDelivered(s: State, q: seq<Frame>)
    requires ValidFrames(q)
    ensures ReturnAllUnused(s, q).delivered == s.delivered + BatchesItems(GivenForAll(q, s.registered))
    ensures ReturnAllUnused(s, q).registered == s.registered
  {
    if q != [] {
      GivenIsDelivered(s, q[..|q| - 1]);
      var f := q[|q| - 1];
      BatchesConcat(GivenForAll(q[..|q| - 1], s.registered), GivenFor(f, s.registered));
      assert [BatchOf(f)][..0] == [];
    }
  }

  class BrowserViewRenderer {
    const consumer: RenderThreadManager
    const syncOnDrawHardware: bool
    var hasCompositor: bool
    var clearView: bool
    var compositorId: CompositorId
    var compositors: set<CompositorId>
    var allowAsyncDraw: bool
    var given: seq<Batch>

    constructor (consumer: RenderThreadManager, syncOnDrawHardware: bool)
      ensures this.consumer == consumer && this.syncOnDrawHardware == syncOnDrawHardware
      ensures !allowAsyncDraw && given == [] && compositors == {}
    {
      this.consumer, this.syncOnDrawHardware := consumer, syncOnDrawHardware;
      hasCompositor, clearView, compositorId := false, false, NO_COMPOSITOR;
      compositors, allowAsyncDraw, given := {}, false, [];
    }

    /** What a draw can change besides what it gives back. */
    function Looks(): View
      reads this`allowAsyncDraw, consumer`childFrames, consumer`hasReceivedFrame, consumer.childFrames
    {
      View(Values(consumer.childFrames), consumer.hasReceivedFrame, allowAsyncDraw)
    }

    method ReturnUnusedResource(f: ChildFrame)
      requires f.Value().Valid()
      modifies this`given
      ensures given == old(given) + GivenFor(f.Value(), compositors)
    {
      if f.frame.None? {
        return;
      }
      if f.compositor in compositors && f.frame.value.resources != [] {
        given := given + [Batch(f.compositor, f.sink, f.frame.value.resources)];
      }
    }

    method ReturnUncommittedFrames(frames: Queue)
      requires ValidFrames(Values(frames))
      modifies this`given
      ensures given == old(given) + GivenForAll(Values(frames), compositors)
    {
      ghost var v := Values(frames);
      for i := 0 to |frames|
        invariant given == old(given) + GivenForAll(v[..i], compositors)
      {
        assert v[i].Valid() && v[..i + 1][..i] == v[..i];
        ReturnUnusedResource(frames[i]);
      }
      assert v[..|frames|] == v;
    }

    /** Collects what the render thread returned; the order of the compositors does not matter. */
    method ReturnResourceFromParent()
      modifies this`given, consumer`returnedResources
      ensures consumer.returnedResources == map[]
      ensures old(given) <= given
      ensures BatchesItems(given) == BatchesItems(old(given)) + MapItems(Only(old(consumer.returnedResources), compositors))
    {
      var taken := consumer.SwapReturnedResourcesOnUI();
      var left := taken;
      while |left| > 0
        invariant consumer.returnedResources == map[]
        invariant old(given) <= given && left.Keys <= taken.Keys
        invariant BatchesItems(given) + MapItems(Only(left, compositors)) == BatchesItems(old(given)) + MapItems(Only(taken, compositors))
        decreases |left|
      {
        NotEmpty(left);
        var c :| c in left;
        GiveOne(left, compositors, c, given);
        if c in compositors && left[c].resources != [] {
          given := given + [Batch(c, left[c].sink, left[c].resources)];
        }
        left := left - {c};
      }
      NothingLeft(left, compositors);
    }

    /** Draws: `drawing` is what the compositor answers to the question put to it. */
    method OnDrawHardware(drawing: Drawing) returns (drawn: bool)
      requires drawing.Async? <==> !syncOnDrawHardware && allowAsyncDraw
      requires ValidFrames(Values(consumer.childFrames))
      modifies this`given, this`allowAsyncDraw
      modifies consumer, consumer.childFrames
      ensures !old(hasCompositor && !clearView) ==> !drawn && given == old(given) && consumer.returnedResources == old(consumer.returnedResources)
      ensures !old(hasCompositor && !clearView) ==> Looks() == old(Looks())
      ensures old(hasCompositor && !clearView) ==> Drew(drawing, compositorId, syncOnDrawHardware, old(Looks()), Looks(), drawn)
      ensures old(hasCompositor && !clearView) && !drawing.IsNothing() ==>
        && EndsInDrawing(Looks().frames, drawing, compositorId)
        && drawn && consumer.hasReceivedFrame && allowAsyncDraw
        && (Looks().frames[|Looks().frames| - 1].frame.Some? <==> syncOnDrawHardware || !old(allowAsyncDraw))
      ensures old(hasCompositor && !clearView) && drawing.IsNothing() ==>
        Looks() == old(Looks()) && drawn == old(consumer.hasReceivedFrame)
      ensures old(hasCompositor && !clearView) ==>
        Collected(given, old(given), old(consumer.returnedResources), compositors, GivenForDrawing(drawing, compositorId, old(Looks()).frames, compositors))
    {
      if !hasCompositor || clearView {
        return false;
      }
      ReturnResourceFromParent();
      assert Looks() == old(Looks());
      drawn := SubmitDrawing(drawing);
    }

    /** Makes a frame of what was drawn, if anything was. */
    method SubmitDrawing(drawing: Drawing) returns (drawn: bool)
      requires drawing.Async? <==> !syncOnDrawHardware && allowAsyncDraw
      requires ValidFrames(Values(consumer.childFrames))
      modifies this`given, this`allowAsyncDraw, consumer`childFrames, consumer`hasReceivedFrame, consumer.childFrames
      ensures Drew(drawing, compositorId, syncOnDrawHardware, old(Looks()), Looks(), drawn)
      ensures !drawing.IsNothing() ==> EndsInDrawing(Looks().frames, drawing, compositorId)
      ensures given == old(given) + GivenForDrawing(drawing, compositorId, old(Looks()).frames, compositors)
    {
      if drawing.IsNothing() {
        return consumer.hasReceivedFrame;
      }
      allowAsyncDraw := true;
      var child := MakeFrame(drawing, compositorId);
      DrawingIsCarried(drawing, compositorId);
      HandOver(child);
      drawn := true;
    }

    /** Hands a frame to the consumer and gives back what comes for it. */
    method HandOver(child: ChildFrame)
      requires ValidFrames(Values(consumer.childFrames)) && child !in consumer.childFrames
      modifies this`given, consumer`childFrames, consumer`hasReceivedFrame, consumer.childFrames
      ensures consumer.hasReceivedFrame
      ensures Values(consumer.childFrames) == Placed(old(Values(consumer.childFrames)), old(child.Value()))
      ensures given == old(given) + GivenForAll(HandedBack(old(Values(consumer.childFrames)), old(child.Value())), compositors)
    {
      ghost var q, f := Values(consumer.childFrames), child.Value();
      var unused := consumer.SetFrameOnUI(child);
      GivenForOne(q, f, compositors);
      if unused.Some? {
        GiveBack(unused.value, HandedBack(q, f));
      }
    }

    method GiveBack(unused: ChildFrame, ghost back: seq<Frame>)
      requires [unused.Value()] == back && unused.Value().Valid()
      modifies this`given
      ensures given == old(given) + GivenFor(back[0], compositors)
    {
      ReturnUnusedResource(unused);
    }

    /** Takes back the frames nobody committed. */
    method ReturnUncommitted()
      requires ValidFrames(Values(consumer.childFrames))
      modifies this`given, consumer`childFrames, consumer.childFrames
      ensures consumer.childFrames == []
      ensures given == old(given) + GivenForAll(AllWaited(old(Values(consumer.childFrames))), compositors)
    {
      ghost var q := Values(consumer.childFrames);
      var frames := consumer.PassUncommittedFrameOnUI();
      assert ValidFrames(AllWaited(q));
      ReturnUncommittedFrames(frames);
    }

    /** Takes back the frames nobody committed, and all returned resources. */
    method ReleaseHardware()
      requires ValidFrames(Values(consumer.childFrames))
      modifies this`given, consumer`childFrames, consumer`returnedResources, consumer.childFrames
      ensures consumer.childFrames == [] && consumer.returnedResources == map[]
      ensures BatchesItems(given) == BatchesItems(old(given))
        + BatchesItems(GivenForAll(AllWaited(old(Values(consumer.childFrames))), compositors))
        + MapItems(Only(old(consumer.returnedResources), compositors))
    {
      ghost var before, q := given, Values(consumer.childFrames);
      ReturnUncommitted();
      BatchesConcat(before, GivenForAll(AllWaited(q), compositors));
      ReturnResourceFromParent();
    }
  }

  method MakeFrame(drawing: Drawing, compositor: CompositorId) returns (child: ChildFrame)
    requires !drawing.IsNothing()
    ensures fresh(child) && child.Value() == drawing.ToFrame(compositor)
  {
    match drawing {
      case Sync(frame) => child := new ChildFrame(None, frame.value.sink, Some(frame.value.content), compositor);
      case Async(future) => child := new ChildFrame(future, NO_SINK, None, compositor);
    }
  }

  datatype View = View(frames: seq<Frame>, hasReceivedFrame: bool, allowAsyncDraw: bool)

  /** A draw that got nothing tells whether there was ever a frame; another one puts the frame in its place. */
  predicate Drew(drawing: Drawing, compositor: CompositorId, alwaysSync: bool, before: View, after: View, drawn: bool) {
    if drawing.IsNothing() then after == before && drawn == after.hasReceivedFrame
    else
      var f := drawing.ToFrame(compositor);
      && drawn && AsProduced(alwaysSync, before.allowAsyncDraw, f)
      && after == View(Placed(before.frames, f), true, true)
  }

  /** What is given back for a new frame. */
  function GivenForDrawing(drawing: Drawing, compositor: CompositorId, q: seq<Frame>, compositors: set<CompositorId>): seq<Batch> {
    if drawing.IsNothing() then [] else GivenForAll(HandedBack(q, drawing.ToFrame(compositor)), compositors)
  }

  /** First the map was collected, in some order, then `more` was given back. */
  ghost predicate Collected(given: seq<Batch>, was: seq<Batch>, returned: ReturnedMap, compositors: set<CompositorId>, more: seq<Batch>) {
    exists middle :: was <= middle && BatchesItems(middle) == BatchesItems(was) + MapItems(Only(returned, compositors)) && given == middle + more
  }

  lemma GivenForOne(q: seq<Frame>, f: Frame, compositors: set<CompositorId>)
    requires ValidFrames(q)
    ensures var back := HandedBack(q, f);
      && |back| <= 1
      && (|back| == 1 ==> GivenForAll(back, compositors) == GivenFor(back[0], compositors) && back[0].Valid())
      && (back == [] ==> GivenForAll(back, compositors) == [])
  {
    var back := HandedBack(q, f);
    if |back| == 1 {
      assert back[..0] == [];
    }
  }

  lemma NotEmpty(m: ReturnedMap)
    ensures |m| == 0 || exists c :: c in m
  {
    if forall c :: c !in m {
      assert m == map[];
    }
  }

  /** What draws produced, in the two ways the compositor can be asked. */
  datatype Drawing = Sync(frame: Option<Revealed>) | Async(future: Option<Option<Revealed>>)
  {
    predicate IsNothing() {
      if Sync? then frame.None? else future.None?
    }

    /** What is drawn in the end. */
    function Drawn(): Option<Revealed>
      requires !IsNothing()
    {
      if Sync? then frame else future.value
    }

    function ToFrame(compositor: CompositorId): Frame
      requires !IsNothing()
    {
      if Sync? then Frame(None, frame.value.sink, Some(frame.value.content), compositor)
      else Frame(future, NO_SINK, None, compositor)
    }
  }

  /** The newest frame is of this compositor and, once waited for, has just the sink, content and resources that were drawn. */
  predicate Carries(f: Frame, drawing: Drawing, compositor: CompositorId)
    requires !drawing.IsNothing()
  {
    var drawn := drawing.Drawn();
    && f.Valid() && (f.frame.Some? <==> drawing.Sync?)
    && f.compositor == f.Waited().compositor == compositor
    && (f.IsEmpty() <==> drawn.None?)
    && (drawn.Some? ==> f.Waited().sink == drawn.value.sink && f.Content() == drawn.value.content)
    && FrameItems(f) == if drawn.Some? then Items(compositor, drawn.value.sink, drawn.value.content.resources) else multiset{}
  }

  predicate EndsInDrawing(q: seq<Frame>, drawing: Drawing, compositor: CompositorId)
    requires !drawing.IsNothing()
  {
    q != [] && Carries(q[|q| - 1], drawing, compositor)
  }

  /** The frame made of a drawing carries it, and is placed last. */
  lemma DrawingIsCarried(drawing: Drawing, compositor: CompositorId)
    requires !drawing.IsNothing()
    ensures Carries(drawing.ToFrame(compositor), drawing, compositor)
    ensures forall q :: EndsInDrawing(Placed(q, drawing.ToFrame(compositor)), drawing, compositor)
  {
  }

  /** What a draw hands in to the pipeline is what was drawn: its content, and its resources under the compositor and the sink of the drawing. */
  lemma HandedInIsDrawn(s: State, f: Frame, drawing: Drawing, compositor: CompositorId)
    requires !drawing.IsNothing() && Carries(f, drawing, compositor)
    ensures var t, drawn := Next(s, NewFrame(f)), drawing.Drawn();
      && (drawn.None? ==> t.handedIn == s.handedIn && t.produced == s.produced)
      && (drawn.Some? ==> t.handedIn == s.handedIn + Items(compositor, drawn.value.sink, drawn.value.content.resources)
                          && t.produced == s.produced + [drawn.value.content])
  {
    ReturningUnusedAccounts(s.(frames := Placed(s.frames, f), handedIn := s.handedIn + FrameItems(f), produced := s.produced + ContentsOf(f),
                               dropped := s.dropped + QueueItems(Forgotten(s.frames, f))),
                            HandedBack(s.frames, f));
  }

  lemma NothingLeft(left: ReturnedMap, compositors: set<CompositorId>)
    requires |left| == 0
    ensures MapItems(Only(left, compositors)) == multiset{}
  {
    assert forall c :: c !in Only(left, compositors);
  }

  lemma GiveOne(left: ReturnedMap, compositors: set<CompositorId>, c: CompositorId, given: seq<Batch>)
    requires c in left
    ensures var now := if c in compositors && left[c].resources != [] then given + [Batch(c, left[c].sink, left[c].resources)] else given;
      BatchesItems(now) + MapItems(Only(left - {c}, compositors)) == BatchesItems(given) + MapItems(Only(left, compositors))
  {
    var b := Batch(c, left[c].sink, left[c].resources);
    assert (given + [b])[..|given|] == given;
    if c in compositors {
      OnlyLess(left, compositors, c);
      MapItemsAt(Only(left, compositors), c);
    } else {
      WithoutLess(left, compositors, c);
    }
  }
}
