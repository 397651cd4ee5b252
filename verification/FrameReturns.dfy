/** Which resources are dropped: exactly those of another sink than the committed one, and none while the sink stays. */
module FrameReturns {
  import opened Options
  import opened Frames
  import opened FramePipeline
  import opened FrameConservation
  import opened FrameBounds

  // ----- The filter -----

  function OfSink(sink: SinkId, bs: seq<Batch>): seq<Batch> {
    if bs == [] then []
    else OfSink(sink, bs[..|bs| - 1]) + if bs[|bs| - 1].sink == sink then [bs[|bs| - 1]] else []
  }

  function OfOtherSinks(sink: SinkId, bs: seq<Batch>): seq<Batch> {
    if bs == [] then []
    else OfOtherSinks(sink, bs[..|bs| - 1]) + if bs[|bs| - 1].sink == sink then [] else [bs[|bs| - 1]]
  }

  /** One batch more passes or is dropped. */
  lemma FilterStep(t: State, outbox: seq<Batch>, dropped: multiset<Item>, passed: seq<Batch>, others: seq<Batch>, committed: SinkId, b: Batch)
    requires t.outbox == outbox + passed && t.dropped == dropped + BatchesItems(others)
    ensures Return(t, committed, b).outbox == outbox + (passed + if b.sink == committed then [b] else [])
    ensures Return(t, committed, b).dropped == dropped + BatchesItems(others + if b.sink == committed then [] else [b])
  {
    BatchesOfMore(others, b);
    SumsAssociate(dropped, BatchesItems(others), BatchItems(b));
    assert others + [] == others && passed + [] == passed;
  }

  /** The filter drops exactly the batches whose sink is not the committed one, and keeps the others in order. */
  lemma {:induction false} FilterIsExact(s: State, committed: SinkId, bs: seq<Batch>)
    ensures ReturnAll(s, committed, bs).outbox == s.outbox + OfSink(committed, bs)
    ensures ReturnAll(s, committed, bs).dropped == s.dropped + BatchesItems(OfOtherSinks(committed, bs))
  {
    if bs != [] {
      var front, last := bs[..|bs| - 1], bs[|bs| - 1];
      FilterIsExact(s, committed, front);
      FilterStep(ReturnAll(s, committed, front), s.outbox, s.dropped, OfSink(committed, front), OfOtherSinks(committed, front), committed, last);
    }
  }

  /** One batch passes or is dropped. */
  lemma OneBatch(s: State, committed: SinkId, b: Batch)
    ensures ReturnAll(s, committed, [b]).dropped == s.dropped + if b.sink == committed then multiset{} else BatchItems(b)
  {
    assert [b][..0] == [];
    assert ReturnAll(s, committed, [b]) == Return(ReturnAll(s, committed, []), committed, b);
  }

  // ----- Frames pruned before the first draw -----

  lemma FirstInQueue(s: State, f: Frame)
    requires s.frames == []
    ensures SetFrame(s, f) == s.(frames := [f], handedIn := s.handedIn + FrameItems(f), produced := s.produced + ContentsOf(f))
  {
    assert QueueItems(Forgotten(s.frames, f)) == multiset{};
  }

  /** A commit of one synchronous frame over a queue of as many. */
  lemma CommitOne(s: State, r: Renderer, f: Frame)
    requires s.renderer == Some(r) && s.frames == [f] && r.queue == []
    ensures Commit(s) == s.(frames := [], renderer := Some(r.(queue := [f])))
  {
    assert [f][..0] == [] && [] + AllButLast([f]) == [];
    assert NonEmpty([]) == [] && Kept([]) + LastOf([f]) == [f];
  }

  lemma CommitSecond(s: State, r: Renderer, e: Frame, f: Frame)
    requires s.renderer == Some(r) && s.frames == [f] && r.queue == [e] && IsSynchronous(e)
    ensures Commit(s) == s.(frames := [], renderer := Some(r.(queue := [e, f])))
  {
    SynchronousStay([e]);
    assert [f][..0] == [] && [e] + AllButLast([f]) == [e];
    assert Kept([e]) == [e] && Pruned([e]) == [];
    assert [e] + LastOf([f]) == [e, f];
  }

  lemma CommitThird(s: State, r: Renderer, d: Frame, e: Frame, f: Frame)
    requires s.renderer == Some(r) && s.frames == [f] && r.queue == [d, e] && IsSynchronous(d) && IsSynchronous(e)
    ensures Commit(s).dropped == s.dropped + if d.sink == r.committedSink then multiset{} else FrameItems(d)
  {
    SynchronousStay([d, e]);
    assert [f][..0] == [] && [d, e] + AllButLast([f]) == [d, e];
    assert Pruned([d, e]) == [d] && Kept([d, e]) + LastOf([f]) == [e, f];
    assert BatchesOf([d]) == [BatchOf(d)];
    var t := s.(frames := [], renderer := Some(r.(queue := [e, f])));
    assert Commit(s) == ReturnAll(t, r.committedSink, [BatchOf(d)]);
    OneBatch(t, r.committedSink, BatchOf(d));
  }

  lemma {:induction false} SynchronousStay(q: seq<Frame>)
    requires forall i | 0 <= i < |q| :: IsSynchronous(q[i])
    ensures NonEmpty(q) == q
  {
    if q != [] {
      SynchronousStay(q[..|q| - 1]);
      assert q == q[..|q| - 1] + [q[|q| - 1]];
    }
  }

  /** Each step is legal where the one before it leads. */
  lemma OneMoreStep(steps: seq<Step>, s: State, step: Step) returns (more: seq<Step>, t: State)
    requires LegalRun(EMPTY, steps) && Run(EMPTY, steps) == s && Legal(s, step)
    ensures more == steps + [step] && t == Next(s, step)
    ensures LegalRun(EMPTY, more) && Run(EMPTY, more) == t
  {
    more, t := steps + [step], Next(s, step);
    assert more[..|steps|] == steps;
  }

  /** So far nothing has been drawn and nothing has been lost. */
  predicate Undrawn(s: State, queue: seq<Frame>, count: nat) {
    && s.frames == [] && s.outbox == [] && s.dropped == multiset{} && |s.produced| == count
    && s.renderer == Some(NEW_RENDERER.(queue := queue))
  }

  lemma CommittedFirst(d: Frame) returns (steps: seq<Step>, s: State)
    requires IsSynchronous(d) && d.Content().serial == 0
    ensures steps == [Register(d.compositor), NewFrame(d), Start, Sync]
    ensures LegalRun(EMPTY, steps) && Run(EMPTY, steps) == s && Undrawn(s, [d], 1)
    ensures s.registered == {d.compositor} && s.returned == map[]
  {
    assert LegalRun(EMPTY, []) && Run(EMPTY, []) == EMPTY;
    steps, s := OneMoreStep([], EMPTY, Register(d.compositor));
    FirstInQueue(s, d);
    steps, s := OneMoreStep(steps, s, NewFrame(d));
    steps, s := OneMoreStep(steps, s, Start);
    CommitOne(s, s.renderer.value, d);
    steps, s := OneMoreStep(steps, s, Sync);
  }

  lemma CommittedSecond(d: Frame, e: Frame, before: seq<Step>, was: State) returns (steps: seq<Step>, s: State)
    requires IsSynchronous(d) && IsSynchronous(e) && e.Content().serial == 1
    requires LegalRun(EMPTY, before) && Run(EMPTY, before) == was && Undrawn(was, [d], 1)
    ensures steps == before + [NewFrame(e), Sync]
    ensures LegalRun(EMPTY, steps) && Run(EMPTY, steps) == s && Undrawn(s, [d, e], 2)
  {
    FirstInQueue(was, e);
    steps, s := OneMoreStep(before, was, NewFrame(e));
    CommitSecond(s, s.renderer.value, d, e);
    steps, s := OneMoreStep(steps, s, Sync);
  }

  /**
   Three synchronous frames committed before any draw: the first is pruned, and though nobody has
   seen it and its compositor is there, it is dropped exactly when it is not of the sink no frame has.
   */
  lemma PrunedBeforeFirstDraw(d: Frame, e: Frame, f: Frame) returns (steps: seq<Step>)
    requires IsSynchronous(d) && IsSynchronous(e) && IsSynchronous(f)
    requires d.Content().serial == 0 && e.Content().serial == 1 && f.Content().serial == 2
    ensures steps == [Register(d.compositor), NewFrame(d), Start, Sync] + [NewFrame(e), Sync] + [NewFrame(f), Sync]
    ensures LegalRun(EMPTY, steps)
    ensures Run(EMPTY, steps).dropped == if d.sink == 0 then multiset{} else FrameItems(d)
  {
    var s;
    steps, s := CommittedFirst(d);
    steps, s := CommittedSecond(d, e, steps, s);
    FirstInQueue(s, f);
    var before := steps;
    steps, s := OneMoreStep(steps, s, NewFrame(f));
    CommitThird(s, s.renderer.value, d, e, f);
    steps, s := OneMoreStep(steps, s, Sync);
    assert steps == before + [NewFrame(f), Sync];
  }

  /** The first draw over one synchronous frame. */
  lemma FirstDraw(s: State, d: Frame)
    requires Undrawn(s, [d], 1) && IsSynchronous(d)
    ensures var t := Draw(s, []);
      && t.renderer == Some(Renderer([], d.sink, d.sink, d.compositor, FrameItems(d), d.frame))
      && t == s.(renderer := t.renderer, submitted := t.submitted)
  {
    SynchronousStay([d]);
    var r := s.renderer.value;
    assert Kept([d]) == [d] && Pruned([d]) == [] && BatchesOf([]) == [];
    assert Unreclaimed(r, []) == multiset{} && Reclaimed(r, []) == [];
    var emptied := s.(renderer := Some(r.(queue := [])));
    assert ReturnAll(emptied, r.committedSink, []) == emptied;
    assert Draw(s, []) == Submit(emptied, r, d, []);
    assert multiset{} + FrameItems(d) == FrameItems(d);
  }

  // ----- Nothing is dropped while the sink stays -----

  predicate Fits(f: Frame, sink: SinkId, registered: set<CompositorId>) {
    f.IsEmpty() || (f.Waited().sink == sink && f.compositor in registered)
  }

  predicate AllFit(q: seq<Frame>, sink: SinkId, registered: set<CompositorId>) {
    forall i | 0 <= i < |q| :: Fits(q[i], sink, registered)
  }

  predicate BatchesFit(bs: seq<Batch>, sink: SinkId, registered: set<CompositorId>) {
    forall i | 0 <= i < |bs| :: bs[i].sink == sink && bs[i].compositor in registered
  }

  predicate RendererFits(r: Renderer, sink: SinkId, registered: set<CompositorId>) {
    AllFit(r.queue, sink, registered) && r.committedSink == sink && r.submittedSink == sink && r.compositor in registered
  }

  /** Everything under way belongs to one sink, which has been committed, and to registered compositors. */
  predicate Steady(s: State, sink: SinkId) {
    && AllFit(s.frames, sink, s.registered)
    && (s.renderer.Some? ==> RendererFits(s.renderer.value, sink, s.registered))
    && BatchesFit(s.outbox, sink, s.registered)
    && (forall c | c in s.returned :: s.returned[c].sink == sink && c in s.registered)
  }

  predicate ReclaimsAll(r: Renderer, calls: seq<seq<Resource>>) {
    Unreclaimed(r, calls) == multiset{}
  }

  /**
   New frames fit as well, no compositor goes away, no new renderer is made, which would have no
   committed sink, and the display hands back all it holds when its support is reset.
   */
  predicate KeepsSteady(s: State, step: Step, sink: SinkId) {
    match step
    case NewFrame(f) => Fits(f, sink, s.registered)
    case Unregister(_) => false
    case Start => s.renderer.Some?
    case Paint(calls) => s.renderer.Some? && ResetsSupport(s.renderer.value) ==> ReclaimsAll(s.renderer.value, calls)
    case Stop(calls) => s.renderer.Some? ==> ReclaimsAll(s.renderer.value, calls)
    case _ => true
  }

  lemma {:induction false} NonEmptyFit(q: seq<Frame>, sink: SinkId, registered: set<CompositorId>)
    requires AllFit(q, sink, registered)
    ensures AllFit(NonEmpty(q), sink, registered)
  {
    if q != [] {
      NonEmptyFit(q[..|q| - 1], sink, registered);
    }
  }

  lemma {:induction false} FittingPasses(s: State, sink: SinkId, bs: seq<Batch>)
    requires BatchesFit(bs, sink, s.registered) && BatchesFit(s.outbox, sink, s.registered)
    ensures var t := ReturnAll(s, sink, bs);
      t == s.(outbox := t.outbox) && BatchesFit(t.outbox, sink, s.registered)
  {
    if bs != [] {
      FittingPasses(s, sink, bs[..|bs| - 1]);
    }
  }

  lemma {:induction false} FittingIsGivenBack(s: State, sink: SinkId, q: seq<Frame>)
    requires AllFit(q, sink, s.registered) && forall i | 0 <= i < |q| :: q[i].IsWaited()
    ensures var t := ReturnAllUnused(s, q);
      t == s.(delivered := t.delivered)
  {
    if q != [] {
      FittingIsGivenBack(s, sink, q[..|q| - 1]);
      var f := q[|q| - 1];
      if f.frame.None? {
        assert BatchOf(f).resources == [];
      }
    }
  }

  lemma PlacedFit(q: seq<Frame>, f: Frame, sink: SinkId, registered: set<CompositorId>, alwaysSync: bool, allowAsync: bool)
    requires AllFit(q, sink, registered) && Fits(f, sink, registered)
    requires FramesRegular(q, alwaysSync, allowAsync) && AsProduced(alwaysSync, allowAsync, f)
    ensures AllFit(Placed(q, f), sink, registered) && AllFit(HandedBack(q, f), sink, registered)
    ensures Forgotten(q, f) == [] && forall i | 0 <= i < |HandedBack(q, f)| :: HandedBack(q, f)[i].IsWaited()
  {
    if q != [] && f.frame.None? {
      NonEmptyFit(q, sink, registered);
      ShortIsPrunedToOne(q);
    }
  }

  lemma ShortIsPrunedToOne(q: seq<Frame>)
    requires IsShort(q)
    ensures |Pruned(q)| <= 1
    ensures Pruned(q) != [] ==> Pruned(q)[1..] == []
    ensures forall i | 0 <= i < |Pruned(q)| :: Pruned(q)[i].IsWaited()
  {
  }

  lemma NewFrameStaysSteady(s: State, f: Frame, sink: SinkId, alwaysSync: bool, allowAsync: bool)
    requires Steady(s, sink) && Fits(f, sink, s.registered)
    requires FramesRegular(s.frames, alwaysSync, allowAsync) && AsProduced(alwaysSync, allowAsync, f)
    ensures Steady(SetFrame(s, f), sink) && SetFrame(s, f).dropped == s.dropped
  {
    var t := s.(frames := Placed(s.frames, f), handedIn := s.handedIn + FrameItems(f), produced := s.produced + ContentsOf(f),
                dropped := s.dropped + QueueItems(Forgotten(s.frames, f)));
    PlacedFit(s.frames, f, sink, s.registered, alwaysSync, allowAsync);
    FittingIsGivenBack(t, sink, HandedBack(s.frames, f));
  }

  lemma SyncStaysSteady(s: State, sink: SinkId)
    requires Steady(s, sink)
    ensures Steady(Commit(s), sink) && Commit(s).dropped == s.dropped
  {
    if s.renderer.Some? && s.frames != [] {
      var r := s.renderer.value;
      var q := r.queue + AllButLast(s.frames);
      NonEmptyFit(q, sink, s.registered);
      var t := s.(frames := [], renderer := Some(r.(queue := Kept(q) + LastOf(s.frames))));
      FittingPasses(t, sink, BatchesOf(Pruned(q)));
    }
  }

  lemma PaintStaysSteady(s: State, sink: SinkId, calls: seq<seq<Resource>>)
    requires Steady(s, sink) && KeepsSteady(s, Paint(calls), sink)
    ensures Steady(Draw(s, calls), sink) && Draw(s, calls).dropped == s.dropped
  {
    if s.renderer.Some? {
      var r := s.renderer.value;
      NonEmptyFit(r.queue, sink, s.registered);
      var emptied := s.(renderer := Some(r.(queue := [])));
      FittingPasses(emptied, sink, BatchesOf(Pruned(r.queue)));
      if Kept(r.queue) != [] {
        FittingPasses(Abandon(ReturnAll(emptied, sink, BatchesOf(Pruned(r.queue))), r, calls), sink, Reclaimed(r, calls));
      }
    }
  }

  lemma StopStaysSteady(s: State, sink: SinkId, calls: seq<seq<Resource>>)
    requires Steady(s, sink) && KeepsSteady(s, Stop(calls), sink)
    ensures Steady(Teardown(s, calls), sink) && Teardown(s, calls).dropped == s.dropped
  {
    if s.renderer.Some? {
      var r := s.renderer.value;
      var gone := s.(renderer := None);
      NonEmptyFit(r.queue, sink, s.registered);
      FittingPasses(Abandon(gone, r, calls), sink, Reclaimed(r, calls));
      FittingPasses(ReturnAll(Abandon(gone, r, calls), sink, Reclaimed(r, calls)), sink, BatchesOf(NonEmpty(r.queue)));
    }
  }

  lemma WaitedFit(q: seq<Frame>, sink: SinkId, registered: set<CompositorId>)
    requires AllFit(q, sink, registered)
    ensures AllFit(AllWaited(q), sink, registered)
  {
    forall i | 0 <= i < |q| ensures Fits(AllWaited(q)[i], sink, registered) {
      assert Fits(q[i], sink, registered);
    }
  }

  lemma StepStaysSteady(s: State, step: Step, sink: SinkId, alwaysSync: bool, allowAsync: bool)
    requires Steady(s, sink) && KeepsSteady(s, step, sink)
    requires Regular(s, alwaysSync, allowAsync) && RegularStep(step, alwaysSync, allowAsync)
    ensures Steady(Next(s, step), sink) && Next(s, step).dropped == s.dropped
  {
    match step
    case NewFrame(f) => NewFrameStaysSteady(s, f, sink, alwaysSync, allowAsync);
    case TakeBack =>
      WaitedFit(s.frames, sink, s.registered);
      FittingIsGivenBack(s.(frames := []), sink, AllWaited(s.frames));
    case Gather => assert forall c :: c !in Without(s.returned, s.registered);
    case Sync => SyncStaysSteady(s, sink);
    case Paint(calls) => PaintStaysSteady(s, sink, calls);
    case Stop(calls) => StopStaysSteady(s, sink, calls);
    case _ =>
  }

  /** A run that leads to such a state, with a renderer: one frame, committed and drawn. */
  lemma SteadyIsReached(d: Frame, alwaysSync: bool) returns (steps: seq<Step>, s: State)
    requires IsSynchronous(d) && d.Content().serial == 0
    ensures steps == [Register(d.compositor), NewFrame(d), Start, Sync] + [Paint([])]
    ensures LegalRun(EMPTY, steps) && Run(EMPTY, steps) == s
    ensures s.renderer.Some? && Steady(s, d.sink) && Conserved(s) && Regular(s, alwaysSync, true) && s.dropped == multiset{}
  {
    steps, s := CommittedFirst(d);
    FirstDraw(s, d);
    assert BatchesItems(Reclaimed(s.renderer.value, [])) == multiset{};
    steps, s := OneMoreStep(steps, s, Paint([]));
    RunsConserve(steps);
  }

  ghost predicate SteadyRun(s: State, steps: seq<Step>, sink: SinkId, alwaysSync: bool) {
    && LegalRun(s, steps)
    && forall i | 0 <= i < |steps| ::
         KeepsSteady(Run(s, steps[..i]), steps[i], sink) && RegularStep(steps[i], alwaysSync, true)
  }

  /** From a state where all belongs to the committed sink, nothing is dropped: what is handed in is delivered or under way. */
  lemma {:induction false} NothingIsDropped(s: State, steps: seq<Step>, sink: SinkId, alwaysSync: bool)
    requires Conserved(s) && Steady(s, sink) && Regular(s, alwaysSync, true) && SteadyRun(s, steps, sink, alwaysSync)
    ensures var t := Run(s, steps);
      && Conserved(t) && Steady(t, sink) && Regular(t, alwaysSync, true)
      && t.dropped == s.dropped
      && t.handedIn == Underway(t) + t.delivered + s.dropped
  {
    if steps != [] {
      var n := |steps| - 1;
      assert forall i | 0 <= i < n :: steps[..n][..i] == steps[..i];
      NothingIsDropped(s, steps[..n], sink, alwaysSync);
      var before := Run(s, steps[..n]);
      StepConserves(before, steps[n]);
      StepStaysSteady(before, steps[n], sink, alwaysSync, true);
      StepStaysRegular(before, steps[n], alwaysSync, true);
    }
  }

  // ----- Who gets resources -----

  lemma {:induction false} BatchItemsAreOfOne(compositor: CompositorId, sink: SinkId, resources: seq<Resource>, x: Item)
    requires x.compositor != compositor
    ensures Items(compositor, sink, resources)[x] == 0
  {
    ItemsCount(compositor, sink, resources, x);
  }

  lemma {:induction false} UnusedGoToRegistered(s: State, q: seq<Frame>, x: Item)
    requires x.compositor !in s.registered
    ensures var t := ReturnAllUnused(s, q);
      t.registered == s.registered && t.delivered[x] == s.delivered[x]
  {
    if q != [] {
      UnusedGoToRegistered(s, q[..|q| - 1], x);
      var b := BatchOf(q[|q| - 1]);
      if b.compositor != x.compositor {
        BatchItemsAreOfOne(b.compositor, b.sink, b.resources, x);
      }
    }
  }

  lemma {:induction false} EntriesGoToTheirOwn(m: ReturnedMap, x: Item)
    requires x.compositor !in m
    ensures MapItems(m)[x] == 0
    decreases |m.Keys|
  {
    if exists c :: c in m {
      var c := SomeEntryIsAdded(m);
      assert (m - {c}).Keys == m.Keys - {c};
      EntriesGoToTheirOwn(m - {c}, x);
      BatchItemsAreOfOne(c, m[c].sink, m[c].resources, x);
    }
  }

  /** No step delivers anything to a compositor that is not registered. */
  lemma OnlyRegisteredGetResources(s: State, step: Step, x: Item)
    requires x.compositor !in s.registered
    ensures Next(s, step).delivered[x] == s.delivered[x]
  {
    match step
    case NewFrame(f) =>
      UnusedGoToRegistered(s.(frames := Placed(s.frames, f), handedIn := s.handedIn + FrameItems(f), produced := s.produced + ContentsOf(f),
                              dropped := s.dropped + QueueItems(Forgotten(s.frames, f))),
                           HandedBack(s.frames, f), x);
    case TakeBack => UnusedGoToRegistered(s.(frames := []), AllWaited(s.frames), x);
    case Gather => EntriesGoToTheirOwn(Only(s.returned, s.registered), x);
    case _ => RenderThreadDeliversNothing(s, step);
  }

  /** Resources reach the compositors on the UI thread only. */
  lemma RenderThreadDeliversNothing(s: State, step: Step)
    requires !step.NewFrame? && !step.TakeBack? && !step.Gather?
    ensures Next(s, step).delivered == s.delivered
  {
    if s.renderer.Some? {
      var r := s.renderer.value;
      match step
      case Sync =>
        if s.frames != [] {
          var q := r.queue + AllButLast(s.frames);
          ReturningDeliversNothing(s.(frames := [], renderer := Some(r.(queue := Kept(q) + LastOf(s.frames)))), r.committedSink, BatchesOf(Pruned(q)));
        }
      case Paint(calls) =>
        var emptied := s.(renderer := Some(r.(queue := [])));
        var t := ReturnAll(emptied, r.committedSink, BatchesOf(Pruned(r.queue)));
        ReturningDeliversNothing(emptied, r.committedSink, BatchesOf(Pruned(r.queue)));
        if ResetsSupport(r) {
          ReturningDeliversNothing(Abandon(t, r, calls), Kept(r.queue)[0].sink, Reclaimed(r, calls));
        }
      case Stop(calls) =>
        var gone := Abandon(s.(renderer := None), r, calls);
        ReturningDeliversNothing(gone, r.committedSink, Reclaimed(r, calls));
        ReturningDeliversNothing(ReturnAll(gone, r.committedSink, Reclaimed(r, calls)), r.committedSink, BatchesOf(NonEmpty(r.queue)));
      case _ =>
    }
  }

  lemma {:induction false} ReturningDeliversNothing(s: State, committed: SinkId, bs: seq<Batch>)
    ensures ReturnAll(s, committed, bs).delivered == s.delivered
  {
    if bs != [] {
      ReturningDeliversNothing(s, committed, bs[..|bs| - 1]);
    }
  }
}
