/** No resource of a frame is lost or returned twice: what is where, over whole runs. */
module FrameConservation {
  import opened Options
  import opened Frames
  import opened FramePipeline

  // ----- Conservation -----

  function InRenderer(r: Option<Renderer>): multiset<Item> {
    if r.None? then multiset{} else QueueItems(r.value.queue) + r.value.held
  }

  /** What is still on its way. */
  ghost function Underway(s: State): multiset<Item> {
    QueueItems(s.frames) + InRenderer(s.renderer) + BatchesItems(s.outbox) + MapItems(s.returned)
  }

  ghost function Accounted(s: State): multiset<Item> {
    Underway(s) + s.delivered + s.dropped
  }

  /** The display holds resources of the frame submitted last to it, and of its predecessors of the same sink. */
  predicate HeldIsTagged(r: Renderer) {
    forall x | x in r.held :: x.compositor == r.compositor && x.sink == r.submittedSink
  }

  /** Everything handed in is somewhere. */
  ghost predicate Conserved(s: State) {
    Accounted(s) == s.handedIn && (s.renderer.Some? ==> HeldIsTagged(s.renderer.value))
  }

  lemma GivingBackAccounts(s: State, b: Batch)
    ensures Accounted(GiveBack(s, b)) == Accounted(s) + BatchItems(b)
  {
  }

  lemma ReturningOneUnused(s: State, f: Frame)
    ensures var t := ReturnUnused(s, f);
      Accounted(t) == Accounted(s) + FrameItems(f) && t == s.(delivered := t.delivered, dropped := t.dropped)
  {
    GivingBackAccounts(s, BatchOf(f));
  }

  lemma {:induction false} ReturningUnusedAccounts(s: State, q: seq<Frame>)
    ensures var t := ReturnAllUnused(s, q);
      && Accounted(t) == Accounted(s) + QueueItems(q)
      && t == s.(delivered := t.delivered, dropped := t.dropped)
    decreases |q|
  {
    if q != [] {
      var front, last := q[..|q| - 1], q[|q| - 1];
      ReturningUnusedAccounts(s, front);
      ReturningOneUnused(ReturnAllUnused(s, front), last);
      assert ReturnAllUnused(s, q) == ReturnUnused(ReturnAllUnused(s, front), last);
      SumsAssociate(Accounted(s), QueueItems(front), FrameItems(last));
    }
  }

  lemma ReturningOneAccounts(s: State, committed: SinkId, b: Batch)
    ensures Accounted(Return(s, committed, b)) == Accounted(s) + BatchItems(b)
  {
    assert (s.outbox + [b])[..|s.outbox|] == s.outbox;
    assert BatchesItems(s.outbox + [b]) == BatchesItems(s.outbox) + BatchItems(b);
  }

  lemma {:induction false} ReturningAccounts(s: State, committed: SinkId, bs: seq<Batch>)
    ensures var t := ReturnAll(s, committed, bs);
      && Accounted(t) == Accounted(s) + BatchesItems(bs)
      && t == s.(outbox := t.outbox, dropped := t.dropped)
    decreases |bs|
  {
    if bs != [] {
      ReturningAccounts(s, committed, bs[..|bs| - 1]);
      ReturningOneAccounts(ReturnAll(s, committed, bs[..|bs| - 1]), committed, bs[|bs| - 1]);
    }
  }

  lemma {:induction false} WaitingKeepsItems(q: seq<Frame>)
    ensures QueueItems(AllWaited(q)) == QueueItems(q)
  {
    if q != [] {
      WaitingKeepsItems(q[..|q| - 1]);
      assert AllWaited(q)[..|q| - 1] == AllWaited(q[..|q| - 1]);
    }
  }

  lemma QueueSplits(q: seq<Frame>, k: nat)
    requires k <= |q|
    ensures QueueItems(q) == QueueItems(q[..k]) + QueueItems(q[k..])
  {
    assert q == q[..k] + q[k..];
    QueueConcat(q[..k], q[k..]);
  }

  /** A new frame's place: nothing of the queue is lost but what is forgotten. */
  lemma PlacingKeepsItems(q: seq<Frame>, f: Frame)
    ensures QueueItems(Placed(q, f)) + QueueItems(HandedBack(q, f)) + QueueItems(Forgotten(q, f)) == QueueItems(q) + FrameItems(f)
  {
    QueueOfOne(f);
    if q != [] && f.frame.Some? {
      QueueConcat(q[1..], [f]);
      QueueSplits(q, 1);
    } else if q != [] {
      QueueConcat(Kept(q), [f]);
      PruningKeepsItems(q);
      if Pruned(q) != [] {
        QueueSplits(Pruned(q), 1);
      }
    }
  }

  /** Moving frames about: what leaves the queues and the display is what has been put elsewhere. */
  lemma Rearranged(s: State, frames: seq<Frame>, renderer: Option<Renderer>, out: multiset<Item>)
    requires QueueItems(frames) + InRenderer(renderer) + out == QueueItems(s.frames) + InRenderer(s.renderer)
    ensures Accounted(s.(frames := frames, renderer := renderer)) + out == Accounted(s)
  {
  }

  lemma PlacingAccounts(s: State, f: Frame, t: State)
    requires t == s.(frames := t.frames, handedIn := t.handedIn, produced := t.produced, dropped := t.dropped)
    requires t.frames == Placed(s.frames, f) && t.dropped == s.dropped + QueueItems(Forgotten(s.frames, f))
    ensures Accounted(t) + QueueItems(HandedBack(s.frames, f)) == Accounted(s) + FrameItems(f)
  {
    PlacingKeepsItems(s.frames, f);
    var placed, back, forgotten := QueueItems(t.frames), QueueItems(HandedBack(s.frames, f)), QueueItems(Forgotten(s.frames, f));
    var others := InRenderer(s.renderer) + BatchesItems(s.outbox) + MapItems(s.returned) + s.delivered;
    Exchange(placed, back, forgotten, QueueItems(s.frames), FrameItems(f), others, s.dropped);
    Reorder(s);
    Reorder(t);
  }

  lemma Reorder(s: State)
    ensures Accounted(s) == QueueItems(s.frames) + (InRenderer(s.renderer) + BatchesItems(s.outbox) + MapItems(s.returned) + s.delivered) + s.dropped
  {
  }

  lemma Exchange<T>(placed: multiset<T>, back: multiset<T>, forgotten: multiset<T>, before: multiset<T>, items: multiset<T>,
                    others: multiset<T>, dropped: multiset<T>)
    requires placed + back + forgotten == before + items
    ensures placed + others + (dropped + forgotten) + back == before + others + dropped + items
  {
    forall x ensures (placed + others + (dropped + forgotten) + back)[x] == (before + others + dropped + items)[x] {
      assert (placed + back + forgotten)[x] == (before + items)[x];
    }
  }

  lemma SetFrameConserves(s: State, f: Frame)
    requires Conserved(s)
    ensures Conserved(SetFrame(s, f))
  {
    var t := s.(frames := Placed(s.frames, f), handedIn := s.handedIn + FrameItems(f), produced := s.produced + ContentsOf(f),
                dropped := s.dropped + QueueItems(Forgotten(s.frames, f)));
    PlacingAccounts(s, f, t);
    ReturningUnusedAccounts(t, HandedBack(s.frames, f));
  }

  lemma PassingConserves(s: State)
    requires Conserved(s)
    ensures Conserved(PassUncommitted(s))
  {
    WaitingKeepsItems(s.frames);
    Rearranged(s, [], s.renderer, QueueItems(s.frames));
    ReturningUnusedAccounts(s.(frames := []), AllWaited(s.frames));
  }

  lemma CollectingConserves(s: State)
    requires Conserved(s)
    ensures Conserved(Collect(s))
  {
    MapItemsSplit(s.returned, s.registered);
  }

  /** Committing: the queues together keep what is not pruned. */
  lemma CommittingKeepsItems(queue: seq<Frame>, frames: seq<Frame>)
    requires frames != []
    ensures var q := queue + AllButLast(frames);
      QueueItems(Kept(q) + LastOf(frames)) + QueueItems(Pruned(q)) == QueueItems(queue) + QueueItems(frames)
  {
    var q := queue + AllButLast(frames);
    QueueConcat(queue, AllButLast(frames));
    QueueSplits(frames, |frames| - 1);
    PruningKeepsItems(q);
    QueueConcat(Kept(q), LastOf(frames));
    assert LastOf(frames) == frames[|frames| - 1..];
    Regroup(QueueItems(Kept(q)), QueueItems(LastOf(frames)), QueueItems(Pruned(q)),
            QueueItems(queue), QueueItems(AllButLast(frames)), QueueItems(frames));
  }

  lemma Regroup<T>(kept: multiset<T>, last: multiset<T>, pruned: multiset<T>, queue: multiset<T>, rest: multiset<T>, all: multiset<T>)
    requires kept + pruned == queue + rest && all == rest + last
    ensures kept + last + pruned == queue + all
  {
    forall x ensures (kept + last + pruned)[x] == (queue + all)[x] {
      assert (kept + pruned)[x] == (queue + rest)[x];
    }
  }

  lemma WithHeld<T>(after: multiset<T>, pruned: multiset<T>, queue: multiset<T>, frames: multiset<T>, held: multiset<T>)
    requires after + pruned == queue + frames
    ensures multiset{} + (after + held) + pruned == frames + (queue + held)
  {
    forall x ensures (multiset{} + (after + held) + pruned)[x] == (frames + (queue + held))[x] {
      assert (after + pruned)[x] == (queue + frames)[x];
    }
  }

  lemma CommittingConserves(s: State)
    requires Conserved(s)
    ensures Conserved(Commit(s))
  {
    if s.renderer.Some? && s.frames != [] {
      var r := s.renderer.value;
      var q := r.queue + AllButLast(s.frames);
      CommittingKeepsItems(r.queue, s.frames);
      QueueAsBatches(Pruned(q));
      var renderer := Some(r.(queue := Kept(q) + LastOf(s.frames)));
      WithHeld(QueueItems(Kept(q) + LastOf(s.frames)), QueueItems(Pruned(q)), QueueItems(r.queue), QueueItems(s.frames), r.held);
      Rearranged(s, [], renderer, QueueItems(Pruned(q)));
      ReturningAccounts(s.(frames := [], renderer := renderer), r.committedSink, BatchesOf(Pruned(q)));
    }
  }

  lemma ItemsAreTagged(f: Frame)
    ensures forall x | x in FrameItems(f) :: x.compositor == f.compositor && (f.IsWaited() ==> x.sink == f.sink)
  {
    var b := BatchOf(f);
    forall x | x in FrameItems(f) ensures x.compositor == b.compositor && x.sink == b.sink {
      ItemsCount(b.compositor, b.sink, b.resources, x);
    }
  }

  /** Putting a frame into an empty renderer. */
  lemma Submitting(t: State, renderer: Renderer, items: multiset<Item>, submitted: seq<Content>)
    requires t.renderer.Some? && t.renderer.value.queue == renderer.queue == []
    requires renderer.held == t.renderer.value.held + items
    ensures Accounted(t.(renderer := Some(renderer), submitted := submitted)) == Accounted(t) + items
  {
    assert QueueItems([]) == multiset{};
  }

  lemma HeldMoves(u: State, r: Renderer)
    requires u.renderer == Some(r.(queue := []))
    ensures Accounted(u.(renderer := Some(r.(queue := [], held := multiset{})))) + r.held == Accounted(u)
  {
    var renderer := Some(r.(queue := [], held := multiset{}));
    assert QueueItems([]) == multiset{};
    assert InRenderer(renderer) == multiset{} && InRenderer(u.renderer) == r.held;
    Rearranged(u, u.frames, renderer, r.held);
  }

  lemma Cancel<T>(a: multiset<T>, b: multiset<T>, c: multiset<T>)
    requires a + c == b + c
    ensures a == b
  {
    forall x ensures a[x] == b[x] {
      assert (a + c)[x] == (b + c)[x];
    }
  }

  lemma AbandonAccounts(t: State, r: Renderer, calls: seq<seq<Resource>>)
    requires Reclaims(r, calls)
    ensures Accounted(Abandon(t, r, calls)) + BatchesItems(Reclaimed(r, calls)) == Accounted(t) + r.held
  {
    Reorder(t);
    Reorder(Abandon(t, r, calls));
    Returns(Accounted(t), r.held, BatchesItems(Reclaimed(r, calls)));
  }

  lemma Returns<T>(a: multiset<T>, held: multiset<T>, back: multiset<T>)
    requires back <= held
    ensures a + (held - back) + back == a + held
  {
  }

  lemma SupportReset(t: State, r: Renderer, sink: SinkId, calls: seq<seq<Resource>>)
    requires t.renderer == Some(r.(queue := [])) && Reclaims(r, calls)
    ensures Accounted(ReturnAll(Abandon(t, r, calls), sink, Reclaimed(r, calls)).(renderer := Some(r.(queue := [], held := multiset{})))) == Accounted(t)
  {
    AbandonAccounts(t, r, calls);
    ReturningAccounts(Abandon(t, r, calls), sink, Reclaimed(r, calls));
    var u := ReturnAll(Abandon(t, r, calls), sink, Reclaimed(r, calls));
    HeldMoves(u, r);
    Cancel(Accounted(u.(renderer := Some(r.(queue := [], held := multiset{})))), Accounted(t), r.held);
  }

  lemma SubmittingConserves(t: State, r: Renderer, f: Frame, calls: seq<seq<Resource>>)
    requires t.renderer == Some(r.(queue := [])) && HeldIsTagged(r) && f.IsWaited() && f.frame.Some?
    requires ChangesSupport(r, f) ==> Reclaims(r, calls)
    ensures var u := Submit(t, r, f, calls);
      Accounted(u) == Accounted(t) + FrameItems(f) && u.handedIn == t.handedIn && HeldIsTagged(u.renderer.value)
  {
    ItemsAreTagged(f);
    var renderer := Submit(t, r, f, calls).renderer.value;
    if ChangesSupport(r, f) {
      SupportReset(t, r, f.sink, calls);
      ReturningAccounts(Abandon(t, r, calls), f.sink, Reclaimed(r, calls));
      var reset := ReturnAll(Abandon(t, r, calls), f.sink, Reclaimed(r, calls)).(renderer := Some(r.(queue := [], held := multiset{})));
      Submitting(reset, renderer, FrameItems(f), t.submitted + [f.frame.value]);
    } else {
      Submitting(t, renderer, FrameItems(f), t.submitted + [f.frame.value]);
    }
  }

  lemma PaintingConserves(s: State, calls: seq<seq<Resource>>)
    requires Conserved(s) && (s.renderer.Some? && ResetsSupport(s.renderer.value) ==> Reclaims(s.renderer.value, calls))
    ensures Conserved(Draw(s, calls))
  {
    if s.renderer.Some? {
      var r := s.renderer.value;
      PruningKeepsItems(r.queue);
      QueueAsBatches(Pruned(r.queue));
      var emptied := s.(renderer := Some(r.(queue := [])));
      assert QueueItems([]) == multiset{};
      Rearranged(s, s.frames, emptied.renderer, QueueItems(r.queue));
      ReturningAccounts(emptied, r.committedSink, BatchesOf(Pruned(r.queue)));
      var t := ReturnAll(emptied, r.committedSink, BatchesOf(Pruned(r.queue)));
      assert Accounted(t) + QueueItems(Kept(r.queue)) == Accounted(s);
      if Kept(r.queue) != [] {
        QueueOfOne(Kept(r.queue)[0]);
        SubmittingConserves(t, r, Kept(r.queue)[0], calls);
      }
    }
  }

  lemma HeldShrinks<T>(frames: multiset<T>, queue: multiset<T>, held: multiset<T>, back: multiset<T>)
    requires back <= held
    ensures frames + (queue + (held - back)) + back == frames + (queue + held)
  {
  }

  lemma ReclaimingConserves(s: State, resources: seq<Resource>)
    requires Conserved(s) && Legal(s, Reclaim(resources))
    ensures Conserved(DisplayReturn(s, resources))
  {
    var r := s.renderer.value;
    var b := Batch(r.compositor, r.submittedSink, resources);
    var t := s.(renderer := Some(r.(held := r.held - BatchItems(b))));
    HeldGoesBack(s, r, BatchItems(b));
    ReturningOneAccounts(t, r.committedSink, b);
    assert DisplayReturn(s, resources) == Return(t, r.committedSink, b);
  }

  lemma HeldGoesBack(s: State, r: Renderer, back: multiset<Item>)
    requires s.renderer == Some(r) && back <= r.held && HeldIsTagged(r)
    ensures Accounted(s.(renderer := Some(r.(held := r.held - back)))) + back == Accounted(s)
    ensures HeldIsTagged(r.(held := r.held - back))
  {
    HeldShrinks(QueueItems(s.frames), QueueItems(r.queue), r.held, back);
    Rearranged(s, s.frames, Some(r.(held := r.held - back)), back);
  }

  lemma StoppingConserves(s: State, calls: seq<seq<Resource>>)
    requires Conserved(s) && (s.renderer.Some? ==> Reclaims(s.renderer.value, calls))
    ensures Conserved(Teardown(s, calls))
  {
    if s.renderer.Some? {
      var r := s.renderer.value;
      NonEmptyHasAll(r.queue);
      QueueAsBatches(NonEmpty(r.queue));
      var gone := s.(renderer := None);
      Rearranged(s, s.frames, None, QueueItems(r.queue) + r.held);
      AbandonAccounts(gone, r, calls);
      ReturningAccounts(Abandon(gone, r, calls), r.committedSink, Reclaimed(r, calls));
      ReturningAccounts(ReturnAll(Abandon(gone, r, calls), r.committedSink, Reclaimed(r, calls)), r.committedSink, BatchesOf(NonEmpty(r.queue)));
    }
  }

  lemma InsertedEntry(m: ReturnedMap, b: Batch)
    ensures EntryItems(Inserted(m, b), b.compositor) + Cleared(m, b) == EntryItems(m, b.compositor) + BatchItems(b)
  {
    if b.compositor in m && m[b.compositor].sink == b.sink {
      ItemsConcat(b.compositor, b.sink, m[b.compositor].resources, b.resources);
    } else {
      assert [] + b.resources == b.resources;
    }
  }

  lemma MapItemsBut(m: ReturnedMap, c: CompositorId)
    ensures MapItems(m) == MapItems(m - {c}) + EntryItems(m, c)
  {
    if c in m {
      MapItemsAt(m, c);
    } else {
      assert m - {c} == m;
    }
  }

  lemma InsertingKeepsItems(m: ReturnedMap, b: Batch)
    ensures MapItems(Inserted(m, b)) + Cleared(m, b) == MapItems(m) + BatchItems(b)
  {
    var c := b.compositor;
    MapItemsBut(Inserted(m, b), c);
    MapItemsBut(m, c);
    assert Inserted(m, b) - {c} == m - {c};
    InsertedEntry(m, b);
    AddBoth(MapItems(m - {c}), EntryItems(Inserted(m, b), c), Cleared(m, b), EntryItems(m, c), BatchItems(b));
  }

  lemma AddBoth<T>(rest: multiset<T>, entry: multiset<T>, cleared: multiset<T>, before: multiset<T>, added: multiset<T>)
    requires entry + cleared == before + added
    ensures rest + entry + cleared == rest + before + added
  {
    forall x ensures (rest + entry + cleared)[x] == (rest + before + added)[x] {
      assert (entry + cleared)[x] == (before + added)[x];
    }
  }

  lemma {:induction false} FirstAndRest(bs: seq<Batch>)
    requires bs != []
    ensures BatchesItems(bs) == BatchItems(bs[0]) + BatchesItems(bs[1..])
  {
    assert bs == bs[..1] + bs[1..];
    BatchesConcat(bs[..1], bs[1..]);
    assert bs[..1][..0] == [];
    assert BatchesItems(bs[..1]) == BatchItems(bs[0]);
  }

  lemma StoringConserves(s: State)
    requires Conserved(s)
    ensures Conserved(Insert(s))
  {
    if s.outbox != [] {
      FirstAndRest(s.outbox);
      InsertingKeepsItems(s.returned, s.outbox[0]);
      var others := QueueItems(s.frames) + InRenderer(s.renderer);
      MoveOne(others, BatchItems(s.outbox[0]), BatchesItems(s.outbox[1..]), MapItems(s.returned), MapItems(Insert(s).returned),
              s.delivered, s.dropped, Cleared(s.returned, s.outbox[0]));
    }
  }

  lemma MoveOne<T>(others: multiset<T>, first: multiset<T>, rest: multiset<T>, m: multiset<T>, inserted: multiset<T>,
                   delivered: multiset<T>, dropped: multiset<T>, cleared: multiset<T>)
    requires inserted + cleared == m + first
    ensures others + rest + inserted + delivered + (dropped + cleared) == others + (first + rest) + m + delivered + dropped
  {
    forall x ensures (others + rest + inserted + delivered + (dropped + cleared))[x] == (others + (first + rest) + m + delivered + dropped)[x] {
      assert (inserted + cleared)[x] == (m + first)[x];
    }
  }

  // ----- Runs -----

  lemma StepConserves(s: State, step: Step)
    requires Conserved(s) && Legal(s, step)
    ensures Conserved(Next(s, step))
  {
    match step
    case NewFrame(f) => SetFrameConserves(s, f);
    case TakeBack => PassingConserves(s);
    case Gather => CollectingConserves(s);
    case Sync => CommittingConserves(s);
    case Paint(calls) => PaintingConserves(s, calls);
    case Reclaim(resources) => ReclaimingConserves(s, resources);
    case Stop(calls) => StoppingConserves(s, calls);
    case Store => StoringConserves(s);
    case Start =>
      if s.renderer.None? {
        assert QueueItems([]) == multiset{};
        Rearranged(s, s.frames, Some(NEW_RENDERER), multiset{});
      }
    case _ =>
  }

  /**
   Conservation over every run: the resources of all frames handed in are in the two queues, with
   the display, on their way back, given back to the compositor and sink they came from, or dropped.
   */
  lemma {:induction false} RunsConserve(steps: seq<Step>)
    requires LegalRun(EMPTY, steps)
    ensures Conserved(Run(EMPTY, steps))
  {
    if steps == [] {
      assert QueueItems([]) == multiset{} && BatchesItems([]) == multiset{} && MapItems(map[]) == multiset{};
    } else {
      RunsConserve(steps[..|steps| - 1]);
      StepConserves(Run(EMPTY, steps[..|steps| - 1]), steps[|steps| - 1]);
    }
  }

  /** Nothing is given back more often than it was handed in. */
  lemma GivenBackAtMostOnce(steps: seq<Step>)
    requires LegalRun(EMPTY, steps)
    ensures Run(EMPTY, steps).delivered <= Run(EMPTY, steps).handedIn
    ensures forall x :: Run(EMPTY, steps).handedIn[x] == 1 ==> Run(EMPTY, steps).delivered[x] <= 1
  {
    RunsConserve(steps);
  }
}
