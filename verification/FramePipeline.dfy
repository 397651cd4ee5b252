/**
 The frame pipeline between the UI thread and the render thread, as interleaved steps: one for
 each time the shared lock is taken, and one for each stretch of the render thread's own work.
 Every resource of a frame carries the compositor and the sink it must go back to.
 */
module FramePipeline {
  import opened Options
  import opened Frames

  /** A resource, and where it belongs. */
  datatype Item = Item(compositor: CompositorId, sink: SinkId, resource: Resource)

  /** One call that returns resources. */
  datatype Batch = Batch(compositor: CompositorId, sink: SinkId, resources: seq<Resource>)

  /** What waits for one compositor until the UI thread collects it. */
  datatype Returned = Returned(sink: SinkId, resources: seq<Resource>)

  type ReturnedMap = map<CompositorId, Returned>

  const NO_SINK: SinkId := 0
  const NO_COMPOSITOR: CompositorId := -1

  /** The renderer: its queue, its sinks, what the display holds of it, and the content last submitted. */
  datatype Renderer = Renderer(
    queue: seq<Frame>,
    committedSink: SinkId,
    submittedSink: SinkId,
    compositor: CompositorId,
    held: multiset<Item>,
    shown: Option<Content>)

  const NEW_RENDERER: Renderer := Renderer([], NO_SINK, NO_SINK, NO_COMPOSITOR, multiset{}, None)

  /**
   The whole pipeline. `outbox` is what the render thread is about to put into the map of returned
   resources; the last four fields are a ledger of all that happened.
   */
  datatype State = State(
    frames: seq<Frame>,
    renderer: Option<Renderer>,
    outbox: seq<Batch>,
    returned: ReturnedMap,
    registered: set<CompositorId>,
    handedIn: multiset<Item>,
    delivered: multiset<Item>,
    dropped: multiset<Item>,
    produced: seq<Content>,
    submitted: seq<Content>)

  const EMPTY: State := State([], None, [], map[], {}, multiset{}, multiset{}, multiset{}, [], [])

  // ----- Items -----

  function Items(compositor: CompositorId, sink: SinkId, resources: seq<Resource>): multiset<Item> {
    if resources == [] then multiset{}
    else Items(compositor, sink, resources[..|resources| - 1]) + multiset{Item(compositor, sink, resources[|resources| - 1])}
  }

  lemma {:induction false} ItemsConcat(compositor: CompositorId, sink: SinkId, a: seq<Resource>, b: seq<Resource>)
    ensures Items(compositor, sink, a + b) == Items(compositor, sink, a) + Items(compositor, sink, b)
    decreases |b|
  {
    if b == [] {
      assert a + b == a;
    } else {
      ItemsConcat(compositor, sink, a, b[..|b| - 1]);
      LastApart(a, b);
    }
  }

  /** An item is there as often as its resource is, and under one compositor and sink only. */
  lemma {:induction false} ItemsCount(compositor: CompositorId, sink: SinkId, resources: seq<Resource>, x: Item)
    ensures Items(compositor, sink, resources)[x]
         == if x.compositor == compositor && x.sink == sink then multiset(resources)[x.resource] else 0
  {
    if resources != [] {
      ItemsCount(compositor, sink, resources[..|resources| - 1], x);
      assert resources == resources[..|resources| - 1] + [resources[|resources| - 1]];
    }
  }

  function BatchItems(b: Batch): multiset<Item> {
    Items(b.compositor, b.sink, b.resources)
  }

  function BatchesItems(bs: seq<Batch>): multiset<Item> {
    if bs == [] then multiset{} else BatchesItems(bs[..|bs| - 1]) + BatchItems(bs[|bs| - 1])
  }

  lemma SumsAssociate<T>(a: multiset<T>, b: multiset<T>, c: multiset<T>)
    ensures a + b + c == a + (b + c)
  {
  }

  lemma BatchesOfMore(bs: seq<Batch>, b: Batch)
    ensures BatchesItems(bs + [b]) == BatchesItems(bs) + BatchItems(b)
  {
    assert (bs + [b])[..|bs|] == bs;
  }

  lemma {:induction false} BatchesConcat(a: seq<Batch>, b: seq<Batch>)
    ensures BatchesItems(a + b) == BatchesItems(a) + BatchesItems(b)
    decreases |b|
  {
    if b == [] {
      assert a + b == a;
    } else {
      var front, last := b[..|b| - 1], b[|b| - 1];
      BatchesConcat(a, front);
      BatchesOfMore(a + front, last);
      LastApart(a, b);
      BatchesOfMore(front, last);
      SumsAssociate(BatchesItems(a), BatchesItems(front), BatchItems(last));
    }
  }

  /** The resources of a frame, once it has been waited for. */
  function BatchOf(f: Frame): Batch {
    var w := f.Waited();
    Batch(w.compositor, w.sink, if w.frame.Some? then w.frame.value.resources else [])
  }

  function BatchesOf(q: seq<Frame>): (bs: seq<Batch>)
    ensures |bs| == |q|
  {
    seq(|q|, i requires 0 <= i < |q| => BatchOf(q[i]))
  }

  function FrameItems(f: Frame): multiset<Item> {
    BatchItems(BatchOf(f))
  }

  /** All resources in a queue. */
  function QueueItems(q: seq<Frame>): multiset<Item> {
    if q == [] then multiset{} else QueueItems(q[..|q| - 1]) + FrameItems(q[|q| - 1])
  }

  lemma QueueOfMore(q: seq<Frame>, f: Frame)
    ensures QueueItems(q + [f]) == QueueItems(q) + FrameItems(f)
  {
    assert (q + [f])[..|q|] == q;
  }

  lemma {:induction false} QueueConcat(a: seq<Frame>, b: seq<Frame>)
    ensures QueueItems(a + b) == QueueItems(a) + QueueItems(b)
    decreases |b|
  {
    if b == [] {
      assert a + b == a;
    } else {
      var front, last := b[..|b| - 1], b[|b| - 1];
      QueueConcat(a, front);
      QueueOfMore(a + front, last);
      LastApart(a, b);
      QueueOfMore(front, last);
      SumsAssociate(QueueItems(a), QueueItems(front), FrameItems(last));
    }
  }

  lemma {:induction false} QueueAsBatches(q: seq<Frame>)
    ensures BatchesItems(BatchesOf(q)) == QueueItems(q)
  {
    if q != [] {
      QueueAsBatches(q[..|q| - 1]);
      assert BatchesOf(q)[..|q| - 1] == BatchesOf(q[..|q| - 1]);
    }
  }

  lemma {:induction false} NonEmptyHasAll(q: seq<Frame>)
    ensures QueueItems(NonEmpty(q)) == QueueItems(q)
  {
    if q != [] {
      NonEmptyHasAll(q[..|q| - 1]);
      var f := q[|q| - 1];
      if !f.IsEmpty() {
        QueueConcat(NonEmpty(q[..|q| - 1]), [f.Waited()]);
        QueueOfOne(f.Waited());
      }
    }
  }

  lemma QueueOfOne(f: Frame)
    ensures QueueItems([f]) == FrameItems(f)
  {
    assert [f][..0] == [];
  }

  /** Pruning loses nothing. */
  lemma PruningKeepsItems(q: seq<Frame>)
    ensures QueueItems(q) == QueueItems(Kept(q)) + QueueItems(Pruned(q))
  {
    NonEmptyHasAll(q);
    PruningKeepsAll(q);
    QueueConcat(Pruned(q), Kept(q));
  }

  // ----- The map of returned resources -----

  function EntryItems(m: ReturnedMap, c: CompositorId): multiset<Item> {
    if c in m then Items(c, m[c].sink, m[c].resources) else multiset{}
  }

  ghost function MapItems(m: ReturnedMap): multiset<Item>
    decreases |m.Keys|
  {
    if exists c :: c in m
    then
      var c :| c in m;
      MapItems(m - {c}) + EntryItems(m, c)
    else multiset{}
  }

  lemma SomeEntryIsAdded(m: ReturnedMap) returns (c: CompositorId)
    requires exists c :: c in m
    ensures c in m && MapItems(m) == MapItems(m - {c}) + EntryItems(m, c)
  {
    c :| c in m && MapItems(m) == MapItems(m - {c}) + EntryItems(m, c);
  }

  lemma {:induction false} MapItemsAt(m: ReturnedMap, c: CompositorId)
    requires c in m
    ensures MapItems(m) == MapItems(m - {c}) + EntryItems(m, c)
    decreases |m.Keys|
  {
    var k := SomeEntryIsAdded(m);
    if k != c {
      EntriesStay(m, k, c);
      TwoLess(m, k, c);
      MapItemsAt(m - {k}, c);
      MapItemsAt(m - {c}, k);
      Swapped(MapItems(m - {k} - {c}), EntryItems(m, c), EntryItems(m, k));
    }
  }

  lemma Swapped<T>(a: multiset<T>, b: multiset<T>, c: multiset<T>)
    ensures a + b + c == a + c + b
  {
  }

  lemma EntriesStay(m: ReturnedMap, k: CompositorId, c: CompositorId)
    requires k != c
    ensures EntryItems(m - {k}, c) == EntryItems(m, c) && EntryItems(m - {c}, k) == EntryItems(m, k)
  {
  }

  lemma TwoLess(m: ReturnedMap, k: CompositorId, c: CompositorId)
    ensures (m - {k}).Keys == m.Keys - {k} && (m - {c}).Keys == m.Keys - {c}
    ensures m - {k} - {c} == m - {c} - {k}
  {
  }

  function Without(m: ReturnedMap, some: set<CompositorId>): ReturnedMap {
    m - some
  }

  function Only(m: ReturnedMap, some: set<CompositorId>): ReturnedMap {
    map c | c in m && c in some :: m[c]
  }

  lemma {:induction false} MapItemsSplit(m: ReturnedMap, some: set<CompositorId>)
    ensures MapItems(m) == MapItems(Only(m, some)) + MapItems(Without(m, some))
    decreases |m.Keys|
  {
    if exists c :: c in m {
      var c := SomeEntryIsAdded(m);
      assert (m - {c}).Keys == m.Keys - {c};
      MapItemsSplit(m - {c}, some);
      SplitWithOneMore(m, some, c);
    } else {
      assert Only(m, some) == Without(m, some) == map[];
    }
  }

  lemma SplitWithOneMore(m: ReturnedMap, some: set<CompositorId>, c: CompositorId)
    requires c in m
    ensures MapItems(Only(m, some)) + MapItems(Without(m, some))
         == MapItems(Only(m - {c}, some)) + MapItems(Without(m - {c}, some)) + EntryItems(m, c)
  {
    if c in some {
      OnlyLess(m, some, c);
      MapItemsAt(Only(m, some), c);
    } else {
      WithoutLess(m, some, c);
      MapItemsAt(Without(m, some), c);
    }
  }

  lemma OnlyLess(m: ReturnedMap, some: set<CompositorId>, c: CompositorId)
    requires c in m && c in some
    ensures Only(m, some) - {c} == Only(m - {c}, some) && Without(m, some) == Without(m - {c}, some)
    ensures EntryItems(Only(m, some), c) == EntryItems(m, c)
  {
  }

  lemma WithoutLess(m: ReturnedMap, some: set<CompositorId>, c: CompositorId)
    requires c in m && c !in some
    ensures Without(m, some) - {c} == Without(m - {c}, some) && Only(m, some) == Only(m - {c}, some)
    ensures EntryItems(Without(m, some), c) == EntryItems(m, c)
  {
  }

  // ----- The UI thread's steps -----

  /** Gives resources back to the child compositor, when it is still there. */
  ghost function GiveBack(s: State, b: Batch): State {
    if b.compositor in s.registered
    then s.(delivered := s.delivered + BatchItems(b))
    else s.(dropped := s.dropped + BatchItems(b))
  }

  /** Gives back what an unused frame holds; what is still in a future is lost. */
  ghost function ReturnUnused(s: State, f: Frame): State {
    if f.frame.Some? then GiveBack(s, BatchOf(f)) else s.(dropped := s.dropped + FrameItems(f))
  }

  ghost function ReturnAllUnused(s: State, q: seq<Frame>): State {
    if q == [] then s else ReturnUnused(ReturnAllUnused(s, q[..|q| - 1]), q[|q| - 1])
  }

  /** The queue after a new frame came in. */
  function Placed(q: seq<Frame>, f: Frame): seq<Frame> {
    if q == [] then [f]
    else if f.frame.Some? then q[1..] + [f]
    else Kept(q) + [f]
  }

  /** The frame handed back for it. */
  function HandedBack(q: seq<Frame>, f: Frame): seq<Frame> {
    if q == [] then []
    else if f.frame.Some? then q[..1]
    else if Pruned(q) == [] then [] else Pruned(q)[..1]
  }

  /** Further pruned frames, which are not handed back. */
  function Forgotten(q: seq<Frame>, f: Frame): seq<Frame> {
    if q == [] || f.frame.Some? || Pruned(q) == [] then [] else Pruned(q)[1..]
  }

  function ContentsOf(f: Frame): seq<Content> {
    if f.IsEmpty() then [] else [f.Content()]
  }

  ghost function SetFrame(s: State, f: Frame): State {
    ReturnAllUnused(s.(frames := Placed(s.frames, f), handedIn := s.handedIn + FrameItems(f), produced := s.produced + ContentsOf(f),
                       dropped := s.dropped + QueueItems(Forgotten(s.frames, f))),
                    HandedBack(s.frames, f))
  }

  function AllWaited(q: seq<Frame>): (w: seq<Frame>)
    ensures |w| == |q|
  {
    seq(|q|, i requires 0 <= i < |q| => q[i].Waited())
  }

  ghost function PassUncommitted(s: State): State {
    ReturnAllUnused(s.(frames := []), AllWaited(s.frames))
  }

  /** Takes the map of returned resources and gives them back. */
  ghost function Collect(s: State): State {
    s.(returned := map[],
       delivered := s.delivered + MapItems(Only(s.returned, s.registered)),
       dropped := s.dropped + MapItems(Without(s.returned, s.registered)))
  }

  // ----- The render thread's steps -----

  /** Only resources of the sink committed last go back. */
  ghost function Return(s: State, committed: SinkId, b: Batch): State {
    if b.sink != committed then s.(dropped := s.dropped + BatchItems(b)) else s.(outbox := s.outbox + [b])
  }

  ghost function ReturnAll(s: State, committed: SinkId, bs: seq<Batch>): State {
    if bs == [] then s else Return(ReturnAll(s, committed, bs[..|bs| - 1]), committed, bs[|bs| - 1])
  }

  ghost function Commit(s: State): State {
    if s.renderer.None? || s.frames == [] then s
    else
      var r := s.renderer.value;
      var q := r.queue + AllButLast(s.frames);
      ReturnAll(s.(frames := [], renderer := Some(r.(queue := Kept(q) + LastOf(s.frames)))), r.committedSink, BatchesOf(Pruned(q)))
  }

  predicate ChangesSupport(r: Renderer, f: Frame) {
    r.compositor != f.compositor || r.submittedSink != f.sink
  }

  /** What the display hands back when its support is reset, call by call. */
  function Reclaimed(r: Renderer, calls: seq<seq<Resource>>): (bs: seq<Batch>)
    ensures |bs| == |calls|
  {
    seq(|calls|, i requires 0 <= i < |calls| => Batch(r.compositor, r.submittedSink, calls[i]))
  }

  /** What the display does not hand back when its support is reset is lost. */
  function Unreclaimed(r: Renderer, calls: seq<seq<Resource>>): multiset<Item> {
    r.held - BatchesItems(Reclaimed(r, calls))
  }

  function Abandon(s: State, r: Renderer, calls: seq<seq<Resource>>): State {
    s.(dropped := s.dropped + Unreclaimed(r, calls))
  }

  ghost function Submit(s: State, r: Renderer, f: Frame, calls: seq<seq<Resource>>): State
    requires f.frame.Some?
  {
    var t := if ChangesSupport(r, f) then ReturnAll(Abandon(s, r, calls), f.sink, Reclaimed(r, calls)) else s;
    var held := if ChangesSupport(r, f) then multiset{} else r.held;
    t.(renderer := Some(Renderer([], f.sink, f.sink, f.compositor, held + FrameItems(f), f.frame)),
       submitted := t.submitted + [f.frame.value])
  }

  ghost function Draw(s: State, calls: seq<seq<Resource>>): State {
    if s.renderer.None? then s
    else
      var r := s.renderer.value;
      var t := ReturnAll(s.(renderer := Some(r.(queue := []))), r.committedSink, BatchesOf(Pruned(r.queue)));
      if Kept(r.queue) == [] then t else Submit(t, r, Kept(r.queue)[0], calls)
  }

  /** The display gives some resources back by itself. */
  ghost function DisplayReturn(s: State, resources: seq<Resource>): State {
    if s.renderer.None? then s
    else
      var r := s.renderer.value;
      var b := Batch(r.compositor, r.submittedSink, resources);
      Return(s.(renderer := Some(r.(held := r.held - BatchItems(b)))), r.committedSink, b)
  }

  ghost function Teardown(s: State, calls: seq<seq<Resource>>): State {
    if s.renderer.None? then s
    else
      var r := s.renderer.value;
      ReturnAll(ReturnAll(Abandon(s.(renderer := None), r, calls), r.committedSink, Reclaimed(r, calls)), r.committedSink, BatchesOf(NonEmpty(r.queue)))
  }

  function Inserted(m: ReturnedMap, b: Batch): ReturnedMap {
    var before := if b.compositor in m && m[b.compositor].sink == b.sink then m[b.compositor].resources else [];
    m[b.compositor := Returned(b.sink, before + b.resources)]
  }

  /** Resources of an older sink are cleared away. */
  function Cleared(m: ReturnedMap, b: Batch): multiset<Item> {
    if b.compositor in m && m[b.compositor].sink != b.sink then EntryItems(m, b.compositor) else multiset{}
  }

  ghost function Insert(s: State): State {
    if s.outbox == [] then s
    else
      var b := s.outbox[0];
      s.(outbox := s.outbox[1..], returned := Inserted(s.returned, b), dropped := s.dropped + Cleared(s.returned, b))
  }

  // ----- Runs -----

  datatype Step =
    | NewFrame(frame: Frame)
    | TakeBack
    | Gather
    | Register(compositor: CompositorId)
    | Unregister(compositor: CompositorId)
    | Start
    | Sync
    | Paint(calls: seq<seq<Resource>>)
    | Reclaim(resources: seq<Resource>)
    | Stop(calls: seq<seq<Resource>>)
    | Store

  ghost function Next(s: State, step: Step): State {
    match step
    case NewFrame(f) => SetFrame(s, f)
    case TakeBack => PassUncommitted(s)
    case Gather => Collect(s)
    case Register(c) => s.(registered := s.registered + {c})
    case Unregister(c) => s.(registered := s.registered - {c})
    case Start => if s.renderer.None? then s.(renderer := Some(NEW_RENDERER)) else s
    case Sync => Commit(s)
    case Paint(calls) => Draw(s, calls)
    case Reclaim(resources) => DisplayReturn(s, resources)
    case Stop(calls) => Teardown(s, calls)
    case Store => Insert(s)
  }

  /** The display hands back at most what it holds. */
  predicate Reclaims(r: Renderer, calls: seq<seq<Resource>>) {
    BatchesItems(Reclaimed(r, calls)) <= r.held
  }

  predicate ResetsSupport(r: Renderer) {
    Kept(r.queue) != [] && ChangesSupport(r, Kept(r.queue)[0])
  }

  /**
   The producer numbers its frames, the render thread does one thing after the other, and the
   display returns what it holds at most once.
   */
  predicate Legal(s: State, step: Step) {
    match step
    case NewFrame(f) => f.Valid() && (!f.IsEmpty() ==> f.Content().serial == |s.produced|)
    case Start => s.outbox == []
    case Sync => s.outbox == []
    case Paint(calls) => s.outbox == [] && (s.renderer.Some? && ResetsSupport(s.renderer.value) ==> Reclaims(s.renderer.value, calls))
    case Reclaim(resources) =>
      s.outbox == [] && s.renderer.Some?
      && BatchItems(Batch(s.renderer.value.compositor, s.renderer.value.submittedSink, resources)) <= s.renderer.value.held
    case Stop(calls) => s.outbox == [] && (s.renderer.Some? ==> Reclaims(s.renderer.value, calls))
    case _ => true
  }

  ghost function Run(s: State, steps: seq<Step>): State {
    if steps == [] then s else Next(Run(s, steps[..|steps| - 1]), steps[|steps| - 1])
  }

  ghost predicate LegalRun(s: State, steps: seq<Step>) {
    steps == [] || (LegalRun(s, steps[..|steps| - 1]) && Legal(Run(s, steps[..|steps| - 1]), steps[|steps| - 1]))
  }
}
