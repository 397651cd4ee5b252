/** Child frames, whose content may still be in a future, and the pruning of frame queues. */
module Frames {
  import opened Options

  type Resource = nat
  type CompositorId = int
  type SinkId = nat

  /** The last element of a concatenation. */
  lemma LastApart<T>(a: seq<T>, b: seq<T>)
    requires b != []
    ensures b == b[..|b| - 1] + [b[|b| - 1]]
    ensures a + b == a + b[..|b| - 1] + [b[|b| - 1]]
    ensures (a + b)[..|a + b| - 1] == a + b[..|b| - 1] && (a + b)[|a + b| - 1] == b[|b| - 1]
  {
  }

  /** What a frame shows; `serial` is its place in the order of production. */
  datatype Content = Content(serial: nat, resources: seq<Resource>)

  /** What a future turns out to hold. */
  datatype Revealed = Revealed(sink: SinkId, content: Content)

  datatype Frame = Frame(future: Option<Option<Revealed>>, sink: SinkId, frame: Option<Content>, compositor: CompositorId)
  {
    /** The content is in the future or in the frame, not in both. */
    predicate Valid() {
      future.Some? ==> frame.None?
    }

    /** After the wait: an empty future leaves the sink as it was. */
    function Waited(): Frame {
      if future.None? then this
      else if future.value.None? then this.(future := None)
      else Frame(None, future.value.value.sink, Some(future.value.value.content), compositor)
    }

    predicate IsWaited() {
      future.None?
    }

    predicate IsEmpty() {
      Waited().frame.None?
    }

    function Content(): Content
      requires !IsEmpty()
    {
      Waited().frame.value
    }
  }

  predicate ValidFrames(q: seq<Frame>) {
    forall i | 0 <= i < |q| :: q[i].Valid()
  }

  /** The frames with content, in order, all waited for. */
  function NonEmpty(q: seq<Frame>): (kept: seq<Frame>)
    ensures |kept| <= |q|
    ensures forall i | 0 <= i < |kept| :: kept[i].IsWaited() && kept[i].frame.Some?
  {
    if q == [] then []
    else if q[|q| - 1].IsEmpty() then NonEmpty(q[..|q| - 1])
    else NonEmpty(q[..|q| - 1]) + [q[|q| - 1].Waited()]
  }

  function LastOf(q: seq<Frame>): seq<Frame> {
    if q == [] then [] else [q[|q| - 1]]
  }

  function AllButLast(q: seq<Frame>): seq<Frame> {
    if q == [] then [] else q[..|q| - 1]
  }

  /** What pruning leaves in a queue: the last frame with content. */
  function Kept(q: seq<Frame>): seq<Frame> {
    LastOf(NonEmpty(q))
  }

  /** What pruning takes out: the other frames with content. */
  function Pruned(q: seq<Frame>): seq<Frame> {
    AllButLast(NonEmpty(q))
  }

  lemma {:induction false} NonEmptyConcat(a: seq<Frame>, b: seq<Frame>)
    ensures NonEmpty(a + b) == NonEmpty(a) + NonEmpty(b)
    decreases |b|
  {
    if b == [] {
      assert a + b == a;
    } else {
      NonEmptyConcat(a, b[..|b| - 1]);
      LastApart(a, b);
    }
  }

  /** Waiting for frames changes nothing about their content. */
  lemma {:induction false} NonEmptyIgnoresWaiting(q: seq<Frame>, w: seq<Frame>)
    requires |w| == |q|
    requires forall i | 0 <= i < |q| :: w[i] == q[i] || w[i] == q[i].Waited()
    ensures NonEmpty(w) == NonEmpty(q)
  {
    if q != [] {
      NonEmptyIgnoresWaiting(q[..|q| - 1], w[..|w| - 1]);
    }
  }

  lemma {:induction false} NothingToShow(q: seq<Frame>)
    requires forall i | 0 <= i < |q| :: q[i].IsEmpty()
    ensures NonEmpty(q) == []
  {
    if q != [] {
      NothingToShow(q[..|q| - 1]);
    }
  }

  /** Pruning a pruned queue changes nothing. */
  lemma PruningTwice(q: seq<Frame>)
    ensures Kept(Kept(q)) == Kept(q) && Pruned(Kept(q)) == []
  {
  }

  /** Pruning is what it says: all content is kept or taken out, once, in order. */
  lemma PruningKeepsAll(q: seq<Frame>)
    ensures Pruned(q) + Kept(q) == NonEmpty(q)
    ensures Kept(q) == [] <==> forall i | 0 <= i < |q| :: q[i].IsEmpty()
  {
    if Kept(q) == [] {
      forall i | 0 <= i < |q| ensures q[i].IsEmpty() {
        ContentIsThere(q, i);
      }
    } else if forall i | 0 <= i < |q| :: q[i].IsEmpty() {
      NothingToShow(q);
    }
  }

  lemma {:induction false} ContentIsThere(q: seq<Frame>, i: nat)
    requires i < |q|
    ensures !q[i].IsEmpty() ==> q[i].Waited() in NonEmpty(q)
  {
    if i < |q| - 1 {
      ContentIsThere(q[..|q| - 1], i);
    }
  }

  // ----- The frames as objects -----

  class ChildFrame {
    var future: Option<Option<Revealed>>
    var sink: SinkId
    var frame: Option<Content>
    const compositor: CompositorId

    constructor (future: Option<Option<Revealed>>, sink: SinkId, frame: Option<Content>, compositor: CompositorId)
      ensures Value() == Frame(future, sink, frame, compositor)
    {
      this.future, this.sink, this.frame, this.compositor := future, sink, frame, compositor;
    }

    function Value(): Frame
      reads this
    {
      Frame(future, sink, frame, compositor)
    }

    method WaitOnFutureIfNeeded()
      requires Value().Valid()
      modifies this
      ensures Value() == old(Value()).Waited()
    {
      if future.None? {
        return;
      }
      var revealed := future.value;
      if revealed.Some? {
        sink := revealed.value.sink;
        frame := Some(revealed.value.content);
      }
      future := None;
    }
  }

  type Queue = seq<ChildFrame>

  /** No frame is owned twice. */
  ghost predicate Separate(q: Queue) {
    forall i, j | 0 <= i < j < |q| :: q[i] != q[j]
  }

  function Values(q: Queue): (v: seq<Frame>)
    reads q
  {
    seq(|q|, i requires 0 <= i < |q| reads q => q[i].Value())
  }

  /** The queue `q`, whose frames had the values `was`, has been waited for, up to `n`. */
  twostate predicate Waiting(q: Queue, n: nat)
    reads q
  {
    && n <= |q|
    && (forall i | 0 <= i < |q| :: q[i].Value() == old(q[i].Value()) || q[i].Value() == old(q[i].Value()).Waited())
    && (forall i | 0 <= i < n :: q[i].Value() == old(q[i].Value()).Waited())
  }

  /** The place of the last frame with content. */
  predicate IsLastNonEmpty(v: seq<Frame>, last: int) {
    && -1 <= last < |v|
    && (last >= 0 ==> !v[last].IsEmpty())
    && forall i | last < i < |v| :: v[i].IsEmpty()
  }

  lemma {:induction false} NonEmptyUpTo(v: seq<Frame>, last: int)
    requires IsLastNonEmpty(v, last)
    ensures NonEmpty(v) == if last < 0 then [] else NonEmpty(v[..last]) + [v[last].Waited()]
    decreases |v|
  {
    if v != [] && last < |v| - 1 {
      NonEmptyUpTo(v[..|v| - 1], last);
      if last >= 0 {
        assert v[..|v| - 1][..last] == v[..last];
      }
    }
  }

  /** What is kept and pruned, seen from the last frame with content. */
  lemma PrunedAt(v: seq<Frame>, last: int)
    requires IsLastNonEmpty(v, last)
    ensures last < 0 ==> Kept(v) == [] && Pruned(v) == []
    ensures last >= 0 ==> Kept(v) == [v[last].Waited()] && Pruned(v) == NonEmpty(v[..last])
  {
    NonEmptyUpTo(v, last);
  }

  /** Waits for every frame and finds the last with content. */
  method WaitForAll(q: Queue) returns (last: int)
    requires ValidFrames(Values(q))
    modifies q
    ensures Waiting(q, |q|)
    ensures IsLastNonEmpty(old(Values(q)), last)
  {
    ghost var v := Values(q);
    last := -1;
    for i := 0 to |q|
      invariant Waiting(q, i)
      invariant -1 <= last < i && IsLastNonEmpty(v[..i], last)
    {
      assert v[i].Valid();
      q[i].WaitOnFutureIfNeeded();
      if q[i].frame.Some? {
        last := i;
      }
    }
    assert v[..|q|] == v;
  }

  /** Behind the last frame with content there is nothing to keep or to return. */
  method PruneEnd(q: Queue, last: nat, ghost v: seq<Frame>) returns (kept: Queue, pruned: Queue)
    requires |v| == |q| && IsLastNonEmpty(v, last)
    requires forall i | 0 <= i < |q| :: q[i].Value() == v[i].Waited()
    ensures kept == q[..last + 1] && pruned == []
  {
    kept, pruned := q, [];
    while |kept| > last + 1
      invariant last + 1 <= |kept| <= |q| && kept == q[..|kept|] && pruned == []
      decreases |kept|
    {
      var frame := kept[|kept| - 1];
      assert frame.Value() == v[|kept| - 1].Waited();
      kept := kept[..|kept| - 1];
      if frame.frame.Some? {
        pruned := pruned + [frame];
      }
    }
  }

  /** In front of it, the frames with content are taken out. */
  method PruneFront(q: Queue, frames: Queue, last: nat, ghost v: seq<Frame>) returns (kept: Queue, pruned: Queue)
    requires |v| == |q| && last < |q| && frames == q[..last + 1]
    requires forall i | 0 <= i < |q| :: q[i].Value() == v[i].Waited()
    ensures kept == [q[last]] && Values(pruned) == NonEmpty(v[..last]) && forall f | f in pruned :: f in q
  {
    kept, pruned := frames, [];
    ghost var front := 0;
    while |kept| > 1
      invariant 0 <= front <= last && kept == q[front..last + 1]
      invariant Values(pruned) == NonEmpty(v[..front]) && forall f | f in pruned :: f in q
      decreases |kept|
    {
      var frame := kept[0];
      kept := kept[1..];
      assert v[..front + 1][..front] == v[..front];
      if frame.frame.Some? {
        pruned := pruned + [frame];
      }
      front := front + 1;
    }
  }

  method WaitAndPruneFrameQueue(q: Queue) returns (kept: Queue, pruned: Queue)
    requires ValidFrames(Values(q))
    modifies q
    ensures Values(kept) == Kept(old(Values(q))) && Values(pruned) == Pruned(old(Values(q)))
    ensures forall f | f in kept + pruned :: f in q
    ensures Waiting(q, |q|)
  {
    ghost var v := Values(q);
    var last := WaitForAll(q);
    PrunedAt(v, last);
    kept, pruned := q, [];
    if last < 0 {
      kept := [];
      return;
    }
    kept, pruned := PruneEnd(q, last, v);
    kept, pruned := PruneFront(q, kept, last, v);
  }
}
