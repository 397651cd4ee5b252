/**
 The two pruned queues and the frame on show refine three registers: the latest content, the
 committed one and the one shown. Whatever the futures held up, the newest content gets through.
 */
module FrameRegisters {
  import opened Options
  import opened Frames
  import opened FramePipeline
  import opened FrameQueues

  datatype Registers = Registers(latest: Option<Content>, committed: Option<Content>, shown: Option<Content>)

  function Newest(q: seq<Frame>, otherwise: Option<Content>): Option<Content> {
    if NonEmpty(q) == [] then otherwise else NonEmpty(q)[|NonEmpty(q)| - 1].frame
  }

  /** What the queues amount to. */
  function RegistersOf(s: State): Registers {
    var committed := Newest(QueueOf(s), ShownOf(s));
    Registers(Newest(s.frames, committed), committed, ShownOf(s))
  }

  /** The registers' own steps. */
  function RegisterStep(r: Registers, step: Step): Registers {
    match step
    case NewFrame(f) => if f.IsEmpty() then r else r.(latest := Some(f.Content()))
    case TakeBack => r.(latest := r.committed)
    case Sync => r.(committed := r.latest)
    case Paint(_) => r.(shown := r.committed)
    case _ => r
  }

  lemma NewestConcat(a: seq<Frame>, b: seq<Frame>, otherwise: Option<Content>)
    ensures Newest(a + b, otherwise) == Newest(b, Newest(a, otherwise))
  {
    NonEmptyConcat(a, b);
  }

  lemma NewestIsKept(q: seq<Frame>, otherwise: Option<Content>)
    ensures Newest(Kept(q), otherwise) == Newest(q, otherwise)
  {
    PruningTwice(q);
  }

  lemma NewestOfOne(f: Frame, otherwise: Option<Content>)
    ensures Newest([f], otherwise) == if f.IsEmpty() then otherwise else Some(f.Content())
  {
    assert [f][..0] == [];
  }

  lemma PlacedNewest(q: seq<Frame>, f: Frame, otherwise: Option<Content>)
    requires f.Valid()
    ensures Newest(Placed(q, f), otherwise) == if f.IsEmpty() then Newest(q, otherwise) else Some(f.Content())
  {
    NewestOfOne(f, otherwise);
    if q != [] && f.frame.Some? {
      NewestConcat(q[1..], [f], otherwise);
      NewestOfOne(f, Newest(q[1..], otherwise));
    } else if q != [] {
      NewestConcat(Kept(q), [f], otherwise);
      NewestOfOne(f, Newest(Kept(q), otherwise));
      NewestIsKept(q, otherwise);
    }
  }

  lemma TakenOverNewest(queue: seq<Frame>, frames: seq<Frame>, otherwise: Option<Content>)
    ensures Newest(TakenOver(queue, frames), otherwise) == Newest(frames, Newest(queue, otherwise))
  {
    if frames != [] {
      var q := queue + AllButLast(frames);
      NewestConcat(Kept(q), LastOf(frames), otherwise);
      NewestIsKept(q, otherwise);
      NewestConcat(queue, AllButLast(frames), otherwise);
      NewestConcat(AllButLast(frames), LastOf(frames), Newest(queue, otherwise));
      assert frames == AllButLast(frames) + LastOf(frames);
    }
  }

  /** Within one renderer's life, the pipeline does step by step what the registers do. */
  lemma StepRefines(s: State, step: Step)
    requires Legal(s, step) && s.renderer.Some? && !step.Stop?
    ensures RegistersOf(Next(s, step)) == RegisterStep(RegistersOf(s), step)
    ensures Next(s, step).renderer.Some?
  {
    StepQueues(s, step);
    LivesOn(s, step);
    match step
    case NewFrame(f) => PlacedNewest(s.frames, f, RegistersOf(s).committed);
    case Sync => TakenOverNewest(QueueOf(s), s.frames, ShownOf(s));
    case Paint(_) => NewestIsKept(QueueOf(s), ShownOf(s));
    case _ =>
  }

  lemma LivesOn(s: State, step: Step)
    requires s.renderer.Some? && !step.Stop?
    ensures Next(s, step).renderer.Some?
  {
    match step
    case NewFrame(f) => NewFrameQueues(s, f);
    case TakeBack => ReturningIsAside(s.(frames := []), AllWaited(s.frames), 0, []);
    case Sync => SyncQueues(s);
    case Paint(calls) =>
      var r := s.renderer.value;
      ReturningIsAside(s.(renderer := Some(r.(queue := []))), [], r.committedSink, BatchesOf(Pruned(r.queue)));
    case _ =>
  }

  function RegisterRun(r: Registers, steps: seq<Step>): Registers {
    if steps == [] then r else RegisterStep(RegisterRun(r, steps[..|steps| - 1]), steps[|steps| - 1])
  }

  predicate NoStop(steps: seq<Step>) {
    forall i | 0 <= i < |steps| :: !steps[i].Stop?
  }

  lemma {:induction false} RunsRefine(s: State, steps: seq<Step>)
    requires s.renderer.Some? && LegalRun(s, steps) && NoStop(steps)
    ensures RegistersOf(Run(s, steps)) == RegisterRun(RegistersOf(s), steps) && Run(s, steps).renderer.Some?
  {
    if steps != [] {
      RunsRefine(s, steps[..|steps| - 1]);
      StepRefines(Run(s, steps[..|steps| - 1]), steps[|steps| - 1]);
    }
  }

  // ----- The latest frame -----

  /** The newest content handed in during some steps. */
  function NewestGiven(steps: seq<Step>, otherwise: Option<Content>): Option<Content> {
    if steps == [] then otherwise
    else
      var last := steps[|steps| - 1];
      if last.NewFrame? && !last.frame.IsEmpty() then Some(last.frame.Content())
      else NewestGiven(steps[..|steps| - 1], otherwise)
  }

  predicate NoTakeBack(steps: seq<Step>) {
    forall i | 0 <= i < |steps| :: !steps[i].TakeBack?
  }

  predicate NoSync(steps: seq<Step>) {
    forall i | 0 <= i < |steps| :: !steps[i].Sync?
  }

  lemma {:induction false} LatestIsNewestGiven(r: Registers, steps: seq<Step>)
    requires NoTakeBack(steps)
    ensures RegisterRun(r, steps).latest == NewestGiven(steps, r.latest)
  {
    if steps != [] {
      LatestIsNewestGiven(r, steps[..|steps| - 1]);
    }
  }

  lemma {:induction false} RegisterRunConcat(r: Registers, a: seq<Step>, b: seq<Step>)
    ensures RegisterRun(r, a + b) == RegisterRun(RegisterRun(r, a), b)
    decreases |b|
  {
    if b == [] {
      assert a + b == a;
    } else {
      RegisterRunConcat(r, a, b[..|b| - 1]);
      LastApart(a, b);
    }
  }

  lemma {:induction false} CommittedStays(r: Registers, steps: seq<Step>)
    requires NoSync(steps)
    ensures RegisterRun(r, steps).committed == r.committed
  {
    if steps != [] {
      CommittedStays(r, steps[..|steps| - 1]);
    }
  }

  /**
   After a commit and a later draw, what is shown is the newest content handed in before the
   commit, whatever other steps came between.
   */
  lemma LatestFrameIsShown(s: State, before: seq<Step>, between: seq<Step>, calls: seq<seq<Resource>>)
    requires s.renderer.Some? && NoStop(before) && NoStop(between) && NoTakeBack(before) && NoSync(between)
    requires LegalRun(s, before + [Sync] + between + [Paint(calls)])
    ensures ShownOf(Run(s, before + [Sync] + between + [Paint(calls)])) == NewestGiven(before, RegistersOf(s).latest)
  {
    RunsRefine(s, before + [Sync] + between + [Paint(calls)]);
    RegistersShowNewest(RegistersOf(s), before, between, calls);
  }

  lemma RegistersShowNewest(r: Registers, before: seq<Step>, between: seq<Step>, calls: seq<seq<Resource>>)
    requires NoTakeBack(before) && NoSync(between)
    ensures RegisterRun(r, before + [Sync] + between + [Paint(calls)]).shown == NewestGiven(before, r.latest)
  {
    RegisterRunConcat(r, before + [Sync] + between, [Paint(calls)]);
    RegisterRunConcat(r, before + [Sync], between);
    RegisterRunConcat(r, before, [Sync]);
    LatestIsNewestGiven(r, before);
    var latest := RegisterRun(r, before);
    RunOfOne(latest, Sync);
    var committed := RegisterRun(latest, [Sync]);
    CommittedStays(committed, between);
    RunOfOne(RegisterRun(committed, between), Paint(calls));
  }

  lemma RunOfOne(r: Registers, step: Step)
    ensures RegisterRun(r, [step]) == RegisterStep(r, step)
  {
    assert [step][..0] == [];
  }

  // ----- The order of frames -----

  function Contents(q: seq<Frame>): (cs: seq<Content>)
    requires forall i | 0 <= i < |q| :: q[i].frame.Some?
    ensures |cs| == |q|
  {
    seq(|q|, i requires 0 <= i < |q| => q[i].frame.value)
  }

  function ContentOf(q: seq<Frame>): seq<Content> {
    Contents(NonEmpty(q))
  }

  /** All content submitted so far, then that in the renderer's queue, then that in the manager's. */
  function InOrder(s: State): seq<Content> {
    s.submitted + ContentOf(QueueOf(s)) + ContentOf(s.frames)
  }

  /** Serials rise, and each content is the one produced under its serial: a part of what was produced, in that order. */
  predicate IsSubsequence(part: seq<Content>, all: seq<Content>) {
    && (forall i, j | 0 <= i < j < |part| :: part[i].serial < part[j].serial)
    && (forall i | 0 <= i < |part| :: part[i].serial < |all| && all[part[i].serial] == part[i])
  }

  lemma Cut(x: seq<Content>, y: seq<Content>, z: seq<Content>, all: seq<Content>)
    requires IsSubsequence(x + y + z, all)
    ensures IsSubsequence(x + z, all)
  {
    forall i | 0 <= i < |x + z| ensures (x + z)[i] == (x + y + z)[if i < |x| then i else i + |y|] {
    }
  }

  lemma Append(x: seq<Content>, c: Content, all: seq<Content>)
    requires IsSubsequence(x, all) && c.serial == |all|
    ensures IsSubsequence(x + [c], all + [c])
  {
  }

  lemma ContentConcat(a: seq<Frame>, b: seq<Frame>)
    ensures ContentOf(a + b) == ContentOf(a) + ContentOf(b)
  {
    NonEmptyConcat(a, b);
  }

  lemma ContentPruned(q: seq<Frame>)
    ensures ContentOf(q) == Contents(Pruned(q)) + ContentOf(Kept(q))
  {
    PruningTwice(q);
    PruningKeepsAll(q);
    PruningKeepsAll(Kept(q));
  }

  lemma ContentOfOne(f: Frame)
    ensures ContentOf([f]) == ContentsOf(f)
  {
    assert [f][..0] == [];
  }

  /** What stays in the queue before a new frame. */
  function Staying(q: seq<Frame>, f: Frame): seq<Frame> {
    if q == [] then [] else if f.frame.Some? then q[1..] else Kept(q)
  }

  lemma StayingKeepsOrder(x: seq<Content>, q: seq<Frame>, f: Frame, all: seq<Content>)
    requires IsSubsequence(x + ContentOf(q), all)
    ensures IsSubsequence(x + ContentOf(Staying(q, f)), all)
  {
    if q != [] && f.frame.Some? {
      assert q == q[..1] + q[1..];
      ContentConcat(q[..1], q[1..]);
      CutFirst(x, ContentOf(q[..1]), ContentOf(q[1..]), ContentOf(q), all);
    } else if q != [] {
      ContentPruned(q);
      CutFirst(x, Contents(Pruned(q)), ContentOf(Kept(q)), ContentOf(q), all);
    }
  }

  lemma CutFirst(x: seq<Content>, y: seq<Content>, z: seq<Content>, yz: seq<Content>, all: seq<Content>)
    requires yz == y + z && IsSubsequence(x + yz, all)
    ensures IsSubsequence(x + z, all)
  {
    assert x + yz == x + y + z;
    Cut(x, y, z, all);
  }

  lemma NewFrameKeepsOrder(x: seq<Content>, q: seq<Frame>, f: Frame, all: seq<Content>)
    requires IsSubsequence(x + ContentOf(q), all) && f.Valid() && (!f.IsEmpty() ==> f.Content().serial == |all|)
    ensures IsSubsequence(x + ContentOf(Placed(q, f)), all + ContentsOf(f))
  {
    var kept := Staying(q, f);
    StayingKeepsOrder(x, q, f, all);
    assert Placed(q, f) == kept + [f];
    ContentConcat(kept, [f]);
    ContentOfOne(f);
    if !f.IsEmpty() {
      Append(x + ContentOf(kept), f.Content(), all);
      assert x + (ContentOf(kept) + [f.Content()]) == x + ContentOf(kept) + [f.Content()];
    } else {
      assert ContentOf(kept) + [] == ContentOf(kept) && all + [] == all;
    }
  }

  lemma CutInside(x: seq<Content>, queue: seq<Content>, rest: seq<Content>, last: seq<Content>, pruned: seq<Content>, kept: seq<Content>,
                  all: seq<Content>)
    requires queue + rest == pruned + kept && IsSubsequence(x + queue + (rest + last), all)
    ensures IsSubsequence(x + (kept + last), all)
  {
    assert x + queue + (rest + last) == x + (queue + rest) + last == x + pruned + (kept + last);
    Cut(x, pruned, kept + last, all);
  }

  lemma SyncKeepsOrder(x: seq<Content>, queue: seq<Frame>, frames: seq<Frame>, all: seq<Content>)
    requires IsSubsequence(x + ContentOf(queue) + ContentOf(frames), all)
    ensures IsSubsequence(x + ContentOf(TakenOver(queue, frames)), all)
  {
    if frames == [] {
      assert x + ContentOf(queue) + [] == x + ContentOf(queue);
    } else {
      var rest, last := AllButLast(frames), LastOf(frames);
      var q := queue + rest;
      assert frames == rest + last;
      ContentConcat(rest, last);
      ContentConcat(queue, rest);
      ContentConcat(Kept(q), last);
      ContentPruned(q);
      CutInside(x, ContentOf(queue), ContentOf(rest), ContentOf(last), Contents(Pruned(q)), ContentOf(Kept(q)), all);
    }
  }

  /** A paint moves the newest content of the queue to the end of what was submitted. */
  lemma PaintKeepsOrder(s: State, all: seq<Content>, step: Step)
    requires IsSubsequence(InOrder(s), all) && step.Paint?
    ensures IsSubsequence(SubmittedAfter(s, step) + ContentOf(s.frames), all)
  {
    var q := QueueOf(s);
    ContentPruned(q);
    KeptIsSubmitted(s, step);
    assert ContentOf(q) + [] == ContentOf(q) && [] + ContentOf(s.frames) == ContentOf(s.frames);
    CutInside(s.submitted, ContentOf(q), [], ContentOf(s.frames), Contents(Pruned(q)), ContentOf(Kept(q)), all);
    assert s.submitted + (ContentOf(Kept(q)) + ContentOf(s.frames)) == SubmittedAfter(s, step) + ContentOf(s.frames);
  }

  lemma KeptIsSubmitted(s: State, step: Step)
    requires step.Paint?
    ensures SubmittedAfter(s, step) == s.submitted + ContentOf(Kept(QueueOf(s)))
  {
    KeptIsNonEmpty(QueueOf(s));
  }

  lemma KeptIsNonEmpty(q: seq<Frame>)
    ensures ContentOf(Kept(q)) == if Kept(q) == [] then [] else [Kept(q)[0].frame.value]
  {
    if Kept(q) != [] {
      ContentOfOne(Kept(q)[0]);
      assert Kept(q) == [Kept(q)[0]];
    }
  }

  function InOrderAfter(s: State, step: Step): seq<Content> {
    SubmittedAfter(s, step) + ContentOf(QueueAfter(s, step)) + ContentOf(FramesAfter(s, step))
  }

  lemma OrderAfter(s: State, step: Step)
    requires IsSubsequence(InOrder(s), s.produced) && Legal(s, step) && !step.NewFrame?
    ensures IsSubsequence(InOrderAfter(s, step), s.produced)
  {
    var x, y, z := s.submitted, ContentOf(QueueOf(s)), ContentOf(s.frames);
    match step
    case TakeBack =>
      assert x + y + z == (x + y) + z + [] && x + y + [] == (x + y) + [];
      Cut(x + y, z, [], s.produced);
    case Sync =>
      if s.renderer.Some? {
        SyncKeepsOrder(x, QueueOf(s), s.frames, s.produced);
        assert InOrderAfter(s, step) == x + ContentOf(TakenOver(QueueOf(s), s.frames));
      }
    case Paint(_) =>
      PaintKeepsOrder(s, s.produced, step);
      assert InOrderAfter(s, step) == SubmittedAfter(s, step) + ContentOf(s.frames);
    case Stop(_) =>
      Cut(x, y, z, s.produced);
      assert InOrderAfter(s, step) == x + z;
    case _ =>
  }

  lemma StepKeepsOrder(s: State, step: Step)
    requires IsSubsequence(InOrder(s), s.produced) && Legal(s, step)
    ensures IsSubsequence(InOrder(Next(s, step)), Next(s, step).produced)
  {
    StepQueues(s, step);
    assert InOrder(Next(s, step)) == InOrderAfter(s, step);
    if step.NewFrame? {
      NewFrameKeepsOrder(s.submitted + ContentOf(QueueOf(s)), s.frames, step.frame, s.produced);
    } else {
      OrderAfter(s, step);
      assert s.produced + [] == s.produced;
    }
  }

  /** Over every run, the frames submitted are a part of the frames produced, in the same order and without repeats. */
  lemma {:induction false} SubmittedInOrder(steps: seq<Step>)
    requires LegalRun(EMPTY, steps)
    ensures IsSubsequence(InOrder(Run(EMPTY, steps)), Run(EMPTY, steps).produced)
    ensures IsSubsequence(Run(EMPTY, steps).submitted, Run(EMPTY, steps).produced)
  {
    if steps != [] {
      SubmittedInOrder(steps[..|steps| - 1]);
      StepKeepsOrder(Run(EMPTY, steps[..|steps| - 1]), steps[|steps| - 1]);
    }
    var s := Run(EMPTY, steps);
    var rest := ContentOf(QueueOf(s)) + ContentOf(s.frames);
    assert InOrder(s) == s.submitted + rest + [] && s.submitted + [] == s.submitted;
    if IsSubsequence(InOrder(s), s.produced) {
      Cut(s.submitted, rest, [], s.produced);
    }
  }
}
