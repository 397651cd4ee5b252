/**
 How long the queues get and what is waited for, when the producer draws as it is meant to: always
 synchronously, or the first time synchronously and from then on asynchronously. With that, no
 resource is dropped while the sink stays the same.
 */
module FrameBounds {
  import opened Options
  import opened Frames
  import opened FramePipeline
  import opened FrameQueues

  // ----- The producer's ways -----

  predicate IsSynchronous(f: Frame) {
    f.IsWaited() && f.frame.Some?
  }

  /** What the producer makes next: it depends on a switch, and on whether there was a frame before. */
  predicate AsProduced(alwaysSync: bool, allowAsync: bool, f: Frame) {
    f.Valid() && if alwaysSync || !allowAsync then IsSynchronous(f) else f.future.Some?
  }

  /** At most two frames, and only the last may still be in its future. */
  predicate IsShort(q: seq<Frame>) {
    |q| <= 2 && forall i | 0 <= i < |q| - 1 :: IsSynchronous(q[i])
  }

  predicate FramesRegular(q: seq<Frame>, alwaysSync: bool, allowAsync: bool) {
    && IsShort(q)
    && (alwaysSync ==> |q| <= 1 && forall i | 0 <= i < |q| :: IsSynchronous(q[i]))
    && (!allowAsync ==> q == [])
  }

  /** The queues while the producer keeps to its ways. */
  predicate Regular(s: State, alwaysSync: bool, allowAsync: bool) {
    FramesRegular(s.frames, alwaysSync, allowAsync) && IsShort(QueueOf(s))
  }

  predicate AllowsAsync(allowAsync: bool, step: Step) {
    allowAsync || step.NewFrame?
  }

  predicate RegularStep(step: Step, alwaysSync: bool, allowAsync: bool) {
    step.NewFrame? ==> AsProduced(alwaysSync, allowAsync, step.frame)
  }

  /** The checks on the queues' sizes in the code, where a step makes them. */
  predicate SizesChecked(s: State, step: Step) {
    match step
    case NewFrame(f) =>
      s.frames == [] || (if f.frame.Some? then |s.frames| <= 1 else |s.frames| <= 2 && |Pruned(s.frames)| <= 1)
    case Sync => |s.frames| <= 2 && |Kept(QueueOf(s) + AllButLast(s.frames))| <= 1
    case Paint(_) => |Kept(QueueOf(s))| <= 1
    case _ => true
  }

  predicate EndsWith(q: seq<Frame>, f: Frame) {
    q != [] && q[|q| - 1] == f
  }

  /** The frame that came last is still as it came: nobody has waited for it. */
  ghost predicate NewestUntouched(s: State, step: Step) {
    match step
    case NewFrame(f) => EndsWith(Next(s, step).frames, f)
    case Sync =>
      s.renderer.Some? && s.frames != [] ==> EndsWith(QueueOf(Next(s, step)), s.frames[|s.frames| - 1])
    case _ => true
  }

  lemma PlacingStaysRegular(q: seq<Frame>, f: Frame, alwaysSync: bool, allowAsync: bool)
    requires FramesRegular(q, alwaysSync, allowAsync) && AsProduced(alwaysSync, allowAsync, f)
    ensures FramesRegular(Placed(q, f), alwaysSync, true) && EndsWith(Placed(q, f), f)
    ensures q == [] || (if f.frame.Some? then |q| <= 1 else |Pruned(q)| <= 1)
  {
  }

  lemma TakingOverStaysShort(queue: seq<Frame>, frames: seq<Frame>)
    requires IsShort(queue) && IsShort(frames)
    ensures IsShort(TakenOver(queue, frames))
    ensures frames != [] ==> EndsWith(TakenOver(queue, frames), frames[|frames| - 1])
  {
  }

  lemma StepStaysRegular(s: State, step: Step, alwaysSync: bool, allowAsync: bool)
    requires Regular(s, alwaysSync, allowAsync) && RegularStep(step, alwaysSync, allowAsync)
    ensures Regular(Next(s, step), alwaysSync, AllowsAsync(allowAsync, step))
    ensures SizesChecked(s, step) && NewestUntouched(s, step)
  {
    StepQueues(s, step);
    TakingOverStaysShort(QueueOf(s), s.frames);
    if step.NewFrame? {
      PlacingStaysRegular(s.frames, step.frame, alwaysSync, allowAsync);
    }
  }

  predicate HadFrame(steps: seq<Step>, n: nat)
    requires n <= |steps|
  {
    exists j :: 0 <= j < n && steps[j].NewFrame?
  }

  ghost predicate RegularRun(alwaysSync: bool, steps: seq<Step>) {
    forall i | 0 <= i < |steps| :: RegularStep(steps[i], alwaysSync, HadFrame(steps, i))
  }

  /** Over every run, both queues hold at most two frames, no check fails, and the newest frame is never waited for. */
  lemma {:induction false} QueuesStayShort(alwaysSync: bool, steps: seq<Step>, i: nat)
    requires RegularRun(alwaysSync, steps) && i <= |steps|
    ensures Regular(Run(EMPTY, steps[..i]), alwaysSync, HadFrame(steps, i))
    ensures i < |steps| ==> SizesChecked(Run(EMPTY, steps[..i]), steps[i]) && NewestUntouched(Run(EMPTY, steps[..i]), steps[i])
  {
    if i > 0 {
      QueuesStayShort(alwaysSync, steps, i - 1);
      assert steps[..i][..i - 1] == steps[..i - 1];
      var before := HadFrame(steps, i - 1);
      StepStaysRegular(Run(EMPTY, steps[..i - 1]), steps[i - 1], alwaysSync, before);
    }
    if i < |steps| {
      StepStaysRegular(Run(EMPTY, steps[..i]), steps[i], alwaysSync, HadFrame(steps, i));
    }
  }

  // ----- Why the producer has to keep to its ways -----

  /** A synchronous frame hands back the front frame as it is: what its future holds is lost. */
  lemma SynchronousOverPending(s: State, f: Frame)
    requires s.frames != [] && s.frames[0].Valid() && f.frame.Some?
    ensures SetFrame(s, f).dropped
         == s.dropped + if s.frames[0].IsWaited() && s.frames[0].compositor in s.registered then multiset{} else FrameItems(s.frames[0])
  {
    var front := s.frames[0];
    var t := s.(frames := Placed(s.frames, f), handedIn := s.handedIn + FrameItems(f), produced := s.produced + ContentsOf(f),
                dropped := s.dropped + QueueItems(Forgotten(s.frames, f)));
    assert HandedBack(s.frames, f) == [front] && [front][..0] == [] && Forgotten(s.frames, f) == [];
    assert ReturnAllUnused(t, [front]) == ReturnUnused(ReturnAllUnused(t, []), front);
    if front.IsWaited() && front.frame.None? {
      assert BatchOf(front).resources == [];
    }
  }

  const FIRST: Frame := Frame(None, 1, Some(Content(0, [])), 7)
  const PENDING: Frame := Frame(Some(Some(Revealed(1, Content(1, [42])))), 0, None, 7)
  const THIRD: Frame := Frame(None, 1, Some(Content(2, [])), 7)
  const FOURTH: Frame := Frame(None, 1, Some(Content(3, [])), 7)

  /**
   The producer never goes back to synchronous draws. If it did, the check on the queue's size would
   fail, and the draw after that would lose resources.
   */
  lemma MixedDrawsWouldLoseFrames(s0: State, s1: State, s2: State, s3: State, s4: State)
    requires s0 == EMPTY.(registered := {7}) && s1 == SetFrame(s0, FIRST) && s2 == SetFrame(s1, PENDING)
    requires s3 == SetFrame(s2, THIRD) && s4 == SetFrame(s3, FOURTH)
    ensures Legal(s0, NewFrame(FIRST)) && Legal(s1, NewFrame(PENDING)) && Legal(s2, NewFrame(THIRD)) && Legal(s3, NewFrame(FOURTH))
    ensures !AsProduced(true, true, PENDING) && !AsProduced(false, true, THIRD)
    ensures !SizesChecked(s2, NewFrame(THIRD))
    ensures s2.dropped == multiset{} && s4.dropped == multiset{Item(7, 1, 42)}
  {
    NewFrameQueues(s0, FIRST);
    NewFrameQueues(s1, PENDING);
    NewFrameQueues(s2, THIRD);
    PendingDropsNothing(s0, s1, s2);
    assert s1.registered == s2.registered == s3.registered == {7} by {
      RegisteredStays(s0, FIRST);
      RegisteredStays(s1, PENDING);
      RegisteredStays(s2, THIRD);
    }
    SynchronousOverPending(s2, THIRD);
    SynchronousOverPending(s3, FOURTH);
    assert FrameItems(PENDING) == multiset{Item(7, 1, 42)} by {
      assert BatchOf(PENDING) == Batch(7, 1, [42]) && [42][..0] == [];
    }
  }

  lemma RegisteredStays(s: State, f: Frame)
    ensures SetFrame(s, f).registered == s.registered
  {
    var t := s.(frames := Placed(s.frames, f), handedIn := s.handedIn + FrameItems(f), produced := s.produced + ContentsOf(f),
                dropped := s.dropped + QueueItems(Forgotten(s.frames, f)));
    ReturningIsAside(t, HandedBack(s.frames, f), 0, []);
  }

  lemma PendingDropsNothing(s0: State, s1: State, s2: State)
    requires s0.frames == [] && s0.dropped == multiset{} && s1 == SetFrame(s0, FIRST) && s2 == SetFrame(s1, PENDING)
    ensures s1.frames == [FIRST] && s2.frames == [FIRST, PENDING] && s2.dropped == multiset{}
  {
    NewFrameQueues(s0, FIRST);
    NewFrameQueues(s1, PENDING);
    assert [FIRST][..0] == [] && NonEmpty([]) == [];
    assert NonEmpty([FIRST]) == [FIRST];
    assert Kept([FIRST]) == [FIRST] && Pruned([FIRST]) == [];
    assert HandedBack(s0.frames, FIRST) == [] && Forgotten(s0.frames, FIRST) == [];
    assert HandedBack(s1.frames, PENDING) == [] && Forgotten(s1.frames, PENDING) == [];
  }
}
