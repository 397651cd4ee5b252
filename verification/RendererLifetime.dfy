/**
 When a renderer exists: the render thread's draw calls and the UI thread's release of the
 hardware, interleaved between any two accesses to what they share.
 */
module RendererLifetime {

  datatype Mode = Draw | Process

  /** Where the render thread is in a call; sync calls neither make nor delete a renderer. */
  datatype RenderPoint =
    | Idle
    | Begun(mode: Mode)
    | MayCreate
    | WillCreate
    | WillCommit
    | WillCheck

  /** Where the UI thread is in the release of the hardware. */
  datatype UiPoint =
    | Free
    | Inside
    | Detached
    | Waiting(flushing: bool)
    | Served(flushing: bool)
    | Released
    | Flushed
    | Cleared

  /**
   `armed`: draw calls may come, from a draw on the UI thread that returned true to the next detach
   of the functor. `blocked`: the render thread's call is the one the UI thread waits for.
   */
  datatype State = State(
    render: RenderPoint,
    ui: UiPoint,
    blocked: bool,
    live: bool,
    hasReceivedFrame: bool,
    insideRelease: bool,
    hasFrames: bool,
    armed: bool)

  const START: State := State(Idle, Free, false, false, false, false, false, false)

  datatype Step =
    // The UI thread outside a release.
    | SetFrame
    | DrawReturnsTrue
    | TakeFramesBack
    // The release, access by access.
    | EnterRelease
    | Detach
    | RequestInvoke(accepted: bool)
    | SkipInvoke
    | Resume
    | RequestFlush(accepted: bool)
    | SkipFlush
    | ClearReceived
    | LeaveRelease
    // The render thread.
    | Begin(mode: Mode)
    | BeginServing(mode: Mode)
    | Sync
    | CheckInside
    | CheckFrames
    | Create
    | Commit
    | CheckRelease

  predicate Enabled(s: State, step: Step) {
    match step
    case SetFrame => s.ui.Free?
    case DrawReturnsTrue => s.ui.Free? && s.hasReceivedFrame
    case TakeFramesBack => s.ui.Free?
    case EnterRelease => s.ui.Free?
    case Detach => s.ui.Inside?
    // A rejected request makes the UI thread do the call itself: the render thread must be out of the way.
    case RequestInvoke(accepted) => s.ui.Detached? && s.hasReceivedFrame && (accepted || s.render.Idle?)
    case SkipInvoke => s.ui.Detached? && !s.hasReceivedFrame
    case Resume => s.ui.Served?
    case RequestFlush(_) => s.ui.Released? && s.hasReceivedFrame
    case SkipFlush => s.ui.Released? && !s.hasReceivedFrame
    case ClearReceived => s.ui.Flushed?
    case LeaveRelease => s.ui.Cleared?
    case Begin(mode) => s.render.Idle? && (mode.Draw? ==> s.armed)
    case BeginServing(_) => s.render.Idle? && s.ui.Waiting?
    case Sync => s.render.Idle?
    case CheckInside => s.render.Begun?
    case CheckFrames => s.render.MayCreate?
    case Create => s.render.WillCreate?
    case Commit => s.render.WillCommit?
    case CheckRelease => s.render.WillCheck?
  }

  /** The end of a call: the UI thread goes on if it was this call it waited for. */
  function Finish(s: State): State {
    if s.blocked && s.ui.Waiting? then s.(render := Idle, blocked := false, ui := Served(s.ui.flushing))
    else s.(render := Idle, blocked := false)
  }

  function Next(s: State, step: Step): State {
    match step
    case SetFrame => s.(hasReceivedFrame := true, hasFrames := true)
    case DrawReturnsTrue => s.(armed := true)
    case TakeFramesBack => s.(hasFrames := false)
    case EnterRelease => s.(ui := Inside, insideRelease := true)
    case Detach => s.(ui := Detached, armed := false)
    case RequestInvoke(accepted) =>
      if accepted then s.(ui := Waiting(false))
      else s.(ui := Served(false), live := s.live && !s.insideRelease)
    case SkipInvoke => s.(ui := Released)
    case Resume => if s.ui.Served? then s.(ui := if s.ui.flushing then Flushed else Released) else s
    case RequestFlush(accepted) => s.(ui := if accepted then Waiting(true) else Flushed)
    case SkipFlush => s.(ui := Flushed)
    case ClearReceived => s.(ui := Cleared, hasReceivedFrame := false)
    case LeaveRelease => s.(ui := Free, insideRelease := false)
    case Begin(mode) => s.(render := Begun(mode))
    case BeginServing(mode) => s.(render := Begun(mode), blocked := true)
    case Sync => if s.live then s.(hasFrames := false) else s
    case CheckInside =>
      if s.render.Begun? && s.render.mode.Draw? && !s.live && !s.insideRelease then s.(render := MayCreate) else s.(render := WillCheck)
    case CheckFrames => s.(render := if s.hasFrames then WillCreate else WillCheck)
    case Create => s.(render := WillCommit, live := true)
    case Commit => s.(render := WillCheck, hasFrames := false)
    case CheckRelease => if s.insideRelease then Finish(s.(live := false)) else Finish(s)
  }

  function Run(s: State, steps: seq<Step>): State {
    if steps == [] then s else Next(Run(s, steps[..|steps| - 1]), steps[|steps| - 1])
  }

  predicate Possible(s: State, steps: seq<Step>) {
    steps == [] || (Possible(s, steps[..|steps| - 1]) && Enabled(Run(s, steps[..|steps| - 1]), steps[|steps| - 1]))
  }

  // ----- The invariant -----

  /** The render thread is in a call that may still make a renderer. */
  predicate Creating(s: State) {
    s.render.MayCreate? || s.render.WillCreate? || s.render.WillCommit? || (s.render.Begun? && s.render.mode.Draw?)
  }

  /** The release has deleted the renderer, and no call is left that could make one. */
  predicate Gone(s: State) {
    !s.live && (Creating(s) ==> s.render.Begun? && s.blocked)
  }

  predicate AfterInvoke(ui: UiPoint) {
    (ui.Waiting? && ui.flushing) || ui.Served? || ui.Released? || ui.Flushed? || ui.Cleared?
  }

  predicate Invariant(s: State) {
    && (s.insideRelease <==> !s.ui.Free?)
    && (!s.ui.Free? && !s.ui.Inside? ==> !s.armed)
    && (s.blocked ==> s.ui.Waiting? && !s.render.Idle?)
    // Only the call the UI thread waits for starts with the release under way: it makes nothing.
    && (s.blocked ==> s.render.Begun? || s.render.WillCheck?)
    && (s.armed ==> s.hasReceivedFrame)
    && (Creating(s) && !s.blocked ==> s.hasReceivedFrame)
    && (s.live ==> s.hasReceivedFrame)
    && (s.ui.Waiting? || (s.ui.Served? && s.ui.flushing) ==> s.hasReceivedFrame)
    && (s.ui.Cleared? ==> !s.hasReceivedFrame)
    && (AfterInvoke(s.ui) ==> Gone(s))
  }

  lemma StepKeepsInvariant(s: State, step: Step)
    requires Invariant(s) && Enabled(s, step)
    ensures Invariant(Next(s, step))
  {
  }

  lemma {:induction false} RunsKeepInvariant(steps: seq<Step>)
    requires Possible(START, steps)
    ensures Invariant(Run(START, steps))
  {
    if steps != [] {
      RunsKeepInvariant(steps[..|steps| - 1]);
      StepKeepsInvariant(Run(START, steps[..|steps| - 1]), steps[|steps| - 1]);
    }
  }

  // ----- What it means -----

  /** In every reachable state a live renderer means that a frame has been received. */
  lemma LiveMeansReceived(steps: seq<Step>)
    requires Possible(START, steps) && Run(START, steps).live
    ensures Run(START, steps).hasReceivedFrame
  {
    RunsKeepInvariant(steps);
  }

  /** The release leaves no renderer, and none is being made. */
  lemma ReleaseLeavesNone(steps: seq<Step>)
    requires Possible(START, steps) && Enabled(Run(START, steps), LeaveRelease)
    ensures var s := Next(Run(START, steps), LeaveRelease);
      !s.live && !Creating(s) && !s.hasReceivedFrame && !s.insideRelease
  {
    RunsKeepInvariant(steps);
  }

  // ----- Creation during a release -----

  predicate WithinRelease(steps: seq<Step>) {
    forall i | 0 <= i < |steps| :: !steps[i].LeaveRelease?
  }

  /** Some way to go on, with the release still under way, makes a renderer. */
  ghost predicate CanCreate(s: State) {
    exists steps :: Possible(s, steps) && WithinRelease(steps) && Enabled(Run(s, steps), Create)
  }

  /** The call has seen no release, and has seen or will see frames. */
  predicate IsAboutToCreate(s: State) {
    s.render.WillCreate? || (s.render.MayCreate? && s.hasFrames)
  }

  lemma {:induction false} OthersNeverCreate(s: State, steps: seq<Step>)
    requires Invariant(s) && s.insideRelease && !IsAboutToCreate(s)
    requires Possible(s, steps) && WithinRelease(steps)
    ensures var t := Run(s, steps);
      Invariant(t) && t.insideRelease && !IsAboutToCreate(t)
  {
    if steps != [] {
      var before := steps[..|steps| - 1];
      OthersNeverCreate(s, before);
      StepKeepsInvariant(Run(s, before), steps[|steps| - 1]);
    }
  }

  lemma GoesOnToCreate(s: State)
    requires IsAboutToCreate(s)
    ensures CanCreate(s)
  {
    if s.render.WillCreate? {
      assert Possible(s, []) && Run(s, []) == s && WithinRelease([]);
    } else {
      var more := [CheckFrames];
      assert more[..|more| - 1] == [] && Possible(s, []);
      assert Run(s, more) == Next(s, CheckFrames);
      assert Possible(s, more) && WithinRelease(more);
    }
  }

  /**
   A renderer can be made during a release exactly when, as the release begins, a call is past its
   check for a release and has frames to create one for.
   */
  lemma CreationOverlapsReleaseIff(steps: seq<Step>)
    requires Possible(START, steps) && Enabled(Run(START, steps), EnterRelease)
    ensures CanCreate(Next(Run(START, steps), EnterRelease)) <==> IsAboutToCreate(Run(START, steps))
  {
    RunsKeepInvariant(steps);
    var s := Run(START, steps);
    var t := Next(s, EnterRelease);
    StepKeepsInvariant(s, EnterRelease);
    if IsAboutToCreate(s) {
      GoesOnToCreate(t);
    } else if CanCreate(t) {
      var more :| Possible(t, more) && WithinRelease(more) && Enabled(Run(t, more), Create);
      OthersNeverCreate(t, more);
    }
  }

  /** The call under way began in a release, or is not one that creates. */
  predicate CreatesNothing(s: State) {
    s.render.WillCheck? || (s.render.Begun? && (s.render.mode.Process? || s.insideRelease))
  }

  /** A call that begins during a release makes no renderer, not even after the release. */
  lemma {:induction false} CallBegunInsideCreatesNothing(s: State, steps: seq<Step>)
    requires Invariant(s) && s.insideRelease && s.render.Begun? && Possible(s, steps)
    requires forall i | 0 <= i <= |steps| :: !Run(s, steps[..i]).render.Idle?
    ensures Invariant(Run(s, steps)) && CreatesNothing(Run(s, steps)) && !Enabled(Run(s, steps), Create)
  {
    assert steps[..|steps|] == steps;
    if steps != [] {
      var before := steps[..|steps| - 1];
      forall i | 0 <= i <= |before| ensures !Run(s, before[..i]).render.Idle? {
        assert before[..i] == steps[..i];
      }
      CallBegunInsideCreatesNothing(s, before);
      StepKeepsInvariant(Run(s, before), steps[|steps| - 1]);
    }
  }

  /** Such a renderer does exist: the checks and the making are not one access. */
  lemma CreationCanOverlapRelease() returns (s: State)
    ensures Reachable(s) && s.insideRelease && s.live
  {
    StartIsReachable();
    var armed := State(Idle, Free, false, false, true, false, true, true);
    ReachedNext(START, SetFrame, armed.(armed := false));
    ReachedNext(armed.(armed := false), DrawReturnsTrue, armed);
    var begun := armed.(render := Begun(Draw));
    ReachedNext(armed, Begin(Draw), begun);
    var checked := armed.(render := MayCreate);
    ReachedNext(begun, CheckInside, checked);
    var entered := checked.(ui := Inside, insideRelease := true);
    ReachedNext(checked, EnterRelease, entered);
    ReachedNext(entered, CheckFrames, entered.(render := WillCreate));
    s := entered.(render := WillCommit, live := true);
    ReachedNext(entered.(render := WillCreate), Create, s);
  }

  ghost predicate Reachable(s: State) {
    exists steps :: Possible(START, steps) && Run(START, steps) == s
  }

  lemma StartIsReachable()
    ensures Reachable(START)
  {
    assert Possible(START, []) && Run(START, []) == START;
  }

  lemma ReachedNext(s: State, step: Step, t: State)
    requires Reachable(s) && Enabled(s, step) && t == Next(s, step)
    ensures Reachable(t)
  {
    var steps :| Possible(START, steps) && Run(START, steps) == s;
    var longer := steps + [step];
    assert longer[..|steps|] == steps;
    assert Possible(START, longer) && Run(START, longer) == t;
  }
}
