/**
 Requests for a GL call: from any thread, with at most one under way. A request from another thread
 travels as a closure to the UI thread, which cancels it by giving its manager a new generation.
 */
module InvokeTracker {
  import opened Options

  type Manager = nat
  type Thread = nat

  /** A posted call back into a manager; it does nothing once the manager has a newer generation. */
  datatype Closure = Closure(manager: Manager, generation: nat)

  // ----- The tracker, as a value and as an object -----

  /** The managers whose requests are pending, by where they came from. */
  datatype Tracker<M(==)> = Tracker(ui: Option<M>, nonUi: Option<M>)
  {
    predicate RefusesElsewhere() {
      ui.Some? || nonUi.Some?
    }

    function AskedElsewhere(m: M): Tracker<M> {
      if RefusesElsewhere() then this else this.(nonUi := Some(m))
    }

    predicate RefusesOnUi() {
      ui.Some?
    }

    /** A request of the UI thread takes the place of one from elsewhere. */
    function AskedOnUi(m: M): Tracker<M> {
      Tracker(if RefusesOnUi() then ui else Some(m), None)
    }

    function Queued(m: M): Tracker<M> {
      Tracker(Some(m), None)
    }

    function Cleared(): Tracker<M> {
      Tracker(None, None)
    }
  }

  class RenderThreadManager {
    var generation: nat

    constructor ()
      ensures generation == 0
    {
      generation := 0;
    }

    method ResetRequestInvokeGLCallback()
      modifies this
      ensures generation == old(generation) + 1
    {
      generation := generation + 1;
    }
  }

  class RequestInvokeGLTracker {
    var pendingUi: Option<RenderThreadManager>
    var pendingNonUi: Option<RenderThreadManager>

    constructor ()
      ensures Value() == Value().Cleared()
    {
      pendingUi, pendingNonUi := None, None;
    }

    function Value(): Tracker<RenderThreadManager>
      reads this
    {
      Tracker(pendingUi, pendingNonUi)
    }

    method ShouldRequestOnNonUiThread(state: RenderThreadManager) returns (should: bool)
      modifies this
      ensures should <==> old(pendingUi) == None && old(pendingNonUi) == None
      ensures pendingUi == old(pendingUi) && pendingNonUi == if should then Some(state) else old(pendingNonUi)
      ensures should <==> !old(Value()).RefusesElsewhere()
      ensures Value() == old(Value()).AskedElsewhere(state)
    {
      if pendingUi != None || pendingNonUi != None {
        return false;
      }
      pendingNonUi := Some(state);
      return true;
    }

    method ShouldRequestOnUiThread(state: RenderThreadManager) returns (should: bool)
      modifies this, if pendingNonUi.Some? then {pendingNonUi.value} else {}
      ensures should <==> old(pendingUi) == None
      ensures pendingUi == (if should then Some(state) else old(pendingUi)) && pendingNonUi == None
      ensures should <==> !old(Value()).RefusesOnUi()
      ensures Value() == old(Value()).AskedOnUi(state)
      ensures old(pendingNonUi).Some? ==> old(pendingNonUi).value.generation == old(pendingNonUi.value.generation) + 1
    {
      if pendingNonUi.Some? {
        pendingNonUi.value.ResetRequestInvokeGLCallback();
        pendingNonUi := None;
      }
      if pendingUi != None {
        return false;
      }
      pendingUi := Some(state);
      return true;
    }

    method ResetPending()
      modifies this
      ensures pendingUi == None && pendingNonUi == None && Value() == old(Value()).Cleared()
    {
      pendingNonUi := None;
      pendingUi := None;
    }

    method SetQueuedFunctorOnUi(state: RenderThreadManager)
      modifies this
      ensures pendingUi == Some(state) && pendingNonUi == None && Value() == old(Value()).Queued(state)
    {
      pendingUi := Some(state);
      pendingNonUi := None;
    }
  }

  // ----- All threads together -----

  /** Another thread's request: the tracker says yes, the closure is copied, the closure is posted. */
  datatype Requester = Marked(manager: Manager) | Copied(closure: Closure)

  /** The UI thread's way through a request of its own or a closure that is still live. */
  datatype UiPoint =
    | Free
    | Entered(manager: Manager)
    | Renewed(manager: Manager)
    | Queueing(manager: Manager)
    | Rejected

  datatype RenderPoint = Resting | Processing

  datatype State = State(
    tracker: Tracker<Manager>,
    generations: map<Manager, nat>,
    requesters: map<Thread, Requester>,
    posted: multiset<Closure>,
    ui: UiPoint,
    render: RenderPoint,
    queued: nat)

  const START: State := State(Tracker(None, None), map[], map[], multiset{}, Free, Resting, 0)

  function Generation(s: State, m: Manager): nat {
    if m in s.generations then s.generations[m] else 0
  }

  function Renew(s: State, m: Manager): State {
    s.(generations := s.generations[m := Generation(s, m) + 1])
  }

  predicate IsLive(s: State, c: Closure) {
    c.generation == Generation(s, c.manager)
  }

  datatype Step =
    | RequestElsewhere(thread: Thread, manager: Manager)
    | CopyClosure(thread: Thread)
    | PostClosure(thread: Thread)
    | RequestOnUi(manager: Manager)
    | RunClosure(closure: Closure)
    | RenewClosure
    | SetQueued
    | Invoke(accepted: bool)
    | GiveUp
    | BeginProcess
    | ProcessUnasked
    | ResetByProcess

  predicate Enabled(s: State, step: Step) {
    match step
    case RequestElsewhere(t, _) => t !in s.requesters
    case CopyClosure(t) => t in s.requesters && s.requesters[t].Marked?
    case PostClosure(t) => t in s.requesters && s.requesters[t].Copied?
    case RequestOnUi(_) => s.ui.Free?
    case RunClosure(c) => s.ui.Free? && c in s.posted
    case RenewClosure => s.ui.Entered?
    case SetQueued => s.ui.Renewed?
    case Invoke(_) => s.ui.Queueing?
    case GiveUp => s.ui.Rejected?
    case BeginProcess => s.render.Resting? && s.queued > 0
    case ProcessUnasked => s.render.Resting?
    case ResetByProcess => s.render.Processing?
  }

  /** The tracker answers no: something is thought to be under way. */
  predicate Suppressed(s: State, step: Step) {
    match step
    case RequestElsewhere(_, _) => s.tracker.RefusesElsewhere()
    case RequestOnUi(_) => s.tracker.RefusesOnUi()
    case _ => false
  }

  function Next(s: State, step: Step): State
    requires Enabled(s, step)
  {
    match step
    case RequestElsewhere(t, m) =>
      if Suppressed(s, step) then s else s.(tracker := s.tracker.AskedElsewhere(m), requesters := s.requesters[t := Marked(m)])
    case CopyClosure(t) =>
      var m := s.requesters[t].manager;
      s.(requesters := s.requesters[t := Copied(Closure(m, Generation(s, m)))])
    case PostClosure(t) =>
      s.(posted := s.posted + multiset{s.requesters[t].closure}, requesters := s.requesters - {t})
    case RequestOnUi(m) =>
      var renewed := if s.tracker.nonUi.Some? then Renew(s, s.tracker.nonUi.value) else s;
      var u := renewed.(tracker := s.tracker.AskedOnUi(m));
      if Suppressed(s, step) then u else u.(ui := Entered(m))
    case RunClosure(c) =>
      var u := s.(posted := s.posted - multiset{c});
      if IsLive(s, c) then u.(ui := Entered(c.manager)) else u
    case RenewClosure => Renew(s, s.ui.manager).(ui := Renewed(s.ui.manager))
    case SetQueued => s.(tracker := s.tracker.Queued(s.ui.manager), ui := Queueing(s.ui.manager))
    case Invoke(accepted) => if accepted then s.(ui := Free, queued := s.queued + 1) else s.(ui := Rejected)
    case GiveUp => s.(tracker := s.tracker.Cleared(), ui := Free)
    case BeginProcess => s.(render := Processing, queued := s.queued - 1)
    case ProcessUnasked => s.(render := Processing)
    case ResetByProcess => s.(tracker := s.tracker.Cleared(), render := Resting)
  }

  function Run(steps: seq<Step>): State
    requires Possible(steps)
    decreases steps, 1
  {
    if steps == [] then START else Next(Run(steps[..|steps| - 1]), steps[|steps| - 1])
  }

  predicate Possible(steps: seq<Step>)
    decreases steps, 0
  {
    steps == [] || (Possible(steps[..|steps| - 1]) && Enabled(Run(steps[..|steps| - 1]), steps[|steps| - 1]))
  }

  // ----- No wake-up is lost -----

  predicate BringsLive(s: State, r: Requester, m: Manager) {
    match r
    case Marked(k) => k == m
    case Copied(c) => c.manager == m && IsLive(s, c)
  }

  /** The UI thread is in a request of this manager, and will overwrite the tracker before it asks for the call. */
  predicate WillOverwrite(s: State, m: Manager) {
    (s.ui.Entered? || s.ui.Renewed?) && s.ui.manager == m
  }

  /** A live closure of this manager is posted, or a thread is about to post one. */
  ghost predicate LiveClosure(s: State, m: Manager) {
    || Closure(m, Generation(s, m)) in s.posted
    || (exists t :: t in s.requesters && BringsLive(s, s.requesters[t], m))
  }

  /** A request of this manager is on its way from another thread, or the UI thread has just taken it up. */
  ghost predicate ClosureComes(s: State, m: Manager) {
    LiveClosure(s, m) || WillOverwrite(s, m)
  }

  /** A call is queued, or has begun and will yet reset the tracker. */
  predicate CallComes(s: State) {
    s.queued > 0 || s.render.Processing?
  }

  /** The UI thread is still asking for a call, which may yet be refused. */
  predicate UiAsks(s: State) {
    s.ui.Entered? || s.ui.Renewed? || s.ui.Queueing?
  }

  ghost predicate Invariant(s: State) {
    && !(s.tracker.ui.Some? && s.tracker.nonUi.Some?)
    && (s.tracker.nonUi.Some? ==> ClosureComes(s, s.tracker.nonUi.value))
    && (s.tracker.ui.Some? ==> CallComes(s) || UiAsks(s) || s.ui.Rejected?)
  }

  lemma PostedGoesOnComing(s: State, step: Step, m: Manager)
    requires Enabled(s, step) && s.tracker.nonUi == Some(m) && Next(s, step).tracker.nonUi == Some(m)
    requires Closure(m, Generation(s, m)) in s.posted || WillOverwrite(s, m)
    ensures ClosureComes(Next(s, step), m)
  {
  }

  lemma RequesterGoesOnComing(s: State, step: Step, m: Manager, t: Thread)
    requires Enabled(s, step) && s.tracker.nonUi == Some(m) && Next(s, step).tracker.nonUi == Some(m) && !WillOverwrite(s, m)
    requires t in s.requesters && BringsLive(s, s.requesters[t], m)
    ensures ClosureComes(Next(s, step), m)
  {
    var u := Next(s, step);
    if step == PostClosure(t) {
      assert Closure(m, Generation(u, m)) in u.posted;
    } else {
      assert t in u.requesters && BringsLive(u, u.requesters[t], m);
    }
  }

  /** While the tracker goes on waiting for a manager's closure, the closure goes on coming. */
  lemma ClosureGoesOnComing(s: State, step: Step, m: Manager)
    requires Enabled(s, step) && s.tracker.nonUi == Some(m) && Next(s, step).tracker.nonUi == Some(m)
    requires ClosureComes(s, m)
    ensures ClosureComes(Next(s, step), m)
  {
    if WillOverwrite(s, m) || Closure(m, Generation(s, m)) in s.posted {
      PostedGoesOnComing(s, step, m);
    } else {
      var t :| t in s.requesters && BringsLive(s, s.requesters[t], m);
      RequesterGoesOnComing(s, step, m, t);
    }
  }

  lemma StepKeepsInvariant(s: State, step: Step)
    requires Invariant(s) && Enabled(s, step)
    ensures Invariant(Next(s, step))
  {
    var u := Next(s, step);
    if u.tracker.nonUi.Some? {
      if s.tracker.nonUi == u.tracker.nonUi {
        ClosureGoesOnComing(s, step, u.tracker.nonUi.value);
      } else {
        assert step.RequestElsewhere?;
        assert step.thread in u.requesters && BringsLive(u, u.requesters[step.thread], step.manager);
      }
    }
  }

  lemma {:induction false} RunsKeepInvariant(steps: seq<Step>)
    requires Possible(steps)
    ensures Invariant(Run(steps))
  {
    if steps != [] {
      RunsKeepInvariant(steps[..|steps| - 1]);
      StepKeepsInvariant(Run(steps[..|steps| - 1]), steps[|steps| - 1]);
    }
  }

  /** The two pending requests are never both set. */
  lemma NeverBothPending(steps: seq<Step>)
    requires Possible(steps)
    ensures Run(steps).tracker.ui == None || Run(steps).tracker.nonUi == None
  {
    RunsKeepInvariant(steps);
  }

  /** Something is under way that may bring a call: the call itself, a live closure, or a UI thread that is asking. */
  ghost predicate IsComing(s: State) {
    CallComes(s) || UiAsks(s) || exists m :: LiveClosure(s, m)
  }

  /** The UI thread's own invoke has been refused, and it has not yet cleared the tracker. */
  ghost predicate RefusedAlone(s: State) {
    s.ui.Rejected? && s.queued == 0 && s.render.Resting? && forall m :: !LiveClosure(s, m)
  }

  /**
   When a request is turned down, a call, a live closure or an asking UI thread is under way,
   unless the UI thread has just been refused and nothing else is: exactly then nothing is.
   */
  lemma TurnedDownIsComingIff(steps: seq<Step>, step: Step)
    requires Possible(steps) && Enabled(Run(steps), step) && Suppressed(Run(steps), step)
    ensures IsComing(Run(steps)) <==> !RefusedAlone(Run(steps))
  {
    RunsKeepInvariant(steps);
    var s := Run(steps);
    if s.tracker.nonUi.Some? && !UiAsks(s) {
      assert LiveClosure(s, s.tracker.nonUi.value);
    }
  }

  /** An accepted invoke queues a call; a refused one leaves, once given up, an empty tracker and no call for what was turned down meanwhile. */
  lemma InvokeDecides(s: State)
    requires s.ui.Queueing?
    ensures Next(s, Invoke(true)).queued == s.queued + 1
    ensures Next(Next(s, Invoke(false)), GiveUp) == s.(tracker := Tracker(None, None), ui := Free)
  {
  }

  /** The state after a request of the UI thread has been refused. */
  function Refused(m: Manager): State {
    START.(tracker := Tracker(Some(m), None), generations := map[m := 1], ui := Rejected)
  }

  lemma OneMoreStep(steps: seq<Step>, s: State, step: Step, t: State)
    requires Possible(steps) && Run(steps) == s && Enabled(s, step) && t == Next(s, step)
    ensures Possible(steps + [step]) && Run(steps + [step]) == t
  {
    assert (steps + [step])[..|steps|] == steps;
  }

  /**
   A wake-up that is lost: after a refused invoke a request from another thread is turned down with
   nothing under way, and giving up leaves nothing under way either.
   */
  lemma RefusedInvokeLosesRequests(m: Manager, thread: Thread, other: Manager)
    ensures var steps := [] + [RequestOnUi(m)] + [RenewClosure] + [SetQueued] + [Invoke(false)];
      && Possible(steps) && Run(steps) == Refused(m)
      && Enabled(Refused(m), RequestElsewhere(thread, other)) && Suppressed(Refused(m), RequestElsewhere(thread, other))
      && RefusedAlone(Refused(m)) && !IsComing(Refused(m))
      && !IsComing(Next(Refused(m), GiveUp)) && Next(Refused(m), GiveUp).ui.Free?
  {
    var entered := START.(tracker := Tracker(Some(m), None), ui := Entered(m));
    var renewed := entered.(generations := map[m := 1], ui := Renewed(m));
    var queueing := renewed.(ui := Queueing(m));
    OneMoreStep([], START, RequestOnUi(m), entered);
    OneMoreStep([] + [RequestOnUi(m)], entered, RenewClosure, renewed);
    OneMoreStep([] + [RequestOnUi(m)] + [RenewClosure], renewed, SetQueued, queueing);
    OneMoreStep([] + [RequestOnUi(m)] + [RenewClosure] + [SetQueued], queueing, Invoke(false), Refused(m));
    assert forall k :: !LiveClosure(Refused(m), k) && !LiveClosure(Next(Refused(m), GiveUp), k);
  }

  /** A live closure leads to a call when the UI thread runs it and the call is accepted; a call that begins clears the tracker. */
  lemma ClosureLeadsToCall(s: State, c: Closure)
    requires s.ui.Free? && c in s.posted && IsLive(s, c) && s.render.Resting?
    ensures var asked := Next(Next(Next(Next(s, RunClosure(c)), RenewClosure), SetQueued), Invoke(true));
      && asked.queued == s.queued + 1 && asked.ui.Free?
      && asked.tracker.ui == Some(c.manager) && asked.tracker.nonUi == None && !IsLive(asked, c)
      && Next(Next(asked, BeginProcess), ResetByProcess).tracker.ui == None
      && Next(Next(asked, BeginProcess), ResetByProcess).queued == s.queued
  {
  }
}
