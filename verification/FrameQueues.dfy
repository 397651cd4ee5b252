/** What each step of the frame pipeline does to the two queues and to the frame on show. */
module FrameQueues {
  import opened Options
  import opened Frames
  import opened FramePipeline
  import opened FrameConservation

  function QueueOf(s: State): seq<Frame> {
    if s.renderer.Some? then s.renderer.value.queue else []
  }

  function ShownOf(s: State): Option<Content> {
    if s.renderer.Some? then s.renderer.value.shown else None
  }

  function FramesAfter(s: State, step: Step): seq<Frame> {
    match step
    case NewFrame(f) => Placed(s.frames, f)
    case TakeBack => []
    case Sync => if s.renderer.Some? then [] else s.frames
    case _ => s.frames
  }

  /** The renderer's queue after it took over a queue of frames. */
  function TakenOver(queue: seq<Frame>, frames: seq<Frame>): seq<Frame> {
    if frames == [] then queue else Kept(queue + AllButLast(frames)) + LastOf(frames)
  }

  function QueueAfter(s: State, step: Step): seq<Frame> {
    match step
    case Sync => if s.renderer.Some? then TakenOver(QueueOf(s), s.frames) else []
    case Paint(_) => []
    case Stop(_) => []
    case _ => QueueOf(s)
  }

  function ShownAfter(s: State, step: Step): Option<Content> {
    match step
    case Paint(_) => if Kept(QueueOf(s)) == [] then ShownOf(s) else Kept(QueueOf(s))[0].frame
    case Stop(_) => None
    case _ => ShownOf(s)
  }

  function SubmittedAfter(s: State, step: Step): seq<Content> {
    match step
    case Paint(_) => if Kept(QueueOf(s)) == [] then s.submitted else s.submitted + [Kept(QueueOf(s))[0].frame.value]
    case _ => s.submitted
  }

  ghost predicate Same(s: State, t: State) {
    t.frames == s.frames && t.renderer == s.renderer && t.submitted == s.submitted && t.produced == s.produced && t.registered == s.registered
  }

  lemma ReturningIsAside(s: State, q: seq<Frame>, committed: SinkId, bs: seq<Batch>)
    ensures Same(s, ReturnAllUnused(s, q)) && Same(s, ReturnAll(s, committed, bs))
  {
    ReturningUnusedAccounts(s, q);
    ReturningAccounts(s, committed, bs);
  }

  ghost predicate QueuesAre(s: State, frames: seq<Frame>, queue: seq<Frame>, shown: Option<Content>, submitted: seq<Content>) {
    s.frames == frames && QueueOf(s) == queue && ShownOf(s) == shown && s.submitted == submitted
  }

  lemma PaintQueues(s: State, calls: seq<seq<Resource>>)
    requires s.renderer.Some?
    ensures var step := Paint(calls);
      QueuesAre(Draw(s, calls), s.frames, [], ShownAfter(s, step), SubmittedAfter(s, step)) && Draw(s, calls).produced == s.produced
  {
    var r := s.renderer.value;
    var emptied := s.(renderer := Some(r.(queue := [])));
    ReturningIsAside(emptied, [], r.committedSink, BatchesOf(Pruned(r.queue)));
    if Kept(r.queue) != [] {
      var t := ReturnAll(emptied, r.committedSink, BatchesOf(Pruned(r.queue)));
      ReturningIsAside(Abandon(t, r, calls), [], Kept(r.queue)[0].sink, Reclaimed(r, calls));
    }
  }

  lemma StopQueues(s: State, calls: seq<seq<Resource>>)
    requires s.renderer.Some?
    ensures QueuesAre(Teardown(s, calls), s.frames, [], None, s.submitted) && Teardown(s, calls).renderer == None
    ensures Teardown(s, calls).produced == s.produced
  {
    var r := s.renderer.value;
    var gone := s.(renderer := None);
    ReturningIsAside(Abandon(gone, r, calls), [], r.committedSink, Reclaimed(r, calls));
    ReturningIsAside(ReturnAll(Abandon(gone, r, calls), r.committedSink, Reclaimed(r, calls)), [], r.committedSink, BatchesOf(NonEmpty(r.queue)));
  }

  lemma SyncQueues(s: State)
    requires s.renderer.Some?
    ensures QueuesAre(Commit(s), [], TakenOver(QueueOf(s), s.frames), ShownOf(s), s.submitted) && Commit(s).renderer.Some?
    ensures Commit(s).produced == s.produced
  {
    if s.frames != [] {
      var r := s.renderer.value;
      var q := r.queue + AllButLast(s.frames);
      var t := s.(frames := [], renderer := Some(r.(queue := Kept(q) + LastOf(s.frames))));
      ReturningIsAside(t, [], r.committedSink, BatchesOf(Pruned(q)));
    }
  }

  lemma NewFrameQueues(s: State, f: Frame)
    ensures QueuesAre(SetFrame(s, f), Placed(s.frames, f), QueueOf(s), ShownOf(s), s.submitted)
    ensures SetFrame(s, f).produced == s.produced + ContentsOf(f) && SetFrame(s, f).renderer == s.renderer
  {
    var t := s.(frames := Placed(s.frames, f), handedIn := s.handedIn + FrameItems(f), produced := s.produced + ContentsOf(f),
                dropped := s.dropped + QueueItems(Forgotten(s.frames, f)));
    ReturningIsAside(t, HandedBack(s.frames, f), 0, []);
  }

  lemma StepQueues(s: State, step: Step)
    ensures QueuesAre(Next(s, step), FramesAfter(s, step), QueueAfter(s, step), ShownAfter(s, step), SubmittedAfter(s, step))
    ensures Next(s, step).produced == s.produced + if step.NewFrame? then ContentsOf(step.frame) else []
  {
    match step
    case NewFrame(f) => NewFrameQueues(s, f);
    case TakeBack => ReturningIsAside(s.(frames := []), AllWaited(s.frames), 0, []);
    case Sync => if s.renderer.Some? { SyncQueues(s); }
    case Paint(calls) => if s.renderer.Some? { PaintQueues(s, calls); }
    case Stop(calls) => if s.renderer.Some? { StopQueues(s, calls); }
    case _ =>
  }
}
