/** The protected-media status over whole runs: the last response for a pair of origins, as the steps of the run tell it. */
module PermissionStatus {
  import opened PermissionTypes
  import opened ResultCache
  import opened PermissionModel
  import opened PermissionRuns

  // ----- What a step makes known -----

  /** The responses among some replies: those to calls that are outstanding when they come. */
  function RepliesEvents(s: State, replies: seq<Reply>): seq<CacheEvent>
    decreases |replies|
  {
    if replies == [] then []
    else
      var first := replies[0];
      if first.call in s.calls && first.call.id in s.table then
        var maker := s.table[first.call.id];
        [Answered(first.call.permission, maker.requestingOrigin, maker.embeddingOrigin, if first.allowed then GRANTED else DENIED)]
        + RepliesEvents(OnResponse(s, first.call, first.allowed), replies[1..])
      else RepliesEvents(s, replies[1..])
  }

  /** The responses given inside a delegation loop. */
  function DelegationEvents(s: State, id: int, permissions: seq<PermissionType>, i: nat, todo: set<PermissionType>,
                            hasDelegate: bool, script: seq<seq<Reply>>): seq<CacheEvent>
    requires i <= |permissions|
    decreases |permissions| - i
  {
    if i == |permissions| then []
    else if permissions[i] !in todo || id !in s.table
    then DelegationEvents(s, id, permissions, i + 1, todo, hasDelegate, script)
    else
      (if hasDelegate && permissions[i].IsDelegated() then RepliesEvents(Ask(s, id, permissions[i]), RepliesAt(script, i)) else [])
      + DelegationEvents(DelegateOne(s, id, permissions[i], hasDelegate, RepliesAt(script, i)), id, permissions, i + 1, todo, hasDelegate, script)
  }

  /** Responses, effective cancellations and resets. */
  ghost function EventsOf(s: State, step: Step): seq<CacheEvent> {
    match step
    case Submit(permissions, frame, origin, embedding, delegates, script) =>
      if permissions == [] then []
      else DelegationEvents(AddRequest(s, permissions, origin, embedding, frame), s.nextId, permissions, 0,
                            Delegating(s.table, origin, permissions), frame in delegates, script)
    case Answer(reply) => RepliesEvents(s, [reply])
    case Cancel(id, _) => if id in s.table && !s.table[id].cancelled then ClearEvents(s.table[id]) else []
    case Reset(permission, requesting, embedder) => [Cleared(permission, requesting, embedder)]
  }

  ghost function RunEvents(s: State, steps: seq<Step>): seq<CacheEvent>
    decreases |steps|
  {
    if steps == [] then [] else EventsOf(s, steps[0]) + RunEvents(Next(s, steps[0]), steps[1..])
  }

  // ----- The history is what the steps made known -----

  lemma {:induction false} DeliverHistory(s: State, replies: seq<Reply>)
    ensures Deliver(s, replies).history == s.history + RepliesEvents(s, replies)
    decreases |replies|
  {
    if replies != [] {
      var first := replies[0];
      if first.call in s.calls && first.call.id in s.table {
        DeliverHistory(OnResponse(s, first.call, first.allowed), replies[1..]);
      } else {
        DeliverHistory(s, replies[1..]);
      }
    }
  }

  lemma {:induction false} DelegationHistory(s: State, id: int, permissions: seq<PermissionType>, i: nat, todo: set<PermissionType>,
                                             hasDelegate: bool, script: seq<seq<Reply>>)
    requires i <= |permissions|
    ensures DelegateFrom(s, id, permissions, i, todo, hasDelegate, script).history
         == s.history + DelegationEvents(s, id, permissions, i, todo, hasDelegate, script)
    decreases |permissions| - i
  {
    if i < |permissions| {
      if permissions[i] !in todo || id !in s.table {
        DelegationHistory(s, id, permissions, i + 1, todo, hasDelegate, script);
      } else {
        if hasDelegate && permissions[i].IsDelegated() {
          DeliverHistory(Ask(s, id, permissions[i]), RepliesAt(script, i));
        }
        DelegationHistory(DelegateOne(s, id, permissions[i], hasDelegate, RepliesAt(script, i)), id, permissions, i + 1, todo, hasDelegate, script);
      }
    }
  }

  lemma {:induction false} CancelHistory(s: State, id: int, permissions: seq<PermissionType>, i: nat, hasDelegate: bool)
    requires i <= |permissions| && id in s.table
    ensures CancelFrom(s, id, permissions, i, hasDelegate).history == s.history
    decreases |permissions| - i
  {
    if i < |permissions| {
      CancelHistory(CancelOne(s, id, permissions[i], hasDelegate), id, permissions, i + 1, hasDelegate);
    }
  }

  lemma StepHistory(s: State, step: Step)
    ensures Next(s, step).history == s.history + EventsOf(s, step)
  {
    match step
    case Submit(permissions, frame, origin, embedding, delegates, script) =>
      if permissions != [] {
        var added := AddRequest(s, permissions, origin, embedding, frame);
        DelegationHistory(added, s.nextId, permissions, 0, Delegating(s.table, origin, permissions), frame in delegates, script);
      }
    case Answer(reply) => DeliverHistory(s, [reply]);
    case Cancel(id, frames) =>
      if id in s.table && !s.table[id].cancelled {
        CancelHistory(MarkCancelled(s, id), id, s.table[id].permissions, 0, s.table[id].frame in frames);
      }
    case Reset(_, _, _) =>
  }

  lemma {:induction false} RunHistory(s: State, steps: seq<Step>)
    ensures Run(s, steps).history == s.history + RunEvents(s, steps)
    decreases |steps|
  {
    if steps != [] {
      StepHistory(s, steps[0]);
      RunHistory(Next(s, steps[0]), steps[1..]);
    }
  }

  // ----- Comma-free origins -----

  /** The requesting origins a step brings in have no commas. */
  predicate CommaFreeStep(step: Step) {
    match step
    case Submit(_, _, origin, _, _, _) => CommaFree(origin)
    case Reset(_, requesting, _) => CommaFree(requesting)
    case _ => true
  }

  predicate CommaFreeTable(table: Table) {
    forall k | k in table :: CommaFree(table[k].requestingOrigin)
  }

  lemma {:induction false} DeliverCommaFree(s: State, replies: seq<Reply>)
    requires CommaFreeTable(s.table)
    ensures CommaFreeTable(Deliver(s, replies).table) && AllCommaFree(RepliesEvents(s, replies))
    decreases |replies|
  {
    if replies != [] {
      var first := replies[0];
      if first.call in s.calls && first.call.id in s.table {
        DeliverCommaFree(OnResponse(s, first.call, first.allowed), replies[1..]);
      } else {
        DeliverCommaFree(s, replies[1..]);
      }
    }
  }

  lemma {:induction false} DelegationCommaFree(s: State, id: int, permissions: seq<PermissionType>, i: nat, todo: set<PermissionType>,
                                               hasDelegate: bool, script: seq<seq<Reply>>)
    requires i <= |permissions| && CommaFreeTable(s.table)
    ensures CommaFreeTable(DelegateFrom(s, id, permissions, i, todo, hasDelegate, script).table)
    ensures AllCommaFree(DelegationEvents(s, id, permissions, i, todo, hasDelegate, script))
    decreases |permissions| - i
  {
    if i < |permissions| {
      if permissions[i] !in todo || id !in s.table {
        DelegationCommaFree(s, id, permissions, i + 1, todo, hasDelegate, script);
      } else {
        if hasDelegate && permissions[i].IsDelegated() {
          DeliverCommaFree(Ask(s, id, permissions[i]), RepliesAt(script, i));
        }
        DelegationCommaFree(DelegateOne(s, id, permissions[i], hasDelegate, RepliesAt(script, i)), id, permissions, i + 1, todo, hasDelegate, script);
      }
    }
  }

  lemma {:induction false} CancelCommaFree(s: State, id: int, permissions: seq<PermissionType>, i: nat, hasDelegate: bool)
    requires i <= |permissions| && id in s.table && CommaFreeTable(s.table)
    ensures CommaFreeTable(CancelFrom(s, id, permissions, i, hasDelegate).table)
    decreases |permissions| - i
  {
    if i < |permissions| {
      CancelCommaFree(CancelOne(s, id, permissions[i], hasDelegate), id, permissions, i + 1, hasDelegate);
    }
  }

  lemma StepCommaFree(s: State, step: Step)
    requires CommaFreeTable(s.table) && CommaFreeStep(step)
    ensures CommaFreeTable(Next(s, step).table) && AllCommaFree(EventsOf(s, step))
  {
    match step
    case Submit(permissions, frame, origin, embedding, delegates, script) =>
      if permissions != [] {
        var added := AddRequest(s, permissions, origin, embedding, frame);
        DelegationCommaFree(added, s.nextId, permissions, 0, Delegating(s.table, origin, permissions), frame in delegates, script);
      }
    case Answer(reply) => DeliverCommaFree(s, [reply]);
    case Cancel(id, frames) =>
      if id in s.table && !s.table[id].cancelled {
        CancelCommaFree(MarkCancelled(s, id), id, s.table[id].permissions, 0, s.table[id].frame in frames);
      }
    case Reset(_, _, _) =>
  }

  lemma {:induction false} RunCommaFree(s: State, steps: seq<Step>)
    requires CommaFreeTable(s.table) && forall i | 0 <= i < |steps| :: CommaFreeStep(steps[i])
    ensures AllCommaFree(RunEvents(s, steps))
    decreases |steps|
  {
    if steps != [] {
      StepCommaFree(s, steps[0]);
      RunCommaFree(Next(s, steps[0]), steps[1..]);
    }
  }

  /**
   Over every run whose requesting origins have no commas, the protected-media status of a pair of
   origins is the last response the steps gave for it, unless a later reset or effective
   cancellation took it back; then, and when there was none, it is ASK.
   */
  lemma StatusIsLastResponse(steps: seq<Step>, requesting: Gurl, embedding: Gurl)
    requires forall i | 0 <= i < |steps| :: CommaFreeStep(steps[i])
    requires CommaFree(requesting) && Cacheable(requesting) && Cacheable(embedding)
    ensures GetPermissionStatus(Run(INITIAL, steps), PROTECTED_MEDIA_IDENTIFIER, requesting, embedding)
         == LastOutcome(RunEvents(INITIAL, steps), requesting, embedding)
  {
    RunHistory(INITIAL, steps);
    RunCommaFree(INITIAL, steps);
    StatusFromHistory(Run(INITIAL, steps), RunEvents(INITIAL, steps), requesting, embedding);
  }

  lemma StatusFromHistory(s: State, events: seq<CacheEvent>, requesting: Gurl, embedding: Gurl)
    requires s.history == [] + events && AllCommaFree(events)
    requires CommaFree(requesting) && Cacheable(requesting) && Cacheable(embedding)
    ensures GetPermissionStatus(s, PROTECTED_MEDIA_IDENTIFIER, requesting, embedding) == LastOutcome(events, requesting, embedding)
  {
    assert s.history == events;
    CacheHoldsLastOutcome(events, requesting, embedding);
  }

  // ----- What a cancellation does to the status -----

  lemma {:induction false} ClearingForgets(history: seq<CacheEvent>, cleared: seq<CacheEvent>, requesting: Gurl, embedding: Gurl)
    requires forall i | 0 <= i < |cleared| :: cleared[i].Cleared?
    ensures LastOutcome(history + cleared, requesting, embedding)
         == if exists i :: 0 <= i < |cleared| && cleared[i] == Cleared(PROTECTED_MEDIA_IDENTIFIER, requesting, embedding) then ASK
            else LastOutcome(history, requesting, embedding)
    decreases |cleared|
  {
    if cleared == [] {
      assert history + cleared == history;
    } else {
      var front, last := cleared[..|cleared| - 1], cleared[|cleared| - 1];
      assert (history + cleared)[..|history + cleared| - 1] == history + front;
      ClearingForgets(history, front, requesting, embedding);
      if i :| 0 <= i < |front| && front[i] == Cleared(PROTECTED_MEDIA_IDENTIFIER, requesting, embedding) {
        assert cleared[i] == front[i];
      }
    }
  }

  /**
   An effective cancellation of a request for protected media makes the status of its requesting origin, with the
   origin it was embedded in, unknown again; every other status stays.
   */
  lemma CancelForgetsStatus(steps: seq<Step>, id: int, frames: set<int>, requesting: Gurl, embedding: Gurl)
    requires forall i | 0 <= i < |steps| :: CommaFreeStep(steps[i])
    requires id in Run(INITIAL, steps).table && !Run(INITIAL, steps).table[id].cancelled
    requires CommaFree(requesting) && Cacheable(requesting) && Cacheable(embedding)
    ensures var s := Run(INITIAL, steps);
      var r, before := s.table[id], GetPermissionStatus(s, PROTECTED_MEDIA_IDENTIFIER, requesting, embedding);
      GetPermissionStatus(Next(s, Cancel(id, frames)), PROTECTED_MEDIA_IDENTIFIER, requesting, embedding)
      == if PROTECTED_MEDIA_IDENTIFIER in r.permissions && r.requestingOrigin == requesting && r.embeddingOrigin == embedding then ASK else before
  {
    var s, events := Run(INITIAL, steps), RunEvents(INITIAL, steps);
    HistorySoFar(steps);
    CancelClears(s, id, frames);
    StatusFromHistory(s, events, requesting, embedding);
    assert Next(s, Cancel(id, frames)).history == [] + (events + ClearEvents(s.table[id]));
    StatusFromHistory(Next(s, Cancel(id, frames)), events + ClearEvents(s.table[id]), requesting, embedding);
    ClearingForgets(events, ClearEvents(s.table[id]), requesting, embedding);
    ClearsPair(s.table[id], requesting, embedding);
  }

  lemma HistorySoFar(steps: seq<Step>)
    requires forall i | 0 <= i < |steps| :: CommaFreeStep(steps[i])
    ensures var s, events := Run(INITIAL, steps), RunEvents(INITIAL, steps);
      s.history == [] + events && AllCommaFree(events) && CommaFreeTable(s.table)
  {
    RunHistory(INITIAL, steps);
    RunCommaFree(INITIAL, steps);
    RunTableCommaFree(INITIAL, steps);
  }

  lemma CancelClears(s: State, id: int, frames: set<int>)
    requires id in s.table && !s.table[id].cancelled && CommaFreeTable(s.table)
    ensures Next(s, Cancel(id, frames)).history == s.history + ClearEvents(s.table[id]) && AllCommaFree(ClearEvents(s.table[id]))
  {
    StepHistory(s, Cancel(id, frames));
    StepCommaFree(s, Cancel(id, frames));
  }

  lemma ClearsPair(r: Request, requesting: Gurl, embedding: Gurl)
    ensures (exists i :: 0 <= i < |ClearEvents(r)| && ClearEvents(r)[i] == Cleared(PROTECTED_MEDIA_IDENTIFIER, requesting, embedding))
       <==> PROTECTED_MEDIA_IDENTIFIER in r.permissions && r.requestingOrigin == requesting && r.embeddingOrigin == embedding
  {
    if PROTECTED_MEDIA_IDENTIFIER in r.permissions && r.requestingOrigin == requesting && r.embeddingOrigin == embedding {
      var i :| 0 <= i < |r.permissions| && r.permissions[i] == PROTECTED_MEDIA_IDENTIFIER;
      assert ClearEvents(r)[i] == Cleared(PROTECTED_MEDIA_IDENTIFIER, requesting, embedding);
    }
  }

  lemma {:induction false} RunTableCommaFree(s: State, steps: seq<Step>)
    requires CommaFreeTable(s.table) && forall i | 0 <= i < |steps| :: CommaFreeStep(steps[i])
    ensures CommaFreeTable(Run(s, steps).table)
    decreases |steps|
  {
    if steps != [] {
      StepCommaFree(s, steps[0]);
      RunTableCommaFree(Next(s, steps[0]), steps[1..]);
    }
  }
}
