/**
 What holds over every run of the permission broker: no waiter is stranded, no answer is
 orphaned, and every callback runs at most once, with the decisions that were taken.
 */
module PermissionRuns {
  import opened PermissionTypes
  import opened ResultCache
  import opened PermissionModel
  import opened PermissionInvariant
  import opened PermissionCancellation

  // ----- A request from start to finish -----

  /** The request has not been cancelled: its callback has run or is still to come. */
  predicate Live(s: State, id: int) {
    id !in s.dropped && (id in s.table ==> !s.table[id].cancelled)
  }

  lemma {:induction false} DeliverKeepsLive(s: State, replies: seq<Reply>, id: int)
    requires Live(s, id)
    ensures Live(Deliver(s, replies), id)
    decreases |replies|
  {
    if replies != [] {
      var first := replies[0];
      var next := if first.call in s.calls && first.call.id in s.table then OnResponse(s, first.call, first.allowed) else s;
      assert Live(next, id);
      DeliverKeepsLive(next, replies[1..], id);
    }
  }

  lemma {:induction false} DelegationKeepsLive(s: State, id: int, permissions: seq<PermissionType>, i: nat,
                                               todo: set<PermissionType>, hasDelegate: bool, script: seq<seq<Reply>>)
    requires i <= |permissions| && Live(s, id)
    ensures Live(DelegateFrom(s, id, permissions, i, todo, hasDelegate, script), id)
    decreases |permissions| - i
  {
    if i < |permissions| {
      if permissions[i] in todo && id in s.table {
        var next := DelegateOne(s, id, permissions[i], hasDelegate, RepliesAt(script, i));
        if hasDelegate && permissions[i].IsDelegated() {
          DeliverKeepsLive(Ask(s, id, permissions[i]), RepliesAt(script, i), id);
        }
        DelegationKeepsLive(next, id, permissions, i + 1, todo, hasDelegate, script);
      } else {
        DelegationKeepsLive(s, id, permissions, i + 1, todo, hasDelegate, script);
      }
    }
  }

  lemma FinishRestoresRest(s: State, id: int)
    requires Consistent(s, id, {}) && Live(s, id) && s.nextId > 0
    ensures AtRest(Finish(s, id).0)
  {
    FinishServesWaiters(s, id);
    FinishKeepsCancelledShared(s, id);
  }

  lemma FinishServesWaiters(s: State, id: int)
    requires WaitersAreServed(s.table, s.calls, id, {})
    ensures WaitersAreServed(Finish(s, id).0.table, Finish(s, id).0.calls, 0, {})
  {
    var t := Finish(s, id).0;
    forall k, p | k in t.table && t.table[k].Waits(p) ensures HasCall(t.calls, t.table[k].requestingOrigin, p) {
      assert s.table[k].Waits(p);
    }
  }

  lemma FinishKeepsCancelledShared(s: State, id: int)
    requires CancelledAreShared(s.table, id) && Live(s, id)
    ensures CancelledAreShared(Finish(s, id).0.table, 0)
  {
    var t := Finish(s, id).0;
    forall k, p | k in t.table && t.table[k].cancelled && t.table[k].Waits(p)
      ensures OtherWaits(t.table, k, t.table[k].requestingOrigin, p)
    {
      assert s.table[k].Waits(p);
      OtherWaitsSurvivesUpdate(s.table, t.table, k, t.table[k].requestingOrigin, p);
    }
  }

  /** The state in which the delegation loop of a new request ends. */
  ghost function AfterDelegation(s: State, permissions: seq<PermissionType>, frame: int, origin: Gurl, embedding: Gurl,
                                 delegates: set<int>, script: seq<seq<Reply>>): State {
    DelegateFrom(AddRequest(s, permissions, origin, embedding, frame), s.nextId, permissions, 0,
                 Delegating(s.table, origin, permissions), frame in delegates, script)
  }

  lemma AddedIsReady(s: State, permissions: seq<PermissionType>, frame: int, origin: Gurl, embedding: Gurl)
    requires AtRest(s) && Distinct(permissions) && permissions != []
    ensures var added := AddRequest(s, permissions, origin, embedding, frame);
      && Consistent(added, s.nextId, Rest(permissions, 0, Delegating(s.table, origin, permissions)))
      && Live(added, s.nextId) && Grows(s, added) && added.nextId == s.nextId + 1
  {
    AddKeepsConsistent(s, permissions, origin, embedding, frame);
    assert permissions[0..] == permissions;
    assert Rest(permissions, 0, Delegating(s.table, origin, permissions)) == Delegating(s.table, origin, permissions);
  }

  lemma DelegationLoopEnds(s: State, permissions: seq<PermissionType>, frame: int, origin: Gurl, embedding: Gurl,
                           delegates: set<int>, script: seq<seq<Reply>>)
    requires AtRest(s) && Distinct(permissions) && permissions != []
    ensures var t := AfterDelegation(s, permissions, frame, origin, embedding, delegates, script);
      Consistent(t, s.nextId, {}) && Live(t, s.nextId) && t.nextId == s.nextId + 1
    ensures NeverDangles(AddRequest(s, permissions, origin, embedding, frame), s.nextId, permissions, 0,
                         Delegating(s.table, origin, permissions), frame in delegates, script)
  {
    AddedIsReady(s, permissions, frame, origin, embedding);
    var added := AddRequest(s, permissions, origin, embedding, frame);
    var todo := Delegating(s.table, origin, permissions);
    DelegationKeepsConsistent(added, s.nextId, permissions, 0, todo, frame in delegates, script);
    DelegationKeepsLive(added, s.nextId, permissions, 0, todo, frame in delegates, script);
  }

  /** Which of the two ways out of a request's loop is taken decides where its callback stands. */
  lemma FinishOutcome(s: State, id: int)
    requires Partitioned(s) && Live(s, id) && 0 < id < s.nextId
    ensures var (t, r) := Finish(s, id);
      && (r == id <==> id in t.table)
      && (r == NO_PENDING_OPERATION <==> id in t.answered)
      && id !in t.dropped && t.nextId == s.nextId
  {
  }

  /**
   Whatever the delegate answers and when, a request of distinct permissions ends in exactly one of
   two ways: still pending under the number returned, or answered already and none returned.
   */
  lemma RequestOutcome(s: State, permissions: seq<PermissionType>, frame: int, origin: Gurl, embedding: Gurl,
                       delegates: set<int>, script: seq<seq<Reply>>)
    requires AtRest(s) && Distinct(permissions)
    ensures var (t, id) := RequestPermissions(s, permissions, frame, origin, embedding, delegates, script);
      && AtRest(t)
      && (permissions == [] ==> id == NO_PENDING_OPERATION && t == s.(emptyRuns := s.emptyRuns + 1))
      && (permissions != [] ==>
          && t.nextId == s.nextId + 1
          && (id == s.nextId <==> s.nextId in t.table)
          && (id == NO_PENDING_OPERATION <==> s.nextId in t.answered)
          && s.nextId !in t.dropped)
  {
    if permissions != [] {
      DelegationLoopEnds(s, permissions, frame, origin, embedding, delegates, script);
      var after := AfterDelegation(s, permissions, frame, origin, embedding, delegates, script);
      FinishRestoresRest(after, s.nextId);
      FinishOutcome(after, s.nextId);
    } else {
      EmptyRequestKeepsRest(s);
    }
  }

  lemma EmptyRequestKeepsRest(s: State)
    requires AtRest(s)
    ensures AtRest(s.(emptyRuns := s.emptyRuns + 1))
  {
  }

  // ----- Callbacks -----

  /** Entry `k` of the results is the last verdict on the key it stands for. */
  ghost predicate Aligned(r: Request, results: seq<Status>, verdicts: map<Key, Status>) {
    && |results| == |r.permissions|
    && forall i | 0 <= i < |results| ::
         && Key(r.requestingOrigin, r.permissions[i]) in verdicts
         && results[i] == verdicts[Key(r.requestingOrigin, r.permissions[i])]
  }

  lemma CompleteIsAligned(r: Request, id: int, table: Table, verdicts: map<Key, Status>)
    requires FollowsVerdicts(table, verdicts) && id in table && table[id] == r && r.Complete()
    ensures Aligned(r, r.Results(), verdicts)
  {
    forall i | 0 <= i < |r.permissions|
      ensures Key(r.requestingOrigin, r.permissions[i]) in verdicts
           && r.Results()[i] == verdicts[Key(r.requestingOrigin, r.permissions[i])]
    {
      assert r.permissions[i] in table[id].decided;
    }
  }

  lemma TouchFollowsVerdicts(s: State, call: Call, allowed: bool)
    requires WellFormed(s.table) && FollowsVerdicts(s.table, s.verdicts) && CallsAreOwned(s.table, s.calls) && call in s.calls
    ensures var t := OnResponse(s, call, allowed);
      FollowsVerdicts(Touch(s.table, call.origin, call.permission, StatusOf(allowed)), t.verdicts)
  {
  }

  /**
   The callbacks an answer runs: of requests that were pending, not cancelled and never answered
   before, each with the verdicts on its own permissions, in order.
   */
  lemma ResponseRunsAlignedCallbacks(s: State, call: Call, allowed: bool, id: int, rest: set<PermissionType>)
    requires Consistent(s, id, rest) && call in s.calls
    ensures var t := OnResponse(s, call, allowed);
      && (forall k | k in s.answered :: k in t.answered && t.answered[k] == s.answered[k])
      && (forall k | k in t.answered && k !in s.answered ::
            k in s.table && !s.table[k].cancelled && Aligned(s.table[k], t.answered[k], t.verdicts))
      && t.verdicts[Key(call.origin, call.permission)] == StatusOf(allowed)
  {
    var t := OnResponse(s, call, allowed);
    TouchFollowsVerdicts(s, call, allowed);
    var touched := Touch(s.table, call.origin, call.permission, StatusOf(allowed));
    forall k | k in t.answered && k !in s.answered
      ensures k in s.table && !s.table[k].cancelled && Aligned(s.table[k], t.answered[k], t.verdicts)
    {
      CompleteIsAligned(touched[k], k, touched, t.verdicts);
    }
  }

  lemma FinishRunsAlignedCallback(s: State, id: int)
    requires Consistent(s, id, {})
    ensures var (t, r) := Finish(s, id);
      && (forall k | k in s.answered :: k in t.answered && t.answered[k] == s.answered[k])
      && (forall k | k in t.answered && k !in s.answered ::
            k == id && k in s.table && Aligned(s.table[k], t.answered[k], t.verdicts))
  {
  }

  /** Callbacks already run stay as they were, and a cancelled request never gets one. */
  ghost predicate Grows(s: State, t: State) {
    && s.nextId <= t.nextId
    && (forall k | k in s.answered :: k in t.answered && t.answered[k] == s.answered[k])
    && (forall k | k in s.dropped :: k in t.dropped)
    && (forall k | k in s.table && s.table[k].cancelled :: k in t.dropped || (k in t.table && t.table[k].cancelled))
  }

  lemma {:induction false} DeliverGrows(s: State, replies: seq<Reply>, id: int, rest: set<PermissionType>)
    requires Consistent(s, id, rest)
    ensures Grows(s, Deliver(s, replies))
    decreases |replies|
  {
    if replies != [] {
      var first := replies[0];
      if first.call in s.calls {
        var next := OnResponse(s, first.call, first.allowed);
        assert Grows(s, next);
        ResponseKeepsConsistent(s, first.call, first.allowed, id, rest);
        DeliverGrows(next, replies[1..], id, rest);
      } else {
        DeliverGrows(s, replies[1..], id, rest);
      }
    }
  }

  lemma {:induction false} DelegationGrows(s: State, id: int, permissions: seq<PermissionType>, i: nat,
                                           todo: set<PermissionType>, hasDelegate: bool, script: seq<seq<Reply>>)
    requires i <= |permissions| && Distinct(permissions)
    requires Consistent(s, id, Rest(permissions, i, todo))
    ensures Grows(s, DelegateFrom(s, id, permissions, i, todo, hasDelegate, script))
    decreases |permissions| - i
  {
    if i < |permissions| {
      RestShrinks(permissions, i, todo);
      if permissions[i] in todo {
        var next := DelegateOne(s, id, permissions[i], hasDelegate, RepliesAt(script, i));
        var rest := Rest(permissions, i, todo);
        if hasDelegate && permissions[i].IsDelegated() {
          AskKeepsConsistent(s, id, rest, permissions[i]);
          DeliverGrows(Ask(s, id, permissions[i]), RepliesAt(script, i), id, rest - {permissions[i]});
        }
        DelegateOneKeepsConsistent(s, id, rest, permissions[i], hasDelegate, RepliesAt(script, i));
        DelegationGrows(next, id, permissions, i + 1, todo, hasDelegate, script);
      } else {
        DelegationGrows(s, id, permissions, i + 1, todo, hasDelegate, script);
      }
    }
  }

  lemma GrowsOnward(s: State, t: State, u: State)
    requires Grows(s, t) && Grows(t, u)
    ensures Grows(s, u)
  {
  }

  lemma FinishGrows(s: State, id: int)
    requires Partitioned(s) && Live(s, id)
    ensures Grows(s, Finish(s, id).0)
  {
  }

  lemma RequestGrows(s: State, permissions: seq<PermissionType>, frame: int, origin: Gurl, embedding: Gurl,
                     delegates: set<int>, script: seq<seq<Reply>>)
    requires AtRest(s) && Distinct(permissions)
    ensures Grows(s, RequestPermissions(s, permissions, frame, origin, embedding, delegates, script).0)
  {
    if permissions != [] {
      var added := AddRequest(s, permissions, origin, embedding, frame);
      var after := AfterDelegation(s, permissions, frame, origin, embedding, delegates, script);
      AddedIsReady(s, permissions, frame, origin, embedding);
      DelegationGrows(added, s.nextId, permissions, 0, Delegating(s.table, origin, permissions), frame in delegates, script);
      DelegationLoopEnds(s, permissions, frame, origin, embedding, delegates, script);
      FinishGrows(after, s.nextId);
      GrowsOnward(s, added, after);
      GrowsOnward(s, after, Finish(after, s.nextId).0);
    }
  }

  lemma CancelGrows(s: State, id: int, delegates: set<int>)
    requires AtRest(s)
    ensures var t := CancelPermissionRequest(s, id, delegates);
      Grows(s, t) && t.answered == s.answered
  {
    if id in s.table && !s.table[id].cancelled {
      CancelTouchesOne(s, id, delegates);
    }
  }

  /** A cancellation leaves the other requests alone and runs no callback. */
  lemma CancelTouchesOne(s: State, id: int, delegates: set<int>)
    requires id in s.table && !s.table[id].cancelled
    ensures var t := CancelPermissionRequest(s, id, delegates);
      && t.answered == s.answered && t.nextId == s.nextId && s.dropped <= t.dropped
      && forall k | k in s.table && k != id :: k in t.table && t.table[k] == s.table[k]
  {
    CancelFromFrame(MarkCancelled(s, id), id, s.table[id].permissions, 0, s.table[id].frame in delegates);
  }

  lemma CancelMarks(s: State, id: int, delegates: set<int>)
    requires id in s.table
    ensures var t := CancelPermissionRequest(s, id, delegates);
      id in t.dropped || (id in t.table && t.table[id].cancelled)
  {
    if !s.table[id].cancelled {
      var marked := MarkCancelled(s, id);
      CancelFromFrame(marked, id, s.table[id].permissions, 0, s.table[id].frame in delegates);
    }
  }

  // ----- Runs -----

  datatype Step =
    | Submit(permissions: seq<PermissionType>, frame: int, origin: Gurl, embedding: Gurl,
             delegates: set<int>, script: seq<seq<Reply>>)
    | Answer(reply: Reply)
    | Cancel(id: int, frames: set<int>)
    | Reset(permission: PermissionType, requesting: Gurl, embedder: Gurl)

  /** What callers and the embedder owe: distinct permissions, and a delegate that outlives its calls. */
  ghost predicate Legal(s: State, step: Step) {
    match step
    case Submit(permissions, _, _, _, _, _) => Distinct(permissions)
    case Answer(_) => true
    case Cancel(id, frames) => CancelIsSafe(s, id, frames)
    case Reset(_, _, _) => true
  }

  ghost function Next(s: State, step: Step): State {
    match step
    case Submit(permissions, frame, origin, embedding, delegates, script) =>
      RequestPermissions(s, permissions, frame, origin, embedding, delegates, script).0
    case Answer(reply) => Deliver(s, [reply])
    case Cancel(id, frames) => CancelPermissionRequest(s, id, frames)
    case Reset(permission, requesting, embedder) => ResetPermission(s, permission, requesting, embedder)
  }

  ghost predicate LegalRun(s: State, steps: seq<Step>)
    decreases |steps|
  {
    steps == [] || (Legal(s, steps[0]) && LegalRun(Next(s, steps[0]), steps[1..]))
  }

  ghost function Run(s: State, steps: seq<Step>): State
    decreases |steps|
  {
    if steps == [] then s else Run(Next(s, steps[0]), steps[1..])
  }

  lemma RunStep(s: State, step: Step, rest: seq<Step>)
    ensures LegalRun(s, [step] + rest) <==> Legal(s, step) && LegalRun(Next(s, step), rest)
    ensures Run(s, [step] + rest) == Run(Next(s, step), rest)
  {
    assert ([step] + rest)[1..] == rest;
  }

  lemma StepKeepsRest(s: State, step: Step)
    requires AtRest(s) && Legal(s, step)
    ensures AtRest(Next(s, step)) && Grows(s, Next(s, step))
  {
    match step
    case Submit(permissions, frame, origin, embedding, delegates, script) =>
      RequestOutcome(s, permissions, frame, origin, embedding, delegates, script);
      RequestGrows(s, permissions, frame, origin, embedding, delegates, script);
    case Answer(reply) =>
      DeliverKeepsConsistent(s, [reply], 0, {});
      DeliverGrows(s, [reply], 0, {});
    case Cancel(id, frames) =>
      CancelKeepsRestIffSafe(s, id, frames);
      CancelGrows(s, id, frames);
    case Reset(permission, requesting, embedder) =>
      assert AtRest(Next(s, step)) by {
        assert WaitersAreServed(Next(s, step).table, Next(s, step).calls, 0, {});
      }
  }

  lemma {:induction false} RunsStayAtRest(s: State, steps: seq<Step>)
    requires AtRest(s) && LegalRun(s, steps)
    ensures AtRest(Run(s, steps)) && Grows(s, Run(s, steps))
    decreases |steps|
  {
    if steps != [] {
      StepKeepsRest(s, steps[0]);
      RunsStayAtRest(Next(s, steps[0]), steps[1..]);
    }
  }

  ghost predicate Reachable(s: State) {
    exists steps :: LegalRun(INITIAL, steps) && s == Run(INITIAL, steps)
  }

  lemma ReachableIsAtRest(s: State)
    requires Reachable(s)
    ensures AtRest(s)
  {
    var steps :| LegalRun(INITIAL, steps) && s == Run(INITIAL, steps);
    assert AtRest(INITIAL);
    RunsStayAtRest(INITIAL, steps);
  }

  /** An answer always finds the request it is for, still waiting: the lookup cannot fail. */
  lemma EveryAnswerFindsItsRequest(s: State, call: Call)
    requires Reachable(s) && call in s.calls
    ensures call.id in s.table && s.table[call.id].Waits(call.permission)
    ensures s.table[call.id].requestingOrigin == call.origin
  {
    ReachableIsAtRest(s);
  }

  /** Whoever waits, waits for one outstanding call, and it was made for a request on the same key. */
  lemma NoWaiterIsStranded(s: State, id: int, permission: PermissionType)
    requires Reachable(s) && id in s.table && s.table[id].Waits(permission)
    ensures exists call :: && call in s.calls
                           && call.origin == s.table[id].requestingOrigin && call.permission == permission
                           && (forall other | other in s.calls && other.origin == call.origin
                                           && other.permission == permission :: other == call)
  {
    ReachableIsAtRest(s);
    assert HasCall(s.calls, s.table[id].requestingOrigin, permission);
    var call :| call in s.calls && call.origin == s.table[id].requestingOrigin && call.permission == permission;
    assert forall other | other in s.calls && other.origin == call.origin && other.permission == permission :: other == call;
  }

  /** Pending requests on one key are all undecided on it, or all decided alike. */
  lemma SameKeySameDecision(s: State, j: int, k: int, permission: PermissionType)
    requires Reachable(s) && j in s.table && k in s.table
    requires s.table[j].requestingOrigin == s.table[k].requestingOrigin
    requires permission in s.table[j].permissions && permission in s.table[k].permissions
    ensures s.table[j].Waits(permission) <==> s.table[k].Waits(permission)
    ensures !s.table[j].Waits(permission) ==> s.table[j].decided[permission] == s.table[k].decided[permission]
  {
    ReachableIsAtRest(s);
    assert s.table[j].Waits(permission) ==> s.table[k].Waits(permission);
    assert s.table[k].Waits(permission) ==> s.table[j].Waits(permission);
  }

  /** Every request issued is pending, answered or dropped, and nothing else is. */
  lemma IssuedRequestsAreAccountedFor(s: State)
    requires Reachable(s)
    ensures Issued(s.nextId) == s.table.Keys + s.answered.Keys + s.dropped
    ensures |s.table| + |s.answered| + |s.dropped| == s.nextId - 1
    ensures forall k | k in s.table :: !s.table[k].Complete()
  {
    ReachableIsAtRest(s);
    PartsAreIssued(s);
    SizesAdd(s.table.Keys, s.answered.Keys, s.dropped);
    assert |s.table| == |s.table.Keys| && |s.answered| == |s.answered.Keys|;
  }

  lemma PartsAreIssued(s: State)
    requires Partitioned(s)
    ensures Issued(s.nextId) == s.table.Keys + s.answered.Keys + s.dropped
    ensures s.table.Keys !! s.answered.Keys && (s.table.Keys + s.answered.Keys) !! s.dropped
  {
  }

  lemma SizesAdd(a: set<int>, b: set<int>, c: set<int>)
    requires a !! b && (a + b) !! c
    ensures |a| + |b| + |c| == |a + b + c|
  {
  }

  /** The request numbers handed out before `next`. */
  function Issued(next: int): (ids: set<int>)
    ensures forall k :: k in ids <==> 0 < k < next
    ensures next > 0 ==> |ids| == next - 1
    decreases next
  {
    if next <= 1 then {} else Issued(next - 1) + {next - 1}
  }

  /** Once cancelled, a request's callback never runs, however the run goes on. */
  lemma CancelledIsNeverAnswered(s: State, id: int, frames: set<int>, steps: seq<Step>)
    requires Reachable(s) && id in s.table && CancelIsSafe(s, id, frames)
    requires LegalRun(CancelPermissionRequest(s, id, frames), steps)
    ensures id !in Run(CancelPermissionRequest(s, id, frames), steps).answered
  {
    ReachableIsAtRest(s);
    var t := CancelPermissionRequest(s, id, frames);
    CancelKeepsRestIffSafe(s, id, frames);
    CancelGrows(s, id, frames);
    CancelMarks(s, id, frames);
    RunsStayAtRest(t, steps);
  }

  /** A callback that has run is never run again, nor its results changed, however the run goes on. */
  lemma AnsweredIsFinal(s: State, id: int, steps: seq<Step>)
    requires Reachable(s) && id in s.answered && LegalRun(s, steps)
    ensures var t := Run(s, steps);
      id in t.answered && t.answered[id] == s.answered[id] && id !in t.table && id !in t.dropped
  {
    ReachableIsAtRest(s);
    RunsStayAtRest(s, steps);
  }

  // ----- Cancelling everything -----

  /** No two pending requests wait for the same key. */
  ghost predicate NobodyShares(table: Table) {
    forall j, k, p {:trigger table[j].Waits(p), table[k].Waits(p)}
      | j in table && k in table && j != k && table[j].Waits(p) && table[k].Waits(p) ::
      table[j].requestingOrigin != table[k].requestingOrigin
  }

  lemma UnsharedWaitIsLone(table: Table, table': Table, id: int, permission: PermissionType)
    requires NobodyShares(table) && id in table && table'.Keys == table.Keys
    requires forall k | k in table && k != id :: table'[k] == table[k]
    ensures table[id].Waits(permission) ==> !OtherWaits(table', id, table[id].requestingOrigin, permission)
  {
    assert forall k | k in table && k != id :: table'[k].Waits(permission) == table[k].Waits(permission);
  }

  lemma UnsharedIsAllDecided(s: State, id: int, hasDelegate: bool)
    requires NobodyShares(s.table) && id in s.table
    ensures var t := CancelFrom(MarkCancelled(s, id), id, s.table[id].permissions, 0, hasDelegate);
      t.table.Keys == s.table.Keys && t.table[id].Complete() && (forall k | k in s.table && k != id :: t.table[k] == s.table[k])
  {
    var r, marked := s.table[id], MarkCancelled(s, id);
    assert marked.table.Keys == s.table.Keys;
    CancelFromFrame(marked, id, r.permissions, 0, hasDelegate);
    var after := CancelFrom(marked, id, r.permissions, 0, hasDelegate);
    forall q | q in r.permissions ensures q in after.table[id].decided {
      var j :| 0 <= j < |r.permissions| && r.permissions[j] == q;
      UnsharedWaitIsLone(s.table, after.table, id, q);
    }
  }

  lemma UnsharedIsRemoved(s: State, id: int, delegates: set<int>)
    requires NoneComplete(s.table, 0) && CancelledAreShared(s.table, 0) && id != 0
    requires NobodyShares(s.table) && id in s.table
    ensures CancelPermissionRequest(s, id, delegates).table == s.table - {id}
  {
    var r := s.table[id];
    var p :| p in r.permissions && p !in r.decided;
    assert s.table[id].Waits(p);
    assert !r.cancelled;
    UnsharedIsAllDecided(s, id, r.frame in delegates);
    var t := CancelPermissionRequest(s, id, delegates);
    assert t.table.Keys == s.table.Keys - {id};
    assert forall k | k in t.table :: t.table[k] == s.table[k];
  }

  lemma SharersStay(s: State, id: int, delegates: set<int>, j: int, k: int, permission: PermissionType)
    requires j in s.table && k in s.table && j != k && s.table[j].requestingOrigin == s.table[k].requestingOrigin
    requires s.table[j].Waits(permission) && s.table[k].Waits(permission)
    ensures var t := CancelPermissionRequest(s, id, delegates);
      && j in t.table && k in t.table && t.table[j].requestingOrigin == t.table[k].requestingOrigin
      && t.table[j].Waits(permission) && t.table[k].Waits(permission)
  {
    if id in s.table && !s.table[id].cancelled {
      var marked := MarkCancelled(s, id);
      var permissions, hasDelegate := s.table[id].permissions, s.table[id].frame in delegates;
      CancelFromFrame(marked, id, permissions, 0, hasDelegate);
      if id == j {
        assert marked.table[k].Waits(permission);
        SharedStaysUndecided(marked, j, k, permissions, 0, hasDelegate, permission);
      } else if id == k {
        assert marked.table[j].Waits(permission);
        SharedStaysUndecided(marked, k, j, permissions, 0, hasDelegate, permission);
      }
    }
  }

  lemma {:induction false} SharedStaysUndecided(s: State, id: int, other: int, permissions: seq<PermissionType>, i: nat,
                                                hasDelegate: bool, permission: PermissionType)
    requires i <= |permissions| && id in s.table && other in s.table && other != id
    requires s.table[id].requestingOrigin == s.table[other].requestingOrigin
    requires s.table[id].Waits(permission) && s.table[other].Waits(permission)
    ensures CancelFrom(s, id, permissions, i, hasDelegate).table[id].Waits(permission)
    decreases |permissions| - i
  {
    if i < |permissions| {
      assert OtherWaits(s.table, id, s.table[id].requestingOrigin, permission);
      SharedStaysUndecided(CancelOne(s, id, permissions[i], hasDelegate), id, other, permissions, i + 1, hasDelegate, permission);
    }
  }

  lemma {:induction false} SharersOutliveCancelling(s: State, ids: seq<int>, delegates: set<int>, j: int, k: int, permission: PermissionType)
    requires j in s.table && k in s.table && j != k && s.table[j].requestingOrigin == s.table[k].requestingOrigin
    requires s.table[j].Waits(permission) && s.table[k].Waits(permission)
    ensures j in CancelEach(s, ids, delegates).table
    decreases |ids|
  {
    if ids != [] {
      SharersStay(s, ids[0], delegates, j, k, permission);
      SharersOutliveCancelling(CancelPermissionRequest(s, ids[0], delegates), ids[1..], delegates, j, k, permission);
    }
  }

  lemma UnsharedStaysUnshared(table: Table, table': Table, id: int)
    requires NobodyShares(table) && NoneComplete(table, 0) && CancelledAreShared(table, 0) && 0 !in table && table' == table - {id}
    ensures NobodyShares(table') && NoneComplete(table', 0) && CancelledAreShared(table', 0)
  {
    assert forall k | k in table' :: table'[k] == table[k];
  }

  lemma {:induction false} UnsharedAreAllRemoved(s: State, ids: seq<int>, delegates: set<int>)
    requires NoneComplete(s.table, 0) && CancelledAreShared(s.table, 0) && NobodyShares(s.table) && 0 !in s.table
    requires forall k | k in s.table :: k in ids
    ensures CancelEach(s, ids, delegates).table == map[]
    decreases |ids|
  {
    if ids == [] {
      assert forall k :: k !in s.table;
    } else {
      var t := CancelPermissionRequest(s, ids[0], delegates);
      if ids[0] in s.table {
        UnsharedIsRemoved(s, ids[0], delegates);
        UnsharedStaysUnshared(s.table, t.table, ids[0]);
      }
      assert ids == [ids[0]] + ids[1..];
      UnsharedAreAllRemoved(t, ids[1..], delegates);
    }
  }

  /**
   Cancelling every pending request, in whatever order and whether their delegates are still there
   or not, empties the table exactly when no two of them wait for the same key; the check the
   destructor makes does not hold in general.
   */
  lemma CancellingAllEmptiesIff(s: State, ids: seq<int>, delegates: set<int>)
    requires Reachable(s)
    requires forall k | k in s.table :: k in ids
    ensures CancelEach(s, ids, delegates).table == map[] <==> NobodyShares(s.table)
  {
    ReachableIsAtRest(s);
    if NobodyShares(s.table) {
      UnsharedAreAllRemoved(s, ids, delegates);
    } else {
      var j, k, p :| j in s.table && k in s.table && j != k && s.table[j].Waits(p) && s.table[k].Waits(p)
                  && s.table[j].requestingOrigin == s.table[k].requestingOrigin;
      SharersOutliveCancelling(s, ids, delegates, j, k, p);
    }
  }

  /** What a first request for one delegated permission leaves, when the delegate does not answer at once. */
  lemma AskedAlone(origin: Gurl, embedding: Gurl, frame: int)
    ensures var s := RequestPermissions(INITIAL, [GEOLOCATION], frame, origin, embedding, {frame}, []).0;
      && s.nextId == 2
      && s.calls == {Call(1, frame, origin, GEOLOCATION)}
      && s.table == map[1 := Request([GEOLOCATION], origin, embedding, frame, map[], false)]
  {
    var added := AddRequest(INITIAL, [GEOLOCATION], origin, embedding, frame);
    var asked := DelegateOne(added, 1, GEOLOCATION, true, []);
    assert Inherited(INITIAL.table, origin, [GEOLOCATION]) == map[];
    assert GEOLOCATION in Delegating(INITIAL.table, origin, [GEOLOCATION]);
    assert DelegateFrom(asked, 1, [GEOLOCATION], 1, Delegating(INITIAL.table, origin, [GEOLOCATION]), true, []) == asked;
    var r := asked.table[1];
    assert GEOLOCATION in r.permissions && !r.Complete();
  }

  /** A second request on the same key asks nobody and waits too. */
  lemma AskedTogether(s: State, r: Request)
    requires s.nextId == 2 && s.table == map[1 := r] && r.permissions == [GEOLOCATION] && r.decided == map[]
    ensures var t := RequestPermissions(s, [GEOLOCATION], r.frame, r.requestingOrigin, r.embeddingOrigin, {r.frame}, []).0;
      t.table == map[1 := r, 2 := Request([GEOLOCATION], r.requestingOrigin, r.embeddingOrigin, r.frame, map[], false)]
  {
    var todo := Delegating(s.table, r.requestingOrigin, [GEOLOCATION]);
    assert s.table[1].Shares(r.requestingOrigin, GEOLOCATION);
    assert Inherited(s.table, r.requestingOrigin, [GEOLOCATION]) == map[];
    assert GEOLOCATION !in todo;
    var added := AddRequest(s, [GEOLOCATION], r.requestingOrigin, r.embeddingOrigin, r.frame);
    assert DelegateFrom(added, 2, [GEOLOCATION], 1, todo, true, []) == added;
    var r2 := added.table[2];
    assert GEOLOCATION in r2.permissions && !r2.Complete();
  }

  /** Two requests of one origin for the same permission, and the table cannot be emptied by cancelling both. */
  lemma TwoSharersSurviveCancelling(origin: Gurl, embedding: Gurl, frame: int)
    ensures var ask := Submit([GEOLOCATION], frame, origin, embedding, {frame}, []);
      && LegalRun(INITIAL, [ask, ask])
      && Run(INITIAL, [ask, ask]).table.Keys == {1, 2}
      && CancelEach(Run(INITIAL, [ask, ask]), [1, 2], {frame}).table != map[]
  {
    var ask := Submit([GEOLOCATION], frame, origin, embedding, {frame}, []);
    var s := Next(INITIAL, ask);
    AskedAlone(origin, embedding, frame);
    AskedTogether(s, s.table[1]);
    var t := Next(s, ask);
    assert [ask, ask] == [ask] + [ask] && [ask] == [ask] + [];
    RunStep(INITIAL, ask, [ask]);
    RunStep(s, ask, []);
    assert t.table[1].Waits(GEOLOCATION) && t.table[2].Waits(GEOLOCATION);
    CancellingAllEmptiesIff(t, [1, 2], {frame});
  }

  /** Asked, then cancelled when the frame's delegate is gone: the request leaves, and its call stays behind. */
  lemma CancelWithoutDelegateOrphans(origin: Gurl, embedding: Gurl, frame: int)
    ensures var s := Next(INITIAL, Submit([GEOLOCATION], frame, origin, embedding, {frame}, []));
      var t := CancelPermissionRequest(s, 1, {});
      && Reachable(s) && !CancelIsSafe(s, 1, {})
      && t.table == map[] && t.calls == {Call(1, frame, origin, GEOLOCATION)}
  {
    var ask := Submit([GEOLOCATION], frame, origin, embedding, {frame}, []);
    var s := Next(INITIAL, ask);
    AskedAlone(origin, embedding, frame);
    assert [ask] == [ask] + [];
    RunStep(INITIAL, ask, []);
    ReachableIsAtRest(s);
    assert s.table[1].Waits(GEOLOCATION) && NobodyShares(s.table);
    UnsharedIsRemoved(s, 1, {});
    assert !OtherWaits(s.table, 1, origin, GEOLOCATION);
    CancelWithoutDelegateKeepsCalls(MarkCancelled(s, 1), 1, [GEOLOCATION], 0);
  }
}
