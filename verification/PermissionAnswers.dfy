/**
 Every callback of every run gets the decisions on its own permissions, in their order: also when
 the delegate answers inside the delegation loop of another request.
 */
module PermissionAnswers {
  import opened PermissionTypes
  import opened PermissionModel
  import opened PermissionInvariant
  import opened PermissionRuns

  /** The requests of a table are those of another, as far as callers see them. */
  ghost predicate SameRequests(base: Table, table: Table) {
    forall k | k in table ::
      && k in base
      && table[k].permissions == base[k].permissions
      && table[k].requestingOrigin == base[k].requestingOrigin
      && table[k].cancelled == base[k].cancelled
  }

  /** The callbacks run since `before` are of requests not cancelled, and got the decisions on their permissions. */
  ghost predicate Told(base: Table, before: map<int, seq<Status>>, t: State) {
    && (forall k | k in before :: k in t.answered && t.answered[k] == before[k])
    && (forall k | k in t.answered && k !in before ::
          k in base && !base[k].cancelled && Aligned(base[k], t.answered[k], t.verdicts))
  }

  /** Nobody will decide again, in this step, what this request was told. */
  ghost predicate IsClosed(r: Request, calls: set<Call>, origin: Gurl, rest: set<PermissionType>) {
    forall p | p in r.permissions :: !HasCall(calls, r.requestingOrigin, p) && !(r.requestingOrigin == origin && p in rest)
  }

  ghost predicate Closed(base: Table, before: map<int, seq<Status>>, t: State, origin: Gurl, rest: set<PermissionType>) {
    forall k | k in t.answered && k !in before && k in base :: IsClosed(base[k], t.calls, origin, rest)
  }

  ghost predicate Telling(base: Table, before: map<int, seq<Status>>, t: State, origin: Gurl, rest: set<PermissionType>) {
    SameRequests(base, t.table) && Told(base, before, t) && Closed(base, before, t, origin, rest)
  }

  /** The request in its delegation loop, while it has permissions left. */
  ghost predicate Delegates(t: State, id: int, origin: Gurl, rest: set<PermissionType>) {
    rest != {} ==> id in t.table && t.table[id].requestingOrigin == origin
  }

  /** A request an answer completes has nothing left that could be decided again. */
  lemma CompletedIsClosed(s: State, call: Call, allowed: bool, id: int, rest: set<PermissionType>, origin: Gurl, k: int)
    requires Consistent(s, id, rest) && call in s.calls && Delegates(s, id, origin, rest)
    requires k in s.table && k in OnResponse(s, call, allowed).answered
    ensures IsClosed(s.table[k], OnResponse(s, call, allowed).calls, origin, rest)
  {
    TouchedEntries(s.table, call.origin, call.permission, StatusOf(allowed));
    var t := OnResponse(s, call, allowed);
    var touched := Touch(s.table, call.origin, call.permission, StatusOf(allowed));
    assert forall p | p in s.table[k].permissions :: !touched[k].Waits(p);
    assert call.id == id ==> call.permission !in rest;
    assert s.table[call.id].Shares(call.origin, call.permission);
  }

  lemma ResponseKeepsSame(base: Table, s: State, call: Call, allowed: bool)
    requires SameRequests(base, s.table) && call.id in s.table
    ensures SameRequests(base, OnResponse(s, call, allowed).table)
  {
  }

  lemma ResponseKeepsTold(base: Table, before: map<int, seq<Status>>, s: State, call: Call, allowed: bool,
                          id: int, rest: set<PermissionType>, origin: Gurl)
    requires Consistent(s, id, rest) && call in s.calls && Telling(base, before, s, origin, rest)
    ensures Told(base, before, OnResponse(s, call, allowed))
  {
    var t := OnResponse(s, call, allowed);
    ResponseRunsAlignedCallbacks(s, call, allowed, id, rest);
    assert HasCall(s.calls, call.origin, call.permission);
    forall k | k in t.answered && k !in before
      ensures k in base && !base[k].cancelled && Aligned(base[k], t.answered[k], t.verdicts)
    {
      if k in s.answered {
        assert IsClosed(base[k], s.calls, origin, rest);
        ToldStaysTrue(base[k], s.answered[k], s.verdicts, t.verdicts, Key(call.origin, call.permission));
      } else {
        SameAligned(s.table[k], base[k], t.answered[k], t.verdicts);
      }
    }
  }

  lemma StaysClosed(r: Request, r': Request, calls: set<Call>, calls': set<Call>, origin: Gurl,
                    rest: set<PermissionType>, rest': set<PermissionType>)
    requires IsClosed(r, calls, origin, rest) && calls' <= calls && rest' <= rest
    requires r'.permissions == r.permissions && r'.requestingOrigin == r.requestingOrigin
    ensures IsClosed(r', calls', origin, rest')
  {
    forall p | p in r'.permissions ensures !HasCall(calls', r'.requestingOrigin, p) {
      assert !HasCall(calls, r.requestingOrigin, p);
    }
  }

  lemma ResponseKeepsClosed(base: Table, before: map<int, seq<Status>>, s: State, call: Call, allowed: bool,
                            id: int, rest: set<PermissionType>, origin: Gurl)
    requires Consistent(s, id, rest) && call in s.calls && Delegates(s, id, origin, rest)
    requires SameRequests(base, s.table) && Closed(base, before, s, origin, rest)
    ensures Closed(base, before, OnResponse(s, call, allowed), origin, rest)
  {
    var t := OnResponse(s, call, allowed);
    forall k | k in t.answered && k !in before && k in base ensures IsClosed(base[k], t.calls, origin, rest) {
      if k !in s.answered {
        CompletedIsClosed(s, call, allowed, id, rest, origin, k);
        StaysClosed(s.table[k], base[k], t.calls, t.calls, origin, rest, rest);
      } else {
        StaysClosed(base[k], base[k], s.calls, t.calls, origin, rest, rest);
      }
    }
  }

  lemma ResponseTells(base: Table, before: map<int, seq<Status>>, s: State, call: Call, allowed: bool,
                      id: int, rest: set<PermissionType>, origin: Gurl)
    requires Consistent(s, id, rest) && call in s.calls && Delegates(s, id, origin, rest)
    requires Telling(base, before, s, origin, rest)
    ensures Telling(base, before, OnResponse(s, call, allowed), origin, rest)
  {
    ResponseKeepsSame(base, s, call, allowed);
    ResponseKeepsTold(base, before, s, call, allowed, id, rest, origin);
    ResponseKeepsClosed(base, before, s, call, allowed, id, rest, origin);
  }

  /** A decision on another key leaves a callback's results the decisions on its permissions. */
  lemma ToldStaysTrue(r: Request, results: seq<Status>, verdicts: map<Key, Status>, verdicts': map<Key, Status>, key: Key)
    requires Aligned(r, results, verdicts) && !(r.requestingOrigin == key.origin && key.permission in r.permissions)
    requires forall k | k in verdicts && k != key :: k in verdicts' && verdicts'[k] == verdicts[k]
    ensures Aligned(r, results, verdicts')
  {
  }

  lemma SameAligned(r: Request, r': Request, results: seq<Status>, verdicts: map<Key, Status>)
    requires Aligned(r, results, verdicts) && r.permissions == r'.permissions && r.requestingOrigin == r'.requestingOrigin
    ensures Aligned(r', results, verdicts)
  {
  }

  lemma {:induction false} DeliverTells(base: Table, before: map<int, seq<Status>>, s: State, replies: seq<Reply>,
                                        id: int, rest: set<PermissionType>, origin: Gurl)
    requires Consistent(s, id, rest) && Delegates(s, id, origin, rest) && Telling(base, before, s, origin, rest)
    ensures Delegates(Deliver(s, replies), id, origin, rest) && Telling(base, before, Deliver(s, replies), origin, rest)
    decreases |replies|
  {
    if replies != [] {
      var first := replies[0];
      if first.call in s.calls {
        var next := OnResponse(s, first.call, first.allowed);
        ResponseKeepsConsistent(s, first.call, first.allowed, id, rest);
        ResponseTells(base, before, s, first.call, first.allowed, id, rest, origin);
        StillDelegates(base, s, next, id, rest, origin);
        DeliverTells(base, before, next, replies[1..], id, rest, origin);
      } else {
        DeliverTells(base, before, s, replies[1..], id, rest, origin);
      }
    }
  }

  lemma StillDelegates(base: Table, s: State, t: State, id: int, rest: set<PermissionType>, origin: Gurl)
    requires Delegates(s, id, origin, rest) && SameRequests(base, s.table) && SameRequests(base, t.table)
    requires RestIsPrivate(t.table, t.calls, id, rest)
    ensures Delegates(t, id, origin, rest)
  {
  }

  lemma AskTells(base: Table, before: map<int, seq<Status>>, s: State, id: int, permission: PermissionType,
                 rest: set<PermissionType>, origin: Gurl)
    requires permission in rest && Delegates(s, id, origin, rest) && Telling(base, before, s, origin, rest)
    ensures Telling(base, before, Ask(s, id, permission), origin, rest - {permission})
  {
    var t := Ask(s, id, permission);
    forall k | k in t.answered && k !in before && k in base
      ensures IsClosed(base[k], t.calls, origin, rest - {permission})
    {
      assert IsClosed(base[k], s.calls, origin, rest);
      forall p | p in base[k].permissions ensures !HasCall(t.calls, base[k].requestingOrigin, p) {
        assert !HasCall(s.calls, base[k].requestingOrigin, p);
      }
    }
  }

  lemma DecideTells(base: Table, before: map<int, seq<Status>>, s: State, id: int, permission: PermissionType, status: Status,
                    rest: set<PermissionType>, origin: Gurl)
    requires permission in rest && Delegates(s, id, origin, rest) && Telling(base, before, s, origin, rest)
    ensures Telling(base, before, DecideLocally(s, id, permission, status), origin, rest - {permission})
  {
    var t := DecideLocally(s, id, permission, status);
    forall k | k in t.answered && k !in before
      ensures Aligned(base[k], t.answered[k], t.verdicts) && IsClosed(base[k], t.calls, origin, rest - {permission})
    {
      assert IsClosed(base[k], s.calls, origin, rest);
      ToldStaysTrue(base[k], s.answered[k], s.verdicts, t.verdicts, Key(origin, permission));
      StaysClosed(base[k], base[k], s.calls, t.calls, origin, rest, rest - {permission});
    }
  }

  lemma DelegateOneTells(base: Table, before: map<int, seq<Status>>, s: State, id: int, permission: PermissionType,
                         hasDelegate: bool, replies: seq<Reply>, rest: set<PermissionType>, origin: Gurl)
    requires Consistent(s, id, rest) && permission in rest && Delegates(s, id, origin, rest) && Telling(base, before, s, origin, rest)
    ensures var t := DelegateOne(s, id, permission, hasDelegate, replies);
      Delegates(t, id, origin, rest - {permission}) && Telling(base, before, t, origin, rest - {permission})
  {
    if hasDelegate && permission.IsDelegated() {
      AskKeepsConsistent(s, id, rest, permission);
      AskTells(base, before, s, id, permission, rest, origin);
      DeliverTells(base, before, Ask(s, id, permission), replies, id, rest - {permission}, origin);
    } else {
      DecideTells(base, before, s, id, permission, DENIED, rest, origin);
      DecideTells(base, before, s, id, permission, GRANTED, rest, origin);
    }
  }

  lemma {:induction false} DelegationTells(base: Table, before: map<int, seq<Status>>, s: State, id: int, permissions: seq<PermissionType>, i: nat,
                                           todo: set<PermissionType>, hasDelegate: bool, script: seq<seq<Reply>>, origin: Gurl)
    requires i <= |permissions| && Distinct(permissions)
    requires var rest := Rest(permissions, i, todo);
      Consistent(s, id, rest) && Delegates(s, id, origin, rest) && Telling(base, before, s, origin, rest)
    ensures Telling(base, before, DelegateFrom(s, id, permissions, i, todo, hasDelegate, script), origin, {})
    decreases |permissions| - i
  {
    var rest := Rest(permissions, i, todo);
    if i == |permissions| {
      assert rest == {};
    } else {
      RestShrinks(permissions, i, todo);
      if permissions[i] in todo {
        var next := DelegateOne(s, id, permissions[i], hasDelegate, RepliesAt(script, i));
        DelegateOneKeepsConsistent(s, id, rest, permissions[i], hasDelegate, RepliesAt(script, i));
        DelegateOneTells(base, before, s, id, permissions[i], hasDelegate, RepliesAt(script, i), rest, origin);
        DelegationTells(base, before, next, id, permissions, i + 1, todo, hasDelegate, script, origin);
      } else {
        DelegationTells(base, before, s, id, permissions, i + 1, todo, hasDelegate, script, origin);
      }
    }
  }

  lemma FinishTells(base: Table, before: map<int, seq<Status>>, s: State, id: int, origin: Gurl)
    requires Consistent(s, id, {}) && Telling(base, before, s, origin, {}) && (id in s.table ==> !s.table[id].cancelled)
    ensures Told(base, before, Finish(s, id).0)
  {
    var t := Finish(s, id).0;
    FinishRunsAlignedCallback(s, id);
    forall k | k in t.answered && k !in before
      ensures k in base && !base[k].cancelled && Aligned(base[k], t.answered[k], t.verdicts)
    {
      if k !in s.answered {
        SameAligned(s.table[k], base[k], t.answered[k], t.verdicts);
      }
    }
  }

  // ----- Steps and runs -----

  /** The requests that may be told something in a step: those pending, and the one submitted. */
  ghost function Askers(s: State, step: Step): Table {
    if step.Submit? && step.permissions != []
    then AddRequest(s, step.permissions, step.origin, step.embedding, step.frame).table
    else s.table
  }

  lemma SubmitTells(s: State, step: Step)
    requires AtRest(s) && step.Submit? && Distinct(step.permissions)
    ensures Told(Askers(s, step), s.answered, Next(s, step))
  {
    if step.permissions != [] {
      var id, todo := s.nextId, Delegating(s.table, step.origin, step.permissions);
      var added := AddRequest(s, step.permissions, step.origin, step.embedding, step.frame);
      var after := AfterDelegation(s, step.permissions, step.frame, step.origin, step.embedding, step.delegates, step.script);
      AddedIsReady(s, step.permissions, step.frame, step.origin, step.embedding);
      assert Telling(added.table, s.answered, added, step.origin, Rest(step.permissions, 0, todo));
      DelegationTells(added.table, s.answered, added, id, step.permissions, 0, todo, step.frame in step.delegates, step.script, step.origin);
      DelegationLoopEnds(s, step.permissions, step.frame, step.origin, step.embedding, step.delegates, step.script);
      FinishTells(added.table, s.answered, after, id, step.origin);
    }
  }

  /** A step runs the callback of a request that was pending and not cancelled, or just submitted, with the decisions on its permissions. */
  ghost predicate AnsweredBy(s: State, step: Step, k: int) {
    var t := Next(s, step);
    && k !in s.answered && k in t.answered
    && ((k in s.table && !s.table[k].cancelled) || (step.Submit? && k == s.nextId))
    && k in Askers(s, step)
    && Aligned(Askers(s, step)[k], t.answered[k], t.verdicts)
  }

  /**
   Aligned answers, for every legal step from a state at rest, in particular from every reachable
   one: whatever is answered inside it, entry `i` of what a callback gets is the decision on the
   request's permission `i`, and callbacks run before are not run again.
   */
  lemma StepsAnswerAligned(s: State, step: Step)
    requires AtRest(s) && Legal(s, step)
    ensures forall k | k in s.answered :: k in Next(s, step).answered && Next(s, step).answered[k] == s.answered[k]
    ensures forall k | k in Next(s, step).answered && k !in s.answered :: AnsweredBy(s, step, k)
  {
    match step
    case Submit(_, _, _, _, _, _) => SubmitTells(s, step);
    case Answer(reply) =>
      assert Telling(s.table, s.answered, s, Gurl("", false), {});
      DeliverTells(s.table, s.answered, s, [reply], 0, {}, Gurl("", false));
    case Cancel(id, frames) => CancelGrows(s, id, frames);
    case Reset(_, _, _) =>
  }

  /** Over every run, each callback that has run was run by just one of the steps, in that way. */
  lemma {:induction false} RunsAnswerAligned(s: State, steps: seq<Step>, k: int) returns (i: nat)
    requires AtRest(s) && LegalRun(s, steps) && k in Run(s, steps).answered && k !in s.answered
    ensures i < |steps| && AnsweredBy(Run(s, steps[..i]), steps[i], k)
    ensures Run(s, steps).answered[k] == Next(Run(s, steps[..i]), steps[i]).answered[k]
    decreases |steps|
  {
    var next := Next(s, steps[0]);
    StepKeepsRest(s, steps[0]);
    StepsAnswerAligned(s, steps[0]);
    if k in next.answered {
      i := 0;
      assert steps[..0] == [];
      RunsStayAtRest(next, steps[1..]);
    } else {
      var j := RunsAnswerAligned(next, steps[1..], k);
      i := j + 1;
      assert steps[..i][0] == steps[0] && steps[..i][1..] == steps[1..][..j];
      assert Run(s, steps[..i]) == Run(next, steps[1..][..j]);
    }
  }
}
