/**
 The table invariant of the permission broker and its preservation by every operation.

 The parameters `id` and `rest` describe a request in the middle of its delegation loop: `rest`
 are the permissions it has not come to yet. Between operations there is none, written with
 `id == 0` and `rest == {}`.
 */
module PermissionInvariant {
  import opened PermissionTypes
  import opened ResultCache
  import opened PermissionModel

  // ----- The invariant, part by part -----

  ghost predicate WellFormed(table: Table) {
    forall k | k in table ::
      && table[k].permissions != []
      && Distinct(table[k].permissions)
      && forall p | p in table[k].decided :: p in table[k].permissions
  }

  /** Every request number ever given out is pending, answered or dropped, and only one of them. */
  ghost predicate Partitioned(s: State) {
    && (forall k :: 0 < k < s.nextId <==> k in s.table || k in s.answered || k in s.dropped)
    && (forall k | k in s.table :: k !in s.answered && k !in s.dropped)
    && (forall k | k in s.answered :: k !in s.dropped)
  }

  /** Decided permissions carry the last verdict on their key. */
  ghost predicate FollowsVerdicts(table: Table, verdicts: map<Key, Status>) {
    forall k, p | k in table && p in table[k].decided ::
      && Key(table[k].requestingOrigin, p) in verdicts
      && table[k].decided[p] == verdicts[Key(table[k].requestingOrigin, p)]
  }

  /** Requests on one key are decided together. */
  ghost predicate Together(table: Table) {
    forall j, k, p | j in table && k in table && table[j].requestingOrigin == table[k].requestingOrigin
                  && table[j].Waits(p) && p in table[k].permissions :: table[k].Waits(p)
  }

  /** Every outstanding call names a pending request that still waits for it. */
  ghost predicate CallsAreOwned(table: Table, calls: set<Call>) {
    forall call | call in calls ::
      && call.id in table
      && table[call.id].Waits(call.permission)
      && call.origin == table[call.id].requestingOrigin
      && call.frame == table[call.id].frame
      && call.permission.IsDelegated()
  }

  /** No two outstanding calls ask the same thing. */
  ghost predicate OneCallPerKey(calls: set<Call>) {
    forall c, d | c in calls && d in calls && c.origin == d.origin && c.permission == d.permission :: c == d
  }

  ghost predicate HasCall(calls: set<Call>, origin: Gurl, permission: PermissionType) {
    exists call :: call in calls && call.origin == origin && call.permission == permission
  }

  /** Whoever waits has been asked for, apart from the permissions still to be delegated. */
  ghost predicate WaitersAreServed(table: Table, calls: set<Call>, id: int, rest: set<PermissionType>) {
    forall k, p {:trigger table[k].Waits(p)} | k in table && table[k].Waits(p) && !(k == id && p in rest) ::
      HasCall(calls, table[k].requestingOrigin, p)
  }

  /** The permissions still to be delegated belong to a live request and to nobody else. */
  ghost predicate RestIsPrivate(table: Table, calls: set<Call>, id: int, rest: set<PermissionType>) {
    && (rest != {} ==> id in table)
    && (id in table ==>
        && (forall p | p in rest :: table[id].Waits(p))
        && (forall k, p | k in table && k != id && p in rest :: !table[k].Shares(table[id].requestingOrigin, p))
        && (forall call | call in calls && call.id == id :: call.permission !in rest))
  }

  ghost predicate NoneComplete(table: Table, id: int) {
    forall k | k in table && k != id :: !table[k].Complete()
  }

  /** A cancelled request stays only for permissions another request waits for too. */
  ghost predicate CancelledAreShared(table: Table, id: int) {
    forall k, p {:trigger table[k].Waits(p)} | k in table && k != id && table[k].cancelled && table[k].Waits(p) ::
      OtherWaits(table, k, table[k].requestingOrigin, p)
  }

  ghost predicate Consistent(s: State, id: int, rest: set<PermissionType>) {
    && WellFormed(s.table)
    && Partitioned(s)
    && FollowsVerdicts(s.table, s.verdicts)
    && Together(s.table)
    && CallsAreOwned(s.table, s.calls)
    && OneCallPerKey(s.calls)
    && WaitersAreServed(s.table, s.calls, id, rest)
    && RestIsPrivate(s.table, s.calls, id, rest)
    && NoneComplete(s.table, id)
    && CancelledAreShared(s.table, id)
  }

  ghost predicate AtRest(s: State) {
    s.nextId > 0 && Consistent(s, 0, {})
  }

  // ----- A delegate's answer -----

  lemma TouchedEntries(table: Table, origin: Gurl, permission: PermissionType, status: Status)
    ensures var t := Touch(table, origin, permission, status);
      && t.Keys == table.Keys
      && forall k | k in table ::
           && t[k].permissions == table[k].permissions
           && t[k].requestingOrigin == table[k].requestingOrigin
           && t[k].frame == table[k].frame
           && t[k].cancelled == table[k].cancelled
           && (forall p :: t[k].Waits(p) <==> table[k].Waits(p) && !(table[k].requestingOrigin == origin && p == permission))
  {
  }

  lemma ResponseKeepsTableParts(s: State, call: Call, allowed: bool, id: int, rest: set<PermissionType>)
    requires Consistent(s, id, rest) && call in s.calls
    ensures var t := OnResponse(s, call, allowed);
      WellFormed(t.table) && FollowsVerdicts(t.table, t.verdicts)
  {
    TouchedEntries(s.table, call.origin, call.permission, StatusOf(allowed));
  }

  lemma ResponseKeepsTogether(s: State, call: Call, allowed: bool, id: int, rest: set<PermissionType>)
    requires Consistent(s, id, rest) && call in s.calls
    ensures Together(OnResponse(s, call, allowed).table)
  {
    TouchedEntries(s.table, call.origin, call.permission, StatusOf(allowed));
  }

  lemma ResponseKeepsPartition(s: State, call: Call, allowed: bool, id: int, rest: set<PermissionType>)
    requires Consistent(s, id, rest) && call in s.calls
    ensures Partitioned(OnResponse(s, call, allowed))
  {
    TouchedEntries(s.table, call.origin, call.permission, StatusOf(allowed));
  }

  lemma ResponseKeepsCalls(s: State, call: Call, allowed: bool, id: int, rest: set<PermissionType>)
    requires Consistent(s, id, rest) && call in s.calls
    ensures var t := OnResponse(s, call, allowed);
      CallsAreOwned(t.table, t.calls) && OneCallPerKey(t.calls)
  {
    TouchedEntries(s.table, call.origin, call.permission, StatusOf(allowed));
    var t := OnResponse(s, call, allowed);
    forall c | c in t.calls
      ensures c.id in t.table && t.table[c.id].Waits(c.permission)
    {
      assert c in s.calls && c != call;
    }
  }

  lemma ResponseServesWaiters(s: State, call: Call, allowed: bool, id: int, rest: set<PermissionType>)
    requires Consistent(s, id, rest) && call in s.calls
    ensures var t := OnResponse(s, call, allowed);
      WaitersAreServed(t.table, t.calls, id, rest)
  {
    TouchedEntries(s.table, call.origin, call.permission, StatusOf(allowed));
    var t := OnResponse(s, call, allowed);
    forall k, p | k in t.table && t.table[k].Waits(p) && !(k == id && p in rest)
      ensures HasCall(t.calls, t.table[k].requestingOrigin, p)
    {
      assert s.table[k].Waits(p);
      assert HasCall(s.calls, s.table[k].requestingOrigin, p);
      var c :| c in s.calls && c.origin == s.table[k].requestingOrigin && c.permission == p;
      assert c != call;
      assert c in t.calls;
    }
  }

  lemma ResponseKeepsRest(s: State, call: Call, allowed: bool, id: int, rest: set<PermissionType>)
    requires Consistent(s, id, rest) && call in s.calls
    ensures var t := OnResponse(s, call, allowed);
      RestIsPrivate(t.table, t.calls, id, rest)
  {
    TouchedEntries(s.table, call.origin, call.permission, StatusOf(allowed));
    var t := OnResponse(s, call, allowed);
    if id in s.table && rest != {} {
      var p :| p in rest;
      assert call.id == id ==> call.permission !in rest;
      assert s.table[call.id].Shares(call.origin, call.permission);
      forall q | q in rest ensures Touch(s.table, call.origin, call.permission, StatusOf(allowed))[id].Waits(q) {
        assert s.table[id].Waits(q);
      }
      assert id in t.table;
    }
  }

  lemma ResponseLeavesNoneComplete(s: State, call: Call, allowed: bool, id: int, rest: set<PermissionType>)
    requires Consistent(s, id, rest) && call in s.calls
    ensures var t := OnResponse(s, call, allowed);
      NoneComplete(t.table, id)
  {
    TouchedEntries(s.table, call.origin, call.permission, StatusOf(allowed));
  }

  lemma ResponseKeepsCancelledShared(s: State, call: Call, allowed: bool, id: int, rest: set<PermissionType>)
    requires Consistent(s, id, rest) && call in s.calls
    ensures var t := OnResponse(s, call, allowed);
      CancelledAreShared(t.table, id)
  {
    TouchedEntries(s.table, call.origin, call.permission, StatusOf(allowed));
    var t := OnResponse(s, call, allowed);
    forall k, p | k in t.table && k != id && t.table[k].cancelled && t.table[k].Waits(p)
      ensures OtherWaits(t.table, k, t.table[k].requestingOrigin, p)
    {
      assert s.table[k].Waits(p);
      assert OtherWaits(s.table, k, s.table[k].requestingOrigin, p);
      var j :| j in s.table && j != k && s.table[j].requestingOrigin == s.table[k].requestingOrigin && s.table[j].Waits(p);
      var touched := Touch(s.table, call.origin, call.permission, StatusOf(allowed));
      assert touched[j].Waits(p);
      assert j in t.table;
    }
  }

  lemma ResponseKeepsConsistent(s: State, call: Call, allowed: bool, id: int, rest: set<PermissionType>)
    requires Consistent(s, id, rest) && call in s.calls
    ensures Consistent(OnResponse(s, call, allowed), id, rest)
    ensures OnResponse(s, call, allowed).nextId == s.nextId
  {
    ResponseKeepsTableParts(s, call, allowed, id, rest);
    ResponseKeepsTogether(s, call, allowed, id, rest);
    ResponseKeepsPartition(s, call, allowed, id, rest);
    ResponseKeepsCalls(s, call, allowed, id, rest);
    ResponseServesWaiters(s, call, allowed, id, rest);
    ResponseKeepsRest(s, call, allowed, id, rest);
    ResponseLeavesNoneComplete(s, call, allowed, id, rest);
    ResponseKeepsCancelledShared(s, call, allowed, id, rest);
  }

  lemma {:induction false} DeliverKeepsConsistent(s: State, replies: seq<Reply>, id: int, rest: set<PermissionType>)
    requires Consistent(s, id, rest)
    ensures Consistent(Deliver(s, replies), id, rest)
    ensures Deliver(s, replies).nextId == s.nextId
    decreases |replies|
  {
    if replies != [] {
      var first := replies[0];
      if first.call in s.calls {
        ResponseKeepsConsistent(s, first.call, first.allowed, id, rest);
        DeliverKeepsConsistent(OnResponse(s, first.call, first.allowed), replies[1..], id, rest);
      } else {
        DeliverKeepsConsistent(s, replies[1..], id, rest);
      }
    }
  }

  // ----- A new request -----

  /** The permissions at or after index `i` that the request has to delegate itself. */
  function Rest(permissions: seq<PermissionType>, i: nat, todo: set<PermissionType>): set<PermissionType>
    requires i <= |permissions|
  {
    set p | p in permissions[i..] && p in todo
  }

  lemma RestShrinks(permissions: seq<PermissionType>, i: nat, todo: set<PermissionType>)
    requires i < |permissions| && Distinct(permissions)
    ensures permissions[i] in todo ==>
              permissions[i] in Rest(permissions, i, todo)
              && Rest(permissions, i + 1, todo) == Rest(permissions, i, todo) - {permissions[i]}
    ensures permissions[i] !in todo ==> Rest(permissions, i + 1, todo) == Rest(permissions, i, todo)
  {
    assert permissions[i..] == [permissions[i]] + permissions[i + 1..];
    assert permissions[i] !in permissions[i + 1..];
  }

  /** All pending requests on a key agree, so the first one met in any iteration order will do. */
  lemma AnyMatchAgrees(s: State, k: int, origin: Gurl, permission: PermissionType)
    requires Together(s.table) && FollowsVerdicts(s.table, s.verdicts)
    requires k in s.table && s.table[k].Shares(origin, permission)
    ensures HasMatch(s.table, origin, permission)
    ensures var m := Match(s.table, origin, permission);
      && (permission in s.table[k].decided <==> permission in s.table[m].decided)
      && (permission in s.table[k].decided ==> s.table[k].decided[permission] == s.table[m].decided[permission])
  {
    var m := Match(s.table, origin, permission);
    assert s.table[m].Waits(permission) <==> s.table[k].Waits(permission);
  }

  lemma AddedRequest(s: State, permissions: seq<PermissionType>, origin: Gurl, embedding: Gurl, frame: int)
    requires AtRest(s) && Distinct(permissions) && permissions != []
    ensures var t := AddRequest(s, permissions, origin, embedding, frame);
      && WellFormed(t.table) && Partitioned(t) && FollowsVerdicts(t.table, t.verdicts) && Together(t.table)
  {
    var t := AddRequest(s, permissions, origin, embedding, frame);
    var id := s.nextId;
    assert id !in s.table;
    forall j, k, p | j in t.table && k in t.table && t.table[j].requestingOrigin == t.table[k].requestingOrigin
                  && t.table[j].Waits(p) && p in t.table[k].permissions
      ensures t.table[k].Waits(p)
    {
      if j == id && k != id {
        AnyMatchAgrees(s, k, origin, p);
      } else if j != id && k == id {
        AnyMatchAgrees(s, j, origin, p);
      }
    }
  }

  lemma AddKeepsConsistent(s: State, permissions: seq<PermissionType>, origin: Gurl, embedding: Gurl, frame: int)
    requires AtRest(s) && Distinct(permissions) && permissions != []
    ensures var t := AddRequest(s, permissions, origin, embedding, frame);
      Consistent(t, s.nextId, Delegating(s.table, origin, permissions))
  {
    AddedRequest(s, permissions, origin, embedding, frame);
    var t := AddRequest(s, permissions, origin, embedding, frame);
    var id, rest := s.nextId, Delegating(s.table, origin, permissions);
    assert id !in s.table;
    assert WaitersAreServed(t.table, t.calls, id, rest) by {
      forall k, p | k in t.table && t.table[k].Waits(p) && !(k == id && p in rest)
        ensures HasCall(t.calls, t.table[k].requestingOrigin, p)
      {
        if k == id {
          var m := Match(s.table, origin, p);
          assert s.table[m].Waits(p);
        } else {
          assert s.table[k].Waits(p);
        }
      }
    }
    assert RestIsPrivate(t.table, t.calls, id, rest) by {
      forall k, p | k in t.table && k != id && p in rest ensures !t.table[k].Shares(origin, p) {
        assert !HasMatch(s.table, origin, p);
      }
    }
    assert CancelledAreShared(t.table, id) by {
      forall k, p | k in t.table && k != id && t.table[k].cancelled && t.table[k].Waits(p)
        ensures OtherWaits(t.table, k, t.table[k].requestingOrigin, p)
      {
        OtherWaitsSurvivesUpdate(s.table, t.table, k, t.table[k].requestingOrigin, p);
      }
    }
  }

  lemma OtherWaitsSurvivesUpdate(table: Table, table': Table, k: int, origin: Gurl, permission: PermissionType)
    requires OtherWaits(table, k, origin, permission)
    requires forall j | j in table && table[j].requestingOrigin == origin && table[j].Waits(permission) ::
               j in table' && table'[j].requestingOrigin == origin && table'[j].Waits(permission)
    ensures OtherWaits(table', k, origin, permission)
  {
    var j :| j in table && j != k && table[j].requestingOrigin == origin && table[j].Waits(permission);
    assert j in table' && table'[j].Waits(permission);
  }

  lemma DecideKeepsTableParts(s: State, id: int, rest: set<PermissionType>, permission: PermissionType, status: Status)
    requires Consistent(s, id, rest) && permission in rest
    ensures var t := DecideLocally(s, id, permission, status);
      WellFormed(t.table) && Partitioned(t) && FollowsVerdicts(t.table, t.verdicts)
  {
  }

  lemma DecideKeepsTogether(s: State, id: int, rest: set<PermissionType>, permission: PermissionType, status: Status)
    requires Consistent(s, id, rest) && permission in rest
    ensures var t := DecideLocally(s, id, permission, status);
      Together(t.table)
  {
    DecidedAlone(s.table, id, permission, status);
  }

  /** Deciding a permission nobody else has keeps requests on one key together. */
  lemma DecidedAlone(table: Table, id: int, permission: PermissionType, status: Status)
    requires Together(table) && id in table
    requires forall k | k in table && k != id :: !table[k].Shares(table[id].requestingOrigin, permission)
    ensures Together(table[id := table[id].Decide(permission, status)])
  {
    var next := table[id := table[id].Decide(permission, status)];
    forall j, k, p | j in next && k in next && next[j].requestingOrigin == next[k].requestingOrigin
                  && next[j].Waits(p) && p in next[k].permissions
      ensures next[k].Waits(p)
    {
      assert table[j].Waits(p) && table[k].Waits(p);
    }
  }

  lemma DecideKeepsIncomplete(s: State, id: int, rest: set<PermissionType>, permission: PermissionType, status: Status)
    requires NoneComplete(s.table, id) && id in s.table
    ensures NoneComplete(DecideLocally(s, id, permission, status).table, id)
  {
  }

  lemma DecideKeepsCalls(s: State, id: int, rest: set<PermissionType>, permission: PermissionType, status: Status)
    requires Consistent(s, id, rest) && permission in rest
    ensures var t := DecideLocally(s, id, permission, status);
      && CallsAreOwned(t.table, t.calls) && OneCallPerKey(t.calls)
      && RestIsPrivate(t.table, t.calls, id, rest - {permission})
  {
  }

  lemma DecideServesWaiters(s: State, id: int, rest: set<PermissionType>, permission: PermissionType, status: Status)
    requires Consistent(s, id, rest) && permission in rest
    ensures var t := DecideLocally(s, id, permission, status);
      WaitersAreServed(t.table, t.calls, id, rest - {permission}) && CancelledAreShared(t.table, id)
  {
    var t := DecideLocally(s, id, permission, status);
    var origin := s.table[id].requestingOrigin;
    assert forall k | k in s.table && k != id :: t.table[k] == s.table[k] && !s.table[k].Shares(origin, permission);
    forall k, p | k in t.table && t.table[k].Waits(p) && !(k == id && p in rest - {permission})
      ensures HasCall(t.calls, t.table[k].requestingOrigin, p)
    {
      assert s.table[k].Waits(p) && !(k == id && p in rest);
    }
    forall k, p | k in t.table && k != id && t.table[k].cancelled && t.table[k].Waits(p)
      ensures OtherWaits(t.table, k, t.table[k].requestingOrigin, p)
    {
      OtherWaitsSurvivesUpdate(s.table, t.table, k, t.table[k].requestingOrigin, p);
    }
  }

  lemma DecideKeepsConsistent(s: State, id: int, rest: set<PermissionType>, permission: PermissionType, status: Status)
    requires Consistent(s, id, rest) && permission in rest
    ensures Consistent(DecideLocally(s, id, permission, status), id, rest - {permission})
  {
    DecideKeepsTableParts(s, id, rest, permission, status);
    DecideKeepsTogether(s, id, rest, permission, status);
    DecideKeepsIncomplete(s, id, rest, permission, status);
    DecideKeepsCalls(s, id, rest, permission, status);
    DecideServesWaiters(s, id, rest, permission, status);
  }

  lemma AskKeepsConsistent(s: State, id: int, rest: set<PermissionType>, permission: PermissionType)
    requires Consistent(s, id, rest) && permission in rest && permission.IsDelegated()
    ensures Consistent(Ask(s, id, permission), id, rest - {permission})
  {
    var t := Ask(s, id, permission);
    var origin := s.table[id].requestingOrigin;
    var new_ := Call(id, s.table[id].frame, origin, permission);
    assert OneCallPerKey(t.calls) by {
      forall c | c in s.calls && c.origin == origin && c.permission == permission ensures false {
        assert s.table[c.id].Shares(origin, permission);
      }
    }
    assert WaitersAreServed(t.table, t.calls, id, rest - {permission}) by {
      forall k, p | k in t.table && t.table[k].Waits(p) && !(k == id && p in rest - {permission})
        ensures HasCall(t.calls, t.table[k].requestingOrigin, p)
      {
        if k == id && p == permission {
          assert new_ in t.calls;
        } else {
          assert HasCall(s.calls, s.table[k].requestingOrigin, p);
          var c :| c in s.calls && c.origin == s.table[k].requestingOrigin && c.permission == p;
          assert c in t.calls;
        }
      }
    }
  }

  lemma DelegateOneKeepsConsistent(s: State, id: int, rest: set<PermissionType>, permission: PermissionType,
                                   hasDelegate: bool, replies: seq<Reply>)
    requires Consistent(s, id, rest) && permission in rest
    ensures var t := DelegateOne(s, id, permission, hasDelegate, replies);
      Consistent(t, id, rest - {permission}) && t.nextId == s.nextId
  {
    if hasDelegate && permission.IsDelegated() {
      AskKeepsConsistent(s, id, rest, permission);
      DeliverKeepsConsistent(Ask(s, id, permission), replies, id, rest - {permission});
    } else {
      DecideKeepsConsistent(s, id, rest, permission, DENIED);
      DecideKeepsConsistent(s, id, rest, permission, GRANTED);
    }
  }

  /** Every request on the key waits for it, and no callback of a pending request has run. */
  ghost predicate HasWaitersOnly(s: State, origin: Gurl, permission: PermissionType) {
    && (forall k | k in s.table && s.table[k].Shares(origin, permission) :: s.table[k].Waits(permission))
    && (forall k | k in s.table :: k !in s.answered && k !in s.dropped)
  }

  /** The lookup an answer starts with succeeds, and everybody on the key waits for it. */
  ghost predicate Answerable(s: State, call: Call) {
    call.id in s.table && HasWaitersOnly(s, s.table[call.id].requestingOrigin, call.permission)
  }

  ghost predicate AllAnswerable(s: State, replies: seq<Reply>)
    decreases |replies|
  {
    replies == [] ||
    var first := replies[0];
    if first.call in s.calls
    then Answerable(s, first.call) && AllAnswerable(OnResponse(s, first.call, first.allowed), replies[1..])
    else AllAnswerable(s, replies[1..])
  }

  lemma OutstandingIsAnswerable(s: State, call: Call, id: int, rest: set<PermissionType>)
    requires Consistent(s, id, rest) && call in s.calls
    ensures Answerable(s, call)
  {
  }

  lemma {:induction false} RepliesAreAnswerable(s: State, replies: seq<Reply>, id: int, rest: set<PermissionType>)
    requires Consistent(s, id, rest)
    ensures AllAnswerable(s, replies)
    decreases |replies|
  {
    if replies != [] {
      var first := replies[0];
      if first.call in s.calls {
        OutstandingIsAnswerable(s, first.call, id, rest);
        ResponseKeepsConsistent(s, first.call, first.allowed, id, rest);
        RepliesAreAnswerable(OnResponse(s, first.call, first.allowed), replies[1..], id, rest);
      } else {
        RepliesAreAnswerable(s, replies[1..], id, rest);
      }
    }
  }

  /** A turn of the delegation loop finds its request in the table, undecided, and all answers it causes can be handed out. */
  ghost predicate TurnIsSafe(s: State, id: int, permission: PermissionType, replies: seq<Reply>) {
    id in s.table && s.table[id].Waits(permission)
    && (permission.IsDelegated() ==> AllAnswerable(Ask(s, id, permission), replies))
  }

  lemma TurnOfConsistentIsSafe(s: State, id: int, rest: set<PermissionType>, permission: PermissionType, replies: seq<Reply>)
    requires Consistent(s, id, rest) && permission in rest
    ensures TurnIsSafe(s, id, permission, replies)
  {
    if permission.IsDelegated() {
      AskKeepsConsistent(s, id, rest, permission);
      RepliesAreAnswerable(Ask(s, id, permission), replies, id, rest - {permission});
    }
  }

  /**
   Whenever the delegation loop comes to a permission it has to delegate, the request is still in
   the table: its raw pointer is good.
   */
  ghost predicate NeverDangles(s: State, id: int, permissions: seq<PermissionType>, i: nat, todo: set<PermissionType>,
                               hasDelegate: bool, script: seq<seq<Reply>>)
    requires i <= |permissions|
    decreases |permissions| - i
  {
    i < |permissions| ==>
      if permissions[i] !in todo then NeverDangles(s, id, permissions, i + 1, todo, hasDelegate, script)
      else
        && TurnIsSafe(s, id, permissions[i], RepliesAt(script, i))
        && NeverDangles(DelegateOne(s, id, permissions[i], hasDelegate, RepliesAt(script, i)),
                        id, permissions, i + 1, todo, hasDelegate, script)
  }

  lemma {:induction false} DelegationKeepsConsistent(s: State, id: int, permissions: seq<PermissionType>, i: nat,
                                                     todo: set<PermissionType>, hasDelegate: bool, script: seq<seq<Reply>>)
    requires i <= |permissions| && Distinct(permissions)
    requires Consistent(s, id, Rest(permissions, i, todo))
    ensures var t := DelegateFrom(s, id, permissions, i, todo, hasDelegate, script);
      Consistent(t, id, {}) && t.nextId == s.nextId
    ensures NeverDangles(s, id, permissions, i, todo, hasDelegate, script)
    decreases |permissions| - i
  {
    if i == |permissions| {
      assert Rest(permissions, i, todo) == {};
    } else {
      RestShrinks(permissions, i, todo);
      if permissions[i] in todo {
        var next := DelegateOne(s, id, permissions[i], hasDelegate, RepliesAt(script, i));
        TurnOfConsistentIsSafe(s, id, Rest(permissions, i, todo), permissions[i], RepliesAt(script, i));
        DelegateOneKeepsConsistent(s, id, Rest(permissions, i, todo), permissions[i], hasDelegate, RepliesAt(script, i));
        DelegationKeepsConsistent(next, id, permissions, i + 1, todo, hasDelegate, script);
      } else {
        DelegationKeepsConsistent(s, id, permissions, i + 1, todo, hasDelegate, script);
      }
    }
  }
}
