/**
 Cancelling requests: what it withdraws from the delegate, what it keeps, and when it goes wrong.
 */
module PermissionCancellation {
  import opened PermissionTypes
  import opened ResultCache
  import opened PermissionModel
  import opened PermissionInvariant

  /** A cancellation that reaches the delegate withdraws exactly the call its own request made. */
  lemma CancelReachesOwnCall(s: State, id: int, permission: PermissionType) returns (call: Call)
    requires Consistent(s, id, {}) && id in s.table && s.table[id].Waits(permission)
    requires !OtherWaits(s.table, id, s.table[id].requestingOrigin, permission)
    ensures call.id == id && call in s.calls && permission.IsDelegated()
    ensures Withdrawn(s.calls, s.table[id].frame, s.table[id].requestingOrigin, permission) == {call}
  {
    var origin := s.table[id].requestingOrigin;
    assert HasCall(s.calls, origin, permission);
    call :| call in s.calls && call.origin == origin && call.permission == permission;
    assert s.table[call.id].Waits(permission);
  }

  lemma NobodyElseShares(s: State, id: int, permission: PermissionType)
    requires Consistent(s, id, {}) && id in s.table && s.table[id].Waits(permission)
    requires !OtherWaits(s.table, id, s.table[id].requestingOrigin, permission)
    ensures forall k | k in s.table && k != id :: !s.table[k].Shares(s.table[id].requestingOrigin, permission)
  {
    assert forall k | k in s.table && s.table[k].Shares(s.table[id].requestingOrigin, permission) ::
             s.table[k].Waits(permission);
  }

  /** The state a reaching cancellation leaves: the permission denied, its call gone. */
  lemma CancelOneEffect(s: State, id: int, permission: PermissionType)
    requires Consistent(s, id, {}) && id in s.table && s.table[id].Waits(permission)
    requires !OtherWaits(s.table, id, s.table[id].requestingOrigin, permission)
    ensures var t := CancelOne(s, id, permission, true);
      && t.table == s.table[id := s.table[id].Decide(permission, DENIED)]
      && (forall k | k in s.table && k != id :: t.table[k] == s.table[k]
                                             && !s.table[k].Shares(s.table[id].requestingOrigin, permission))
      && t.verdicts == s.verdicts[Key(s.table[id].requestingOrigin, permission) := DENIED]
      && (forall call | call in t.calls :: call in s.calls
                                        && !(call.origin == s.table[id].requestingOrigin && call.permission == permission))
      && (forall call | call in s.calls && !(call.origin == s.table[id].requestingOrigin && call.permission == permission)
            :: call in t.calls)
      && t.nextId == s.nextId && t.answered == s.answered && t.dropped == s.dropped
  {
    var call := CancelReachesOwnCall(s, id, permission);
    NobodyElseShares(s, id, permission);
    var t := CancelOne(s, id, permission, true);
    assert t.calls == s.calls - {call};
    forall c | c in s.calls && c.origin == s.table[id].requestingOrigin && c.permission == permission ensures c == call {
    }
  }

  lemma CancelOneKeepsTable(s: State, id: int, permission: PermissionType)
    requires Consistent(s, id, {}) && id in s.table && s.table[id].Waits(permission)
    requires !OtherWaits(s.table, id, s.table[id].requestingOrigin, permission)
    ensures var t := CancelOne(s, id, permission, true);
      WellFormed(t.table) && Partitioned(t) && FollowsVerdicts(t.table, t.verdicts)
  {
    CancelOneEffect(s, id, permission);
  }

  lemma CancelOneKeepsTogether(s: State, id: int, permission: PermissionType)
    requires Consistent(s, id, {}) && id in s.table && s.table[id].Waits(permission)
    requires !OtherWaits(s.table, id, s.table[id].requestingOrigin, permission)
    ensures var t := CancelOne(s, id, permission, true);
      Together(t.table) && NoneComplete(t.table, id)
  {
    CancelOneEffect(s, id, permission);
  }

  lemma CancelOneKeepsCalls(s: State, id: int, permission: PermissionType)
    requires Consistent(s, id, {}) && id in s.table && s.table[id].Waits(permission)
    requires !OtherWaits(s.table, id, s.table[id].requestingOrigin, permission)
    ensures var t := CancelOne(s, id, permission, true);
      CallsAreOwned(t.table, t.calls) && OneCallPerKey(t.calls) && RestIsPrivate(t.table, t.calls, id, {})
  {
    CancelOneEffect(s, id, permission);
    var t := CancelOne(s, id, permission, true);
    forall call | call in t.calls
      ensures call.id in t.table && t.table[call.id].Waits(call.permission)
    {
      assert s.table[call.id].Waits(call.permission);
    }
  }

  lemma CancelOneServesWaiters(s: State, id: int, permission: PermissionType)
    requires Consistent(s, id, {}) && id in s.table && s.table[id].Waits(permission)
    requires !OtherWaits(s.table, id, s.table[id].requestingOrigin, permission)
    ensures var t := CancelOne(s, id, permission, true);
      WaitersAreServed(t.table, t.calls, id, {}) && CancelledAreShared(t.table, id)
  {
    CancelOneEffect(s, id, permission);
    var t := CancelOne(s, id, permission, true);
    forall k, p | k in t.table && t.table[k].Waits(p)
      ensures HasCall(t.calls, t.table[k].requestingOrigin, p)
    {
      assert s.table[k].Waits(p);
      assert HasCall(s.calls, s.table[k].requestingOrigin, p);
      var call :| call in s.calls && call.origin == s.table[k].requestingOrigin && call.permission == p;
      assert call in t.calls;
    }
    forall k, p | k in t.table && k != id && t.table[k].cancelled && t.table[k].Waits(p)
      ensures OtherWaits(t.table, k, t.table[k].requestingOrigin, p)
    {
      assert s.table[k].Waits(p);
      OtherWaitsSurvivesUpdate(s.table, t.table, k, t.table[k].requestingOrigin, p);
    }
  }

  lemma CancelOneKeepsConsistent(s: State, id: int, permission: PermissionType)
    requires Consistent(s, id, {}) && id in s.table && permission in s.table[id].permissions
    ensures Consistent(CancelOne(s, id, permission, true), id, {})
  {
    if s.table[id].Waits(permission) && !OtherWaits(s.table, id, s.table[id].requestingOrigin, permission) {
      CancelOneKeepsTable(s, id, permission);
      CancelOneKeepsTogether(s, id, permission);
      CancelOneKeepsCalls(s, id, permission);
      CancelOneServesWaiters(s, id, permission);
    }
  }

  // ----- The loop over a request's permissions -----

  /** Nothing left to do for these permissions: each is decided or somebody else waits for it too. */
  ghost predicate Settled(s: State, id: int, permissions: seq<PermissionType>, i: nat)
    requires id in s.table && i <= |permissions|
  {
    forall j | 0 <= j < i ::
      permissions[j] in s.table[id].decided || OtherWaits(s.table, id, s.table[id].requestingOrigin, permissions[j])
  }

  ghost predicate SameButDecided(r: Request, r': Request) {
    && r' == r.(decided := r'.decided)
    && (forall p | p in r.decided :: p in r'.decided && r'.decided[p] == r.decided[p])
  }

  lemma {:induction false} CancelFromFrame(s: State, id: int, permissions: seq<PermissionType>, i: nat, hasDelegate: bool)
    requires i <= |permissions| && id in s.table && Settled(s, id, permissions, i)
    ensures var t := CancelFrom(s, id, permissions, i, hasDelegate);
      && t.table.Keys == s.table.Keys
      && (forall k | k in s.table && k != id :: t.table[k] == s.table[k])
      && SameButDecided(s.table[id], t.table[id])
      && t.nextId == s.nextId && t.answered == s.answered && t.dropped == s.dropped && t.history == s.history
      && Settled(t, id, permissions, |permissions|)
    decreases |permissions| - i
  {
    if i < |permissions| {
      var next := CancelOne(s, id, permissions[i], hasDelegate);
      var r := s.table[id];
      assert SameButDecided(r, next.table[id]);
      assert Settled(next, id, permissions, i + 1) by {
        forall j | 0 <= j < i + 1
          ensures permissions[j] in next.table[id].decided || OtherWaits(next.table, id, r.requestingOrigin, permissions[j])
        {
          if permissions[j] !in next.table[id].decided {
            OthersStillWait(s.table, next.table, id, r.requestingOrigin, permissions[j]);
          }
        }
      }
      CancelFromFrame(next, id, permissions, i + 1, hasDelegate);
    }
  }

  lemma OthersStillWait(table: Table, table': Table, id: int, origin: Gurl, permission: PermissionType)
    requires OtherWaits(table, id, origin, permission)
    requires forall k | k in table && k != id :: k in table' && table'[k] == table[k]
    ensures OtherWaits(table', id, origin, permission)
  {
    var k :| k in table && k != id && table[k].requestingOrigin == origin && table[k].Waits(permission);
    assert table'[k].Waits(permission);
  }

  lemma {:induction false} CancelFromKeepsConsistent(s: State, id: int, permissions: seq<PermissionType>, i: nat)
    requires i <= |permissions| && id in s.table && permissions == s.table[id].permissions
    requires Consistent(s, id, {})
    ensures Consistent(CancelFrom(s, id, permissions, i, true), id, {})
    decreases |permissions| - i
  {
    if i < |permissions| {
      CancelOneKeepsConsistent(s, id, permissions[i]);
      CancelFromKeepsConsistent(CancelOne(s, id, permissions[i], true), id, permissions, i + 1);
    }
  }

  lemma DropRestoresRest(s: State, id: int)
    requires Consistent(s, id, {}) && id in s.table && s.nextId > 0
    requires s.table[id].cancelled && Settled(s, id, s.table[id].permissions, |s.table[id].permissions|)
    ensures AtRest(DropIfComplete(s, id))
  {
    var t := DropIfComplete(s, id);
    forall k, p | k in t.table && t.table[k].cancelled && t.table[k].Waits(p)
      ensures OtherWaits(t.table, k, t.table[k].requestingOrigin, p)
    {
      assert s.table[k].Waits(p);
      assert OtherWaits(s.table, k, s.table[k].requestingOrigin, p);
      OtherWaitsSurvivesUpdate(s.table, t.table, k, t.table[k].requestingOrigin, p);
    }
    assert WaitersAreServed(t.table, t.calls, 0, {}) by {
      forall k, p | k in t.table && t.table[k].Waits(p) ensures HasCall(t.calls, t.table[k].requestingOrigin, p) {
        assert s.table[k].Waits(p);
      }
    }
  }

  lemma MarkKeepsConsistent(s: State, id: int)
    requires AtRest(s) && id in s.table
    ensures Consistent(MarkCancelled(s, id), id, {})
  {
    var t := MarkCancelled(s, id);
    assert forall k, p | k in s.table :: t.table[k].Waits(p) <==> s.table[k].Waits(p);
    assert WaitersAreServed(t.table, t.calls, id, {}) by {
      forall k, p | k in t.table && t.table[k].Waits(p) ensures HasCall(t.calls, t.table[k].requestingOrigin, p) {
        assert s.table[k].Waits(p);
      }
    }
    forall k, p | k in t.table && k != id && t.table[k].cancelled && t.table[k].Waits(p)
      ensures OtherWaits(t.table, k, t.table[k].requestingOrigin, p)
    {
      assert s.table[k].Waits(p);
      OtherWaitsSurvivesUpdate(s.table, t.table, k, t.table[k].requestingOrigin, p);
    }
  }

  lemma CancelWithDelegateKeepsRest(s: State, id: int, delegates: set<int>)
    requires AtRest(s)
    requires id in s.table ==> s.table[id].frame in delegates
    ensures AtRest(CancelPermissionRequest(s, id, delegates))
  {
    if id in s.table && !s.table[id].cancelled {
      var r, marked := s.table[id], MarkCancelled(s, id);
      MarkKeepsConsistent(s, id);
      CancelFromKeepsConsistent(marked, id, r.permissions, 0);
      CancelFromFrame(marked, id, r.permissions, 0, true);
      DropRestoresRest(CancelFrom(marked, id, r.permissions, 0, true), id);
    }
  }

  // ----- When the frame has lost its delegate -----

  /** Everything the request waits for, another pending request waits for too. */
  ghost predicate OnlySharedWaits(s: State, id: int)
    requires id in s.table
  {
    forall p {:trigger s.table[id].Waits(p)} | s.table[id].Waits(p) :: OtherWaits(s.table, id, s.table[id].requestingOrigin, p)
  }

  ghost predicate CancelIsSafe(s: State, id: int, delegates: set<int>) {
    id in s.table && !s.table[id].cancelled ==> s.table[id].frame in delegates || OnlySharedWaits(s, id)
  }

  lemma {:induction false} CancelWithoutDelegateKeepsCalls(s: State, id: int, permissions: seq<PermissionType>, i: nat)
    requires i <= |permissions| && id in s.table
    ensures CancelFrom(s, id, permissions, i, false).calls == s.calls
    decreases |permissions| - i
  {
    if i < |permissions| {
      CancelWithoutDelegateKeepsCalls(CancelOne(s, id, permissions[i], false), id, permissions, i + 1);
    }
  }

  lemma {:induction false} CancelOfSharedDoesNothing(s: State, id: int, permissions: seq<PermissionType>, i: nat, hasDelegate: bool)
    requires i <= |permissions| && id in s.table && permissions == s.table[id].permissions && OnlySharedWaits(s, id)
    ensures CancelFrom(s, id, permissions, i, hasDelegate) == s
    decreases |permissions| - i
  {
    if i < |permissions| {
      assert permissions[i] in s.table[id].decided || s.table[id].Waits(permissions[i]);
      CancelOfSharedDoesNothing(s, id, permissions, i + 1, hasDelegate);
    }
  }

  lemma SharedWaitsSurviveMark(s: State, id: int)
    requires id in s.table
    ensures OnlySharedWaits(MarkCancelled(s, id), id) <==> OnlySharedWaits(s, id)
  {
    var t := MarkCancelled(s, id);
    assert forall p :: t.table[id].Waits(p) <==> s.table[id].Waits(p);
    forall p ensures OtherWaits(t.table, id, s.table[id].requestingOrigin, p) <==> OtherWaits(s.table, id, s.table[id].requestingOrigin, p) {
      if OtherWaits(s.table, id, s.table[id].requestingOrigin, p) {
        OthersStillWait(s.table, t.table, id, s.table[id].requestingOrigin, p);
      }
      if OtherWaits(t.table, id, s.table[id].requestingOrigin, p) {
        OthersStillWait(t.table, s.table, id, s.table[id].requestingOrigin, p);
      }
    }
  }

  /** Without a delegate to tell, cancelling leaves an orphaned call as soon as the request waited alone for something. */
  lemma LoneCancelOrphansCall(s: State, id: int, delegates: set<int>)
    requires AtRest(s) && id in s.table && !s.table[id].cancelled
    requires s.table[id].frame !in delegates && !OnlySharedWaits(s, id)
    ensures var t := CancelPermissionRequest(s, id, delegates);
      exists call :: call in t.calls && (call.id !in t.table || !t.table[call.id].Waits(call.permission))
  {
    var r, marked := s.table[id], MarkCancelled(s, id);
    var p :| r.Waits(p) && !OtherWaits(s.table, id, r.requestingOrigin, p);
    MarkKeepsConsistent(s, id);
    assert marked.table[id].Waits(p);
    if OtherWaits(marked.table, id, r.requestingOrigin, p) {
      OthersStillWait(marked.table, s.table, id, r.requestingOrigin, p);
    }
    var call := CancelReachesOwnCall(marked, id, p);
    CancelFromFrame(marked, id, r.permissions, 0, false);
    CancelWithoutDelegateKeepsCalls(marked, id, r.permissions, 0);
    assert call in CancelPermissionRequest(s, id, delegates).calls;
  }

  /** Cancelling keeps the invariant exactly when the delegate is there to be told or need not be told. */
  lemma CancelKeepsRestIffSafe(s: State, id: int, delegates: set<int>)
    requires AtRest(s)
    ensures AtRest(CancelPermissionRequest(s, id, delegates)) <==> CancelIsSafe(s, id, delegates)
  {
    if id in s.table && !s.table[id].cancelled {
      if s.table[id].frame in delegates {
        CancelWithDelegateKeepsRest(s, id, delegates);
      } else if OnlySharedWaits(s, id) {
        var r, marked := s.table[id], MarkCancelled(s, id);
        MarkKeepsConsistent(s, id);
        SharedWaitsSurviveMark(s, id);
        CancelOfSharedDoesNothing(marked, id, r.permissions, 0, false);
        CancelFromFrame(marked, id, r.permissions, 0, false);
        DropRestoresRest(marked, id);
      } else {
        LoneCancelOrphansCall(s, id, delegates);
      }
    }
  }
}
