/**
 The permission broker in the form it is programmed in: request objects updated in place, a table
 of them searched in no particular order, and callbacks run once the table is consistent again.
 Every method is proved to follow the state machine of module PermissionModel.
 */
module PermissionManager {
  import opened PermissionTypes
  import opened ResultCache
  import opened PermissionModel
  import opened PermissionInvariant
  import opened PermissionRuns

  ghost predicate ValidParts(permissions: seq<PermissionType>, index: map<PermissionType, nat>,
                             results: seq<Status>, resolved: set<PermissionType>) {
    && Distinct(permissions)
    && |results| == |permissions|
    && (forall p :: p in index <==> p in permissions)
    && (forall p | p in index :: index[p] < |permissions| && permissions[index[p]] == p)
    && (forall p | p in resolved :: p in permissions)
    && (forall i | 0 <= i < |permissions| && permissions[i] !in resolved :: results[i] == DENIED)
  }

  ghost function DecidedOf(index: map<PermissionType, nat>, results: seq<Status>, resolved: set<PermissionType>)
    : map<PermissionType, Status>
    requires forall p | p in resolved :: p in index && index[p] < |results|
  {
    map p | p in resolved :: results[index[p]]
  }

  lemma SetKeepsParts(permissions: seq<PermissionType>, index: map<PermissionType, nat>, results: seq<Status>,
                      resolved: set<PermissionType>, permission: PermissionType, status: Status)
    requires ValidParts(permissions, index, results, resolved) && permission in index
    ensures var results' := results[index[permission] := status];
      && ValidParts(permissions, index, results', resolved + {permission})
      && DecidedOf(index, results', resolved + {permission}) == DecidedOf(index, results, resolved)[permission := status]
  {
  }

  class PendingRequest {
    const permissions: seq<PermissionType>
    const requestingOrigin: Gurl
    const embeddingOrigin: Gurl
    const frame: int
    const permissionIndexMap: map<PermissionType, nat>
    var results: seq<Status>
    var resolvedPermissions: set<PermissionType>
    var cancelled: bool

    ghost predicate Valid()
      reads this
    {
      ValidParts(permissions, permissionIndexMap, results, resolvedPermissions)
    }

    ghost function Value(): Request
      requires Valid()
      reads this
    {
      Request(permissions, requestingOrigin, embeddingOrigin, frame,
              DecidedOf(permissionIndexMap, results, resolvedPermissions), cancelled)
    }

    constructor (permissions: seq<PermissionType>, requestingOrigin: Gurl, embeddingOrigin: Gurl, frame: int)
      requires Distinct(permissions)
      ensures Valid() && Value() == Request(permissions, requestingOrigin, embeddingOrigin, frame, map[], false)
    {
      var index: map<PermissionType, nat> := map[];
      for i := 0 to |permissions|
        invariant forall p :: p in index <==> p in permissions[..i]
        invariant forall p | p in index :: index[p] < |permissions| && permissions[index[p]] == p
      {
        assert permissions[..i + 1] == permissions[..i] + [permissions[i]];
        if permissions[i] !in index {
          index := index[permissions[i] := i];
        }
      }
      assert permissions[..|permissions|] == permissions;
      this.permissions := permissions;
      this.requestingOrigin := requestingOrigin;
      this.embeddingOrigin := embeddingOrigin;
      this.frame := frame;
      permissionIndexMap := index;
      results := seq(|permissions|, _ => DENIED);
      resolvedPermissions := {};
      cancelled := false;
    }

    /** The results vector read off the decisions, and the counting test for completeness. */
    lemma ValueMeaning()
      requires Valid()
      ensures Value().Results() == results
      ensures Value().Complete() <==> |results| == |resolvedPermissions|
    {
      forall i | 0 <= i < |permissions| ensures Value().Results()[i] == results[i] {
        assert permissionIndexMap[permissions[i]] == i;
      }
      DistinctIffAllCounted(permissions);
      assert resolvedPermissions <= Elements(permissions);
      if Value().Complete() {
        assert resolvedPermissions == Elements(permissions);
      } else {
        var p :| p in permissions && p !in resolvedPermissions;
        SmallerWithout(resolvedPermissions, Elements(permissions), p);
      }
    }

    static lemma SmallerWithout<T>(small: set<T>, big: set<T>, x: T)
      requires small <= big && x in big && x !in small
      ensures |small| < |big|
    {
      var rest := big - small;
      assert big == small + rest;
      assert x in rest;
    }

    predicate IsCompleted()
      reads this
    {
      |results| == |resolvedPermissions|
    }

    predicate IsCompletedFor(permission: PermissionType)
      reads this
    {
      permission in resolvedPermissions
    }

    predicate HasPermissionType(permission: PermissionType) {
      permission in permissionIndexMap
    }

    /** The debug check that the request is not complete yet is a precondition here. */
    method SetPermissionStatus(permission: PermissionType, status: Status)
      requires Valid() && !IsCompleted()
      modifies this
      ensures Valid()
      ensures Value() == if permission in permissions then old(Value()).Decide(permission, status) else old(Value())
    {
      if permission !in permissionIndexMap {
        return;
      }
      SetKeepsParts(permissions, permissionIndexMap, results, resolvedPermissions, permission, status);
      results := results[permissionIndexMap[permission] := status];
      resolvedPermissions := resolvedPermissions + {permission};
    }

    method GetPermissionStatus(permission: PermissionType) returns (status: Status)
      requires Valid()
      ensures permission in Value().decided ==> status == Value().decided[permission]
      ensures permission !in Value().decided ==> status == DENIED
    {
      if permission !in permissionIndexMap {
        return DENIED;
      }
      return results[permissionIndexMap[permission]];
    }

    method Cancel()
      requires Valid()
      modifies this`cancelled
      ensures Valid() && Value() == old(Value()).(cancelled := true)
    {
      cancelled := true;
    }
  }

  type RequestsMap = map<int, PendingRequest>

  ghost predicate ValidRequests(pending: RequestsMap)
    reads pending.Values
  {
    && (forall k | k in pending :: pending[k].Valid())
    && (forall j, k | j in pending && k in pending && j != k :: pending[j] != pending[k])
  }

  ghost function TableOf(pending: RequestsMap): Table
    requires ValidRequests(pending)
    reads pending.Values
  {
    map k | k in pending :: pending[k].Value()
  }

  /** Requests may have left the table, but those in it are where they were. */
  ghost predicate Narrowed(before: RequestsMap, after: RequestsMap) {
    && after.Values <= before.Values
    && (forall k | k in after :: k in before && after[k] == before[k])
  }

  // ----- Searches over the table, in whatever order -----

  /** The key an iterator happens to stand on. */
  method NextKey(unseen: set<int>) returns (k: int)
    requires unseen != {}
    ensures k in unseen
  {
    SomeElement(unseen);
    k :| k in unseen;
  }

  /** The first pending request on a key that the iteration meets. */
  method FindMatch(pending: RequestsMap, origin: Gurl, permission: PermissionType) returns (found: bool, at: int)
    requires ValidRequests(pending)
    ensures found <==> HasMatch(TableOf(pending), origin, permission)
    ensures found ==> at in pending && TableOf(pending)[at].Shares(origin, permission)
  {
    var unseen: set<int> := pending.Keys;
    while unseen != {}
      invariant unseen <= pending.Keys
      invariant forall k | k in pending && k !in unseen :: !(permission in pending[k].permissions && pending[k].requestingOrigin == origin)
    {
      var k := NextKey(unseen);
      if pending[k].HasPermissionType(permission) && pending[k].requestingOrigin == origin {
        assert TableOf(pending)[k].Shares(origin, permission);
        return true, k;
      }
      unseen := unseen - {k};
    }
    return false, 0;
  }

  /** Whether a request other than `id` waits for a key. */
  method FindOtherWaiting(pending: RequestsMap, id: int, permission: PermissionType) returns (found: bool)
    requires ValidRequests(pending) && id in pending
    ensures found <==> OtherWaits(TableOf(pending), id, pending[id].requestingOrigin, permission)
  {
    var unseen: set<int> := pending.Keys;
    while unseen != {}
      invariant unseen <= pending.Keys
      invariant forall k | k in pending && k !in unseen && k != id ::
                  !(pending[k].requestingOrigin == pending[id].requestingOrigin
                    && permission in pending[k].permissions && permission !in pending[k].resolvedPermissions)
    {
      var k := NextKey(unseen);
      if pending[k] != pending[id] && pending[k].HasPermissionType(permission)
         && pending[k].requestingOrigin == pending[id].requestingOrigin && !pending[k].IsCompletedFor(permission) {
        assert TableOf(pending)[k].Waits(permission);
        return true;
      }
      unseen := unseen - {k};
    }
    return false;
  }

  // ----- Handing an answer to everybody who waits for it -----

  /** A callback to be run, with the results it is to be given. */
  datatype Callback = Callback(id: int, results: seq<Status>)

  ghost predicate DistinctIds(callbacks: seq<Callback>) {
    forall i, j | 0 <= i < j < |callbacks| :: callbacks[i].id != callbacks[j].id
  }

  /** The callbacks are those of the given requests, each with its request's results. */
  ghost predicate CallbacksFor(callbacks: seq<Callback>, table: Table, ids: set<int>) {
    && DistinctIds(callbacks)
    && (forall c | c in callbacks :: c.id in ids && c.id in table && c.results == table[c.id].Results())
    && (forall k | k in ids :: exists c :: c in callbacks && c.id == k)
  }

  lemma CallbacksExtend(callbacks: seq<Callback>, table: Table, table': Table, ids: set<int>, k: int)
    requires CallbacksFor(callbacks, table, ids) && k !in ids && k in table'
    requires forall j | j in ids :: j in table && j in table' && table'[j] == table[j]
    ensures CallbacksFor(callbacks, table', ids)
    ensures CallbacksFor(callbacks + [Callback(k, table'[k].Results())], table', ids + {k})
  {
    var more := callbacks + [Callback(k, table'[k].Results())];
    assert more[|callbacks|].id == k;
    forall j | j in ids + {k} ensures exists c :: c in more && c.id == j {
      if j != k {
        var c :| c in callbacks && c.id == j;
        assert c in more;
      }
    }
  }

  /** The table when the requests seen so far have been decided. */
  ghost function TouchSeen(table: Table, seen: set<int>, origin: Gurl, permission: PermissionType, status: Status): Table {
    map k | k in table ::
      if k in seen && table[k].Shares(origin, permission) then table[k].Decide(permission, status) else table[k]
  }

  ghost function DoneSeen(table: Table, seen: set<int>, origin: Gurl, permission: PermissionType): set<int> {
    set k | k in Done(table, origin, permission) && k in seen
  }

  /** Decides one request if it shares the key, and tells whether that completed it. */
  method TouchOne(r: PendingRequest, origin: Gurl, permission: PermissionType, status: Status)
    returns (complete: bool)
    requires r.Valid() && (r.Value().Shares(origin, permission) ==> r.Value().Waits(permission))
    modifies r
    ensures r.Valid()
    ensures r.Value() == if old(r.Value()).Shares(origin, permission) then old(r.Value()).Decide(permission, status) else old(r.Value())
    ensures complete <==> r.Value().Shares(origin, permission) && r.Value().Complete()
    ensures r.Value().Results() == r.results
  {
    r.ValueMeaning();
    if !r.HasPermissionType(permission) || r.requestingOrigin != origin {
      return false;
    }
    r.SetPermissionStatus(permission, status);
    r.ValueMeaning();
    return r.IsCompleted();
  }

  /** One turn of the loop below, seen as an update of the table. */
  method TouchEntry(pending: RequestsMap, k: int, origin: Gurl, permission: PermissionType, status: Status)
    returns (complete: bool)
    requires ValidRequests(pending) && k in pending
    requires pending[k].Value().Shares(origin, permission) ==> pending[k].Value().Waits(permission)
    modifies pending[k]
    ensures ValidRequests(pending)
    ensures TableOf(pending) == old(TableOf(pending))[k :=
              if old(pending[k].Value()).Shares(origin, permission) then old(pending[k].Value()).Decide(permission, status)
              else old(pending[k].Value())]
    ensures complete <==> TableOf(pending)[k].Shares(origin, permission) && TableOf(pending)[k].Complete()
    ensures TableOf(pending)[k].Results() == pending[k].results
    ensures TableOf(pending)[k].cancelled == pending[k].cancelled
  {
    complete := TouchOne(pending[k], origin, permission, status);
    assert forall j | j in pending && j != k :: pending[j].Value() == old(pending[j].Value());
  }

  /** How far the loop has come: the requests seen are decided, the completed ones collected. */
  ghost predicate Collected(before: Table, table: Table, seen: set<int>, ids: seq<int>, callbacks: seq<Callback>,
                            origin: Gurl, permission: PermissionType, status: Status) {
    && table == TouchSeen(before, seen, origin, permission, status)
    && (forall k :: k in ids <==> k in DoneSeen(table, seen, origin, permission))
    && CallbacksFor(callbacks, table, set k | k in DoneSeen(table, seen, origin, permission) && !table[k].cancelled)
  }

  /** One turn of the loop below. */
  method CollectOne(pending: RequestsMap, k: int, ids: seq<int>, callbacks: seq<Callback>,
                    origin: Gurl, permission: PermissionType, status: Status, ghost before: Table, ghost seen: set<int>)
    returns (ids': seq<int>, callbacks': seq<Callback>)
    requires ValidRequests(pending) && pending.Keys == before.Keys && seen <= before.Keys && k in pending && k !in seen
    requires before[k].Shares(origin, permission) ==> before[k].Waits(permission)
    requires Collected(before, TableOf(pending), seen, ids, callbacks, origin, permission, status)
    modifies pending[k]
    ensures ValidRequests(pending)
    ensures Collected(before, TableOf(pending), seen + {k}, ids', callbacks', origin, permission, status)
  {
    ids', callbacks' := ids, callbacks;
    ghost var table := TableOf(pending);
    assert table[k] == before[k] && table[k] == pending[k].Value();
    var complete := TouchEntry(pending, k, origin, permission, status);
    if complete {
      ids' := ids + [k];
      if !pending[k].cancelled {
        callbacks' := callbacks + [Callback(k, pending[k].results)];
      }
    }
    CollectedOneMore(before, table, TableOf(pending), seen, k, ids, ids', callbacks, callbacks', origin, permission, status);
  }

  ghost predicate AreParts(all: set<int>, seen: set<int>, unseen: set<int>) {
    forall k :: (k in all <==> k in seen || k in unseen) && !(k in seen && k in unseen)
  }

  lemma PartsShift(all: set<int>, seen: set<int>, unseen: set<int>, k: int)
    requires AreParts(all, seen, unseen) && k in unseen
    ensures AreParts(all, seen + {k}, unseen - {k}) && k in all && k !in seen && seen <= all
  {
    assert forall j | j in seen :: j in all;
  }

  lemma AllSeen(all: set<int>, seen: set<int>)
    requires AreParts(all, seen, {})
    ensures seen == all
  {
    assert forall k :: k in seen <==> k in all;
  }

  lemma CollectedNone(before: Table, origin: Gurl, permission: PermissionType, status: Status)
    ensures Collected(before, before, {}, [], [], origin, permission, status)
  {
  }

  method ResolveAll(pending: RequestsMap, origin: Gurl, permission: PermissionType, status: Status)
    returns (ids: seq<int>, callbacks: seq<Callback>)
    requires ValidRequests(pending)
    requires forall k | k in pending && TableOf(pending)[k].Shares(origin, permission) :: TableOf(pending)[k].Waits(permission)
    modifies pending.Values
    ensures ValidRequests(pending)
    ensures TableOf(pending) == Touch(old(TableOf(pending)), origin, permission, status)
    ensures Elements(ids) == Done(TableOf(pending), origin, permission)
    ensures CallbacksFor(callbacks, TableOf(pending),
                         set k | k in Done(TableOf(pending), origin, permission) && !TableOf(pending)[k].cancelled)
  {
    ghost var before := TableOf(pending);
    ids, callbacks := [], [];
    var unseen := pending.Keys;
    ghost var seen: set<int> := {};
    CollectedNone(before, origin, permission, status);
    while unseen != {}
      invariant pending.Keys == before.Keys && AreParts(before.Keys, seen, unseen)
      invariant ValidRequests(pending)
      invariant Collected(before, TableOf(pending), seen, ids, callbacks, origin, permission, status)
      decreases unseen
    {
      var k := NextKey(unseen);
      PartsShift(before.Keys, seen, unseen, k);
      ids, callbacks := CollectOne(pending, k, ids, callbacks, origin, permission, status, before, seen);
      unseen, seen := unseen - {k}, seen + {k};
    }
    AllSeen(before.Keys, seen);
    CollectedAll(before, TableOf(pending), ids, callbacks, origin, permission, status);
  }

  lemma CollectedOneMore(before: Table, table: Table, next: Table, seen: set<int>, k: int, ids: seq<int>, ids': seq<int>,
                         callbacks: seq<Callback>, callbacks': seq<Callback>,
                         origin: Gurl, permission: PermissionType, status: Status)
    requires k in before && k !in seen && seen <= before.Keys
    requires Collected(before, table, seen, ids, callbacks, origin, permission, status)
    requires next == table[k := if table[k].Shares(origin, permission) then table[k].Decide(permission, status) else table[k]]
    requires var complete := next[k].Shares(origin, permission) && next[k].Complete();
      && ids' == (if complete then ids + [k] else ids)
      && callbacks' == if complete && !next[k].cancelled then callbacks + [Callback(k, next[k].Results())] else callbacks
    ensures Collected(before, next, seen + {k}, ids', callbacks', origin, permission, status)
  {
    var done, called := DoneSeen(table, seen, origin, permission),
                        set j | j in DoneSeen(table, seen, origin, permission) && !table[j].cancelled;
    SeenOneMore(before, table, next, done, seen + {k}, k, origin, permission, status);
    CallbacksExtend(callbacks, table, next, called, k);
    var complete := next[k].Shares(origin, permission) && next[k].Complete();
    CalledOneMore(table, next, done, DoneSeen(next, seen + {k}, origin, permission), k, complete);
  }

  lemma CalledOneMore(table: Table, next: Table, done: set<int>, done': set<int>, k: int, complete: bool)
    requires done <= table.Keys && table.Keys == next.Keys && k in next && k !in done
    requires done' == if complete then done + {k} else done
    requires forall j | j in done :: next[j] == table[j]
    ensures (set j | j in done' && !next[j].cancelled)
         == (set j | j in done && !table[j].cancelled) + (if complete && !next[k].cancelled then {k} else {})
  {
    var called, called' := set j | j in done && !table[j].cancelled, set j | j in done' && !next[j].cancelled;
    forall j ensures j in called' <==> j in called || (j == k && complete && !next[k].cancelled) {
      if j != k {
        assert j in done' <==> j in done;
      }
    }
  }

  lemma CollectedAll(before: Table, table: Table, ids: seq<int>, callbacks: seq<Callback>,
                     origin: Gurl, permission: PermissionType, status: Status)
    requires Collected(before, table, before.Keys, ids, callbacks, origin, permission, status)
    ensures table == Touch(before, origin, permission, status)
    ensures Elements(ids) == Done(table, origin, permission)
    ensures CallbacksFor(callbacks, table, set k | k in Done(table, origin, permission) && !table[k].cancelled)
  {
    assert DoneSeen(table, before.Keys, origin, permission) == Done(table, origin, permission);
    SameElements(ids, Done(table, origin, permission));
    assert (set k | k in Done(table, origin, permission) && !table[k].cancelled)
        == (set k | k in DoneSeen(table, before.Keys, origin, permission) && !table[k].cancelled);
  }

  lemma SeenOneMore(before: Table, table: Table, next: Table, done: set<int>, seen: set<int>, k: int,
                    origin: Gurl, permission: PermissionType, status: Status)
    requires k in before && k in seen && seen <= before.Keys
    requires table == TouchSeen(before, seen - {k}, origin, permission, status)
    requires done == DoneSeen(table, seen - {k}, origin, permission)
    requires next == table[k := if table[k].Shares(origin, permission) then table[k].Decide(permission, status) else table[k]]
    ensures next == TouchSeen(before, seen, origin, permission, status)
    ensures DoneSeen(next, seen, origin, permission)
         == if next[k].Shares(origin, permission) && next[k].Complete() then done + {k} else done
    ensures forall j | j in done :: next[j] == table[j]
  {
  }

  lemma OneMoreEvent(events: seq<CacheEvent>, i: nat)
    requires i < |events|
    ensures events[..i + 1] == events[..i] + [events[i]]
  {
  }

  // ----- The manager -----

  /**
   `calls` are the questions put to the delegates and not answered: it belongs to them and is
   kept here so that their behaviour can be stated. The ghost fields record what has happened.
   */
  class AwPermissionManager {
    var pendingRequests: RequestsMap
    var nextId: int
    const resultCache: LastRequestResultCache
    var calls: set<Call>
    ghost var answered: map<int, seq<Status>>
    ghost var dropped: set<int>
    ghost var verdicts: map<Key, Status>
    ghost var history: seq<CacheEvent>
    ghost var emptyRuns: nat

    ghost predicate Valid()
      reads this, resultCache, pendingRequests.Values
    {
      ValidRequests(pendingRequests) && resultCache.pmiResultCache == CacheOf(history)
    }

    ghost function Abs(): State
      requires Valid()
      reads this, resultCache, pendingRequests.Values
    {
      State(TableOf(pendingRequests), nextId, calls, answered, dropped, verdicts, history, emptyRuns)
    }

    constructor ()
      ensures Valid() && Abs() == INITIAL
      ensures fresh(resultCache)
    {
      pendingRequests, nextId, calls := map[], 1, {};
      answered, dropped, verdicts, history, emptyRuns := map[], {}, map[], [], 0;
      resultCache := new LastRequestResultCache();
    }

    /** Running a callback; its precondition is that it has not run and its request was not given up. */
    method RunCallback(id: int, results: seq<Status>)
      requires id !in answered && id !in dropped && id !in pendingRequests
      modifies this`answered
      ensures answered == old(answered)[id := results]
    {
      answered := answered[id := results];
    }

    method RunCallbacks(callbacks: seq<Callback>)
      requires DistinctIds(callbacks)
      requires forall c | c in callbacks :: c.id !in answered && c.id !in dropped && c.id !in pendingRequests
      modifies this`answered
      ensures forall k :: k in answered <==> k in old(answered) || exists c :: c in callbacks && c.id == k
      ensures forall k | k in old(answered) :: answered[k] == old(answered)[k]
      ensures forall c | c in callbacks :: c.id in answered && answered[c.id] == c.results
    {
      for i := 0 to |callbacks|
        invariant forall k :: k in answered <==> k in old(answered) || exists j :: 0 <= j < i && callbacks[j].id == k
        invariant forall k | k in old(answered) :: answered[k] == old(answered)[k]
        invariant forall j | 0 <= j < i :: answered[callbacks[j].id] == callbacks[j].results
      {
        RunCallback(callbacks[i].id, callbacks[i].results);
      }
    }

    method RemoveAll(ids: seq<int>)
      modifies this`pendingRequests
      ensures pendingRequests == old(pendingRequests) - Elements(ids)
    {
      for i := 0 to |ids|
        invariant pendingRequests == old(pendingRequests) - Elements(ids[..i])
      {
        assert ids[..i + 1] == ids[..i] + [ids[i]];
        assert Elements(ids[..i + 1]) == Elements(ids[..i]) + {ids[i]};
        pendingRequests := pendingRequests - {ids[i]};
      }
      assert ids[..|ids|] == ids;
    }

    method CacheAnswer(permission: PermissionType, requesting: Gurl, embedding: Gurl, status: Status)
      requires resultCache.pmiResultCache == CacheOf(history)
      modifies resultCache, this`history
      ensures history == old(history) + [Answered(permission, requesting, embedding, status)]
      ensures resultCache.pmiResultCache == CacheOf(history)
    {
      CacheAfter(history, Answered(permission, requesting, embedding, status));
      resultCache.SetResult(permission, requesting, embedding, status);
      history := history + [Answered(permission, requesting, embedding, status)];
    }

    method CacheClear(permission: PermissionType, requesting: Gurl, embedding: Gurl)
      requires resultCache.pmiResultCache == CacheOf(history)
      modifies resultCache, this`history
      ensures history == old(history) + [Cleared(permission, requesting, embedding)]
      ensures resultCache.pmiResultCache == CacheOf(history)
    {
      CacheAfter(history, Cleared(permission, requesting, embedding));
      resultCache.ClearResult(permission, requesting, embedding);
      history := history + [Cleared(permission, requesting, embedding)];
    }

    method RecordAnswer(call: Call, request: PendingRequest, status: Status)
      requires Valid() && request.Valid()
      modifies resultCache, this`calls, this`history, this`verdicts
      ensures Valid() && Abs() == Record(old(Abs()), call, request.Value(), status)
    {
      CacheAnswer(call.permission, request.requestingOrigin, request.embeddingOrigin, status);
      calls := calls - {call};
      verdicts := verdicts[Key(request.requestingOrigin, call.permission) := status];
      assert TableOf(pendingRequests) == old(TableOf(pendingRequests));
    }

    /** Takes the completed requests out of the table, and only then runs the callbacks. */
    method Settle(ids: seq<int>, callbacks: seq<Callback>, ghost table: Table, ghost done: set<int>)
      requires pendingRequests.Keys == table.Keys && Elements(ids) == done && done <= table.Keys
      requires CallbacksFor(callbacks, table, set k | k in done && !table[k].cancelled)
      requires forall k | k in table :: k !in answered && k !in dropped
      modifies this`pendingRequests, this`answered, this`dropped
      ensures pendingRequests == old(pendingRequests) - done
      ensures answered == old(answered) + AnswersOf(table, done)
      ensures dropped == old(dropped) + CancelledOf(table, done)
    {
      RemoveAll(ids);
      dropped := dropped + CancelledOf(table, done);
      RunCallbacks(callbacks);
      ghost var expected := old(answered) + AnswersOf(table, done);
      assert forall k :: k in answered <==> k in expected;
      forall k | k in expected ensures answered[k] == expected[k] {
        if k in old(answered) {
          assert k !in table;
        } else {
          var c :| c in callbacks && c.id == k;
        }
      }
    }

    method HandOutDecision(origin: Gurl, permission: PermissionType, status: Status)
      requires Valid() && HasWaitersOnly(Abs(), origin, permission)
      modifies this`pendingRequests, this`answered, this`dropped, pendingRequests.Values
      ensures Valid() && Abs() == HandOut(old(Abs()), origin, permission, status)
      ensures Narrowed(old(pendingRequests), pendingRequests)
    {
      ghost var before := Abs();
      var ids, callbacks := ResolveAll(pendingRequests, origin, permission, status);
      ghost var touched := TableOf(pendingRequests);
      ghost var done := Done(touched, origin, permission);
      Settle(ids, callbacks, touched, done);
      TableNarrows(touched, done);
    }

    lemma TableNarrows(table: Table, done: set<int>)
      requires ValidRequests(pendingRequests)
      requires pendingRequests.Keys == table.Keys - done && forall k | k in pendingRequests :: pendingRequests[k].Value() == table[k]
      ensures TableOf(pendingRequests) == table - done
    {
      assert forall k | k in pendingRequests :: TableOf(pendingRequests)[k] == (table - done)[k];
      assert TableOf(pendingRequests).Keys == (table - done).Keys;
    }

    /** A delegate answers one of its calls. */
    method OnRequestResponse(call: Call, allowed: bool)
      requires Valid() && Answerable(Abs(), call)
      modifies this, resultCache, pendingRequests.Values
      ensures Valid() && Abs() == OnResponse(old(Abs()), call, allowed)
      ensures Narrowed(old(pendingRequests), pendingRequests)
    {
      var status := if allowed then GRANTED else DENIED;
      var request := pendingRequests[call.id];
      assert Abs().table[call.id] == request.Value();
      RecordAnswer(call, request, status);
      HandOutDecision(request.requestingOrigin, call.permission, status);
    }

    /** Sets a permission of a pending request through its raw pointer, which has to be good for that. */
    method DecideRaw(id: int, permission: PermissionType, status: Status)
      requires Valid() && id in pendingRequests && TableOf(pendingRequests)[id].Waits(permission)
      modifies this`verdicts, pendingRequests[id]
      ensures Valid() && Abs() == DecideLocally(old(Abs()), id, permission, status)
    {
      verdicts := verdicts[Key(pendingRequests[id].requestingOrigin, permission) := status];
      DecideEntry(pendingRequests, id, permission, status);
    }

    /** The delegate's side: it answers some of its calls before it returns. */
    method DeliverReplies(replies: seq<Reply>)
      requires Valid() && AllAnswerable(Abs(), replies)
      modifies this, resultCache, pendingRequests.Values
      ensures Valid() && Abs() == Deliver(old(Abs()), replies)
      ensures Narrowed(old(pendingRequests), pendingRequests)
      decreases |replies|
    {
      if replies == [] {
        return;
      }
      if replies[0].call in calls {
        OnRequestResponse(replies[0].call, replies[0].allowed);
      }
      DeliverReplies(replies[1..]);
    }

    method AskDelegate(id: int, permission: PermissionType, replies: seq<Reply>)
      requires Valid() && id in pendingRequests && AllAnswerable(Ask(Abs(), id, permission), replies)
      modifies this, resultCache, pendingRequests.Values
      ensures Valid() && Abs() == Deliver(Ask(old(Abs()), id, permission), replies)
      ensures Narrowed(old(pendingRequests), pendingRequests)
    {
      var request := pendingRequests[id];
      assert TableOf(pendingRequests)[id] == request.Value();
      calls := calls + {Call(id, request.frame, request.requestingOrigin, permission)};
      DeliverReplies(replies);
    }

    /** The body of the delegation loop. */
    method DelegatePermission(id: int, permission: PermissionType, hasDelegate: bool, replies: seq<Reply>)
      requires Valid() && TurnIsSafe(Abs(), id, permission, replies)
      modifies this, resultCache, pendingRequests.Values
      ensures Valid() && Abs() == DelegateOne(old(Abs()), id, permission, hasDelegate, replies)
      ensures Narrowed(old(pendingRequests), pendingRequests)
    {
      if !hasDelegate {
        DecideRaw(id, permission, DENIED);
        return;
      }
      match permission {
        case GEOLOCATION | PROTECTED_MEDIA_IDENTIFIER | MIDI_SYSEX =>
          AskDelegate(id, permission, replies);
        case AUDIO_CAPTURE | VIDEO_CAPTURE | NOTIFICATIONS | PUSH_MESSAGING | DURABLE_STORAGE | BACKGROUND_SYNC | FLASH =>
          DecideRaw(id, permission, DENIED);
        case MIDI =>
          DecideRaw(id, permission, GRANTED);
        case NUM =>
          DecideRaw(id, permission, DENIED);
      }
    }

    /** Puts a new request, with what it takes over from others, into the table. */
    method AddPending(permissions: seq<PermissionType>, frame: int, origin: Gurl, embedding: Gurl)
      returns (request: PendingRequest, shouldDelegate: seq<bool>)
      requires Valid() && Distinct(permissions) && nextId !in pendingRequests && MatchesAgree(Abs().table, origin)
      modifies this`pendingRequests, this`nextId
      ensures Valid() && Abs() == AddRequest(old(Abs()), permissions, origin, embedding, frame)
      ensures fresh(request) && pendingRequests.Values <= old(pendingRequests.Values) + {request}
      ensures |shouldDelegate| == |permissions| && FlagsAreRight(shouldDelegate, old(Abs()).table, origin, permissions)
    {
      request, shouldDelegate := NewRequest(pendingRequests, permissions, frame, origin, embedding, TableOf(pendingRequests));
      InsertRequest(request);
    }

    method InsertRequest(request: PendingRequest)
      requires Valid() && nextId !in pendingRequests && request.Valid() && request !in pendingRequests.Values
      modifies this`pendingRequests, this`nextId
      ensures Valid() && pendingRequests.Values <= old(pendingRequests.Values) + {request}
      ensures Abs() == old(Abs()).(table := old(Abs()).table[old(nextId) := request.Value()], nextId := old(nextId) + 1)
    {
      InsertedTable(pendingRequests, nextId, request);
      pendingRequests := pendingRequests[nextId := request];
      nextId := nextId + 1;
    }

    method DelegateAll(id: int, permissions: seq<PermissionType>, shouldDelegate: seq<bool>, hasDelegate: bool,
                       script: seq<seq<Reply>>, ghost todo: set<PermissionType>)
      requires Valid() && |shouldDelegate| == |permissions|
      requires forall i | 0 <= i < |permissions| :: shouldDelegate[i] <==> permissions[i] in todo
      requires NeverDangles(Abs(), id, permissions, 0, todo, hasDelegate, script)
      modifies this, resultCache, pendingRequests.Values
      ensures Valid() && Abs() == DelegateFrom(old(Abs()), id, permissions, 0, todo, hasDelegate, script)
      ensures Narrowed(old(pendingRequests), pendingRequests)
    {
      for i := 0 to |permissions|
        invariant Valid() && Narrowed(old(pendingRequests), pendingRequests)
        invariant NeverDangles(Abs(), id, permissions, i, todo, hasDelegate, script)
        invariant DelegateFrom(Abs(), id, permissions, i, todo, hasDelegate, script)
               == DelegateFrom(old(Abs()), id, permissions, 0, todo, hasDelegate, script)
      {
        if !shouldDelegate[i] {
          continue;
        }
        DelegatePermission(id, permissions[i], hasDelegate, if i < |script| then script[i] else []);
      }
    }

    /** The two checks after the delegation loop: gone already, or complete without any answer. */
    method FinishRequest(requestId: int) returns (id: int)
      requires Valid() && requestId !in dropped && (requestId in pendingRequests ==> requestId !in answered)
      modifies this`pendingRequests, this`answered
      ensures Valid() && (Abs(), id) == Finish(old(Abs()), requestId)
      ensures Narrowed(old(pendingRequests), pendingRequests)
    {
      if requestId !in pendingRequests {
        return NO_PENDING_OPERATION;
      }
      var request := pendingRequests[requestId];
      request.ValueMeaning();
      assert Abs().table[requestId] == request.Value();
      if request.IsCompleted() {
        var results := request.results;
        RemoveOne(requestId);
        RunCallback(requestId, results);
        return NO_PENDING_OPERATION;
      }
      return requestId;
    }

    method RemoveOne(requestId: int)
      requires Valid()
      modifies this`pendingRequests
      ensures Valid() && Abs() == old(Abs()).(table := old(Abs()).table - {requestId})
      ensures Narrowed(old(pendingRequests), pendingRequests)
    {
      ghost var table := TableOf(pendingRequests);
      pendingRequests := pendingRequests - {requestId};
      TableNarrows(table, {requestId});
    }

    method RequestSome(permissions: seq<PermissionType>, frame: int, origin: Gurl, embedding: Gurl,
                       delegates: set<int>, script: seq<seq<Reply>>)
      returns (id: int)
      requires Valid() && Distinct(permissions) && ReadyFor(Abs(), permissions, frame, origin, embedding, delegates, script)
      modifies this, resultCache, pendingRequests.Values
      ensures Valid()
      ensures (Abs(), id) == Finish(AfterDelegation(old(Abs()), permissions, frame, origin, embedding, delegates, script), old(nextId))
    {
      ghost var todo := Delegating(Abs().table, origin, permissions);
      var requestId := nextId;
      var _, shouldDelegate := AddPending(permissions, frame, origin, embedding);
      DelegateAll(requestId, permissions, shouldDelegate, frame in delegates, script, todo);
      id := FinishRequest(requestId);
    }

    /** `delegates` are the frames with a delegate; `script` is what it answers before its calls return. */
    method RequestPermissions(permissions: seq<PermissionType>, frame: int, origin: Gurl, embedding: Gurl,
                              delegates: set<int>, script: seq<seq<Reply>>)
      returns (id: int)
      requires Valid() && AtRest(Abs()) && Distinct(permissions)
      modifies this, resultCache, pendingRequests.Values
      ensures Valid() && AtRest(Abs())
      ensures (Abs(), id) == PermissionModel.RequestPermissions(old(Abs()), permissions, frame, origin, embedding, delegates, script)
    {
      RequestOutcome(Abs(), permissions, frame, origin, embedding, delegates, script);
      if permissions == [] {
        emptyRuns := emptyRuns + 1;
        return NO_PENDING_OPERATION;
      }
      AtRestIsReady(Abs(), permissions, frame, origin, embedding, delegates, script);
      id := RequestSome(permissions, frame, origin, embedding, delegates, script);
    }

    /** One permission of a request being cancelled. */
    method CancelPermission(id: int, permission: PermissionType, hasDelegate: bool)
      requires Valid() && id in pendingRequests && permission in pendingRequests[id].permissions
      modifies this`calls, this`verdicts, pendingRequests[id]
      ensures Valid() && Abs() == CancelOne(old(Abs()), id, permission, hasDelegate)
    {
      var request := pendingRequests[id];
      assert Abs().table[id] == request.Value();
      if request.IsCompletedFor(permission) {
        return;
      }
      var shouldNotCancel := FindOtherWaiting(pendingRequests, id, permission);
      if shouldNotCancel {
        return;
      }
      match permission {
        case GEOLOCATION | PROTECTED_MEDIA_IDENTIFIER | MIDI_SYSEX =>
          if hasDelegate {
            calls := calls - Withdrawn(calls, request.frame, request.requestingOrigin, permission);
          }
        case NOTIFICATIONS | PUSH_MESSAGING | DURABLE_STORAGE | AUDIO_CAPTURE | VIDEO_CAPTURE | BACKGROUND_SYNC | FLASH =>
        case MIDI =>
        case NUM =>
      }
      assert TableOf(pendingRequests) == old(TableOf(pendingRequests));
      DecideRaw(id, permission, DENIED);
    }

    method CancelAll(id: int, hasDelegate: bool)
      requires Valid() && id in pendingRequests
      modifies this`calls, this`verdicts, pendingRequests[id]
      ensures Valid() && Abs() == CancelFrom(old(Abs()), id, pendingRequests[id].permissions, 0, hasDelegate)
    {
      var permissions := pendingRequests[id].permissions;
      for i := 0 to |permissions|
        invariant Valid()
        invariant CancelFrom(Abs(), id, permissions, i, hasDelegate) == CancelFrom(old(Abs()), id, permissions, 0, hasDelegate)
      {
        CancelPermission(id, permissions[i], hasDelegate);
      }
    }

    /** Marks a request and forgets the cached results of its permissions. */
    method Mark(id: int)
      requires Valid() && id in pendingRequests
      modifies resultCache, this`history, pendingRequests[id]
      ensures Valid() && Abs() == MarkCancelled(old(Abs()), id)
    {
      MarkEntry(id);
      Forget(id);
    }

    method MarkEntry(id: int)
      requires Valid() && id in pendingRequests
      modifies pendingRequests[id]
      ensures Valid() && Abs() == old(Abs()).(table := MarkCancelled(old(Abs()), id).table)
    {
      CancelEntry(pendingRequests, id);
    }

    method Forget(id: int)
      requires Valid() && id in pendingRequests
      modifies resultCache, this`history
      ensures Valid() && Abs() == old(Abs()).(history := old(Abs()).history + ClearEvents(old(Abs()).table[id]))
    {
      assert Abs().table[id] == pendingRequests[id].Value();
      ClearAll(pendingRequests[id]);
    }

    method ClearAll(request: PendingRequest)
      requires request.Valid() && resultCache.pmiResultCache == CacheOf(history)
      modifies resultCache, this`history
      ensures resultCache.pmiResultCache == CacheOf(history)
      ensures history == old(history) + ClearEvents(request.Value())
    {
      ghost var events := ClearEvents(request.Value());
      for i := 0 to |request.permissions|
        invariant resultCache.pmiResultCache == CacheOf(history)
        invariant history == old(history) + events[..i]
      {
        OneMoreEvent(events, i);
        CacheClear(request.permissions[i], request.requestingOrigin, request.embeddingOrigin);
      }
      assert events[..|request.permissions|] == events;
    }

    method RemoveIfComplete(id: int)
      requires Valid() && id in pendingRequests
      modifies this`pendingRequests, this`dropped
      ensures Valid() && Abs() == DropIfComplete(old(Abs()), id)
      ensures Narrowed(old(pendingRequests), pendingRequests)
    {
      ghost var table := TableOf(pendingRequests);
      pendingRequests[id].ValueMeaning();
      assert table[id] == pendingRequests[id].Value();
      if pendingRequests[id].IsCompleted() {
        pendingRequests := pendingRequests - {id};
        dropped := dropped + {id};
        assert TableOf(pendingRequests) == table - {id};
      }
    }

    method CancelPermissionRequest(id: int, delegates: set<int>)
      requires Valid()
      modifies this, resultCache, pendingRequests.Values
      ensures Valid() && Abs() == PermissionModel.CancelPermissionRequest(old(Abs()), id, delegates)
      ensures Narrowed(old(pendingRequests), pendingRequests)
    {
      if id !in pendingRequests {
        return;
      }
      assert Abs().table[id] == pendingRequests[id].Value();
      if pendingRequests[id].cancelled {
        return;
      }
      Mark(id);
      CancelAll(id, pendingRequests[id].frame in delegates);
      RemoveIfComplete(id);
    }

    /** Cancels everything pending, in whatever order the table is listed. */
    method CancelPermissionRequests(delegates: set<int>) returns (requestIds: seq<int>)
      requires Valid()
      modifies this, resultCache, pendingRequests.Values
      ensures Elements(requestIds) == old(pendingRequests.Keys)
      ensures Valid() && Abs() == CancelEach(old(Abs()), requestIds, delegates)
    {
      requestIds := ListKeys(pendingRequests.Keys);
      assert requestIds[0..] == requestIds;
      for i := 0 to |requestIds|
        invariant Valid() && Narrowed(old(pendingRequests), pendingRequests)
        invariant CancelEach(Abs(), requestIds[i..], delegates) == CancelEach(old(Abs()), requestIds, delegates)
      {
        assert requestIds[i..][1..] == requestIds[i + 1..];
        CancelPermissionRequest(requestIds[i], delegates);
      }
    }

    method ResetPermission(permission: PermissionType, origin: Gurl, embedding: Gurl)
      requires Valid()
      modifies resultCache, this`history
      ensures Valid() && Abs() == PermissionModel.ResetPermission(old(Abs()), permission, origin, embedding)
    {
      CacheClear(permission, origin, embedding);
      assert TableOf(pendingRequests) == old(TableOf(pendingRequests));
    }

    method GetPermissionStatus(permission: PermissionType, origin: Gurl, embedding: Gurl) returns (status: Status)
      requires Valid()
      ensures status == PermissionModel.GetPermissionStatus(Abs(), permission, origin, embedding)
    {
      if permission == PROTECTED_MEDIA_IDENTIFIER {
        status := resultCache.GetResult(permission, origin, embedding);
      } else if permission == MIDI {
        status := GRANTED;
      } else {
        status := DENIED;
      }
    }
  }

  /** What the invariant gives a new request. */
  ghost predicate ReadyFor(s: State, permissions: seq<PermissionType>, frame: int, origin: Gurl, embedding: Gurl,
                           delegates: set<int>, script: seq<seq<Reply>>) {
    && s.nextId !in s.table
    && MatchesAgree(s.table, origin)
    && NeverDangles(AddRequest(s, permissions, origin, embedding, frame), s.nextId, permissions, 0,
                    Delegating(s.table, origin, permissions), frame in delegates, script)
    && var t := AfterDelegation(s, permissions, frame, origin, embedding, delegates, script);
       s.nextId !in t.dropped && (s.nextId in t.table ==> s.nextId !in t.answered)
  }

  lemma AtRestIsReady(s: State, permissions: seq<PermissionType>, frame: int, origin: Gurl, embedding: Gurl,
                      delegates: set<int>, script: seq<seq<Reply>>)
    requires AtRest(s) && Distinct(permissions) && permissions != []
    ensures ReadyFor(s, permissions, frame, origin, embedding, delegates, script)
  {
    DelegationLoopEnds(s, permissions, frame, origin, embedding, delegates, script);
    TogetherMeansAgree(s, origin);
  }

  lemma InsertedTable(before: RequestsMap, id: int, request: PendingRequest)
    requires ValidRequests(before) && id !in before && request.Valid() && request !in before.Values
    ensures var after := before[id := request];
      && ValidRequests(after) && TableOf(after) == TableOf(before)[id := request.Value()]
      && after.Values <= before.Values + {request}
  {
    assert forall k | k in before :: before[k] in before.Values;
  }

  /** The keys of the table in the order an iterator meets them. */
  method ListKeys(keys: set<int>) returns (list: seq<int>)
    ensures Elements(list) == keys
  {
    list := [];
    var unseen := keys;
    while unseen != {}
      invariant unseen <= keys
      invariant forall k :: k in list <==> k in keys && k !in unseen
    {
      var k := NextKey(unseen);
      list := list + [k];
      unseen := unseen - {k};
    }
    SameElements(list, keys);
  }

  // ----- Taking over decisions -----

  /** All requests on a key agree with the one the model picks. */
  ghost predicate MatchesAgree(table: Table, origin: Gurl) {
    forall k, p {:trigger table[k].Shares(origin, p)} | k in table && table[k].Shares(origin, p) ::
      AgreesWithMatch(table, origin, k, p)
  }

  ghost predicate AgreesWithMatch(table: Table, origin: Gurl, k: int, p: PermissionType)
    requires k in table
  {
    && HasMatch(table, origin, p)
    && (p in table[k].decided <==> Known(table, origin, p))
    && (p in table[k].decided ==> table[k].decided[p] == KnownStatus(table, origin, p))
  }

  lemma TogetherMeansAgree(s: State, origin: Gurl)
    requires Together(s.table) && FollowsVerdicts(s.table, s.verdicts)
    ensures MatchesAgree(s.table, origin)
  {
    forall k, p | k in s.table && s.table[k].Shares(origin, p) ensures AgreesWithMatch(s.table, origin, k, p) {
      AnyMatchAgrees(s, k, origin, p);
    }
  }

  ghost function TakeOver(table: Table, origin: Gurl, r: Request, p: PermissionType): Request {
    if Known(table, origin, p) then r.Decide(p, KnownStatus(table, origin, p)) else r
  }

  lemma InheritOneMore(table: Table, origin: Gurl, permissions: seq<PermissionType>, i: nat)
    requires i < |permissions| && Distinct(permissions)
    ensures permissions[i] !in Inherited(table, origin, permissions[..i])
    ensures Inherited(table, origin, permissions[..i + 1])
         == if Known(table, origin, permissions[i])
            then Inherited(table, origin, permissions[..i])[permissions[i] := KnownStatus(table, origin, permissions[i])]
            else Inherited(table, origin, permissions[..i])
  {
    assert permissions[..i + 1] == permissions[..i] + [permissions[i]];
  }

  /** Looks one permission up among the pending requests, and says whether nobody is asking for it yet. */
  method CoalesceOne(pending: RequestsMap, request: PendingRequest, permission: PermissionType, ghost table: Table)
    returns (delegate: bool)
    requires ValidRequests(pending) && TableOf(pending) == table && request.Valid() && request !in pending.Values
    requires request.Value().Waits(permission) && MatchesAgree(table, request.requestingOrigin)
    modifies request
    ensures ValidRequests(pending) && TableOf(pending) == table && request.Valid()
    ensures request.Value() == TakeOver(table, request.requestingOrigin, old(request.Value()), permission)
    ensures delegate <==> !HasMatch(table, request.requestingOrigin, permission)
  {
    var found, at := FindMatch(pending, request.requestingOrigin, permission);
    if !found {
      return true;
    }
    assert AgreesWithMatch(table, request.requestingOrigin, at, permission);
    CopyDecision(request, pending[at], permission);
    assert forall k | k in pending :: pending[k] != request;
    return false;
  }

  /** Copies what another request has decided about a permission, if it has. */
  method CopyDecision(request: PendingRequest, other: PendingRequest, permission: PermissionType)
    requires request != other && request.Valid() && other.Valid() && request.Value().Waits(permission)
    modifies request
    ensures request.Valid()
    ensures request.Value() == if permission in old(other.Value()).decided
                               then old(request.Value()).Decide(permission, old(other.Value()).decided[permission])
                               else old(request.Value())
  {
    if other.IsCompletedFor(permission) {
      var status := other.GetPermissionStatus(permission);
      request.ValueMeaning();
      request.SetPermissionStatus(permission, status);
    }
  }

  ghost predicate FlagsAreRight(flags: seq<bool>, table: Table, origin: Gurl, permissions: seq<PermissionType>) {
    |flags| <= |permissions|
    && forall j | 0 <= j < |flags| :: flags[j] <==> permissions[j] in Delegating(table, origin, permissions)
  }

  lemma OneMoreFlag(flags: seq<bool>, flag: bool, table: Table, origin: Gurl, permissions: seq<PermissionType>)
    requires FlagsAreRight(flags, table, origin, permissions) && |flags| < |permissions|
    requires flag <==> !HasMatch(table, origin, permissions[|flags|])
    ensures FlagsAreRight(flags + [flag], table, origin, permissions)
  {
  }

  /** Which permissions have to be delegated; decisions of others on the same keys are taken over. */
  method Coalesce(pending: RequestsMap, request: PendingRequest, ghost table: Table) returns (shouldDelegate: seq<bool>)
    requires ValidRequests(pending) && TableOf(pending) == table && request.Valid() && request !in pending.Values
    requires request.Value().decided == map[] && MatchesAgree(table, request.requestingOrigin)
    modifies request
    ensures request.Valid()
    ensures request.Value() == old(request.Value()).(decided := Inherited(table, request.requestingOrigin, request.permissions))
    ensures |shouldDelegate| == |request.permissions|
    ensures FlagsAreRight(shouldDelegate, table, request.requestingOrigin, request.permissions)
  {
    ghost var value := request.Value();
    var permissions := request.permissions;
    shouldDelegate := [];
    for i := 0 to |permissions|
      invariant ValidRequests(pending) && TableOf(pending) == table
      invariant request.Valid()
      invariant request.Value() == value.(decided := Inherited(table, request.requestingOrigin, permissions[..i]))
      invariant |shouldDelegate| == i
      invariant FlagsAreRight(shouldDelegate, table, request.requestingOrigin, permissions)
    {
      InheritOneMore(table, request.requestingOrigin, permissions, i);
      var delegate := CoalesceOne(pending, request, permissions[i], table);
      OneMoreFlag(shouldDelegate, delegate, table, request.requestingOrigin, permissions);
      shouldDelegate := shouldDelegate + [delegate];
    }
    assert permissions[..|permissions|] == permissions;
  }

  /** Builds a request and lets it take over what others on its keys have decided. */
  method NewRequest(pending: RequestsMap, permissions: seq<PermissionType>, frame: int, origin: Gurl, embedding: Gurl,
                    ghost table: Table)
    returns (request: PendingRequest, shouldDelegate: seq<bool>)
    requires ValidRequests(pending) && TableOf(pending) == table && Distinct(permissions) && MatchesAgree(table, origin)
    ensures fresh(request) && request.Valid() && request !in pending.Values
    ensures request.Value() == Request(permissions, origin, embedding, frame, Inherited(table, origin, permissions), false)
    ensures |shouldDelegate| == |permissions| && FlagsAreRight(shouldDelegate, table, origin, permissions)
  {
    request := new PendingRequest(permissions, origin, embedding, frame);
    assert TableOf(pending) == table;
    shouldDelegate := Coalesce(pending, request, table);
  }

  method CancelEntry(pending: RequestsMap, id: int)
    requires ValidRequests(pending) && id in pending
    modifies pending[id]
    ensures ValidRequests(pending)
    ensures TableOf(pending) == old(TableOf(pending))[id := old(TableOf(pending))[id].(cancelled := true)]
  {
    ghost var table := TableOf(pending);
    assert table[id] == pending[id].Value();
    pending[id].Cancel();
    assert forall k | k in pending && k != id :: pending[k].Value() == table[k];
  }

  method DecideEntry(pending: RequestsMap, id: int, permission: PermissionType, status: Status)
    requires ValidRequests(pending) && id in pending && TableOf(pending)[id].Waits(permission)
    modifies pending[id]
    ensures ValidRequests(pending)
    ensures TableOf(pending) == old(TableOf(pending))[id := old(TableOf(pending))[id].Decide(permission, status)]
  {
    ghost var table := TableOf(pending);
    assert table[id] == pending[id].Value();
    pending[id].ValueMeaning();
    pending[id].SetPermissionStatus(permission, status);
    TableIs(pending, table[id := table[id].Decide(permission, status)]);
  }

  lemma TableIs(pending: RequestsMap, table: Table)
    requires ValidRequests(pending) && pending.Keys == table.Keys && forall k | k in pending :: pending[k].Value() == table[k]
    ensures TableOf(pending) == table
  {
    assert TableOf(pending).Keys == table.Keys;
    assert forall k | k in table :: TableOf(pending)[k] == table[k];
  }
}
