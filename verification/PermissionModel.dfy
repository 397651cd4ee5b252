/**
 The permission broker as a state machine: a table of pending requests, the delegate calls
 still unanswered, and what has become of every request so far. The classes of module
 PermissionManager are proved to follow these functions.
 */
module PermissionModel {
  import opened PermissionTypes
  import opened ResultCache

  const NO_PENDING_OPERATION: int := -1

  datatype Request = Request(
    permissions: seq<PermissionType>,
    requestingOrigin: Gurl,
    embeddingOrigin: Gurl,
    frame: int,
    decided: map<PermissionType, Status>,
    cancelled: bool)
  {
    predicate Shares(origin: Gurl, permission: PermissionType) {
      requestingOrigin == origin && permission in permissions
    }

    predicate Waits(permission: PermissionType) {
      permission in permissions && permission !in decided
    }

    predicate Complete() {
      forall permission | permission in permissions :: permission in decided
    }

    function Decide(permission: PermissionType, status: Status): Request {
      this.(decided := decided[permission := status])
    }

    /** What the callback is given; entries not decided hold the initial value. */
    function Results(): seq<Status> {
      seq(|permissions|, i requires 0 <= i < |permissions| =>
        if permissions[i] in decided then decided[permissions[i]] else DENIED)
    }
  }

  type Table = map<int, Request>

  datatype Key = Key(origin: Gurl, permission: PermissionType)

  /** A question the delegate of a frame has been asked and has not answered. */
  datatype Call = Call(id: int, frame: int, origin: Gurl, permission: PermissionType)

  datatype Reply = Reply(call: Call, allowed: bool)

  /**
   `answered` holds the results each callback was run with, `dropped` the requests that left
   the table without a callback, `verdicts` the last decision taken on a key by anyone
   (delegate, built-in policy or cancellation), `emptyRuns` the callbacks of empty requests.
   */
  datatype State = State(
    table: Table,
    nextId: int,
    calls: set<Call>,
    answered: map<int, seq<Status>>,
    dropped: set<int>,
    verdicts: map<Key, Status>,
    history: seq<CacheEvent>,
    emptyRuns: nat)

  const INITIAL: State := State(map[], 1, {}, map[], {}, map[], [], 0)

  // ----- A delegate's answer -----

  function StatusOf(allowed: bool): Status {
    if allowed then GRANTED else DENIED
  }

  function Touch(table: Table, origin: Gurl, permission: PermissionType, status: Status): Table {
    map k | k in table :: if table[k].Shares(origin, permission) then table[k].Decide(permission, status) else table[k]
  }

  function Done(table: Table, origin: Gurl, permission: PermissionType): set<int> {
    set k | k in table && table[k].Shares(origin, permission) && table[k].Complete()
  }

  /** The completed requests whose callbacks are run, with what they are given. */
  function AnswersOf(table: Table, done: set<int>): map<int, seq<Status>>
    requires done <= table.Keys
  {
    map k | k in done && !table[k].cancelled :: table[k].Results()
  }

  /** The completed requests nobody is told about. */
  function CancelledOf(table: Table, done: set<int>): set<int>
    requires done <= table.Keys
  {
    set k | k in done && table[k].cancelled
  }

  /** What is noted down when an answer arrives. */
  function Record(s: State, call: Call, maker: Request, status: Status): State {
    s.(calls := s.calls - {call},
       verdicts := s.verdicts[Key(maker.requestingOrigin, call.permission) := status],
       history := s.history + [Answered(call.permission, maker.requestingOrigin, maker.embeddingOrigin, status)])
  }

  /** Handing a decision to every request on the key, and letting the completed ones go. */
  function HandOut(s: State, origin: Gurl, permission: PermissionType, status: Status): State {
    var touched := Touch(s.table, origin, permission, status);
    var done := Done(touched, origin, permission);
    s.(table := touched - done,
       answered := s.answered + AnswersOf(touched, done),
       dropped := s.dropped + CancelledOf(touched, done))
  }

  function OnResponse(s: State, call: Call, allowed: bool): State
    requires call.id in s.table
  {
    var maker, status := s.table[call.id], StatusOf(allowed);
    HandOut(Record(s, call, maker, status), maker.requestingOrigin, call.permission, status)
  }

  /** The delegate answers some of its outstanding calls, in the order it likes. */
  function Deliver(s: State, replies: seq<Reply>): State
    decreases |replies|
  {
    if replies == [] then s
    else
      var first := replies[0];
      Deliver(if first.call in s.calls && first.call.id in s.table then OnResponse(s, first.call, first.allowed) else s,
              replies[1..])
  }

  // ----- A new request -----

  ghost predicate HasMatch(table: Table, origin: Gurl, permission: PermissionType) {
    exists k :: k in table && table[k].Shares(origin, permission)
  }

  ghost function Match(table: Table, origin: Gurl, permission: PermissionType): (k: int)
    requires HasMatch(table, origin, permission)
    ensures k in table && table[k].Shares(origin, permission)
  {
    var k :| k in table && table[k].Shares(origin, permission);
    k
  }

  /** Somebody pending on the key has its decision already. */
  ghost predicate Known(table: Table, origin: Gurl, permission: PermissionType) {
    HasMatch(table, origin, permission) && permission in table[Match(table, origin, permission)].decided
  }

  ghost function KnownStatus(table: Table, origin: Gurl, permission: PermissionType): Status
    requires Known(table, origin, permission)
  {
    table[Match(table, origin, permission)].decided[permission]
  }

  /** The decisions a new request takes over from some pending request on the same key. */
  ghost function Inherited(table: Table, origin: Gurl, permissions: seq<PermissionType>): map<PermissionType, Status> {
    map p | p in permissions && Known(table, origin, p) :: KnownStatus(table, origin, p)
  }

  /** The permissions nobody else is asking about. */
  ghost function Delegating(table: Table, origin: Gurl, permissions: seq<PermissionType>): set<PermissionType> {
    set p | p in permissions && !HasMatch(table, origin, p)
  }

  ghost function AddRequest(s: State, permissions: seq<PermissionType>, origin: Gurl, embedding: Gurl, frame: int): State {
    s.(table := s.table[s.nextId := Request(permissions, origin, embedding, frame, Inherited(s.table, origin, permissions), false)],
       nextId := s.nextId + 1)
  }

  function DecideLocally(s: State, id: int, permission: PermissionType, status: Status): State
    requires id in s.table
  {
    s.(table := s.table[id := s.table[id].Decide(permission, status)],
       verdicts := s.verdicts[Key(s.table[id].requestingOrigin, permission) := status])
  }

  function Ask(s: State, id: int, permission: PermissionType): State
    requires id in s.table
  {
    s.(calls := s.calls + {Call(id, s.table[id].frame, s.table[id].requestingOrigin, permission)})
  }

  /** One turn of the delegation loop for a permission that has to be delegated. */
  function DelegateOne(s: State, id: int, permission: PermissionType, hasDelegate: bool, replies: seq<Reply>): State
    requires id in s.table
  {
    if !hasDelegate then DecideLocally(s, id, permission, DENIED)
    else if permission.IsDelegated() then Deliver(Ask(s, id, permission), replies)
    else if permission.MIDI? then DecideLocally(s, id, permission, GRANTED)
    else DecideLocally(s, id, permission, DENIED)
  }

  function RepliesAt(script: seq<seq<Reply>>, i: nat): seq<Reply> {
    if i < |script| then script[i] else []
  }

  function DelegateFrom(s: State, id: int, permissions: seq<PermissionType>, i: nat, todo: set<PermissionType>,
                        hasDelegate: bool, script: seq<seq<Reply>>): State
    requires i <= |permissions|
    decreases |permissions| - i
  {
    if i == |permissions| then s
    else if permissions[i] !in todo || id !in s.table
    then DelegateFrom(s, id, permissions, i + 1, todo, hasDelegate, script)
    else DelegateFrom(DelegateOne(s, id, permissions[i], hasDelegate, RepliesAt(script, i)),
                      id, permissions, i + 1, todo, hasDelegate, script)
  }

  function Finish(s: State, id: int): (State, int) {
    if id !in s.table then (s, NO_PENDING_OPERATION)
    else if s.table[id].Complete()
    then (s.(table := s.table - {id}, answered := s.answered[id := s.table[id].Results()]), NO_PENDING_OPERATION)
    else (s, id)
  }

  /**
   `delegates` are the frames that have a delegate; `script[i]` are the answers given before the
   i-th delegate call returns.
   */
  ghost function RequestPermissions(s: State, permissions: seq<PermissionType>, frame: int, origin: Gurl, embedding: Gurl,
                                    delegates: set<int>, script: seq<seq<Reply>>): (State, int) {
    if permissions == [] then (s.(emptyRuns := s.emptyRuns + 1), NO_PENDING_OPERATION)
    else
      var todo := Delegating(s.table, origin, permissions);
      var added := AddRequest(s, permissions, origin, embedding, frame);
      Finish(DelegateFrom(added, s.nextId, permissions, 0, todo, frame in delegates, script), s.nextId)
  }

  // ----- Cancellation -----

  ghost predicate OtherWaits(table: Table, id: int, origin: Gurl, permission: PermissionType) {
    exists k :: k in table && k != id && table[k].requestingOrigin == origin && table[k].Waits(permission)
  }

  /** The calls a frame's delegate gives up when told to cancel a permission for an origin. */
  function Withdrawn(calls: set<Call>, frame: int, origin: Gurl, permission: PermissionType): set<Call> {
    set call | call in calls && call.frame == frame && call.origin == origin && call.permission == permission
  }

  ghost function CancelOne(s: State, id: int, permission: PermissionType, hasDelegate: bool): State
    requires id in s.table
  {
    var r := s.table[id];
    if permission in r.decided || OtherWaits(s.table, id, r.requestingOrigin, permission) then s
    else
      var calls := if hasDelegate && permission.IsDelegated()
                   then s.calls - Withdrawn(s.calls, r.frame, r.requestingOrigin, permission) else s.calls;
      DecideLocally(s, id, permission, DENIED).(calls := calls)
  }

  ghost function CancelFrom(s: State, id: int, permissions: seq<PermissionType>, i: nat, hasDelegate: bool): (t: State)
    requires i <= |permissions| && id in s.table
    ensures id in t.table
    decreases |permissions| - i
  {
    if i == |permissions| then s
    else CancelFrom(CancelOne(s, id, permissions[i], hasDelegate), id, permissions, i + 1, hasDelegate)
  }

  function ClearEvents(r: Request): seq<CacheEvent> {
    seq(|r.permissions|, i requires 0 <= i < |r.permissions| =>
      Cleared(r.permissions[i], r.requestingOrigin, r.embeddingOrigin))
  }

  function MarkCancelled(s: State, id: int): State
    requires id in s.table
  {
    s.(table := s.table[id := s.table[id].(cancelled := true)],
       history := s.history + ClearEvents(s.table[id]))
  }

  function DropIfComplete(s: State, id: int): State
    requires id in s.table
  {
    if s.table[id].Complete() then s.(table := s.table - {id}, dropped := s.dropped + {id}) else s
  }

  ghost function CancelPermissionRequest(s: State, id: int, delegates: set<int>): State {
    if id !in s.table || s.table[id].cancelled then s
    else
      var r := s.table[id];
      var marked := MarkCancelled(s, id);
      DropIfComplete(CancelFrom(marked, id, r.permissions, 0, r.frame in delegates), id)
  }

  ghost function CancelEach(s: State, ids: seq<int>, delegates: set<int>): State
    decreases |ids|
  {
    if ids == [] then s else CancelEach(CancelPermissionRequest(s, ids[0], delegates), ids[1..], delegates)
  }

  function ResetPermission(s: State, permission: PermissionType, origin: Gurl, embedding: Gurl): State {
    s.(history := s.history + [Cleared(permission, origin, embedding)])
  }

  function GetPermissionStatus(s: State, permission: PermissionType, origin: Gurl, embedding: Gurl): Status {
    if permission.PROTECTED_MEDIA_IDENTIFIER? then Find(CacheOf(s.history), permission, origin, embedding)
    else if permission.MIDI? then GRANTED
    else DENIED
  }
}
