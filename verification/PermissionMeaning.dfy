/**
 What the decisions mean: every status a callback gets goes back to one cause, an answer of a
 delegate, a kind nobody is asked about, or a cancellation.
 */
module PermissionMeaning {
  import opened PermissionTypes
  import opened ResultCache
  import opened PermissionModel
  import opened PermissionInvariant
  import opened PermissionRuns
  import opened PermissionAnswers
  import opened PermissionStatus

  // ----- One answer -----

  /**
   After an answer every request on its key, whether it is still in the table or has just been told,
   has that permission granted when the delegate allowed it and denied when it did not.
   */
  lemma ResponseDecides(s: State, call: Call, allowed: bool, id: int, rest: set<PermissionType>, k: int, j: nat)
    requires Consistent(s, id, rest) && call in s.calls && k in s.table && s.table[k].requestingOrigin == call.origin
    requires j < |s.table[k].permissions| && s.table[k].permissions[j] == call.permission
    ensures var t := OnResponse(s, call, allowed);
      && (k in t.table ==> call.permission in t.table[k].decided
                           && t.table[k].decided[call.permission] == if allowed then GRANTED else DENIED)
      && (k in t.answered ==> j < |t.answered[k]| && t.answered[k][j] == if allowed then GRANTED else DENIED)
      && (k in t.table || k in t.answered || (k in t.dropped && s.table[k].cancelled))
  {
    TouchedEntries(s.table, call.origin, call.permission, StatusOf(allowed));
    ResponseRunsAlignedCallbacks(s, call, allowed, id, rest);
  }

  // ----- Why a decision is taken -----

  datatype Cause =
    | Replied(key: Key, allowed: bool)
    | Unasked(key: Key, hasDelegate: bool)
    | CalledOff(key: Key)

  /** The kinds the delegate is asked about. */
  predicate IsAskedAbout(permission: PermissionType) {
    permission in {GEOLOCATION, PROTECTED_MEDIA_IDENTIFIER, MIDI_SYSEX}
  }

  /** The status a cause stands for. */
  function Meant(cause: Cause): Status {
    match cause
    case Replied(_, allowed) => if allowed then GRANTED else DENIED
    case Unasked(key, hasDelegate) => if hasDelegate && key.permission == MIDI then GRANTED else DENIED
    case CalledOff(_) => DENIED
  }

  /** The answers among some replies: those to calls that are outstanding when they come. */
  function RepliesCauses(s: State, replies: seq<Reply>): seq<Cause>
    decreases |replies|
  {
    if replies == [] then []
    else
      var first := replies[0];
      if first.call in s.calls && first.call.id in s.table
      then [Replied(Key(s.table[first.call.id].requestingOrigin, first.call.permission), first.allowed)]
           + RepliesCauses(OnResponse(s, first.call, first.allowed), replies[1..])
      else RepliesCauses(s, replies[1..])
  }

  function TurnCauses(s: State, id: int, permission: PermissionType, hasDelegate: bool, replies: seq<Reply>): seq<Cause>
    requires id in s.table
  {
    if hasDelegate && IsAskedAbout(permission) then RepliesCauses(Ask(s, id, permission), replies)
    else [Unasked(Key(s.table[id].requestingOrigin, permission), hasDelegate)]
  }

  function DelegationCauses(s: State, id: int, permissions: seq<PermissionType>, i: nat, todo: set<PermissionType>,
                            hasDelegate: bool, script: seq<seq<Reply>>): seq<Cause>
    requires i <= |permissions|
    decreases |permissions| - i
  {
    if i == |permissions| then []
    else if permissions[i] !in todo || id !in s.table
    then DelegationCauses(s, id, permissions, i + 1, todo, hasDelegate, script)
    else
      TurnCauses(s, id, permissions[i], hasDelegate, RepliesAt(script, i))
      + DelegationCauses(DelegateOne(s, id, permissions[i], hasDelegate, RepliesAt(script, i)), id, permissions, i + 1, todo, hasDelegate, script)
  }

  /** The permissions a cancellation decides: those undecided that no other request waits for. */
  ghost function CancelCauses(s: State, id: int, permissions: seq<PermissionType>, i: nat, hasDelegate: bool): seq<Cause>
    requires i <= |permissions| && id in s.table
    decreases |permissions| - i
  {
    if i == |permissions| then []
    else
      var r := s.table[id];
      (if permissions[i] !in r.decided && !OtherWaits(s.table, id, r.requestingOrigin, permissions[i])
       then [CalledOff(Key(r.requestingOrigin, permissions[i]))] else [])
      + CancelCauses(CancelOne(s, id, permissions[i], hasDelegate), id, permissions, i + 1, hasDelegate)
  }

  ghost function CausesOf(s: State, step: Step): seq<Cause> {
    match step
    case Submit(permissions, frame, origin, embedding, delegates, script) =>
      if permissions == [] then []
      else DelegationCauses(AddRequest(s, permissions, origin, embedding, frame), s.nextId, permissions, 0,
                            Delegating(s.table, origin, permissions), frame in delegates, script)
    case Answer(reply) => RepliesCauses(s, [reply])
    case Cancel(id, frames) =>
      if id in s.table && !s.table[id].cancelled
      then CancelCauses(MarkCancelled(s, id), id, s.table[id].permissions, 0, s.table[id].frame in frames) else []
    case Reset(_, _, _) => []
  }

  ghost function RunCauses(s: State, steps: seq<Step>): seq<Cause>
    decreases |steps|
  {
    if steps == [] then [] else CausesOf(s, steps[0]) + RunCauses(Next(s, steps[0]), steps[1..])
  }

  // ----- Verdicts follow causes -----

  function Judged(verdicts: map<Key, Status>, causes: seq<Cause>): map<Key, Status>
    decreases |causes|
  {
    if causes == [] then verdicts else Judged(verdicts[causes[0].key := Meant(causes[0])], causes[1..])
  }

  lemma {:induction false} JudgedInTurn(verdicts: map<Key, Status>, causes: seq<Cause>, more: seq<Cause>)
    ensures Judged(verdicts, causes + more) == Judged(Judged(verdicts, causes), more)
    decreases |causes|
  {
    if causes == [] {
      assert causes + more == more;
    } else {
      assert (causes + more)[1..] == causes[1..] + more;
      JudgedInTurn(verdicts[causes[0].key := Meant(causes[0])], causes[1..], more);
    }
  }

  lemma {:induction false} DeliverVerdicts(s: State, replies: seq<Reply>)
    ensures Deliver(s, replies).verdicts == Judged(s.verdicts, RepliesCauses(s, replies))
    decreases |replies|
  {
    if replies != [] {
      var first := replies[0];
      if first.call in s.calls && first.call.id in s.table {
        var next := OnResponse(s, first.call, first.allowed);
        DeliverVerdicts(next, replies[1..]);
        JudgedInTurn(s.verdicts, [Replied(Key(s.table[first.call.id].requestingOrigin, first.call.permission), first.allowed)],
                     RepliesCauses(next, replies[1..]));
      } else {
        DeliverVerdicts(s, replies[1..]);
      }
    }
  }

  lemma TurnVerdicts(s: State, id: int, permission: PermissionType, hasDelegate: bool, replies: seq<Reply>)
    requires id in s.table
    ensures DelegateOne(s, id, permission, hasDelegate, replies).verdicts
         == Judged(s.verdicts, TurnCauses(s, id, permission, hasDelegate, replies))
  {
    if hasDelegate && IsAskedAbout(permission) {
      DeliverVerdicts(Ask(s, id, permission), replies);
    }
  }

  lemma {:induction false} DelegationVerdicts(s: State, id: int, permissions: seq<PermissionType>, i: nat, todo: set<PermissionType>,
                                              hasDelegate: bool, script: seq<seq<Reply>>)
    requires i <= |permissions|
    ensures DelegateFrom(s, id, permissions, i, todo, hasDelegate, script).verdicts
         == Judged(s.verdicts, DelegationCauses(s, id, permissions, i, todo, hasDelegate, script))
    decreases |permissions| - i
  {
    if i < |permissions| {
      if permissions[i] !in todo || id !in s.table {
        DelegationVerdicts(s, id, permissions, i + 1, todo, hasDelegate, script);
      } else {
        var next := DelegateOne(s, id, permissions[i], hasDelegate, RepliesAt(script, i));
        TurnVerdicts(s, id, permissions[i], hasDelegate, RepliesAt(script, i));
        DelegationVerdicts(next, id, permissions, i + 1, todo, hasDelegate, script);
        JudgedInTurn(s.verdicts, TurnCauses(s, id, permissions[i], hasDelegate, RepliesAt(script, i)),
                     DelegationCauses(next, id, permissions, i + 1, todo, hasDelegate, script));
      }
    }
  }

  lemma {:induction false} CancelVerdicts(s: State, id: int, permissions: seq<PermissionType>, i: nat, hasDelegate: bool)
    requires i <= |permissions| && id in s.table
    ensures CancelFrom(s, id, permissions, i, hasDelegate).verdicts
         == Judged(s.verdicts, CancelCauses(s, id, permissions, i, hasDelegate))
    decreases |permissions| - i
  {
    if i < |permissions| {
      var r, next := s.table[id], CancelOne(s, id, permissions[i], hasDelegate);
      var here := if permissions[i] !in r.decided && !OtherWaits(s.table, id, r.requestingOrigin, permissions[i])
                  then [CalledOff(Key(r.requestingOrigin, permissions[i]))] else [];
      CancelVerdicts(next, id, permissions, i + 1, hasDelegate);
      assert next.verdicts == Judged(s.verdicts, here);
      JudgedInTurn(s.verdicts, here, CancelCauses(next, id, permissions, i + 1, hasDelegate));
    }
  }

  lemma StepVerdicts(s: State, step: Step)
    ensures Next(s, step).verdicts == Judged(s.verdicts, CausesOf(s, step))
  {
    match step
    case Submit(permissions, frame, origin, embedding, delegates, script) =>
      if permissions != [] {
        var added := AddRequest(s, permissions, origin, embedding, frame);
        DelegationVerdicts(added, s.nextId, permissions, 0, Delegating(s.table, origin, permissions), frame in delegates, script);
      }
    case Answer(reply) => DeliverVerdicts(s, [reply]);
    case Cancel(id, frames) =>
      if id in s.table && !s.table[id].cancelled {
        CancelVerdicts(MarkCancelled(s, id), id, s.table[id].permissions, 0, s.table[id].frame in frames);
      }
    case Reset(_, _, _) =>
  }

  lemma {:induction false} RunVerdicts(s: State, steps: seq<Step>)
    ensures Run(s, steps).verdicts == Judged(s.verdicts, RunCauses(s, steps))
    decreases |steps|
  {
    if steps != [] {
      StepVerdicts(s, steps[0]);
      RunVerdicts(Next(s, steps[0]), steps[1..]);
      JudgedInTurn(s.verdicts, CausesOf(s, steps[0]), RunCauses(Next(s, steps[0]), steps[1..]));
    }
  }

  /** The last cause on a key. */
  predicate IsLastOn(causes: seq<Cause>, key: Key, c: nat) {
    c < |causes| && causes[c].key == key && forall d | c < d < |causes| :: causes[d].key != key
  }

  lemma {:induction false} JudgedByLast(verdicts: map<Key, Status>, causes: seq<Cause>, key: Key) returns (c: nat)
    requires key !in verdicts && key in Judged(verdicts, causes)
    ensures IsLastOn(causes, key, c) && Judged(verdicts, causes)[key] == Meant(causes[c])
    decreases |causes|
  {
    if causes == [] {
      assert false;
    } else {
      var front, last := causes[..|causes| - 1], causes[|causes| - 1];
      assert causes == front + [last];
      JudgedInTurn(verdicts, front, [last]);
      if last.key == key {
        c := |causes| - 1;
      } else {
        c := JudgedByLast(verdicts, front, key);
      }
    }
  }

  // ----- Every status goes back to its cause -----

  /** Place `j` of the callback of request `k`: what was asked, and the last cause on it when the callback ran. */
  ghost predicate IsCausedBy(steps: seq<Step>, k: int, j: nat, i: nat, c: nat) {
    && i < |steps| && AnsweredBy(Run(INITIAL, steps[..i]), steps[i], k)
    && var r := Askers(Run(INITIAL, steps[..i]), steps[i])[k];
       j < |r.permissions| && IsLastOn(RunCauses(INITIAL, steps[..i + 1]), Key(r.requestingOrigin, r.permissions[j]), c)
  }

  lemma {:induction false} RunOneMore(s: State, steps: seq<Step>, i: nat)
    requires i < |steps|
    ensures Run(s, steps[..i + 1]) == Next(Run(s, steps[..i]), steps[i])
    decreases i
  {
    assert steps[..i + 1][0] == steps[0] && steps[..1][1..] == [];
    if i > 0 {
      assert steps[..i + 1][1..] == steps[1..][..i] && steps[..i][1..] == steps[1..][..i - 1];
      RunOneMore(Next(s, steps[0]), steps[1..], i - 1);
    } else {
      assert Run(Next(s, steps[0]), steps[..1][1..]) == Next(s, steps[0]);
    }
  }

  /**
   Over every run: an entry of a callback is granted exactly when the last thing to decide its key before the
   callback ran was an answer that allowed it, or a request for MIDI in a frame that has a delegate; it is denied
   when that was any other answer, permission or cancellation.
   */
  lemma GrantedIff(steps: seq<Step>, k: int, j: nat) returns (i: nat, c: nat)
    requires LegalRun(INITIAL, steps) && k in Run(INITIAL, steps).answered && j < |Run(INITIAL, steps).answered[k]|
    ensures IsCausedBy(steps, k, j, i, c)
    ensures var cause, status := RunCauses(INITIAL, steps[..i + 1])[c], Run(INITIAL, steps).answered[k][j];
      && (status == GRANTED <==> (cause.Replied? && cause.allowed) || (cause.Unasked? && cause.hasDelegate && cause.key.permission == MIDI))
      && (status == DENIED <==> status != GRANTED)
  {
    assert AtRest(INITIAL);
    i := RunsAnswerAligned(INITIAL, steps, k);
    RunOneMore(INITIAL, steps, i);
    RunVerdicts(INITIAL, steps[..i + 1]);
    var r := Askers(Run(INITIAL, steps[..i]), steps[i])[k];
    c := JudgedByLast(map[], RunCauses(INITIAL, steps[..i + 1]), Key(r.requestingOrigin, r.permissions[j]));
  }

  /** The same for what a pending request has been told so far. */
  lemma DecidedIff(steps: seq<Step>, k: int, permission: PermissionType) returns (c: nat)
    requires LegalRun(INITIAL, steps) && k in Run(INITIAL, steps).table && permission in Run(INITIAL, steps).table[k].decided
    ensures var r, causes := Run(INITIAL, steps).table[k], RunCauses(INITIAL, steps);
      && IsLastOn(causes, Key(r.requestingOrigin, permission), c)
      && r.decided[permission] == Meant(causes[c])
  {
    assert AtRest(INITIAL);
    RunsStayAtRest(INITIAL, steps);
    RunVerdicts(INITIAL, steps);
    c := JudgedByLast(map[], RunCauses(INITIAL, steps), Key(Run(INITIAL, steps).table[k].requestingOrigin, permission));
  }

  // ----- A new request -----

  /** The delegate of the frame is asked about this permission, if there is one. */
  predicate ReachesDelegate(permission: PermissionType, hasDelegate: bool) {
    hasDelegate && IsAskedAbout(permission)
  }

  /** What a permission is given that no delegate is asked about. */
  function OnTheSpot(permission: PermissionType, hasDelegate: bool): Status {
    if hasDelegate && permission == MIDI then GRANTED else DENIED
  }

  /** The key has been decided on the spot, and nobody is asked about it. */
  ghost predicate DecidedOnTheSpot(s: State, key: Key, hasDelegate: bool) {
    && key in s.verdicts && s.verdicts[key] == OnTheSpot(key.permission, hasDelegate)
    && !HasCall(s.calls, key.origin, key.permission)
  }

  lemma {:induction false} DeliverLeavesAlone(s: State, replies: seq<Reply>, id: int, rest: set<PermissionType>, key: Key)
    requires Consistent(s, id, rest) && key in s.verdicts && !HasCall(s.calls, key.origin, key.permission)
    ensures var t := Deliver(s, replies);
      key in t.verdicts && t.verdicts[key] == s.verdicts[key] && !HasCall(t.calls, key.origin, key.permission)
    decreases |replies|
  {
    if replies != [] {
      var first := replies[0];
      if first.call in s.calls {
        var next := OnResponse(s, first.call, first.allowed);
        ResponseKeepsConsistent(s, first.call, first.allowed, id, rest);
        assert forall call | call in next.calls :: call in s.calls;
        DeliverLeavesAlone(next, replies[1..], id, rest, key);
      } else {
        DeliverLeavesAlone(s, replies[1..], id, rest, key);
      }
    }
  }

  lemma TurnDecides(s: State, id: int, permission: PermissionType, hasDelegate: bool, replies: seq<Reply>,
                    rest: set<PermissionType>, key: Key)
    requires Consistent(s, id, rest) && permission in rest && s.table[id].requestingOrigin == key.origin
    requires !ReachesDelegate(key.permission, hasDelegate)
    requires key.permission in rest || DecidedOnTheSpot(s, key, hasDelegate)
    ensures var t := DelegateOne(s, id, permission, hasDelegate, replies);
      key.permission in rest - {permission} || DecidedOnTheSpot(t, key, hasDelegate)
  {
    if key.permission == permission {
      forall call | call in s.calls && call.origin == key.origin && call.permission == permission ensures false {
        assert s.table[call.id].Shares(key.origin, permission);
      }
    } else if key.permission !in rest && ReachesDelegate(permission, hasDelegate) {
      AskKeepsConsistent(s, id, rest, permission);
      DeliverLeavesAlone(Ask(s, id, permission), replies, id, rest - {permission}, key);
    }
  }

  lemma {:induction false} DelegationDecides(base: Table, before: map<int, seq<Status>>, s: State, id: int, permissions: seq<PermissionType>, i: nat,
                                             todo: set<PermissionType>, hasDelegate: bool, script: seq<seq<Reply>>, key: Key)
    requires i <= |permissions| && Distinct(permissions) && !ReachesDelegate(key.permission, hasDelegate)
    requires var rest := Rest(permissions, i, todo);
      && Consistent(s, id, rest) && Delegates(s, id, key.origin, rest) && Telling(base, before, s, key.origin, rest)
      && (key.permission in rest || DecidedOnTheSpot(s, key, hasDelegate))
    ensures DecidedOnTheSpot(DelegateFrom(s, id, permissions, i, todo, hasDelegate, script), key, hasDelegate)
    decreases |permissions| - i
  {
    var rest := Rest(permissions, i, todo);
    if i == |permissions| {
      assert rest == {};
    } else {
      RestShrinks(permissions, i, todo);
      if permissions[i] in todo {
        var next := DelegateOne(s, id, permissions[i], hasDelegate, RepliesAt(script, i));
        DelegateOneKeepsConsistent(s, id, rest, permissions[i], hasDelegate, RepliesAt(script, i));
        DelegateOneTells(base, before, s, id, permissions[i], hasDelegate, RepliesAt(script, i), rest, key.origin);
        TurnDecides(s, id, permissions[i], hasDelegate, RepliesAt(script, i), rest, key);
        DelegationDecides(base, before, next, id, permissions, i + 1, todo, hasDelegate, script, key);
      } else {
        DelegationDecides(base, before, s, id, permissions, i + 1, todo, hasDelegate, script, key);
      }
    }
  }

  /**
   A permission nobody else was asking about, and that the delegate is not asked about, is granted to a new request
   exactly when it is MIDI and the frame has a delegate, and denied otherwise: whatever is answered meanwhile.
   */
  lemma SubmitDecides(s: State, step: Step, j: nat)
    requires AtRest(s) && Legal(s, step) && step.Submit? && j < |step.permissions|
    requires !HasMatch(s.table, step.origin, step.permissions[j])
    requires step.frame !in step.delegates || step.permissions[j] !in {GEOLOCATION, PROTECTED_MEDIA_IDENTIFIER, MIDI_SYSEX}
    ensures var t, p := Next(s, step), step.permissions[j];
      var given := if p == MIDI && step.frame in step.delegates then GRANTED else DENIED;
      && (s.nextId in t.table || s.nextId in t.answered)
      && (s.nextId in t.table ==> p in t.table[s.nextId].decided && t.table[s.nextId].decided[p] == given)
      && (s.nextId in t.answered ==> j < |t.answered[s.nextId]| && t.answered[s.nextId][j] == given)
  {
    var permissions, id, key := step.permissions, s.nextId, Key(step.origin, step.permissions[j]);
    var todo, hasDelegate := Delegating(s.table, step.origin, permissions), step.frame in step.delegates;
    var added := AddRequest(s, permissions, step.origin, step.embedding, step.frame);
    AddedIsReady(s, permissions, step.frame, step.origin, step.embedding);
    assert permissions[0..] == permissions;
    DelegationDecides(added.table, s.answered, added, id, permissions, 0, todo, hasDelegate, step.script, key);
    RequestOutcome(s, permissions, step.frame, step.origin, step.embedding, step.delegates, step.script);
    StepsAnswerAligned(s, step);
    NewRequestStays(s, step);
    var t := Next(s, step);
    assert DecidedOnTheSpot(t, key, hasDelegate);
    if id in t.table {
      assert !t.table[id].Waits(key.permission);
    }
  }

  /**
   Asking for the status of such a permission tells what a request for it in a frame with a delegate is given. Of the others
   only protected media is remembered: geolocation and MIDI SysEx are reported as denied, granted or not.
   */
  lemma StatusTellsWhatIsGiven(s: State, permission: PermissionType, requesting: Gurl, embedding: Gurl)
    ensures permission !in {GEOLOCATION, PROTECTED_MEDIA_IDENTIFIER, MIDI_SYSEX} ==>
      GetPermissionStatus(s, permission, requesting, embedding) == OnTheSpot(permission, true)
    ensures permission in {GEOLOCATION, MIDI_SYSEX} ==> GetPermissionStatus(s, permission, requesting, embedding) == DENIED
  {
  }

  /** The new request, if it is still pending, is the one submitted. */
  lemma NewRequestStays(s: State, step: Step)
    requires AtRest(s) && Legal(s, step) && step.Submit? && step.permissions != []
    ensures var t := Next(s, step);
      s.nextId in t.table ==> t.table[s.nextId].permissions == step.permissions && t.table[s.nextId].requestingOrigin == step.origin
  {
    var todo := Delegating(s.table, step.origin, step.permissions);
    var added := AddRequest(s, step.permissions, step.origin, step.embedding, step.frame);
    AddedIsReady(s, step.permissions, step.frame, step.origin, step.embedding);
    DelegationTells(added.table, s.answered, added, s.nextId, step.permissions, 0, todo, step.frame in step.delegates, step.script, step.origin);
  }

  // ----- What the delegate is asked -----

  /** An answer on this key is among the causes. */
  predicate IsAnswered(causes: seq<Cause>, key: Key) {
    exists c :: 0 <= c < |causes| && causes[c].Replied? && causes[c].key == key
  }

  lemma AnsweredAmong(causes: seq<Cause>, before: seq<Cause>, more: seq<Cause>, key: Key)
    requires causes == before + more && (IsAnswered(before, key) || IsAnswered(more, key))
    ensures IsAnswered(causes, key)
  {
    if IsAnswered(before, key) {
      var c :| 0 <= c < |before| && before[c].Replied? && before[c].key == key;
      assert causes[c] == before[c];
    } else {
      var c :| 0 <= c < |more| && more[c].Replied? && more[c].key == key;
      assert causes[|before| + c] == more[c];
    }
  }

  /** A call is outstanding until an answer comes to it, and none is added by answers. */
  lemma {:induction false} DeliverAnswers(s: State, replies: seq<Reply>, id: int, rest: set<PermissionType>, call: Call)
    requires Consistent(s, id, rest) && call in s.calls
    ensures Deliver(s, replies).calls <= s.calls
    ensures call in Deliver(s, replies).calls || IsAnswered(RepliesCauses(s, replies), Key(call.origin, call.permission))
    decreases |replies|
  {
    if replies != [] {
      var first := replies[0];
      if first.call in s.calls {
        var next := OnResponse(s, first.call, first.allowed);
        ResponseKeepsConsistent(s, first.call, first.allowed, id, rest);
        DeliverLosesCalls(next, replies[1..]);
        if first.call == call {
          assert RepliesCauses(s, replies)[0] == Replied(Key(call.origin, call.permission), first.allowed);
        } else {
          DeliverAnswers(next, replies[1..], id, rest, call);
          if call !in Deliver(s, replies).calls {
            AnsweredAmong(RepliesCauses(s, replies), [RepliesCauses(s, replies)[0]], RepliesCauses(next, replies[1..]), Key(call.origin, call.permission));
          }
        }
      } else {
        DeliverAnswers(s, replies[1..], id, rest, call);
      }
    }
  }

  lemma {:induction false} DeliverLosesCalls(s: State, replies: seq<Reply>)
    ensures Deliver(s, replies).calls <= s.calls
    ensures forall k | k in Deliver(s, replies).table :: k in s.table && Deliver(s, replies).table[k].frame == s.table[k].frame
    decreases |replies|
  {
    if replies != [] {
      var first := replies[0];
      DeliverLosesCalls(if first.call in s.calls && first.call.id in s.table then OnResponse(s, first.call, first.allowed) else s, replies[1..]);
    }
  }

  /** What the delegate of the frame is asked about on behalf of a request with these permissions left. */
  function Asked(id: int, frame: int, origin: Gurl, rest: set<PermissionType>, hasDelegate: bool): set<Call> {
    set p | p in rest && ReachesDelegate(p, hasDelegate) :: Call(id, frame, origin, p)
  }

  ghost predicate IsOutstanding(calls: set<Call>, id: int, frame: int, origin: Gurl, rest: set<PermissionType>, hasDelegate: bool, call: Call) {
    call in calls || call in Asked(id, frame, origin, rest, hasDelegate)
  }

  lemma TurnAsks(s: State, id: int, permission: PermissionType, hasDelegate: bool, replies: seq<Reply>, rest: set<PermissionType>,
                 frame: int, origin: Gurl, call: Call)
    requires Consistent(s, id, rest) && permission in rest && s.table[id].requestingOrigin == origin && s.table[id].frame == frame
    ensures var t := DelegateOne(s, id, permission, hasDelegate, replies);
      && (id in t.table ==> t.table[id].frame == frame)
      && (IsOutstanding(t.calls, id, frame, origin, rest - {permission}, hasDelegate, call) ==>
            IsOutstanding(s.calls, id, frame, origin, rest, hasDelegate, call))
      && (IsOutstanding(s.calls, id, frame, origin, rest, hasDelegate, call) ==>
            || IsOutstanding(t.calls, id, frame, origin, rest - {permission}, hasDelegate, call)
            || IsAnswered(TurnCauses(s, id, permission, hasDelegate, replies), Key(call.origin, call.permission)))
  {
    if ReachesDelegate(permission, hasDelegate) {
      var asked := Ask(s, id, permission);
      AskKeepsConsistent(s, id, rest, permission);
      DeliverLosesCalls(asked, replies);
      if call in asked.calls {
        DeliverAnswers(asked, replies, id, rest - {permission}, call);
      }
    }
  }

  lemma {:induction false} DelegationAsks(base: Table, before: map<int, seq<Status>>, s: State, id: int, permissions: seq<PermissionType>, i: nat,
                                          todo: set<PermissionType>, hasDelegate: bool, script: seq<seq<Reply>>, frame: int, origin: Gurl, call: Call)
    requires i <= |permissions| && Distinct(permissions) && (id in s.table ==> s.table[id].frame == frame)
    requires var rest := Rest(permissions, i, todo);
      Consistent(s, id, rest) && Delegates(s, id, origin, rest) && Telling(base, before, s, origin, rest)
    ensures var t := DelegateFrom(s, id, permissions, i, todo, hasDelegate, script);
      && (call in t.calls ==> IsOutstanding(s.calls, id, frame, origin, Rest(permissions, i, todo), hasDelegate, call))
      && (IsOutstanding(s.calls, id, frame, origin, Rest(permissions, i, todo), hasDelegate, call) ==>
            || call in t.calls
            || IsAnswered(DelegationCauses(s, id, permissions, i, todo, hasDelegate, script), Key(call.origin, call.permission)))
    decreases |permissions| - i
  {
    var rest := Rest(permissions, i, todo);
    if i == |permissions| {
      assert rest == {};
    } else {
      RestShrinks(permissions, i, todo);
      if permissions[i] in todo {
        var replies := RepliesAt(script, i);
        var next := DelegateOne(s, id, permissions[i], hasDelegate, replies);
        DelegateOneKeepsConsistent(s, id, rest, permissions[i], hasDelegate, replies);
        DelegateOneTells(base, before, s, id, permissions[i], hasDelegate, replies, rest, origin);
        TurnAsks(s, id, permissions[i], hasDelegate, replies, rest, frame, origin, call);
        DelegationAsks(base, before, next, id, permissions, i + 1, todo, hasDelegate, script, frame, origin, call);
        var now, later := TurnCauses(s, id, permissions[i], hasDelegate, replies), DelegationCauses(next, id, permissions, i + 1, todo, hasDelegate, script);
        var key := Key(call.origin, call.permission);
        if IsAnswered(now, key) || IsAnswered(later, key) {
          AnsweredAmong(now + later, now, later, key);
        }
      } else {
        DelegationAsks(base, before, s, id, permissions, i + 1, todo, hasDelegate, script, frame, origin, call);
      }
    }
  }

  /**
   A new request asks the frame's delegate, if there is one, about exactly those of its geolocation, protected-media and
   MIDI SysEx permissions that nobody else is asking about: each such call is outstanding afterwards or has been
   answered, and no other has been added.
   */
  lemma SubmitAsks(s: State, step: Step, call: Call)
    requires AtRest(s) && Legal(s, step) && step.Submit? && step.permissions != []
    ensures var t := Next(s, step);
      var asked := call.id == s.nextId && call.frame == step.frame && call.origin == step.origin && step.frame in step.delegates
                   && call.permission in step.permissions && !HasMatch(s.table, step.origin, call.permission)
                   && call.permission in {GEOLOCATION, PROTECTED_MEDIA_IDENTIFIER, MIDI_SYSEX};
      && (call in t.calls ==> call in s.calls || asked)
      && (call in s.calls || asked ==> call in t.calls || IsAnswered(CausesOf(s, step), Key(call.origin, call.permission)))
  {
    var todo, hasDelegate := Delegating(s.table, step.origin, step.permissions), step.frame in step.delegates;
    var added := AddRequest(s, step.permissions, step.origin, step.embedding, step.frame);
    AddedIsReady(s, step.permissions, step.frame, step.origin, step.embedding);
    assert step.permissions[0..] == step.permissions;
    DelegationAsks(added.table, s.answered, added, s.nextId, step.permissions, 0, todo, hasDelegate, step.script, step.frame, step.origin, call);
    assert call in Asked(s.nextId, step.frame, step.origin, Rest(step.permissions, 0, todo), hasDelegate) <==>
      call.id == s.nextId && call.frame == step.frame && call.origin == step.origin && call.permission in Rest(step.permissions, 0, todo)
      && ReachesDelegate(call.permission, hasDelegate);
  }
}
