/**
 The queue of geolocation prompts of one web contents: one prompt is on show at a time, for the
 front entry. The queue is the delegate the permission broker asks for geolocation.
 */
module GeolocationPrompts {
  import opened PermissionTypes
  import opened PermissionModel

  /** A queued callback: the delegate call it answers, and a ticket telling equal calls apart. */
  datatype OriginCallback = OriginCallback(origin: Gurl, callback: Call, ticket: nat)

  /** A callback that has been run, and with what. */
  datatype Invocation = Invocation(ticket: nat, callback: Call, value: bool)

  /** `shown` are the prompts the embedder was asked to show, `ran` the callbacks run, oldest first. */
  datatype Prompts = Prompts(queue: seq<OriginCallback>, nextTicket: nat, shown: seq<Gurl>, ran: seq<Invocation>)

  const NO_PROMPTS := Prompts([], 0, [], [])

  // ----- The operations -----

  function ShowFront(p: Prompts): Prompts {
    if p.queue == [] then p else p.(shown := p.shown + [p.queue[0].origin])
  }

  function Show(p: Prompts, origin: Gurl, callback: Call): Prompts {
    var queued := p.(queue := p.queue + [OriginCallback(origin, callback, p.nextTicket)], nextTicket := p.nextTicket + 1);
    if p.queue == [] then ShowFront(queued) else queued
  }

  function Invoke(p: Prompts, value: bool, origin: Gurl): Prompts {
    if p.queue == [] || origin != p.queue[0].origin then p
    else ShowFront(p.(queue := p.queue[1..],
                      ran := p.ran + [Invocation(p.queue[0].ticket, p.queue[0].callback, value)]))
  }

  /** The entries of other origins, in their order. */
  function Without(queue: seq<OriginCallback>, origin: Gurl): seq<OriginCallback> {
    if queue == [] then []
    else if queue[0].origin == origin then Without(queue[1..], origin)
    else [queue[0]] + Without(queue[1..], origin)
  }

  function Hide(p: Prompts, origin: Gurl): Prompts {
    var left := p.(queue := Without(p.queue, origin));
    if p.queue != [] && p.queue[0].origin == origin then ShowFront(left) else left
  }

  /** The queue as the web contents keep it; `originOf` reduces a URL to its origin. */
  class AwContents {
    const originOf: Gurl -> Gurl
    var pendingGeolocationPrompts: seq<OriginCallback>
    var nextTicket: nat
    ghost var shown: seq<Gurl>
    ghost var ran: seq<Invocation>
    ghost var hidden: nat

    constructor (originOf: Gurl -> Gurl)
      ensures Value() == NO_PROMPTS && this.originOf == originOf
    {
      this.originOf := originOf;
      pendingGeolocationPrompts := [];
      nextTicket, shown, ran, hidden := 0, [], [], 0;
    }

    ghost function Value(): Prompts
      reads this
    {
      Prompts(pendingGeolocationPrompts, nextTicket, shown, ran)
    }

    method ShowHelper(origin: Gurl)
      modifies this`shown
      ensures shown == old(shown) + [origin]
    {
      shown := shown + [origin];
    }

    method ShowGeolocationPrompt(requestingFrame: Gurl, callback: Call)
      modifies this
      ensures Value() == Show(old(Value()), originOf(requestingFrame), callback)
    {
      var origin := originOf(requestingFrame);
      var showPrompt := pendingGeolocationPrompts == [];
      pendingGeolocationPrompts := pendingGeolocationPrompts + [OriginCallback(origin, callback, nextTicket)];
      nextTicket := nextTicket + 1;
      if showPrompt {
        ShowHelper(origin);
      }
    }

    method InvokeGeolocationCallback(value: bool, origin: Gurl)
      modifies this
      ensures Value() == Invoke(old(Value()), value, originOf(origin))
    {
      if pendingGeolocationPrompts == [] {
        return;
      }
      var callbackOrigin := originOf(origin);
      if callbackOrigin == pendingGeolocationPrompts[0].origin {
        ran := ran + [Invocation(pendingGeolocationPrompts[0].ticket, pendingGeolocationPrompts[0].callback, value)];
        pendingGeolocationPrompts := pendingGeolocationPrompts[1..];
        if pendingGeolocationPrompts != [] {
          ShowHelper(pendingGeolocationPrompts[0].origin);
        }
      }
    }

    /** Erases an origin's entries one by one; an entry erased at the front was the one on show. */
    method HideGeolocationPrompt(origin: Gurl)
      modifies this
      ensures Value() == Hide(old(Value()), originOf(origin))
    {
      var removedCurrent := false;
      var it := 0;
      ghost var before, done := pendingGeolocationPrompts, 0;
      while it < |pendingGeolocationPrompts|
        invariant done <= |before| && it <= |pendingGeolocationPrompts|
        invariant pendingGeolocationPrompts[it..] == before[done..]
        invariant pendingGeolocationPrompts[..it] + Without(before[done..], originOf(origin)) == Without(before, originOf(origin))
        invariant it == 0 && done > 0 ==> before[0].origin == originOf(origin) && removedCurrent
        invariant removedCurrent <==> done > 0 && before[0].origin == originOf(origin)
        invariant nextTicket == old(nextTicket) && shown == old(shown) && ran == old(ran)
        decreases |before| - done
      {
        WithoutStep(before, done, pendingGeolocationPrompts, it, originOf(origin));
        if pendingGeolocationPrompts[it].origin == originOf(origin) {
          if it == 0 {
            removedCurrent := true;
          }
          pendingGeolocationPrompts := pendingGeolocationPrompts[..it] + pendingGeolocationPrompts[it + 1..];
        } else {
          it := it + 1;
        }
        done := done + 1;
      }
      if removedCurrent {
        hidden := hidden + 1;
        if pendingGeolocationPrompts != [] {
          ShowHelper(pendingGeolocationPrompts[0].origin);
        }
      }
    }
  }

  /** One entry further: it stays in front, or it goes. */
  lemma WithoutStep(before: seq<OriginCallback>, done: nat, queue: seq<OriginCallback>, it: nat, origin: Gurl)
    requires done < |before| && it < |queue| && queue[it..] == before[done..]
    ensures queue[it] == before[done] && queue[it + 1..] == before[done + 1..]
    ensures queue[it].origin == origin ==>
      Without(before[done..], origin) == Without(before[done + 1..], origin)
      && (queue[..it] + queue[it + 1..])[..it] == queue[..it]
      && (queue[..it] + queue[it + 1..])[it..] == before[done + 1..]
    ensures queue[it].origin != origin ==>
      queue[..it] + Without(before[done..], origin) == queue[..it + 1] + Without(before[done + 1..], origin)
  {
    assert queue[it] == queue[it..][0] == before[done..][0];
    assert queue[it + 1..] == queue[it..][1..] && before[done + 1..] == before[done..][1..];
  }

  // ----- Runs -----

  datatype Step =
    | ShowStep(frame: Gurl, callback: Call)
    | InvokeStep(value: bool, url: Gurl)
    | HideStep(target: Gurl)

  function Next(p: Prompts, step: Step, originOf: Gurl -> Gurl): Prompts {
    match step
    case ShowStep(frame, callback) => Show(p, originOf(frame), callback)
    case InvokeStep(value, url) => Invoke(p, value, originOf(url))
    case HideStep(target) => Hide(p, originOf(target))
  }

  function Run(p: Prompts, steps: seq<Step>, originOf: Gurl -> Gurl): Prompts
    decreases |steps|
  {
    if steps == [] then p else Run(Next(p, steps[0], originOf), steps[1..], originOf)
  }

  predicate Ascending(queue: seq<OriginCallback>) {
    forall i, j | 0 <= i < j < |queue| :: queue[i].ticket < queue[j].ticket
  }

  /** Tickets queue up in order; no ticket that has run is queued or has run twice. */
  predicate TicketsInOrder(p: Prompts) {
    && Ascending(p.queue)
    && (forall i | 0 <= i < |p.queue| :: p.queue[i].ticket < p.nextTicket)
    && (forall i | 0 <= i < |p.ran| :: p.ran[i].ticket < p.nextTicket)
    && (forall i, j | 0 <= i < j < |p.ran| :: p.ran[i].ticket != p.ran[j].ticket)
    && (forall i, j | 0 <= i < |p.queue| && 0 <= j < |p.ran| :: p.queue[i].ticket != p.ran[j].ticket)
  }

  /** The prompt last asked for is the front entry's. */
  predicate FrontIsOnShow(p: Prompts) {
    p.queue != [] ==> p.shown != [] && p.shown[|p.shown| - 1] == p.queue[0].origin
  }

  /** The ticket has been issued and its callback can no longer run. */
  predicate Retired(p: Prompts, ticket: nat) {
    ticket < p.nextTicket && forall i | 0 <= i < |p.queue| :: p.queue[i].ticket != ticket
  }

  lemma {:induction false} WithoutKeeps(queue: seq<OriginCallback>, origin: Gurl)
    ensures forall entry :: entry in Without(queue, origin) <==> entry in queue && entry.origin != origin
    ensures forall i | 0 <= i < |Without(queue, origin)| :: Without(queue, origin)[i] in queue
    ensures queue != [] && queue[0].origin != origin ==> Without(queue, origin) != [] && Without(queue, origin)[0] == queue[0]
  {
    if queue != [] {
      WithoutKeeps(queue[1..], origin);
      assert queue == [queue[0]] + queue[1..];
    }
  }

  lemma {:induction false} WithoutKeepsOrder(queue: seq<OriginCallback>, origin: Gurl)
    requires Ascending(queue)
    ensures Ascending(Without(queue, origin))
  {
    if queue != [] {
      var rest := queue[1..];
      assert forall i | 0 <= i < |rest| :: rest[i] == queue[i + 1];
      WithoutKeepsOrder(rest, origin);
      var left := Without(rest, origin);
      forall j | 0 <= j < |left| ensures queue[0].ticket < left[j].ticket {
        WithoutKeeps(rest, origin);
        assert left[j] in rest;
      }
      AscendingFrom(queue[0], left);
    }
  }

  lemma AscendingFrom(first: OriginCallback, rest: seq<OriginCallback>)
    requires Ascending(rest) && forall j | 0 <= j < |rest| :: first.ticket < rest[j].ticket
    ensures Ascending([first] + rest)
  {
    var whole := [first] + rest;
    forall i, j | 0 <= i < j < |whole| ensures whole[i].ticket < whole[j].ticket {
      assert whole[j] == rest[j - 1];
      assert i > 0 ==> whole[i] == rest[i - 1];
    }
  }

  lemma HideKeepsTickets(p: Prompts, origin: Gurl)
    requires TicketsInOrder(p)
    ensures TicketsInOrder(Hide(p, origin))
  {
    WithoutKeeps(p.queue, origin);
    WithoutKeepsOrder(p.queue, origin);
    var t := Hide(p, origin);
    forall i | 0 <= i < |t.queue|
      ensures t.queue[i].ticket < p.nextTicket && forall j | 0 <= j < |p.ran| :: t.queue[i].ticket != p.ran[j].ticket
    {
      assert t.queue[i] in p.queue;
      var k :| 0 <= k < |p.queue| && p.queue[k] == t.queue[i];
    }
  }

  lemma HideKeepsFront(p: Prompts, origin: Gurl)
    requires FrontIsOnShow(p)
    ensures FrontIsOnShow(Hide(p, origin))
  {
    WithoutKeeps(p.queue, origin);
  }

  lemma StepKeepsPrompts(p: Prompts, step: Step, originOf: Gurl -> Gurl)
    requires TicketsInOrder(p) && FrontIsOnShow(p)
    ensures TicketsInOrder(Next(p, step, originOf)) && FrontIsOnShow(Next(p, step, originOf))
  {
    match step
    case ShowStep(frame, callback) => ShowKeepsPrompts(p, originOf(frame), callback);
    case InvokeStep(value, url) => InvokeKeepsPrompts(p, value, originOf(url));
    case HideStep(target) =>
      HideKeepsTickets(p, originOf(target));
      HideKeepsFront(p, originOf(target));
  }

  lemma ShowKeepsPrompts(p: Prompts, origin: Gurl, callback: Call)
    requires TicketsInOrder(p) && FrontIsOnShow(p)
    ensures TicketsInOrder(Show(p, origin, callback)) && FrontIsOnShow(Show(p, origin, callback))
  {
  }

  lemma InvokeKeepsPrompts(p: Prompts, value: bool, origin: Gurl)
    requires TicketsInOrder(p) && FrontIsOnShow(p)
    ensures TicketsInOrder(Invoke(p, value, origin)) && FrontIsOnShow(Invoke(p, value, origin))
  {
  }

  /** What can no longer run stays so, and every invocation is of a ticket that could. */
  lemma StepKeepsRetired(p: Prompts, step: Step, originOf: Gurl -> Gurl, ticket: nat)
    requires TicketsInOrder(p) && Retired(p, ticket)
    ensures var t := Next(p, step, originOf);
      Retired(t, ticket) && p.ran <= t.ran && (forall i | |p.ran| <= i < |t.ran| :: t.ran[i].ticket != ticket)
  {
    if step.HideStep? {
      WithoutKeeps(p.queue, originOf(step.target));
      var t := Next(p, step, originOf);
      forall i | 0 <= i < |t.queue| ensures t.queue[i].ticket != ticket {
        assert t.queue[i] in p.queue;
      }
    }
  }

  /** Over every run: the front entry is on show, and no callback runs twice. */
  lemma {:induction false} PromptsOverRuns(p: Prompts, steps: seq<Step>, originOf: Gurl -> Gurl)
    requires TicketsInOrder(p) && FrontIsOnShow(p)
    ensures var t := Run(p, steps, originOf);
      TicketsInOrder(t) && FrontIsOnShow(t)
    decreases |steps|
  {
    if steps != [] {
      StepKeepsPrompts(p, steps[0], originOf);
      PromptsOverRuns(Next(p, steps[0], originOf), steps[1..], originOf);
    }
  }

  lemma {:induction false} RetiredNeverRuns(p: Prompts, steps: seq<Step>, originOf: Gurl -> Gurl, ticket: nat)
    requires TicketsInOrder(p) && FrontIsOnShow(p) && Retired(p, ticket)
    ensures var t := Run(p, steps, originOf);
      p.ran <= t.ran && forall i | |p.ran| <= i < |t.ran| :: t.ran[i].ticket != ticket
    decreases |steps|
  {
    if steps != [] {
      var next := Next(p, steps[0], originOf);
      StepKeepsPrompts(p, steps[0], originOf);
      StepKeepsRetired(p, steps[0], originOf, ticket);
      RetiredNeverRuns(next, steps[1..], originOf, ticket);
    }
  }

  /** After hiding an origin, no callback queued for it runs any more, and the others are queued as before. */
  lemma HiddenNeverRuns(p: Prompts, url: Gurl, originOf: Gurl -> Gurl, steps: seq<Step>, entry: OriginCallback)
    requires TicketsInOrder(p) && FrontIsOnShow(p) && entry in p.queue
    ensures var hidden := Hide(p, originOf(url));
      && (entry.origin != originOf(url) ==> entry in hidden.queue)
      && (entry.origin == originOf(url) ==>
          forall i | |p.ran| <= i < |Run(hidden, steps, originOf).ran| :: Run(hidden, steps, originOf).ran[i].ticket != entry.ticket)
  {
    var hidden := Hide(p, originOf(url));
    WithoutKeeps(p.queue, originOf(url));
    if entry.origin == originOf(url) {
      forall i | 0 <= i < |hidden.queue| ensures hidden.queue[i].ticket != entry.ticket {
        assert hidden.queue[i] in p.queue && hidden.queue[i] != entry;
      }
      StepKeepsPrompts(p, HideStep(url), originOf);
      RetiredNeverRuns(hidden, steps, originOf, entry.ticket);
    }
  }

  // ----- The queue as the broker's delegate -----

  /** The delegate calls waiting in the queue. */
  function Outstanding(p: Prompts): set<Call> {
    set entry | entry in p.queue :: entry.callback
  }

  /** Every entry is a geolocation call of one frame, under the origin of the URL it was made for. */
  predicate QueuedAsAsked(p: Prompts, frame: int, originOf: Gurl -> Gurl) {
    forall entry | entry in p.queue ::
      && entry.origin == originOf(entry.callback.origin)
      && entry.callback.frame == frame
      && entry.callback.permission == GEOLOCATION
  }

  /** No call waits twice; the broker never repeats a call that is outstanding. */
  predicate AskedOnce(p: Prompts) {
    DistinctCalls(p.queue)
  }

  predicate DistinctCalls(queue: seq<OriginCallback>) {
    forall i, j | 0 <= i < j < |queue| :: queue[i].callback != queue[j].callback
  }

  /** A call that is not outstanding can be asked once more. */
  lemma AskingOnce(p: Prompts, callback: Call, originOf: Gurl -> Gurl)
    requires AskedOnce(p)
    ensures AskedOnce(Show(p, originOf(callback.origin), callback)) <==> callback !in Outstanding(p)
  {
    var t := Show(p, originOf(callback.origin), callback);
    assert t.queue[|p.queue|].callback == callback;
    if callback in Outstanding(p) {
      var entry :| entry in p.queue && entry.callback == callback;
      var i :| 0 <= i < |p.queue| && p.queue[i] == entry;
      assert t.queue[i].callback == t.queue[|p.queue|].callback;
    } else {
      assert forall i | 0 <= i < |p.queue| :: p.queue[i] in p.queue;
    }
  }

  lemma AskingAddsTheCall(p: Prompts, callback: Call, originOf: Gurl -> Gurl)
    ensures Outstanding(Show(p, originOf(callback.origin), callback)) == Outstanding(p) + {callback}
  {
    var t := Show(p, originOf(callback.origin), callback);
    var entry := OriginCallback(originOf(callback.origin), callback, p.nextTicket);
    assert t.queue == p.queue + [entry];
    assert entry in t.queue;
    assert forall e | e in p.queue :: e in t.queue;
  }

  /**
   An answer is always to a call that was waiting, that call was asked for the answered origin, and
   it waits no longer.
   */
  lemma AnswersComeFromTheQueue(p: Prompts, value: bool, origin: Gurl, frame: int, originOf: Gurl -> Gurl)
    requires QueuedAsAsked(p, frame, originOf)
    ensures var t := Invoke(p, value, origin);
      t.ran == p.ran || (t.ran[..|t.ran| - 1] == p.ran
                         && t.ran[|t.ran| - 1].callback in Outstanding(p)
                         && t.ran[|t.ran| - 1].value == value
                         && originOf(t.ran[|t.ran| - 1].callback.origin) == origin
                         && Outstanding(p) == Outstanding(t) + {t.ran[|t.ran| - 1].callback}
                         && (AskedOnce(p) ==> t.ran[|t.ran| - 1].callback !in Outstanding(t)))
  {
    var t := Invoke(p, value, origin);
    if t.ran != p.ran {
      assert p.queue == [p.queue[0]] + t.queue;
      assert p.queue[0] in p.queue;
      assert forall e | e in t.queue :: e in p.queue;
      if AskedOnce(p) {
        FrontWaitsNoMore(p);
      }
    }
  }

  /** Callback `n` of a run was run by answer `i`: for the entry in front, with the answer's value, for the answer's origin. */
  predicate IsAnswer(p: Prompts, steps: seq<Step>, originOf: Gurl -> Gurl, i: nat, ran: Invocation) {
    && i < |steps| && steps[i].InvokeStep? && steps[i].value == ran.value
    && var q := Run(p, steps[..i], originOf).queue;
       q != [] && q[0].ticket == ran.ticket && q[0].callback == ran.callback && q[0].origin == originOf(steps[i].url)
  }

  /** Every callback that has run was run by one of the answers given. */
  lemma {:induction false} EveryCallbackIsAnswered(p: Prompts, steps: seq<Step>, originOf: Gurl -> Gurl, n: nat) returns (i: nat)
    requires |p.ran| <= n < |Run(p, steps, originOf).ran|
    ensures p.ran <= Run(p, steps, originOf).ran && IsAnswer(p, steps, originOf, i, Run(p, steps, originOf).ran[n])
    decreases |steps|
  {
    var next := Next(p, steps[0], originOf);
    RanGrows(next, steps[1..], originOf);
    if n < |next.ran| {
      i := 0;
      assert steps[..0] == [];
    } else {
      var j := EveryCallbackIsAnswered(next, steps[1..], originOf, n);
      i := j + 1;
      assert steps[..i][0] == steps[0] && steps[..i][1..] == steps[1..][..j];
    }
  }

  lemma {:induction false} RanGrows(p: Prompts, steps: seq<Step>, originOf: Gurl -> Gurl)
    ensures p.ran <= Run(p, steps, originOf).ran
    decreases |steps|
  {
    if steps != [] {
      RanGrows(Next(p, steps[0], originOf), steps[1..], originOf);
    }
  }

  lemma FrontWaitsNoMore(p: Prompts)
    requires AskedOnce(p) && p.queue != []
    ensures forall e | e in p.queue[1..] :: e.callback != p.queue[0].callback
  {
    forall e | e in p.queue[1..] ensures e.callback != p.queue[0].callback {
      var i :| 0 <= i < |p.queue[1..]| && p.queue[1..][i] == e;
      assert p.queue[i + 1] == e;
    }
  }

  lemma {:induction false} WithoutAskedOnce(queue: seq<OriginCallback>, origin: Gurl)
    requires DistinctCalls(queue)
    ensures DistinctCalls(Without(queue, origin))
  {
    if queue != [] {
      var rest := queue[1..];
      assert forall i | 0 <= i < |rest| :: rest[i] == queue[i + 1];
      WithoutAskedOnce(rest, origin);
      WithoutKeeps(rest, origin);
      var left := Without(rest, origin);
      forall i | 0 <= i < |left| ensures left[i].callback != queue[0].callback {
        assert left[i] in rest;
      }
    }
  }

  /** Neither answers nor hiding make a call wait twice. */
  lemma FewerAskedOnce(p: Prompts, value: bool, origin: Gurl)
    requires AskedOnce(p)
    ensures AskedOnce(Invoke(p, value, origin)) && AskedOnce(Hide(p, origin))
  {
    var t := Invoke(p, value, origin);
    if t.ran != p.ran {
      assert forall i | 0 <= i < |t.queue| :: t.queue[i] == p.queue[i + 1];
    }
    WithoutAskedOnce(p.queue, origin);
    assert Hide(p, origin).queue == Without(p.queue, origin);
  }

  /** No other URL with a waiting call shares the cancelled URL's origin. */
  predicate OriginIsOwn(p: Prompts, url: Gurl, originOf: Gurl -> Gurl) {
    forall entry | entry in p.queue && originOf(entry.callback.origin) == originOf(url) :: entry.callback.origin == url
  }

  /**
   Hiding withdraws exactly the calls the broker means to cancel precisely when no call made for
   another URL has the same origin; otherwise it silently withdraws those as well.
   */
  lemma HidingIsTheBrokersCancelIff(p: Prompts, url: Gurl, frame: int, originOf: Gurl -> Gurl)
    requires QueuedAsAsked(p, frame, originOf)
    ensures Outstanding(Hide(p, originOf(url))) == Outstanding(p) - Withdrawn(Outstanding(p), frame, url, GEOLOCATION)
       <==> OriginIsOwn(p, url, originOf)
  {
    var t := Hide(p, originOf(url));
    WithoutKeeps(p.queue, originOf(url));
    var withdrawn := Withdrawn(Outstanding(p), frame, url, GEOLOCATION);
    assert forall entry | entry in p.queue :: entry.callback in withdrawn <==> entry.callback.origin == url;
    if OriginIsOwn(p, url, originOf) {
      forall call ensures call in Outstanding(t) <==> call in Outstanding(p) - withdrawn {
        if call in Outstanding(t) {
          var entry :| entry in t.queue && entry.callback == call;
          assert entry in p.queue;
        }
        if call in Outstanding(p) - withdrawn {
          var entry :| entry in p.queue && entry.callback == call;
          assert entry in t.queue;
        }
      }
    } else {
      var entry :| entry in p.queue && originOf(entry.callback.origin) == originOf(url) && entry.callback.origin != url;
      assert entry.callback in Outstanding(p) - withdrawn;
      assert forall e | e in t.queue :: e.origin != originOf(url) && e in p.queue;
      assert entry.callback !in Outstanding(t);
    }
  }
}
