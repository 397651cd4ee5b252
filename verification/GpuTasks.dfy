/**
 Scheduling GL work on one thread: tasks are queued and run in turn, and a task that runs may
 schedule more tasks, which drains the queue from within, and more idle work.
 */
module GpuTasks {

  /** What a task does, in terms of scheduling. */
  datatype Task = Task(name: nat, body: Actions)

  datatype Actions =
    | Done
    | Schedule(task: Task, rest: Actions)
    | ScheduleIdle(task: Task, rest: Actions)
    | TakeTime(duration: nat, rest: Actions)

  /** Idle work and the time it was scheduled at. */
  datatype IdleTask = IdleTask(time: int, task: Task)

  const MAX_IDLE_AGE: int := 16

  // ----- What a task comes to, all in all -----

  /** How many tasks there are in a task, with all it schedules. */
  function Size(t: Task): nat
    decreases t
  {
    1 + SizeOf(t.body)
  }

  function SizeOf(a: Actions): nat
    decreases a
  {
    match a
    case Done => 0
    case Schedule(t, rest) => Size(t) + SizeOf(rest)
    case ScheduleIdle(t, rest) => Size(t) + SizeOf(rest)
    case TakeTime(_, rest) => SizeOf(rest)
  }

  function Length(a: Actions): nat {
    match a
    case Done => 0
    case Schedule(_, rest) => 1 + Length(rest)
    case ScheduleIdle(_, rest) => 1 + Length(rest)
    case TakeTime(_, rest) => 1 + Length(rest)
  }

  /** All tasks that run because of one: itself, and those it schedules. */
  function Family(t: Task): multiset<Task>
    decreases t
  {
    multiset{t} + FamilyOf(t.body)
  }

  function FamilyOf(a: Actions): multiset<Task>
    decreases a
  {
    match a
    case Done => multiset{}
    case Schedule(t, rest) => Family(t) + FamilyOf(rest)
    case ScheduleIdle(_, rest) => FamilyOf(rest)
    case TakeTime(_, rest) => FamilyOf(rest)
  }

  /** The idle work that is scheduled because of one task. */
  function Leftover(t: Task): multiset<Task>
    decreases t
  {
    LeftoverOf(t.body)
  }

  function LeftoverOf(a: Actions): multiset<Task>
    decreases a
  {
    match a
    case Done => multiset{}
    case Schedule(t, rest) => Leftover(t) + LeftoverOf(rest)
    case ScheduleIdle(t, rest) => multiset{t} + LeftoverOf(rest)
    case TakeTime(_, rest) => LeftoverOf(rest)
  }

  function QueueSize(q: seq<Task>): nat {
    if q == [] then 0 else Size(q[0]) + QueueSize(q[1..])
  }

  function Families(q: seq<Task>): multiset<Task> {
    if q == [] then multiset{} else Family(q[0]) + Families(q[1..])
  }

  function Leftovers(q: seq<Task>): multiset<Task> {
    if q == [] then multiset{} else Leftover(q[0]) + Leftovers(q[1..])
  }

  lemma {:induction false} SizeOfMore(q: seq<Task>, t: Task)
    ensures QueueSize(q + [t]) == QueueSize(q) + Size(t)
  {
    if q != [] {
      SizeOfMore(q[1..], t);
      assert (q + [t])[1..] == q[1..] + [t];
    }
  }

  lemma FirstApart<T>(q: seq<T>, t: T)
    requires q != []
    ensures q == [q[0]] + q[1..] && q + [t] == [q[0]] + (q[1..] + [t])
  {
  }

  lemma FamiliesCons(t: Task, q: seq<Task>)
    ensures Families([t] + q) == Family(t) + Families(q)
  {
    assert ([t] + q)[1..] == q;
  }

  lemma {:induction false} FamiliesOfMore(q: seq<Task>, t: Task)
    ensures Families(q + [t]) == Families(q) + Family(t)
  {
    if q == [] {
      FamiliesCons(t, []);
    } else {
      FamiliesOfMore(q[1..], t);
      FirstApart(q, t);
      FamiliesCons(q[0], q[1..] + [t]);
      FamiliesCons(q[0], q[1..]);
      Added(Family(q[0]), Families(q[1..]), Family(t));
    }
  }

  lemma {:induction false} LeftoversOfMore(q: seq<Task>, t: Task)
    ensures Leftovers(q + [t]) == Leftovers(q) + Leftover(t)
  {
    if q != [] {
      LeftoversOfMore(q[1..], t);
      assert (q + [t])[1..] == q[1..] + [t] && (q + [t])[0] == q[0];
      Added(Leftover(q[0]), Leftovers(q[1..]), Leftover(t));
    }
  }

  function Callbacks(q: seq<IdleTask>): (tasks: seq<Task>)
    ensures |tasks| == |q|
  {
    seq(|q|, i requires 0 <= i < |q| => q[i].task)
  }

  /** What runs in the end: what has started, and all that comes of the queue. */
  function Runs(started: seq<Task>, tasks: seq<Task>): multiset<Task> {
    multiset(started) + Families(tasks)
  }

  /** The idle work there will have been in the end. */
  function Idles(idleScheduled: seq<IdleTask>, tasks: seq<Task>): multiset<Task> {
    multiset(Callbacks(idleScheduled)) + Leftovers(tasks)
  }

  function OffspringOf(q: seq<IdleTask>): multiset<Task> {
    if q == [] then multiset{} else OffspringOf(q[..|q| - 1]) + FamilyOf(q[|q| - 1].task.body)
  }

  function LeftoversOf(q: seq<IdleTask>): multiset<Task> {
    if q == [] then multiset{} else LeftoversOf(q[..|q| - 1]) + LeftoverOf(q[|q| - 1].task.body)
  }

  predicate IsOld(i: IdleTask, now: int) {
    now - i.time >= MAX_IDLE_AGE
  }

  /** How many run: all when the thread is idle, or else those before the first that is young. */
  function HowMany(q: seq<IdleTask>, isIdle: bool, now: int): (n: nat)
    ensures n <= |q|
    ensures isIdle ==> n == |q|
    ensures !isIdle ==> (forall k | 0 <= k < n :: now - q[k].time >= 16) && (n < |q| ==> now - q[n].time < 16)
  {
    if isIdle then |q|
    else if q == [] || !IsOld(q[0], now) then 0
    else 1 + HowMany(q[1..], isIdle, now)
  }

  predicate AllOld(q: seq<IdleTask>, n: nat, now: int)
    requires n <= |q|
  {
    forall k | 0 <= k < n :: IsOld(q[k], now)
  }

  lemma OldOneMore(q: seq<IdleTask>, n: nat, now: int, isIdle: bool)
    requires n < |q| && (!isIdle ==> AllOld(q, n, now) && IsOld(q[n], now))
    ensures !isIdle ==> AllOld(q, n + 1, now)
  {
  }

  /** There is one such number only. */
  lemma {:induction false} HowManyIs(q: seq<IdleTask>, now: int, n: nat)
    requires n <= |q| && (forall k | 0 <= k < n :: now - q[k].time >= 16) && (n < |q| ==> now - q[n].time < 16)
    ensures HowMany(q, false, now) == n
  {
    if n > 0 {
      HowManyIs(q[1..], now, n - 1);
    }
  }

  /** The work that is left to do, with all that comes of it. */
  function Work(tasks: seq<Task>, idle: seq<IdleTask>): nat {
    QueueSize(tasks) + QueueSize(Callbacks(idle))
  }

  lemma Pushed(started: seq<Task>, idle: seq<IdleTask>, waiting: seq<IdleTask>, tasks: seq<Task>, t: Task)
    ensures Runs(started, tasks + [t]) == Runs(started, tasks) + Family(t)
    ensures Idles(idle, tasks + [t]) == Idles(idle, tasks) + Leftover(t)
    ensures Work(tasks + [t], waiting) == Work(tasks, waiting) + Size(t)
  {
    SizeOfMore(tasks, t);
    FamiliesOfMore(tasks, t);
    LeftoversOfMore(tasks, t);
  }

  lemma Popped(started: seq<Task>, idle: seq<IdleTask>, waiting: seq<IdleTask>, tasks: seq<Task>)
    requires tasks != []
    ensures Runs(started + [tasks[0]], tasks[1..]) + FamilyOf(tasks[0].body) == Runs(started, tasks)
    ensures Idles(idle, tasks[1..]) + LeftoverOf(tasks[0].body) == Idles(idle, tasks)
    ensures Work(tasks[1..], waiting) + SizeOf(tasks[0].body) + 1 == Work(tasks, waiting)
  {
    var t := tasks[0];
    assert Families(tasks) == Family(t) + Families(tasks[1..]);
    assert multiset(started + [t]) == multiset(started) + multiset{t};
    assert Leftovers(tasks) == LeftoverOf(t.body) + Leftovers(tasks[1..]);
  }

  lemma IdlePushed(idle: seq<IdleTask>, tasks: seq<Task>, i: IdleTask)
    ensures Idles(idle + [i], tasks) == Idles(idle, tasks) + multiset{i.task}
    ensures Work(tasks, idle + [i]) == Work(tasks, idle) + Size(i.task)
  {
    assert Callbacks(idle + [i]) == Callbacks(idle) + [i.task];
    SizeOfMore(Callbacks(idle), i.task);
  }

  lemma FrontMoves<T>(a: seq<T>, b: seq<T>)
    requires b != []
    ensures a + [b[0]] + b[1..] == a + b
  {
  }

  lemma Added<T>(before: multiset<T>, first: multiset<T>, second: multiset<T>)
    ensures before + first + second == before + (first + second)
  {
  }

  /** The service at some time. */
  datatype Record = Record(
    scheduled: seq<Task>,
    started: seq<Task>,
    idleScheduled: seq<IdleTask>,
    idleStarted: seq<IdleTask>,
    tasks: seq<Task>,
    idleTasks: seq<IdleTask>,
    requests: nat)

  /** Between two records, so many idle tasks of the first have run. */
  ghost predicate HasRun(r: Record, now: Record, ran: nat) {
    && ran <= |r.idleTasks|
    && r.scheduled <= now.scheduled && r.started <= now.started && r.idleScheduled <= now.idleScheduled && r.requests <= now.requests
    && now.idleStarted == r.idleStarted + r.idleTasks[..ran] && r.idleTasks[ran..] <= now.idleTasks
    && Runs(now.started, now.tasks) == Runs(r.started, r.tasks) + OffspringOf(r.idleTasks[..ran])
    && Idles(now.idleScheduled, now.tasks) == Idles(r.idleScheduled, r.tasks) + LeftoversOf(r.idleTasks[..ran])
    && Work(now.tasks, now.idleTasks) + ran <= Work(r.tasks, r.idleTasks)
  }

  lemma HasRunOneMore(r: Record, before: Record, now: Record, ran: nat)
    requires ran < |r.idleTasks| && HasRun(r, before, ran)
    requires before.scheduled <= now.scheduled && before.started <= now.started
    requires before.idleScheduled <= now.idleScheduled && before.requests <= now.requests
    requires now.idleStarted == before.idleStarted + [before.idleTasks[0]] && before.idleTasks[1..] <= now.idleTasks
    requires Runs(now.started, now.tasks) == Runs(before.started, before.tasks) + FamilyOf(before.idleTasks[0].task.body)
    requires Idles(now.idleScheduled, now.tasks) == Idles(before.idleScheduled, before.tasks) + LeftoverOf(before.idleTasks[0].task.body)
    requires Work(now.tasks, now.idleTasks) < Work(before.tasks, before.idleTasks)
    ensures HasRun(r, now, ran + 1)
  {
    OneMoreIdle(r.idleTasks, ran);
    var next := r.idleTasks[ran];
    assert before.idleTasks[0] == next && r.idleTasks[ran + 1..] <= before.idleTasks[1..];
    AppendedTo(r.idleStarted, r.idleTasks[..ran], next);
    Added(Runs(r.started, r.tasks), OffspringOf(r.idleTasks[..ran]), FamilyOf(next.task.body));
    Added(Idles(r.idleScheduled, r.tasks), LeftoversOf(r.idleTasks[..ran]), LeftoverOf(next.task.body));
  }

  lemma AppendedTo<T>(a: seq<T>, b: seq<T>, t: T)
    ensures a + b + [t] == a + (b + [t])
  {
  }

  // ----- The service -----

  class DeferredGpuCommandService {
    var tasks: seq<Task>
    var idleTasks: seq<IdleTask>
    var allowed: bool
    var clock: int
    var requests: nat
    ghost var scheduled: seq<Task>
    ghost var started: seq<Task>
    ghost var idleScheduled: seq<IdleTask>
    ghost var idleStarted: seq<IdleTask>

    constructor ()
      ensures Valid() && tasks == [] && idleTasks == [] && !allowed && scheduled == [] && idleScheduled == []
    {
      tasks, idleTasks, allowed, clock, requests := [], [], false, 0, 0;
      scheduled, started, idleScheduled, idleStarted := [], [], [], [];
    }

    /** Work starts in the order in which it was scheduled. */
    ghost predicate Valid()
      reads this
    {
      started + tasks == scheduled && idleStarted + idleTasks == idleScheduled
    }

    /** The record only gets longer, and idle work is only added. */
    twostate predicate Grows()
      reads this
    {
      old(scheduled) <= scheduled && old(started) <= started && old(idleScheduled) <= idleScheduled && old(requests) <= requests
    }

    /** Nothing but `family` and `left` has come in. */
    twostate predicate Accounts(family: multiset<Task>, left: multiset<Task>)
      reads this
    {
      && Runs(started, tasks) == Runs(old(started), old(tasks)) + family
      && Idles(idleScheduled, tasks) == Idles(old(idleScheduled), old(tasks)) + left
    }

    /** Nothing has come in. */
    twostate predicate Keeps()
      reads this
    {
      && Runs(started, tasks) == Runs(old(started), old(tasks))
      && Idles(idleScheduled, tasks) == Idles(old(idleScheduled), old(tasks))
    }

    method RequestProcessGL()
      modifies this`requests
      ensures requests == old(requests) + 1
    {
      requests := requests + 1;
    }

    method Push(task: Task)
      requires Valid()
      modifies this`tasks, this`scheduled
      ensures Valid() && tasks == old(tasks) + [task] && scheduled == old(scheduled) + [task]
      ensures Accounts(Family(task), Leftover(task)) && Work(tasks, idleTasks) == Work(old(tasks), idleTasks) + Size(task)
    {
      Pushed(started, idleScheduled, idleTasks, tasks, task);
      tasks := tasks + [task];
      scheduled := scheduled + [task];
    }

    method Pop() returns (task: Task)
      requires Valid() && tasks != []
      modifies this`tasks, this`started
      ensures Valid() && task == old(tasks)[0] && tasks == old(tasks)[1..] && started == old(started) + [task]
      ensures Runs(started, tasks) + FamilyOf(task.body) == Runs(old(started), old(tasks))
      ensures Idles(idleScheduled, tasks) + LeftoverOf(task.body) == Idles(idleScheduled, old(tasks))
      ensures Work(tasks, idleTasks) + SizeOf(task.body) + 1 == Work(old(tasks), idleTasks)
    {
      Popped(started, idleScheduled, idleTasks, tasks);
      FrontMoves(started, tasks);
      task := tasks[0];
      tasks := tasks[1..];
      started := started + [task];
    }

    /** With GL allowed on this thread, the whole queue runs before this returns, the new task included. */
    method ScheduleTask(task: Task)
      requires Valid()
      modifies this`tasks, this`idleTasks, this`requests, this`clock, this`scheduled, this`started, this`idleScheduled
      ensures Valid() && Grows() && |old(scheduled)| < |scheduled| && scheduled[|old(scheduled)|] == task
      ensures Accounts(Family(task), Leftover(task))
      ensures Work(tasks, idleTasks) <= old(Work(tasks, idleTasks)) + Size(task)
      ensures allowed ==> tasks == [] && started == scheduled
      ensures !allowed ==> tasks == old(tasks) + [task] && started == old(started) && requests == old(requests) + 1
      decreases Work(tasks, idleTasks) + Size(task), 3
    {
      Push(task);
      RunOrRequest();
    }

    method RunOrRequest()
      requires Valid()
      modifies this`tasks, this`idleTasks, this`requests, this`clock, this`scheduled, this`started, this`idleScheduled
      ensures Valid() && Grows() && Keeps()
      ensures Work(tasks, idleTasks) <= old(Work(tasks, idleTasks))
      ensures allowed ==> tasks == [] && started == scheduled
      ensures !allowed ==> tasks == old(tasks) && started == old(started) && requests == old(requests) + 1
      decreases Work(tasks, idleTasks), 2
    {
      if allowed {
        RunTasks();
      } else {
        RequestProcessGL();
      }
    }

    method ScheduleDelayedWork(callback: Task)
      requires Valid()
      modifies this`idleTasks, this`requests, this`idleScheduled
      ensures Valid() && Grows() && Accounts(multiset{}, multiset{callback})
      ensures Work(tasks, idleTasks) == old(Work(tasks, idleTasks)) + Size(callback)
      ensures idleTasks == old(idleTasks) + [IdleTask(clock, callback)] && idleScheduled == old(idleScheduled) + [IdleTask(clock, callback)]
      ensures requests == old(requests) + 1
    {
      IdlePushed(idleScheduled, tasks, IdleTask(clock, callback));
      IdlePushed(idleTasks, tasks, IdleTask(clock, callback));
      idleTasks := idleTasks + [IdleTask(clock, callback)];
      idleScheduled := idleScheduled + [IdleTask(clock, callback)];
      RequestProcessGL();
    }

    /** Runs the queue until it is empty: all that was in it and all that comes of it, each once, in the order of scheduling. */
    method RunTasks()
      requires Valid()
      modifies this`tasks, this`idleTasks, this`requests, this`clock, this`scheduled, this`started, this`idleScheduled
      ensures Valid() && Grows() && tasks == [] && started == scheduled
      ensures Keeps()
      ensures Work(tasks, idleTasks) <= old(Work(tasks, idleTasks))
      decreases Work(tasks, idleTasks), 1
    {
      var hasMoreTasks := |tasks| > 0;
      while hasMoreTasks
        invariant Valid() && Grows() && hasMoreTasks == (|tasks| > 0)
        invariant Keeps()
        invariant Work(tasks, idleTasks) <= old(Work(tasks, idleTasks))
        decreases Work(tasks, idleTasks)
      {
        RunFirst();
        hasMoreTasks := |tasks| > 0;
      }
    }

    method RunFirst()
      requires Valid() && tasks != []
      modifies this`tasks, this`idleTasks, this`requests, this`clock, this`scheduled, this`started, this`idleScheduled
      ensures Valid() && Grows() && Keeps()
      ensures Work(tasks, idleTasks) < old(Work(tasks, idleTasks))
      decreases Work(tasks, idleTasks), 0
    {
      var task := Pop();
      Run(task.body);
    }

    method Run(body: Actions)
      requires Valid()
      modifies this`tasks, this`idleTasks, this`requests, this`clock, this`scheduled, this`started, this`idleScheduled
      ensures Valid() && Grows()
      ensures Accounts(FamilyOf(body), LeftoverOf(body))
      ensures Work(tasks, idleTasks) <= old(Work(tasks, idleTasks)) + SizeOf(body)
      decreases Work(tasks, idleTasks) + SizeOf(body), 5 + 2 * Length(body)
    {
      match body {
        case Done =>
        case Schedule(_, _) => ScheduleAndGoOn(body);
        case ScheduleIdle(_, _) => ScheduleIdleAndGoOn(body);
        case TakeTime(duration, rest) =>
          clock := clock + duration;
          Run(rest);
      }
    }

    method ScheduleAndGoOn(body: Actions)
      requires Valid() && body.Schedule?
      modifies this`tasks, this`idleTasks, this`requests, this`clock, this`scheduled, this`started, this`idleScheduled
      ensures Valid() && Grows()
      ensures Accounts(FamilyOf(body), LeftoverOf(body))
      ensures Work(tasks, idleTasks) <= old(Work(tasks, idleTasks)) + SizeOf(body)
      decreases Work(tasks, idleTasks) + SizeOf(body), 4 + 2 * Length(body)
    {
      ghost var runs, idles := Runs(started, tasks), Idles(idleScheduled, tasks);
      ScheduleTask(body.task);
      Run(body.rest);
      Added(runs, Family(body.task), FamilyOf(body.rest));
      Added(idles, Leftover(body.task), LeftoverOf(body.rest));
    }

    method ScheduleIdleAndGoOn(body: Actions)
      requires Valid() && body.ScheduleIdle?
      modifies this`tasks, this`idleTasks, this`requests, this`clock, this`scheduled, this`started, this`idleScheduled
      ensures Valid() && Grows()
      ensures Accounts(FamilyOf(body), LeftoverOf(body))
      ensures Work(tasks, idleTasks) <= old(Work(tasks, idleTasks)) + SizeOf(body)
      decreases Work(tasks, idleTasks) + SizeOf(body), 4 + 2 * Length(body)
    {
      ghost var idles := Idles(idleScheduled, tasks);
      ScheduleDelayedWork(body.task);
      Run(body.rest);
      Added(idles, multiset{body.task}, LeftoverOf(body.rest));
    }

    // ----- Idle work -----

    method RunIdle()
      requires Valid() && idleTasks != []
      modifies this`tasks, this`idleTasks, this`requests, this`clock, this`scheduled, this`started, this`idleScheduled, this`idleStarted
      ensures Valid() && Grows()
      ensures idleStarted == old(idleStarted) + [old(idleTasks)[0]] && old(idleTasks)[1..] <= idleTasks
      ensures Accounts(FamilyOf(old(idleTasks)[0].task.body), LeftoverOf(old(idleTasks)[0].task.body))
      ensures Work(tasks, idleTasks) < old(Work(tasks, idleTasks))
    {
      ghost var waiting := idleTasks[1..];
      FrontMoves(idleStarted, idleTasks);
      IdlePopped(tasks, idleTasks);
      var task := idleTasks[0].task;
      idleStarted := idleStarted + [idleTasks[0]];
      idleTasks := idleTasks[1..];
      ghost var before := idleScheduled;
      Run(task.body);
      BackGrows(idleStarted, waiting, before, idleTasks, idleScheduled);
    }

    ghost function Recorded(): (r: Record)
      reads this
    {
      Record(scheduled, started, idleScheduled, idleStarted, tasks, idleTasks, requests)
    }

    /** Since the record was made, so many of its idle tasks have run. */
    ghost predicate RanSince(r: Record, ran: nat)
      reads this
    {
      Valid() && HasRun(r, Recorded(), ran)
    }

    method RunNextIdle(ghost r: Record, ghost ran: nat)
      requires RanSince(r, ran) && ran < |r.idleTasks|
      modifies this`tasks, this`idleTasks, this`requests, this`clock, this`scheduled, this`started, this`idleScheduled, this`idleStarted
      ensures RanSince(r, ran + 1)
    {
      ghost var before := Recorded();
      RunIdle();
      HasRunOneMore(r, before, Recorded(), ran);
    }

    /** Runs the idle work that was there on entry: all of it, or the oldest part, up to the first that is young. */
    method PerformIdleWork(isIdle: bool) returns (ran: nat)
      requires Valid() && allowed
      modifies this`tasks, this`idleTasks, this`requests, this`clock, this`scheduled, this`started, this`idleScheduled, this`idleStarted
      ensures ran == HowMany(old(idleTasks), isIdle, old(clock))
      ensures RanSince(old(Recorded()), ran)
    {
      ghost var r := Recorded();
      var now := clock;
      var queueSize: nat := |idleTasks|;
      ran := 0;
      while queueSize > 0
        invariant RanSince(r, ran) && queueSize + ran == |r.idleTasks|
        invariant !isIdle ==> AllOld(r.idleTasks, ran, now)
        decreases queueSize
      {
        assert idleTasks[0] == r.idleTasks[ran];
        if !isIdle && now - idleTasks[0].time < MAX_IDLE_AGE {
          HowManyIs(r.idleTasks, now, ran);
          return;
        }
        OldOneMore(r.idleTasks, ran, now, isIdle);
        RunNextIdle(r, ran);
        queueSize := queueSize - 1;
        ran := ran + 1;
      }
      if !isIdle {
        HowManyIs(r.idleTasks, now, ran);
      }
    }

    /** Runs idle work until none is left; new idle work is taken in. */
    method PerformAllIdleWork()
      requires Valid() && allowed
      modifies this`tasks, this`idleTasks, this`requests, this`clock, this`scheduled, this`started, this`idleScheduled, this`idleStarted
      ensures Valid() && Grows() && idleTasks == [] && idleStarted == idleScheduled
    {
      while |idleTasks| > 0
        invariant Valid() && Grows()
        decreases Work(tasks, idleTasks)
      {
        var _ := PerformIdleWork(true);
      }
    }

    // ----- The scope in which GL is allowed -----

    method EnterAllowGL()
      requires Valid() && !allowed
      modifies this`allowed, this`tasks, this`idleTasks, this`requests, this`clock, this`scheduled, this`started, this`idleScheduled
      ensures Valid() && Grows() && Keeps() && allowed && tasks == [] && started == scheduled
    {
      allowed := true;
      RunTasks();
    }

    /** On leaving, the last tasks run with GL no longer allowed; those they schedule run too. */
    method LeaveAllowGL()
      requires Valid()
      modifies this`allowed, this`tasks, this`idleTasks, this`requests, this`clock, this`scheduled, this`started, this`idleScheduled
      ensures Valid() && Grows() && Keeps() && !allowed && tasks == [] && started == scheduled
      ensures idleTasks != [] ==> requests > old(requests)
    {
      allowed := false;
      RunTasks();
      if |idleTasks| > 0 {
        RequestProcessGL();
      }
    }
  }

  lemma IdlePopped(tasks: seq<Task>, idle: seq<IdleTask>)
    requires idle != []
    ensures Work(tasks, idle[1..]) + SizeOf(idle[0].task.body) + 1 == Work(tasks, idle)
  {
    assert Callbacks(idle)[1..] == Callbacks(idle[1..]);
  }

  /** What is added behind leaves the front as it is. */
  lemma BackGrows<T>(front: seq<T>, back: seq<T>, all: seq<T>, newBack: seq<T>, newAll: seq<T>)
    requires front + back == all && front + newBack == newAll && all <= newAll
    ensures back <= newBack
  {
    assert forall i | 0 <= i < |back| :: back[i] == all[|front| + i] == newAll[|front| + i] == newBack[i];
  }

  lemma OneMoreIdle(q: seq<IdleTask>, n: nat)
    requires n < |q|
    ensures q[..n] + [q[n]] == q[..n + 1] && q[n..][1..] == q[n + 1..]
    ensures OffspringOf(q[..n + 1]) == OffspringOf(q[..n]) + FamilyOf(q[n].task.body)
    ensures LeftoversOf(q[..n + 1]) == LeftoversOf(q[..n]) + LeftoverOf(q[n].task.body)
  {
    assert q[..n + 1][..n] == q[..n];
  }
}
