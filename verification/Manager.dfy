/** The supervisor of the service workers: start, the join loop, and the lock on the set of
    workers that one hands to the other, as atomic steps that interleave with workers
    finishing and with the server stopping or starting to run at any moment. */
module Manager {

  /** How a worker ends; a panic is caught and told apart from a returned error. */
  datatype Outcome = Fine | Failed | Panicked

  datatype Task = Running(service: nat) | Done(service: nat, outcome: Outcome)

  /** The call of start: it holds the lock while it spawns the worker of each service. */
  datatype Start = Before | Starting(next: nat) | Started(ok: bool)

  /** The join loop: it holds the lock from Joining on, until it waits again or ends. */
  datatype Loop =
    | NotSpawned
    | Waiting
    | Joining
    | Handling(service: nat, outcome: Outcome)
    | Delaying(service: nat)
    | Ended(ok: bool)

  /** What happened, in order: a worker spawned, a worker joined, the server seen running
      or not by whoever was about to act on it. */
  datatype Event = Spawned(service: nat, byLoop: bool) | Joined(service: nat, outcome: Outcome) | Checked(running: bool)

  datatype State = State(services: nat, start: Start, loop: Loop, tasks: seq<Task>, log: seq<Event>)

  function Initial(services: nat): State
  {
    State(services, Before, NotSpawned, [], [])
  }

  datatype Step =
    | StartLock
    | StartOne(running: bool)
    | LoopLock
    | LoopJoin(i: nat)
    | LoopCheck(running: bool)
    | LoopRespawn(running: bool)
    | Finish(i: nat, outcome: Outcome)

  /** start_worker: the server is checked, and the worker spawned if it runs. */
  function Spawn(s: State, service: nat, byLoop: bool, running: bool): State
  {
    if running then
      s.(tasks := s.tasks + [Running(service)], log := s.log + [Checked(true), Spawned(service, byLoop)])
    else s.(log := s.log + [Checked(false)])
  }

  /** A step that is not possible changes nothing. */
  function Apply(s: State, step: Step): State
  {
    match step
    case StartLock => if s.start.Before? then s.(start := Starting(0), loop := Waiting) else s
    case StartOne(running) => if s.start.Starting? then ApplyStartOne(s, running) else s
    case LoopLock => if s.loop.Waiting? && !s.start.Starting? then s.(loop := Joining) else s
    case LoopJoin(i) => if s.loop.Joining? then ApplyJoin(s, i) else s
    case LoopCheck(running) => if s.loop.Handling? then ApplyCheck(s, running) else s
    case LoopRespawn(running) => if s.loop.Delaying? then ApplyRespawn(s, running) else s
    case Finish(i, outcome) =>
      if i < |s.tasks| && s.tasks[i].Running? then s.(tasks := s.tasks[i := Done(s.tasks[i].service, outcome)]) else s
  }

  function ApplyStartOne(s: State, running: bool): State
    requires s.start.Starting?
  {
    var k := s.start.next;
    if k >= s.services then s.(start := Started(true))
    else Spawn(s, k, false, running).(start := if running then Starting(k + 1) else Started(false))
  }

  function ApplyJoin(s: State, i: nat): State
  {
    if s.tasks == [] then s.(loop := Ended(true))
    else if i < |s.tasks| && s.tasks[i].Done? then
      var t := s.tasks[i];
      s.(tasks := s.tasks[..i] + s.tasks[i + 1..],
         log := s.log + [Joined(t.service, t.outcome)],
         loop := if t.outcome.Fine? then Waiting else Handling(t.service, t.outcome))
    else s
  }

  function ApplyCheck(s: State, running: bool): State
    requires s.loop.Handling?
  {
    s.(log := s.log + [Checked(running)],
       loop :=
         if !running then Waiting
         else if s.loop.outcome.Panicked? then Delaying(s.loop.service)
         else Ended(false))
  }

  function ApplyRespawn(s: State, running: bool): State
    requires s.loop.Delaying?
  {
    Spawn(s, s.loop.service, true, running).(loop := if running then Waiting else Ended(false))
  }

  function RunFrom(s: State, steps: seq<Step>): State
  {
    if steps == [] then s else Apply(RunFrom(s, steps[..|steps| - 1]), steps[|steps| - 1])
  }

  function Run(services: nat, steps: seq<Step>): State
  {
    RunFrom(Initial(services), steps)
  }

  // ----- Invariants -----

  predicate Shape(s: State)
  {
    && (s.start.Before? ==> s.loop.NotSpawned? && s.tasks == [] && s.log == [])
    && (s.start.Starting? ==> s.start.next <= s.services && s.loop.Waiting?)
    && (s.loop.NotSpawned? ==> s.start.Before?)
    && (s.loop == Ended(true) ==> s.tasks == [])
    && (s.loop.Handling? ==>
      && !s.loop.outcome.Fine?
      && |s.log| >= 1 && s.log[|s.log| - 1] == Joined(s.loop.service, s.loop.outcome))
    && (s.loop.Delaying? ==>
      && |s.log| >= 2 && s.log[|s.log| - 1] == Checked(true)
      && s.log[|s.log| - 2] == Joined(s.loop.service, Panicked))
  }

  lemma StepKeepsShape(s: State, step: Step)
    requires Shape(s)
    ensures Shape(Apply(s, step))
  {
  }

  predicate Absent(tasks: seq<Task>, service: nat)
  {
    forall i :: 0 <= i < |tasks| ==> tasks[i].service != service
  }

  predicate OneEach(tasks: seq<Task>)
  {
    forall i, j :: 0 <= i < j < |tasks| ==> tasks[i].service != tasks[j].service
  }

  predicate Below(tasks: seq<Task>, bound: nat)
  {
    forall i :: 0 <= i < |tasks| ==> tasks[i].service < bound
  }

  /** The services whose worker may have been spawned so far. */
  function Bound(s: State): nat
  {
    if s.start.Starting? then s.start.next else s.services
  }

  /** One worker a service, and none for the service that the loop is dealing with. */
  predicate Workers(s: State)
  {
    && OneEach(s.tasks)
    && Below(s.tasks, Bound(s))
    && (s.loop.Handling? || s.loop.Delaying? ==> s.loop.service < s.services && Absent(s.tasks, s.loop.service))
  }

  lemma PushTask(tasks: seq<Task>, service: nat, bound: nat)
    requires OneEach(tasks) && Below(tasks, bound) && Absent(tasks, service) && service < bound
    ensures OneEach(tasks + [Running(service)]) && Below(tasks + [Running(service)], bound)
  {
  }

  lemma DropTask(tasks: seq<Task>, i: nat, bound: nat)
    requires OneEach(tasks) && Below(tasks, bound) && i < |tasks|
    ensures var rest := tasks[..i] + tasks[i + 1..];
      OneEach(rest) && Below(rest, bound) && Absent(rest, tasks[i].service)
  {
    var rest := tasks[..i] + tasks[i + 1..];
    assert forall j :: 0 <= j < |rest| ==> rest[j] == tasks[if j < i then j else j + 1];
  }

  lemma FinishTask(tasks: seq<Task>, i: nat, outcome: Outcome, bound: nat)
    requires OneEach(tasks) && Below(tasks, bound) && i < |tasks|
    ensures var after := tasks[i := Done(tasks[i].service, outcome)];
      OneEach(after) && Below(after, bound) && forall service :: Absent(after, service) <==> Absent(tasks, service)
  {
    var after := tasks[i := Done(tasks[i].service, outcome)];
    assert forall j :: 0 <= j < |tasks| ==> after[j].service == tasks[j].service;
  }

  lemma BelowMeansAbsent(tasks: seq<Task>, bound: nat)
    requires Below(tasks, bound)
    ensures Absent(tasks, bound) && Below(tasks, bound + 1)
  {
  }

  lemma StartKeepsWorkers(s: State, running: bool)
    requires Shape(s) && Workers(s) && s.start.Starting?
    ensures Workers(ApplyStartOne(s, running))
  {
    hide OneEach, Below, Absent;
    if s.start.next < s.services {
      BelowMeansAbsent(s.tasks, s.start.next);
      PushTask(s.tasks, s.start.next, s.start.next + 1);
      BelowIsMonotone(s.tasks, s.start.next, s.services);
    }
  }

  lemma JoinKeepsWorkers(s: State, i: nat)
    requires Shape(s) && Workers(s) && s.loop.Joining?
    ensures Workers(ApplyJoin(s, i))
  {
    hide OneEach, Below, Absent;
    if i < |s.tasks| {
      JoinedIsBelow(s, i);
      DropTask(s.tasks, i, Bound(s));
    }
  }

  lemma FinishKeepsWorkers(s: State, i: nat, outcome: Outcome)
    requires Workers(s)
    ensures Workers(Apply(s, Finish(i, outcome)))
  {
    hide OneEach, Below, Absent;
    if i < |s.tasks| { FinishTask(s.tasks, i, outcome, Bound(s)); }
  }

  lemma RespawnKeepsWorkers(s: State, running: bool)
    requires Shape(s) && Workers(s) && s.loop.Delaying?
    ensures Workers(ApplyRespawn(s, running))
  {
    hide OneEach, Below, Absent;
    PushTask(s.tasks, s.loop.service, s.services);
  }

  lemma StepKeepsWorkers(s: State, step: Step)
    requires Shape(s) && Workers(s)
    ensures Workers(Apply(s, step))
  {
    hide OneEach, Below, Absent, ApplyStartOne, ApplyJoin, ApplyRespawn;
    match step {
      case StartOne(running) => if s.start.Starting? { StartKeepsWorkers(s, running); }
      case LoopRespawn(running) => if s.loop.Delaying? { RespawnKeepsWorkers(s, running); }
      case LoopJoin(i) => if s.loop.Joining? { JoinKeepsWorkers(s, i); }
      case Finish(i, outcome) => FinishKeepsWorkers(s, i, outcome);
      case _ => NoTasks(s.tasks, Bound(Apply(s, step)));
    }
  }

  lemma BelowIsMonotone(tasks: seq<Task>, bound: nat, higher: nat)
    requires Below(tasks, bound) && bound <= higher
    ensures Below(tasks, higher)
  {
  }

  lemma JoinedIsBelow(s: State, i: nat)
    requires i < |s.tasks| && Below(s.tasks, Bound(s))
    ensures s.tasks[i].service < Bound(s)
  {
  }

  lemma NoTasks(tasks: seq<Task>, bound: nat)
    ensures tasks == [] ==> Below(tasks, bound)
  {
  }

  /** The loop respawns a worker only right after it joined it with a panic and saw the
      server running both before and after the delay. */
  predicate Justified(log: seq<Event>)
  {
    forall i :: 0 <= i < |log| && log[i].Spawned? && log[i].byLoop ==>
      && i >= 3 && log[i - 3] == Joined(log[i].service, Panicked)
      && log[i - 2] == Checked(true) && log[i - 1] == Checked(true)
  }

  lemma PushJustified(log: seq<Event>, e: Event)
    requires Justified(log)
    requires (e.Spawned? && e.byLoop ==>
      |log| >= 3 && log[|log| - 3..] == [Joined(e.service, Panicked), Checked(true), Checked(true)])
    ensures Justified(log + [e])
  {
    var log' := log + [e];
    forall i | 0 <= i < |log'| && log'[i].Spawned? && log'[i].byLoop
      ensures i >= 3 && log'[i - 3] == Joined(log'[i].service, Panicked)
      ensures log'[i - 2] == Checked(true) && log'[i - 1] == Checked(true)
    {
      if i < |log| {
        assert log[i].Spawned? && log[i].byLoop;
      } else {
        assert log[i - 3..][0] == log[i - 3] && log[i - 3..][1] == log[i - 2] && log[i - 3..][2] == log[i - 1];
      }
    }
  }

  lemma LastThree(log: seq<Event>, e: Event)
    requires |log| >= 2
    ensures (log + [e])[|log| - 2..] == log[|log| - 2..] + [e]
  {
  }

  lemma OneByOne(log: seq<Event>, e: Event, f: Event)
    ensures (log + [e]) + [f] == log + [e, f]
  {
  }

  lemma SpawnJustified(s: State, service: nat, byLoop: bool, running: bool)
    requires Justified(s.log)
    requires byLoop ==> |s.log| >= 2 && s.log[|s.log| - 2..] == [Joined(service, Panicked), Checked(true)]
    ensures Justified(Spawn(s, service, byLoop, running).log)
  {
    hide Justified;
    PushJustified(s.log, Checked(running));
    if running {
      var log := s.log + [Checked(true)];
      if byLoop { LastThree(s.log, Checked(true)); }
      OneByOne(s.log, Checked(true), Spawned(service, byLoop));
      PushJustified(log, Spawned(service, byLoop));
    }
  }

  lemma StepKeepsJustified(s: State, step: Step)
    requires Shape(s) && Justified(s.log)
    ensures Justified(Apply(s, step).log)
  {
    hide Justified, Spawn;
    match step {
      case StartOne(running) => if s.start.Starting? { SpawnJustified(s, s.start.next, false, running); }
      case LoopJoin(i) =>
        if i < |s.tasks| && s.tasks[i].Done? { PushJustified(s.log, Joined(s.tasks[i].service, s.tasks[i].outcome)); }
      case LoopCheck(running) => PushJustified(s.log, Checked(running));
      case LoopRespawn(running) =>
        if s.loop.Delaying? {
          var n := |s.log|;
          assert s.log[n - 2..] == [s.log[n - 2], s.log[n - 1]];
          SpawnJustified(s, s.loop.service, true, running);
        }
      case _ =>
    }
  }

  /** How many services start has spawned a worker for. */
  function StartedCount(s: State): nat
  {
    match s.start
    case Before => 0
    case Starting(k) => k
    case Started(ok) => if ok then s.services else 0
  }

  predicate AllStarted(s: State)
  {
    forall k: nat :: k < StartedCount(s) ==> Spawned(k, false) in s.log
  }

  lemma StepKeepsAllStarted(s: State, step: Step)
    requires Shape(s) && AllStarted(s)
    ensures AllStarted(Apply(s, step))
  {
    var s' := Apply(s, step);
    assert forall e :: e in s.log ==> e in s'.log;
    if step.StartOne? && s.start.Starting? && s.start.next < s.services && step.running {
      assert s'.log[|s'.log| - 1] == Spawned(s.start.next, false);
    }
  }

  predicate Inv(s: State)
  {
    Shape(s) && Workers(s) && Justified(s.log) && AllStarted(s)
  }

  lemma {:induction false} RunKeepsInv(services: nat, steps: seq<Step>)
    ensures Inv(Run(services, steps)) && Run(services, steps).services == services
  {
    if steps != [] {
      var front, step := steps[..|steps| - 1], steps[|steps| - 1];
      RunKeepsInv(services, front);
      var s := Run(services, front);
      hide Shape, Workers, Justified, AllStarted;
      StepKeepsShape(s, step);
      StepKeepsWorkers(s, step);
      StepKeepsJustified(s, step);
      StepKeepsAllStarted(s, step);
    }
  }

  // ----- Main results, for every run -----

  lemma OneWorkerEach(services: nat, steps: seq<Step>)
    ensures
      var tasks := Run(services, steps).tasks;
      && (forall i, j :: 0 <= i < j < |tasks| ==> tasks[i].service != tasks[j].service)
      && (forall i :: 0 <= i < |tasks| ==> tasks[i].service < services)
  {
    RunKeepsInv(services, steps);
    assert Bound(Run(services, steps)) <= services;
  }

  lemma RespawnAfterPanicOnly(services: nat, steps: seq<Step>, i: nat)
    requires i < |Run(services, steps).log|
    requires Run(services, steps).log[i].Spawned? && Run(services, steps).log[i].byLoop
    ensures
      var log := Run(services, steps).log;
      i >= 3 && log[i - 3..i] == [Joined(log[i].service, Panicked), Checked(true), Checked(true)]
  {
    RunKeepsInv(services, steps);
  }

  /** A worker that panicked, with the server seen running before and after the delay. */
  predicate PanicTwiceChecked(log: seq<Event>, i: nat)
  {
    && i + 2 < |log| && log[i].Joined? && log[i].outcome.Panicked?
    && log[i + 1] == Checked(true) && log[i + 2] == Checked(true)
  }

  ghost predicate Restarts(log: seq<Event>)
  {
    forall i: nat :: PanicTwiceChecked(log, i) ==> i + 3 < |log| && log[i + 3] == Spawned(log[i].service, true)
  }

  predicate NoneJoined(log: seq<Event>)
  {
    forall i :: 0 <= i < |log| ==> !log[i].Joined?
  }

  lemma PushRestarts(log: seq<Event>, more: seq<Event>)
    requires Restarts(log) && 1 <= |more| <= 2 && (|more| == 2 ==> more[1].Spawned?)
    requires |log| >= 2 && PanicTwiceChecked(log + more, |log| - 2) ==>
      |more| == 2 && more[1] == Spawned(log[|log| - 2].service, true)
    requires log != [] ==> !PanicTwiceChecked(log + more, |log| - 1)
    ensures Restarts(log + more)
  {
    var log' := log + more;
    forall i: nat | PanicTwiceChecked(log', i)
      ensures i + 3 < |log'| && log'[i + 3] == Spawned(log'[i].service, true)
    {
      if i + 2 < |log| { assert PanicTwiceChecked(log, i); }
    }
  }

  lemma StartKeepsRestarts(s: State, running: bool)
    requires s.start.Starting? && Restarts(s.log) && NoneJoined(s.log)
    ensures var s' := ApplyStartOne(s, running); Restarts(s'.log) && NoneJoined(s'.log)
  {
    hide Restarts;
    PushRestarts(s.log, [Checked(running)]);
    PushRestarts(s.log, [Checked(true), Spawned(s.start.next, false)]);
  }

  lemma RespawnKeepsRestarts(s: State, running: bool)
    requires Shape(s) && s.loop.Delaying? && Restarts(s.log)
    ensures Restarts(ApplyRespawn(s, running).log)
  {
    hide Restarts;
    PushRestarts(s.log, if running then [Checked(true), Spawned(s.loop.service, true)] else [Checked(false)]);
  }

  lemma StepKeepsRestarts(s: State, step: Step)
    requires Shape(s) && Restarts(s.log) && (!s.start.Started? ==> NoneJoined(s.log))
    requires s.loop.NotSpawned? || s.loop.Waiting? || s.start.Started?
    ensures var s' := Apply(s, step); Restarts(s'.log) && (!s'.start.Started? ==> NoneJoined(s'.log))
  {
    hide Restarts, NoneJoined;
    match step {
      case StartOne(running) => if s.start.Starting? { StartKeepsRestarts(s, running); }
      case LoopRespawn(running) => if s.loop.Delaying? { RespawnKeepsRestarts(s, running); }
      case LoopCheck(running) => if s.loop.Handling? { PushRestarts(s.log, [Checked(running)]); }
      case LoopJoin(i) =>
        if i < |s.tasks| && s.tasks[i].Done? {
          PushRestarts(s.log, [Joined(s.tasks[i].service, s.tasks[i].outcome)]);
        }
      case _ =>
    }
  }

  lemma {:induction false} RunRestarts(services: nat, steps: seq<Step>)
    ensures var s := Run(services, steps); Restarts(s.log) && (!s.start.Started? ==> NoneJoined(s.log))
  {
    if steps != [] {
      var front := steps[..|steps| - 1];
      RunRestarts(services, front);
      RunKeepsInv(services, front);
      LoopActsAfterStart(services, front);
      StepKeepsRestarts(Run(services, front), steps[|steps| - 1]);
    }
  }

  /** A worker that panicked is restarted, as the next thing that happens, whenever the
      server is seen running before and after the delay. */
  lemma RespawnAfterPanic(services: nat, steps: seq<Step>, i: nat)
    requires var log := Run(services, steps).log;
      && i + 2 < |log| && log[i].Joined? && log[i].outcome.Panicked?
      && log[i + 1] == Checked(true) && log[i + 2] == Checked(true)
    ensures var log := Run(services, steps).log;
      i + 3 < |log| && log[i + 3] == Spawned(log[i].service, true)
  {
    RunRestarts(services, steps);
    assert PanicTwiceChecked(Run(services, steps).log, i);
  }

  /** Unless start fails, the loop sees no empty set of workers before every service was
      started; it only ever returns Ok once no worker is left. */
  lemma EmptyOnlyAfterStart(services: nat, steps: seq<Step>)
    ensures
      var s := Run(services, steps);
      && (s.loop.Joining? || s.loop.Ended? ==> s.start.Started?)
      && (s.start == Started(true) ==> forall k: nat :: k < services ==> Spawned(k, false) in s.log)
      && (s.loop == Ended(true) ==> s.tasks == [])
  {
    RunKeepsInv(services, steps);
    LoopActsAfterStart(services, steps);
  }

  lemma {:induction false} LoopActsAfterStart(services: nat, steps: seq<Step>)
    ensures var s := Run(services, steps);
      s.loop.NotSpawned? || s.loop.Waiting? || s.start.Started?
  {
    if steps != [] {
      var front := steps[..|steps| - 1];
      LoopActsAfterStart(services, front);
      RunKeepsInv(services, front);
    }
  }

  // ----- Every spawn is accounted for -----

  function Spawns(log: seq<Event>, which: set<nat>): nat
  {
    if log == [] then 0
    else
      var e := log[|log| - 1];
      Spawns(log[..|log| - 1], which) + if e.Spawned? && e.service in which then 1 else 0
  }

  function Joins(log: seq<Event>, which: set<nat>): nat
  {
    if log == [] then 0
    else
      var e := log[|log| - 1];
      Joins(log[..|log| - 1], which) + if e.Joined? && e.service in which then 1 else 0
  }

  function Live(tasks: seq<Task>, which: set<nat>): nat
  {
    if tasks == [] then 0
    else Live(tasks[..|tasks| - 1], which) + if tasks[|tasks| - 1].service in which then 1 else 0
  }

  lemma LogSnoc(log: seq<Event>, e: Event, which: set<nat>)
    ensures Spawns(log + [e], which) == Spawns(log, which) + if e.Spawned? && e.service in which then 1 else 0
    ensures Joins(log + [e], which) == Joins(log, which) + if e.Joined? && e.service in which then 1 else 0
  {
    assert (log + [e])[..|log|] == log;
  }

  lemma LiveSnoc(tasks: seq<Task>, t: Task, which: set<nat>)
    ensures Live(tasks + [t], which) == Live(tasks, which) + if t.service in which then 1 else 0
  {
    assert (tasks + [t])[..|tasks|] == tasks;
  }

  lemma {:induction false} LiveDrop(tasks: seq<Task>, i: nat, which: set<nat>)
    requires i < |tasks|
    ensures Live(tasks[..i] + tasks[i + 1..], which) == Live(tasks, which) - if tasks[i].service in which then 1 else 0
    decreases |tasks|
  {
    var front, t := tasks[..|tasks| - 1], tasks[|tasks| - 1];
    assert tasks == front + [t];
    hide Live;
    LiveSnoc(front, t, which);
    if i == |front| {
      assert tasks[..i] + tasks[i + 1..] == front;
    } else {
      LiveDrop(front, i, which);
      assert tasks[..i] + tasks[i + 1..] == (front[..i] + front[i + 1..]) + [t];
      LiveSnoc(front[..i] + front[i + 1..], t, which);
    }
  }

  lemma {:induction false} LiveFinish(tasks: seq<Task>, i: nat, outcome: Outcome, which: set<nat>)
    requires i < |tasks|
    ensures Live(tasks[i := Done(tasks[i].service, outcome)], which) == Live(tasks, which)
    decreases |tasks|
  {
    var front, t := tasks[..|tasks| - 1], tasks[|tasks| - 1];
    var d := Done(tasks[i].service, outcome);
    assert tasks == front + [t];
    hide Live;
    LiveSnoc(front, t, which);
    if i == |front| {
      assert tasks[i := d] == front + [d];
      LiveSnoc(front, d, which);
    } else {
      LiveFinish(front, i, outcome, which);
      assert tasks[i := d] == front[i := d] + [t];
      LiveSnoc(front[i := d], t, which);
    }
  }

  predicate Balanced(s: State, which: set<nat>)
  {
    Spawns(s.log, which) == Live(s.tasks, which) + Joins(s.log, which)
  }

  lemma SpawnBalances(s: State, service: nat, byLoop: bool, running: bool, which: set<nat>)
    requires Balanced(s, which)
    ensures Balanced(Spawn(s, service, byLoop, running), which)
  {
    hide Spawns, Joins, Live;
    LogSnoc(s.log, Checked(running), which);
    if running {
      LogSnoc(s.log + [Checked(true)], Spawned(service, byLoop), which);
      assert s.log + [Checked(true)] + [Spawned(service, byLoop)] == s.log + [Checked(true), Spawned(service, byLoop)];
      LiveSnoc(s.tasks, Running(service), which);
    }
  }

  lemma StepBalances(s: State, step: Step, which: set<nat>)
    requires Balanced(s, which)
    ensures Balanced(Apply(s, step), which)
  {
    hide Spawns, Joins, Live, Spawn;
    match step {
      case StartOne(running) => if s.start.Starting? { SpawnBalances(s, s.start.next, false, running, which); }
      case LoopRespawn(running) => if s.loop.Delaying? { SpawnBalances(s, s.loop.service, true, running, which); }
      case LoopCheck(running) => LogSnoc(s.log, Checked(running), which);
      case LoopJoin(i) =>
        if i < |s.tasks| && s.tasks[i].Done? {
          LiveDrop(s.tasks, i, which);
          LogSnoc(s.log, Joined(s.tasks[i].service, s.tasks[i].outcome), which);
        }
      case Finish(i, outcome) => if i < |s.tasks| { LiveFinish(s.tasks, i, outcome, which); }
      case _ =>
    }
  }

  /** For every set of services, so for one of them and for all of them: the workers ever
      spawned are the ones in the join set and the ones joined. */
  lemma {:induction false} SpawnedIsLivePlusJoined(services: nat, steps: seq<Step>, which: set<nat>)
    ensures
      var s := Run(services, steps);
      Spawns(s.log, which) == Live(s.tasks, which) + Joins(s.log, which)
  {
    if steps != [] {
      var front := steps[..|steps| - 1];
      SpawnedIsLivePlusJoined(services, front, which);
      StepBalances(Run(services, front), steps[|steps| - 1], which);
    }
  }

  // ----- What becomes of each service -----

  /** The state of a service as the log tells it: a panic is Restarting once the server was
      seen running, and Fatal is an error that stopped the supervisor. */
  datatype Fate = Never | Alive | Finished | Faulted(outcome: Outcome) | Ignored | Restarting | Fatal

  function Next(f: Fate, e: Event, service: nat): Fate
  {
    match e
    case Spawned(x, _) => if x == service then Alive else f
    case Joined(x, outcome) => if x != service then f else if outcome.Fine? then Finished else Faulted(outcome)
    case Checked(running) =>
      match f
      case Faulted(outcome) => if !running then Ignored else if outcome.Panicked? then Restarting else Fatal
      case Restarting => if running then f else Fatal
      case _ => f
  }

  function FateOf(log: seq<Event>, service: nat): Fate
  {
    if log == [] then Never else Next(FateOf(log[..|log| - 1], service), log[|log| - 1], service)
  }

  lemma FateSnoc(log: seq<Event>, e: Event, service: nat)
    ensures FateOf(log + [e], service) == Next(FateOf(log, service), e, service)
  {
    assert (log + [e])[..|log|] == log;
  }

  predicate IsAbout(e: Event, service: nat)
  {
    (e.Spawned? || e.Joined?) && e.service == service
  }

  /** The last event about a service. */
  predicate LastAbout(log: seq<Event>, service: nat, i: nat)
  {
    i < |log| && IsAbout(log[i], service) && forall j :: i < j < |log| ==> !IsAbout(log[j], service)
  }

  /** What the checks of the log saw, in order. */
  function Checks(log: seq<Event>): seq<bool>
  {
    if log == [] then []
    else
      var e := log[|log| - 1];
      Checks(log[..|log| - 1]) + if e.Checked? then [e.running] else []
  }

  /** A worker that is spawned is alive, and one that returns is finished. Of a fault, the
      first check after it decides: it is ignored if the server is stopping; else an error
      is fatal, and a panic is if any later check sees the server stopping. */
  function Judged(last: Event, checks: seq<bool>): Fate
    requires !last.Checked?
  {
    if last.Spawned? then Alive
    else if last.outcome.Fine? then Finished
    else if checks == [] then Faulted(last.outcome)
    else if !checks[0] then Ignored
    else if last.outcome.Failed? || false in checks[1..] then Fatal
    else Restarting
  }

  lemma JudgedNext(last: Event, checks: seq<bool>, e: Event, service: nat)
    requires IsAbout(last, service) && !IsAbout(e, service)
    ensures Next(Judged(last, checks), e, service)
         == Judged(last, checks + if e.Checked? then [e.running] else [])
  {
    if e.Checked? && checks != [] { assert (checks + [e.running])[1..] == checks[1..] + [e.running]; }
    if !e.Checked? { assert checks + [] == checks; }
  }

  /** What becomes of a service, by the last event about it and the checks since. */
  lemma {:induction false} FateMeans(log: seq<Event>, service: nat, i: nat)
    requires LastAbout(log, service, i)
    ensures FateOf(log, service) == Judged(log[i], Checks(log[i + 1..]))
    decreases |log|
  {
    var front, e := log[..|log| - 1], log[|log| - 1];
    if i < |front| {
      FateMeans(front, service, i);
      JudgedNext(log[i], Checks(front[i + 1..]), e, service);
      assert log[i + 1..][..|log| - i - 2] == front[i + 1..];
    }
  }

  lemma {:induction false} NeverMeans(log: seq<Event>, service: nat)
    ensures FateOf(log, service).Never? <==> forall j :: 0 <= j < |log| ==> !IsAbout(log[j], service)
    decreases |log|
  {
    if log != [] {
      var front := log[..|log| - 1];
      NeverMeans(front, service);
      assert forall j :: 0 <= j < |front| ==> front[j] == log[j];
      assert IsAbout(log[|front|], service) <==> !Next(Never, log[|front|], service).Never?;
    }
  }

  /** The log, the join set and the loop agree on a service. */
  predicate Agree(s: State, service: nat)
  {
    var f := FateOf(s.log, service);
    && (f.Alive? <==> !Absent(s.tasks, service))
    && (f.Faulted? <==> s.loop.Handling? && s.loop.service == service)
    && (f.Faulted? ==> f.outcome == s.loop.outcome)
    && (f.Restarting? <==> s.loop.Delaying? && s.loop.service == service)
    && (f.Fatal? ==> s.loop == Ended(false))
  }

  lemma AbsentSnoc(tasks: seq<Task>, t: Task, service: nat)
    ensures Absent(tasks + [t], service) <==> Absent(tasks, service) && t.service != service
  {
    if Absent(tasks + [t], service) {
      forall i | 0 <= i < |tasks| ensures tasks[i].service != service { assert (tasks + [t])[i] == tasks[i]; }
      assert (tasks + [t])[|tasks|] == t;
    }
  }

  lemma AbsentDrop(tasks: seq<Task>, i: nat, service: nat)
    requires i < |tasks| && OneEach(tasks)
    ensures Absent(tasks[..i] + tasks[i + 1..], service) <==> Absent(tasks, service) || tasks[i].service == service
  {
    var rest := tasks[..i] + tasks[i + 1..];
    if Absent(tasks, service) || tasks[i].service == service {
      forall j | 0 <= j < |rest| ensures rest[j].service != service {
        var was := if j < i then j else j + 1;
        assert rest[j] == tasks[was];
        assert tasks[was].service != tasks[i].service;
      }
    } else if Absent(rest, service) {
      forall j | 0 <= j < |tasks| ensures tasks[j].service != service {
        if j != i { assert tasks[j] == rest[if j < i then j else j - 1]; }
      }
    }
  }

  lemma AbsentFinish(tasks: seq<Task>, i: nat, outcome: Outcome, service: nat)
    requires i < |tasks|
    ensures Absent(tasks[i := Done(tasks[i].service, outcome)], service) <==> Absent(tasks, service)
  {
    var after := tasks[i := Done(tasks[i].service, outcome)];
    assert forall j :: 0 <= j < |tasks| ==> after[j].service == tasks[j].service;
  }

  lemma FateOfSpawn(s: State, x: nat, byLoop: bool, running: bool, service: nat)
    ensures
      var s', f := Spawn(s, x, byLoop, running), FateOf(s.log, service);
      && FateOf(s'.log, service) ==
          (if running then Next(Next(f, Checked(true), service), Spawned(x, byLoop), service)
           else Next(f, Checked(false), service))
      && (Absent(s'.tasks, service) <==> Absent(s.tasks, service) && !(running && x == service))
  {
    hide FateOf, Absent, Next;
    FateSnoc(s.log, Checked(running), service);
    if running {
      FateSnoc(s.log + [Checked(true)], Spawned(x, byLoop), service);
      assert s.log + [Checked(true)] + [Spawned(x, byLoop)] == s.log + [Checked(true), Spawned(x, byLoop)];
      AbsentSnoc(s.tasks, Running(x), service);
    }
  }

  lemma StepKeepsAgree(s: State, step: Step, service: nat)
    requires Shape(s) && Workers(s) && Agree(s, service)
    ensures Agree(Apply(s, step), service)
  {
    hide FateOf, Absent, OneEach, Below, Spawn;
    match step {
      case StartOne(running) => if s.start.Starting? { StartKeepsAgree(s, running, service); }
      case LoopRespawn(running) => if s.loop.Delaying? { RespawnKeepsAgree(s, running, service); }
      case LoopCheck(running) => FateSnoc(s.log, Checked(running), service);
      case LoopJoin(i) =>
        if i < |s.tasks| && s.tasks[i].Done? {
          AbsentDrop(s.tasks, i, service);
          FateSnoc(s.log, Joined(s.tasks[i].service, s.tasks[i].outcome), service);
          IsNotAbsent(s.tasks, i);
        }
      case Finish(i, outcome) => if i < |s.tasks| { AbsentFinish(s.tasks, i, outcome, service); }
      case _ =>
    }
  }

  lemma IsNotAbsent(tasks: seq<Task>, i: nat)
    requires i < |tasks|
    ensures !Absent(tasks, tasks[i].service)
  {
  }

  lemma StartKeepsAgree(s: State, running: bool, service: nat)
    requires Shape(s) && s.start.Starting? && Agree(s, service)
    ensures Agree(ApplyStartOne(s, running), service)
  {
    hide FateOf, Absent;
    FateOfSpawn(s, s.start.next, false, running, service);
  }

  lemma RespawnKeepsAgree(s: State, running: bool, service: nat)
    requires s.loop.Delaying? && Agree(s, service)
    ensures Agree(ApplyRespawn(s, running), service)
  {
    hide FateOf, Absent;
    FateOfSpawn(s, s.loop.service, true, running, service);
  }

  lemma {:induction false} RunKeepsAgree(services: nat, steps: seq<Step>, service: nat)
    ensures Agree(Run(services, steps), service)
  {
    if steps != [] {
      var front, step := steps[..|steps| - 1], steps[|steps| - 1];
      RunKeepsAgree(services, front, service);
      RunKeepsInv(services, front);
      var s := Run(services, front);
      hide Shape, Workers, Justified, AllStarted, Agree;
      StepKeepsAgree(s, step, service);
    }
  }

  /** No outcome is dropped. In every state the fate of a service, as the log tells it,
      matches the join set and the loop. If start succeeded and the loop returned Ok, every
      service finished, or faulted while the server was stopping. */
  lemma EveryFateIsKnown(services: nat, steps: seq<Step>, service: nat)
    requires service < services
    ensures
      var s := Run(services, steps);
      var f := FateOf(s.log, service);
      && (f.Alive? <==> exists i :: 0 <= i < |s.tasks| && s.tasks[i].service == service)
      && (f.Faulted? <==> s.loop.Handling? && s.loop.service == service)
      && (f.Restarting? <==> s.loop.Delaying? && s.loop.service == service)
      && (f.Fatal? ==> s.loop == Ended(false))
      && (s.start == Started(true) ==> !f.Never?)
      && (s.start == Started(true) && s.loop == Ended(true) ==> f.Finished? || f.Ignored?)
  {
    RunKeepsInv(services, steps);
    RunKeepsAgree(services, steps, service);
    var s := Run(services, steps);
    if s.start == Started(true) {
      assert Spawned(service, false) in s.log;
      SpawnedIsNotNever(s.log, service);
    }
  }

  lemma {:induction false} SpawnedIsNotNever(log: seq<Event>, service: nat)
    requires Spawned(service, false) in log
    ensures !FateOf(log, service).Never?
  {
    var front, e := log[..|log| - 1], log[|log| - 1];
    if e != Spawned(service, false) {
      assert log == front + [e];
      SpawnedIsNotNever(front, service);
    }
  }

  /** The loop returns an error if and only if a service stopped it, by a failure or by
      a panic that could not be followed by a restart; and then it is one service. */
  lemma ErrorHasOneCause(services: nat, steps: seq<Step>)
    ensures
      var s := Run(services, steps);
      && (s.loop == Ended(false) <==> exists x: nat :: FateOf(s.log, x).Fatal?)
      && (forall x: nat, y: nat :: FateOf(s.log, x).Fatal? && FateOf(s.log, y).Fatal? ==> x == y)
  {
    var s := Run(services, steps);
    forall x: nat | FateOf(s.log, x).Fatal? ensures s.loop == Ended(false) { RunKeepsAgree(services, steps, x); }
    if s.loop == Ended(false) { var _ := CauseOfError(services, steps); }
    forall x: nat, y: nat | FateOf(s.log, x).Fatal? && FateOf(s.log, y).Fatal? ensures x == y {
      OneCause(services, steps, x, y);
    }
  }

  lemma {:induction false} OneCause(services: nat, steps: seq<Step>, x: nat, y: nat)
    requires FateOf(Run(services, steps).log, x).Fatal? && FateOf(Run(services, steps).log, y).Fatal?
    ensures x == y
  {
    if steps != [] {
      var front, step := steps[..|steps| - 1], steps[|steps| - 1];
      var s := Run(services, front);
      RunKeepsInv(services, front);
      RunKeepsAgree(services, front, x);
      RunKeepsAgree(services, front, y);
      hide Workers, Justified, AllStarted, FateOf;
      if s.loop == Ended(false) {
        LogStaysAfterEnd(services, front, step);
        OneCause(services, front, x, y);
      } else {
        TurnsFatal(s, step, x);
        TurnsFatal(s, step, y);
      }
    }
  }

  lemma TurnsFatal(s: State, step: Step, service: nat)
    requires Shape(s) && Agree(s, service) && s.loop != Ended(false)
    requires FateOf(Apply(s, step).log, service).Fatal?
    ensures (s.loop.Handling? || s.loop.Delaying?) && s.loop.service == service
  {
    hide FateOf, Absent, Spawn;
    match step {
      case StartOne(running) => if s.start.Starting? { FateOfSpawn(s, s.start.next, false, running, service); }
      case LoopRespawn(running) => if s.loop.Delaying? { FateOfSpawn(s, s.loop.service, true, running, service); }
      case LoopCheck(running) => FateSnoc(s.log, Checked(running), service);
      case LoopJoin(i) =>
        if i < |s.tasks| && s.tasks[i].Done? {
          FateSnoc(s.log, Joined(s.tasks[i].service, s.tasks[i].outcome), service);
        }
      case _ =>
    }
  }

  lemma {:induction false} CauseOfError(services: nat, steps: seq<Step>) returns (service: nat)
    requires Run(services, steps).loop == Ended(false)
    ensures FateOf(Run(services, steps).log, service).Fatal?
  {
    var front, step := steps[..|steps| - 1], steps[|steps| - 1];
    var s := Run(services, front);
    RunKeepsInv(services, front);
    hide Workers, Justified, AllStarted, FateOf, Agree;
    if s.loop == Ended(false) {
      service := CauseOfError(services, front);
      RunKeepsAgree(services, front, service);
      LogStaysAfterEnd(services, front, step);
    } else {
      EndsInError(s, step);
      service := s.loop.service;
      RunKeepsAgree(services, front, service);
      TurnsOutFatal(s, step);
    }
  }

  lemma EndsInError(s: State, step: Step)
    requires s.loop != Ended(false) && Apply(s, step).loop == Ended(false)
    ensures if step.LoopCheck? then s.loop.Handling? else step.LoopRespawn? && s.loop.Delaying?
    ensures !step.running || (s.loop.Handling? && !s.loop.outcome.Panicked?)
    ensures s.loop.Handling? ==> step.running
    ensures Apply(s, step).log == s.log + [Checked(step.running)]
  {
  }

  lemma TurnsOutFatal(s: State, step: Step)
    requires s.loop.Handling? || s.loop.Delaying?
    requires Agree(s, s.loop.service) && (step.LoopCheck? || step.LoopRespawn?)
    requires if step.LoopCheck? then s.loop.Handling? else s.loop.Delaying?
    requires if s.loop.Handling? then step.running && !s.loop.outcome.Panicked? else !step.running
    ensures FateOf(s.log + [Checked(step.running)], s.loop.service).Fatal?
  {
    hide FateOf, Absent;
    FateSnoc(s.log, Checked(step.running), s.loop.service);
  }

  lemma LogStaysAfterEnd(services: nat, steps: seq<Step>, step: Step)
    requires Run(services, steps).loop.Ended?
    ensures Apply(Run(services, steps), step).log == Run(services, steps).log
  {
    LoopActsAfterStart(services, steps);
  }

  // ----- What an error leaves behind -----

  /** In a join set with one worker for each service, a service has one worker or none. */
  lemma {:induction false} LiveOfOne(tasks: seq<Task>, service: nat)
    requires OneEach(tasks)
    ensures Live(tasks, {service}) == if Absent(tasks, service) then 0 else 1
  {
    if tasks != [] {
      var front, t := tasks[..|tasks| - 1], tasks[|tasks| - 1];
      assert tasks == front + [t];
      LiveOfOne(front, service);
      AbsentSnoc(front, t, service);
      if t.service == service { assert Absent(front, service); }
    }
  }

  lemma EndedStays(s: State, step: Step, service: nat)
    requires s.loop.Ended? && s.start.Started?
    ensures
      var s' := Apply(s, step);
      && s'.loop == s.loop && s'.start == s.start && s'.log == s.log
      && (Absent(s'.tasks, service) <==> Absent(s.tasks, service))
  {
    hide Absent;
    match step {
      case Finish(i, outcome) => if i < |s.tasks| { AbsentFinish(s.tasks, i, outcome, service); }
      case _ =>
    }
  }

  /** Once the loop has returned, the workers in the join set are those of the services that
      are alive: spawned once more than joined. That stays so: nobody joins or restarts the
      workers that are left. */
  lemma {:induction false} LeftBehind(services: nat, steps: seq<Step>, later: seq<Step>, service: nat)
    requires Run(services, steps).loop.Ended?
    ensures
      var s, s' := Run(services, steps), Run(services, steps + later);
      && s'.loop == s.loop && s'.log == s.log
      && (Absent(s'.tasks, service) <==> Absent(s.tasks, service))
      && (!Absent(s.tasks, service) <==> FateOf(s.log, service).Alive?)
      && (!Absent(s.tasks, service) <==> Spawns(s.log, {service}) == Joins(s.log, {service}) + 1)
    decreases |later|
  {
    hide Absent, Spawns, Joins, RunFrom, FateOf, Shape, Justified, AllStarted, OneEach, Below;
    var s := Run(services, steps);
    LoopActsAfterStart(services, steps);
    RunKeepsInv(services, steps);
    RunKeepsAgree(services, steps, service);
    LiveOfOne(s.tasks, service);
    SpawnedIsLivePlusJoined(services, steps, {service});
    if later == [] {
      assert steps + later == steps;
    } else {
      var front, last := later[..|later| - 1], later[|later| - 1];
      LeftBehind(services, steps, front, service);
      LoopActsAfterStart(services, steps + front);
      assert steps + later == (steps + front) + [last];
      RunFromSnoc(Initial(services), steps + front, last);
      EndedStays(Run(services, steps + front), last, service);
    }
  }

  /** The service finished, faulted while the server was stopping, was never started, or is
      the one whose fault stopped the supervisor. */
  predicate IsOver(log: seq<Event>, service: nat)
  {
    var f := FateOf(log, service);
    f.Finished? || f.Ignored? || f.Never? || f.Fatal?
  }

  /** When the loop returned an error, no worker is left behind if and only if every service
      is over: all but the one that stopped the supervisor finished, faulted while the
      server was stopping, or were never started. */
  lemma NoneLeftBehind(services: nat, steps: seq<Step>)
    requires Run(services, steps).loop == Ended(false)
    ensures
      var s := Run(services, steps);
      s.tasks == [] <==> forall x: nat :: IsOver(s.log, x)
  {
    hide RunFrom, FateOf;
    var s := Run(services, steps);
    if s.tasks == [] {
      forall x: nat ensures IsOver(s.log, x) { RunKeepsAgree(services, steps, x); }
    } else {
      var x := s.tasks[0].service;
      RunKeepsAgree(services, steps, x);
      IsNotAbsent(s.tasks, 0);
      assert !IsOver(s.log, x);
    }
  }

  // ----- The supervisor as written -----

  lemma RunFromSnoc(s: State, steps: seq<Step>, step: Step)
    ensures RunFrom(s, steps + [step]) == Apply(RunFrom(s, steps), step)
  {
    assert (steps + [step])[..|steps|] == steps;
  }

  lemma {:induction false} RunFromTwice(s: State, first: seq<Step>, second: seq<Step>)
    ensures RunFrom(s, first + second) == RunFrom(RunFrom(s, first), second)
    decreases |second|
  {
    if second == [] {
      assert first + second == first;
    } else {
      var front, last := second[..|second| - 1], second[|second| - 1];
      RunFromTwice(s, first, front);
      assert first + second == (first + front) + [last];
      RunFromSnoc(s, first + front, last);
    }
  }

  /** A worker that ends. */
  datatype End = End(i: nat, outcome: Outcome)

  /** What happens before start spawns one more worker: workers end, and then the server is
      seen running or not. */
  datatype Poll = Poll(ends: seq<End>, running: bool)

  /** What the runtime does during one turn of the loop: the workers that end before it
      joins one, the one that join_next returns, how that one ends if it still runs, and
      whether the server runs at either check. */
  datatype Turn = Turn(ends: seq<End>, i: nat, outcome: Outcome, atError: bool, atRestart: bool)

  function EndSteps(ends: seq<End>): seq<Step>
  {
    if ends == [] then []
    else EndSteps(ends[..|ends| - 1]) + [Finish(ends[|ends| - 1].i, ends[|ends| - 1].outcome)]
  }

  function StartSteps(polls: seq<Poll>): seq<Step>
  {
    if polls == [] then [StartLock]
    else
      var poll := polls[|polls| - 1];
      StartSteps(polls[..|polls| - 1]) + (EndSteps(poll.ends) + [StartOne(poll.running)])
  }

  function TurnSteps(t: Turn): seq<Step>
  {
    [LoopLock, Finish(t.i, t.outcome), LoopJoin(t.i), LoopCheck(t.atError), LoopRespawn(t.atRestart)]
  }

  function TurnsSteps(turns: seq<Turn>): seq<Step>
  {
    if turns == [] then []
    else
      var t := turns[|turns| - 1];
      TurnsSteps(turns[..|turns| - 1]) + (EndSteps(t.ends) + TurnSteps(t))
  }

  lemma EndStepsSnoc(ends: seq<End>, end: End)
    ensures EndSteps(ends + [end]) == EndSteps(ends) + [Finish(end.i, end.outcome)]
  {
    assert (ends + [end])[..|ends|] == ends;
  }

  /** One more poll of start: the workers end, and then it takes its step. */
  lemma StartSnoc(s: State, polls: seq<Poll>, poll: Poll)
    ensures RunFrom(s, StartSteps(polls + [poll]))
         == Apply(RunFrom(RunFrom(s, StartSteps(polls)), EndSteps(poll.ends)), StartOne(poll.running))
  {
    var all := polls + [poll];
    assert all[..|polls|] == polls && all[|all| - 1] == poll;
    var before, ends, one := StartSteps(polls), EndSteps(poll.ends), StartOne(poll.running);
    assert StartSteps(all) == before + (ends + [one]);
    hide StartSteps, EndSteps, RunFrom, Apply;
    RunFromTwice(s, before, ends + [one]);
    RunFromSnoc(RunFrom(s, before), ends, one);
  }

  /** One more turn: workers end, and then the loop takes its steps. */
  lemma TurnsSnoc(s: State, turns: seq<Turn>, t: Turn)
    ensures RunFrom(s, TurnsSteps(turns + [t]))
         == RunFrom(RunFrom(RunFrom(s, TurnsSteps(turns)), EndSteps(t.ends)), TurnSteps(t))
  {
    var all := turns + [t];
    assert all[..|turns|] == turns && all[|all| - 1] == t;
    var before, ends, turn := TurnsSteps(turns), EndSteps(t.ends), TurnSteps(t);
    assert TurnsSteps(all) == before + (ends + turn);
    hide TurnsSteps, EndSteps, TurnSteps, RunFrom;
    RunFromTwice(s, before, ends + turn);
    RunFromTwice(RunFrom(s, before), ends, turn);
  }

  lemma TurnResult(s: State, t: Turn)
    ensures RunFrom(s, TurnSteps(t)) ==
      Apply(Apply(Apply(Apply(Apply(s, LoopLock), Finish(t.i, t.outcome)), LoopJoin(t.i)),
                  LoopCheck(t.atError)), LoopRespawn(t.atRestart))
  {
    hide RunFrom, Apply;
    var a, b, c := LoopLock, Finish(t.i, t.outcome), LoopJoin(t.i);
    var d, e := LoopCheck(t.atError), LoopRespawn(t.atRestart);
    NoSteps(s);
    RunFromSnoc(s, [], a);
    RunFromSnoc(s, [a], b);
    RunFromSnoc(s, [a, b], c);
    RunFromSnoc(s, [a, b, c], d);
    RunFromSnoc(s, [a, b, c, d], e);
    assert [] + [a] == [a] && [a] + [b] == [a, b] && [a, b] + [c] == [a, b, c];
    assert [a, b, c] + [d] == [a, b, c, d] && [a, b, c, d] + [e] == TurnSteps(t);
  }

  lemma NoSteps(s: State)
    ensures RunFrom(s, []) == s
  {
  }

  lemma NoTurns(s: State)
    ensures RunFrom(s, TurnsSteps([])) == s
  {
  }

  class Supervisor {
    const services: nat
    var start: Start
    var loop: Loop
    var tasks: seq<Task>
    var log: seq<Event>

    constructor (services: nat)
      ensures this.services == services && View() == Initial(services)
    {
      this.services := services;
      start, loop, tasks, log := Before, NotSpawned, [], [];
    }

    function View(): State
      reads this
    {
      State(services, start, loop, tasks, log)
    }

    method StartWorker(service: nat, byLoop: bool, running: bool) returns (ok: bool)
      modifies this`tasks, this`log
      ensures ok == running
      ensures View() == Spawn(old(View()), service, byLoop, running)
    {
      log := log + [Checked(running)];
      if !running { return false; }
      tasks := tasks + [Running(service)];
      log := log + [Spawned(service, byLoop)];
      assert log == old(log) + [Checked(true), Spawned(service, byLoop)];
      ok := true;
    }

    /** What the runtime may do at any time: workers end. */
    method WorkersEnd(ends: seq<End>)
      modifies this`tasks
      ensures View() == RunFrom(old(View()), EndSteps(ends)) && |tasks| == |old(tasks)|
    {
      hide RunFrom, EndSteps;
      ghost var s := View();
      NoEnds(s);
      for k := 0 to |ends|
        invariant View() == RunFrom(s, EndSteps(ends[..k])) && |tasks| == |old(tasks)|
      {
        var end := ends[k];
        EndStepsSnoc(ends[..k], end);
        assert ends[..k] + [end] == ends[..k + 1];
        RunFromSnoc(s, EndSteps(ends[..k]), Finish(end.i, end.outcome));
        if end.i < |tasks| && tasks[end.i].Running? {
          tasks := tasks[end.i := Done(tasks[end.i].service, end.outcome)];
        }
      }
      assert ends[..|ends|] == ends;
    }

    /** start; before each of its checks any workers may end. It stops at the first check
        that fails, `used` polls into it. */
    method Start(polls: seq<Poll>) returns (ok: bool, used: nat)
      requires start.Before? && |polls| == services
      modifies this
      ensures used <= services && start == Started(ok)
      ensures View() == RunFrom(old(View()), StartSteps(if ok then polls + [Poll([], true)] else polls[..used]))
      ensures if ok then used == services else used > 0 && !polls[used - 1].running
      ensures forall k :: 0 <= k < (if ok then used else used - 1) ==> polls[k].running
    {
      hide RunFrom, StartSteps, EndSteps;
      ghost var s := View();
      NoStart(s);
      start, loop := Starting(0), Waiting;
      used := 0;
      while used < services
        invariant used <= services && start == Starting(used)
        invariant forall j :: 0 <= j < used ==> polls[j].running
        invariant View() == RunFrom(s, StartSteps(polls[..used]))
      {
        var poll := polls[used];
        StartSnoc(s, polls[..used], poll);
        assert polls[..used] + [poll] == polls[..used + 1];
        WorkersEnd(poll.ends);
        var started := StartWorker(used, false, poll.running);
        used := used + 1;
        if !started {
          start := Started(false);
          return false, used;
        }
        start := Starting(used);
      }
      start := Started(true);
      ok := true;
      assert polls[..used] == polls;
      StartSnoc(s, polls, Poll([], true));
      NoEnds(RunFrom(s, StartSteps(polls)));
    }

    method HandleError(service: nat, outcome: Outcome, atError: bool, atRestart: bool) returns (ok: bool)
      requires loop == Handling(service, outcome) && !outcome.Fine?
      modifies this`tasks, this`log
      ensures
        var s := Apply(Apply(old(View()), LoopCheck(atError)), LoopRespawn(atRestart));
        View() == s.(loop := old(loop)) && s.loop == if ok then Waiting else Ended(false)
    {
      log := log + [Checked(atError)];
      if !atError { return true; }
      if !outcome.Panicked? { return false; }
      ok := StartWorker(service, true, atRestart);
    }

    /** One turn of the join loop, once it gets the lock. When a worker is left, join_next returns one of them. */
    method Turn(t: Turn) returns (again: bool)
      requires loop.Waiting? && start.Started? && (tasks != [] ==> t.i < |tasks|)
      modifies this
      ensures View() == RunFrom(old(View()), TurnSteps(t)) && start == old(start)
      ensures again <==> loop.Waiting?
      ensures !again ==> loop.Ended?
    {
      TurnResult(View(), t);
      loop := Joining;
      if tasks == [] {
        loop := Ended(true);
        return false;
      }
      if tasks[t.i].Running? { tasks := tasks[t.i := Done(tasks[t.i].service, t.outcome)]; }
      var task := tasks[t.i];
      tasks := tasks[..t.i] + tasks[t.i + 1..];
      log := log + [Joined(task.service, task.outcome)];
      if task.outcome.Fine? {
        loop := Waiting;
        return true;
      }
      loop := Handling(task.service, task.outcome);
      again := HandleError(task.service, task.outcome, t.atError, t.atRestart);
      loop := if again then Waiting else Ended(false);
    }

    /** The join loop, for as long as the runtime gives it workers to join. */
    method Worker(turns: seq<Turn>) returns (used: nat)
      requires loop.Waiting? && start.Started?
      modifies this
      ensures used <= |turns| && View() == RunFrom(old(View()), TurnsSteps(turns[..used]))
      ensures loop.Ended? || (loop.Waiting? && (used < |turns| ==> turns[used].i >= |tasks| > 0))
    {
      hide RunFrom, TurnsSteps, TurnSteps, EndSteps;
      ghost var s := View();
      NoTurns(s);
      used := 0;
      var again := true;
      while again && used < |turns| && (tasks == [] || turns[used].i < |tasks|)
        invariant used <= |turns| && start.Started?
        invariant if again then loop.Waiting? else loop.Ended?
        invariant View() == RunFrom(s, TurnsSteps(turns[..used]))
      {
        var t := turns[used];
        TurnsSnoc(s, turns[..used], t);
        assert turns[..used] + [t] == turns[..used + 1];
        WorkersEnd(t.ends);
        again := Turn(t);
        used := used + 1;
      }
    }
  }

  lemma NoStart(s: State)
    requires s.start.Before?
    ensures RunFrom(s, StartSteps([])) == s.(start := Starting(0), loop := Waiting)
  {
    RunFromSnoc(s, [], StartLock);
    assert [] + [StartLock] == StartSteps([]);
  }

  lemma NoEnds(s: State)
    ensures RunFrom(s, EndSteps([])) == s
  {
  }

  /** Two services start, the first one panics, and the server stops during the delay: the
      loop returns an error while the worker of the second service is still running. */
  lemma StopDuringDelay()
    ensures
      var poll := Poll([], true);
      var s := Run(2, StartSteps([poll, poll, poll]) + TurnSteps(Turn([], 0, Panicked, true, false)));
      s.loop == Ended(false) && s.tasks == [Running(1)]
  {
    hide RunFrom, StartSteps, TurnSteps;
    var poll := Poll([], true);
    var start, turn := StartSteps([poll, poll, poll]), Turn([], 0, Panicked, true, false);
    RunFromTwice(Initial(2), start, TurnSteps(turn));
    TwoStarted();
    TurnResult(RunFrom(Initial(2), start), turn);
    TurnOfTwo(RunFrom(Initial(2), start), turn);
  }

  lemma TwoStarted()
    ensures
      var poll := Poll([], true);
      var s := RunFrom(Initial(2), StartSteps([poll, poll, poll]));
      s.start == Started(true) && s.loop == Waiting && s.tasks == [Running(0), Running(1)]
  {
    hide RunFrom, StartSteps, EndSteps;
    var poll, s := Poll([], true), Initial(2);
    NoStart(s);
    StartSnoc(s, [], poll);
    NoEnds(RunFrom(s, StartSteps([])));
    assert RunFrom(s, StartSteps([] + [poll])).tasks == [Running(0)];
    StartSnoc(s, [poll], poll);
    NoEnds(RunFrom(s, StartSteps([poll])));
    StartSnoc(s, [poll, poll], poll);
    NoEnds(RunFrom(s, StartSteps([poll, poll])));
    assert [] + [poll] == [poll] && [poll] + [poll] == [poll, poll] && [poll, poll] + [poll] == [poll, poll, poll];
  }

  lemma TurnOfTwo(s: State, t: Turn)
    requires s.start == Started(true) && s.loop == Waiting && s.tasks == [Running(0), Running(1)]
    requires t == Turn([], 0, Panicked, true, false)
    ensures
      var s' := Apply(Apply(Apply(Apply(Apply(s, LoopLock), Finish(t.i, t.outcome)), LoopJoin(t.i)),
                            LoopCheck(t.atError)), LoopRespawn(t.atRestart));
      s'.loop == Ended(false) && s'.tasks == [Running(1)]
  {
    var joined := Apply(Apply(Apply(s, LoopLock), Finish(t.i, t.outcome)), LoopJoin(t.i));
    assert joined.tasks == [Running(1)];
  }
}
