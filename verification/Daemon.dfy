/**
  The scheduler daemon as a concurrent protocol (internal/scheduler/daemon.go).

  Each event is one atomic step: a section run under the daemon's mutex, a
  WaitGroup operation or a `go` statement. The invariants are proved for every
  interleaving of the main loop, the task goroutines, the timer and the callers
  of the Trigger methods.
 */
module Daemon {

  type Name = string

  datatype Cause = Schedule | Manual | Webhook(queue: string) | Startup | Probe

  datatype Request = Request(name: Name, dryRun: bool, cause: Cause, explicit: bool)

  /** A run on behalf of q does what r asked for: a dry run does not stand in for a real one. */
  predicate Serves(q: Request, r: Request) {
    q.name == r.name && (q.dryRun ==> r.dryRun)
  }

  /** Where a runTask goroutine stands. */
  datatype Task =
    | Entering(req: Request)      // before its first locked section
    | Running(req: Request)       // in the runner
    | Respawning(next: Request)   // after the deferred locked section, about to `go` the follow-up
    | Finishing                   // about to call wg.Done
    | Gone

  /** Where the goroutine of Run stands, with the requests it still has to spawn. */
  datatype Loop =
    | Firing(todo: seq<Request>)
    | Armed(req: Request, todo: seq<Request>)   // between wg.Add and `go`

  const QUEUE_CAPACITY := 16

  datatype System = System(
    running: set<Name>,
    pending: map<Name, Request>,
    wg: int,
    tasks: seq<Task>,
    loop: Loop,
    queue: seq<Request>
  )

  datatype Event =
    | Trigger(req: Request)     // a Trigger method sends on the channel
    | Timer(due: seq<Name>)     // fireDue found these tasks due
    | Receive                   // the loop takes a request off the channel
    | AddWait                   // wg.Add(1) in the loop
    | Spawn                     // `go d.runTask` in the loop
    | Enter(t: nat)             // runTask's first locked section
    | Exit(t: nat)              // the runner has returned: the deferred locked section
    | Respawn(t: nat)           // `go d.runTask(next)`
    | Done(t: nat)              // wg.Done

  function Scheduled(name: Name): Request { Request(name, false, Schedule, false) }

  function ScheduledAll(due: seq<Name>): seq<Request> {
    seq(|due|, i requires 0 <= i < |due| => Scheduled(due[i]))
  }

  /** The state in which Run enters its loop, with the at-start tasks still to be spawned. */
  function Start(immediate: seq<Name>, queue: seq<Request>): System {
    System({}, map[], 0, [],
           Firing(seq(|immediate|, i requires 0 <= i < |immediate| => Request(immediate[i], false, Startup, false))),
           queue)
  }

  predicate Enabled(s: System, e: Event) {
    match e
    case Trigger(req) => req.explicit
    case Timer(_) => s.loop == Firing([])
    case Receive => s.loop == Firing([]) && s.queue != []
    case AddWait => s.loop.Firing? && s.loop.todo != []
    case Spawn => s.loop.Armed?
    case Enter(t) => t < |s.tasks| && s.tasks[t].Entering?
    case Exit(t) => t < |s.tasks| && s.tasks[t].Running?
    case Respawn(t) => t < |s.tasks| && s.tasks[t].Respawning?
    case Done(t) => t < |s.tasks| && s.tasks[t].Finishing?
  }

  /** What the first locked section does with a request. */
  function Entered(s: System, t: nat): System
    requires t < |s.tasks| && s.tasks[t].Entering?
  {
    var req := s.tasks[t].req;
    if req.name in s.running then
      var coalesce := req.explicit
        && (req.name !in s.pending || (s.pending[req.name].dryRun && !req.dryRun));
      s.(pending := if coalesce then s.pending[req.name := req] else s.pending,
         tasks := s.tasks[t := Finishing])
    else
      s.(running := s.running + {req.name},
         tasks := s.tasks[t := Running(req)])
  }

  /** What the deferred locked section does once the runner has returned. */
  function Exited(s: System, t: nat): System
    requires t < |s.tasks| && s.tasks[t].Running?
  {
    var name := s.tasks[t].req.name;
    if name in s.pending then
      s.(running := s.running - {name},
         pending := s.pending - {name},
         wg := s.wg + 1,
         tasks := s.tasks[t := Respawning(s.pending[name])])
    else
      s.(running := s.running - {name}, tasks := s.tasks[t := Finishing])
  }

  function Step(s: System, e: Event): System
    requires Enabled(s, e)
  {
    match e
    case Trigger(req) => if |s.queue| < QUEUE_CAPACITY then s.(queue := s.queue + [req]) else s
    case Timer(due) => s.(loop := Firing(ScheduledAll(due)))
    case Receive => s.(loop := Firing([s.queue[0]]), queue := s.queue[1..])
    case AddWait => s.(wg := s.wg + 1, loop := Armed(s.loop.todo[0], s.loop.todo[1..]))
    case Spawn => s.(tasks := s.tasks + [Entering(s.loop.req)], loop := Firing(s.loop.todo))
    case Enter(t) => Entered(s, t)
    case Exit(t) => Exited(s, t)
    case Respawn(t) => s.(tasks := s.tasks[t := Finishing] + [Entering(s.tasks[t].next)])
    case Done(t) => s.(wg := s.wg - 1, tasks := s.tasks[t := Gone])
  }

  /** Each state is reached from the one before by the event between them. */
  ghost predicate IsRun(states: seq<System>, events: seq<Event>) {
    && |states| == |events| + 1
    && forall k :: 0 <= k < |events| ==> Enabled(states[k], events[k]) && states[k + 1] == Step(states[k], events[k])
  }

  /** A run from the state in which Run enters its loop. */
  ghost predicate FromStart(immediate: seq<Name>, states: seq<System>, events: seq<Event>) {
    && IsRun(states, events)
    && states[0] == Start(immediate, states[0].queue)
    && forall i :: 0 <= i < |states[0].queue| ==> states[0].queue[i].explicit
  }

  ghost predicate Reachable(s: System) {
    exists immediate: seq<Name>, states: seq<System>, events: seq<Event> ::
      FromStart(immediate, states, events) && states[|events|] == s
  }

  // --- The invariant ---

  function Claims(task: Task): nat {
    match task
    case Entering(_) => 1
    case Running(_) => 1
    case Respawning(_) => 2
    case Finishing => 1
    case Gone => 0
  }

  function Sum(tasks: seq<Task>, weight: Task -> nat): nat {
    if tasks == [] then 0 else weight(tasks[0]) + Sum(tasks[1..], weight)
  }

  /** The task is a run of `name`. */
  predicate Runs(task: Task, name: Name) { task.Running? && task.req.name == name }

  /** `running` names exactly the tasks in the runner, and each is there once. */
  ghost predicate RunningIsExact(s: System) {
    && (forall i :: 0 <= i < |s.tasks| && s.tasks[i].Running? ==> s.tasks[i].req.name in s.running)
    && (forall n :: n in s.running ==> exists i :: 0 <= i < |s.tasks| && Runs(s.tasks[i], n))
    && (forall i, j :: 0 <= i < j < |s.tasks| && s.tasks[i].Running? && s.tasks[j].Running? ==>
          s.tasks[i].req.name != s.tasks[j].req.name)
  }

  ghost predicate PendingIsHeld(s: System) {
    && s.pending.Keys <= s.running
    && forall n :: n in s.pending ==> s.pending[n].name == n && s.pending[n].explicit
  }

  ghost predicate WaitGroupCounts(s: System) {
    s.wg == Sum(s.tasks, Claims) + if s.loop.Armed? then 1 else 0
  }

  /** A goroutine not yet in its run carries an explicit request that serves r. */
  predicate TaskHolds(task: Task, r: Request) {
    || (task.Entering? && task.req.explicit && Serves(task.req, r))
    || (task.Respawning? && task.next.explicit && Serves(task.next, r))
  }

  ghost predicate Held(s: System, r: Request) {
    || (exists i :: 0 <= i < |s.tasks| && TaskHolds(s.tasks[i], r))
    || (r.name in s.pending && Serves(s.pending[r.name], r))
    || (exists i :: 0 <= i < |s.loop.todo| && s.loop.todo[i].explicit && Serves(s.loop.todo[i], r))
    || (s.loop.Armed? && s.loop.req.explicit && Serves(s.loop.req, r))
  }

  ghost predicate OnlyExplicitHeld(s: System) {
    && (forall i :: 0 <= i < |s.tasks| && s.tasks[i].Respawning? ==> s.tasks[i].next.explicit)
    && (forall i :: 0 <= i < |s.queue| ==> s.queue[i].explicit)
  }

  ghost predicate Inv(s: System) {
    RunningIsExact(s) && PendingIsHeld(s) && WaitGroupCounts(s) && OnlyExplicitHeld(s)
  }

  // --- Every step keeps the invariant ---

  lemma {:induction false} SumUpdate(tasks: seq<Task>, i: nat, x: Task, weight: Task -> nat)
    requires i < |tasks|
    ensures Sum(tasks[i := x], weight) == Sum(tasks, weight) - weight(tasks[i]) + weight(x)
  {
    if i == 0 {
      assert tasks[0 := x][1..] == tasks[1..];
    } else {
      assert tasks[i := x][1..] == tasks[1..][i - 1 := x];
      SumUpdate(tasks[1..], i - 1, x, weight);
    }
  }

  lemma {:induction false} SumAppend(tasks: seq<Task>, x: Task, weight: Task -> nat)
    ensures Sum(tasks + [x], weight) == Sum(tasks, weight) + weight(x)
  {
    if tasks == [] {
      assert tasks + [x] == [x];
    } else {
      assert (tasks + [x])[1..] == tasks[1..] + [x];
      SumAppend(tasks[1..], x, weight);
    }
  }

  lemma CountsKept(s: System, e: Event)
    requires WaitGroupCounts(s) && Enabled(s, e)
    ensures WaitGroupCounts(Step(s, e))
  {
    hide Sum;
    match e
    case Trigger(_) =>
    case Timer(_) =>
    case Receive =>
    case AddWait =>
    case Spawn => SumAppend(s.tasks, Entering(s.loop.req), Claims);
    case Enter(t) => SumUpdate(s.tasks, t, Step(s, e).tasks[t], Claims);
    case Exit(t) => SumUpdate(s.tasks, t, Step(s, e).tasks[t], Claims);
    case Respawn(t) =>
      SumUpdate(s.tasks, t, Finishing, Claims);
      SumAppend(s.tasks[t := Finishing], Entering(s.tasks[t].next), Claims);
    case Done(t) => SumUpdate(s.tasks, t, Gone, Claims);
  }

  lemma RunnersKept(s: System, e: Event)
    requires RunningIsExact(s) && Enabled(s, e)
    ensures forall n :: n in Step(s, e).running ==>
      exists i :: 0 <= i < |Step(s, e).tasks| && Runs(Step(s, e).tasks[i], n)
  {
    var s' := Step(s, e);
    forall n | n in s'.running ensures exists i :: 0 <= i < |s'.tasks| && Runs(s'.tasks[i], n) {
      if n in s.running {
        var i :| 0 <= i < |s.tasks| && Runs(s.tasks[i], n);
        assert Runs(s'.tasks[i], n);
      } else {
        assert Runs(s'.tasks[e.t], n);
      }
    }
  }

  lemma RunningKept(s: System, e: Event)
    requires RunningIsExact(s) && Enabled(s, e)
    ensures RunningIsExact(Step(s, e))
  {
    hide Runs;
    RunnersKept(s, e);
    var s' := Step(s, e);
    assert forall i :: 0 <= i < |s'.tasks| && s'.tasks[i].Running? ==>
      (i < |s.tasks| && s.tasks[i] == s'.tasks[i] && !(e.Exit? && e.t == i)) || (e.Enter? && e.t == i);
  }

  lemma PendingKept(s: System, e: Event)
    requires PendingIsHeld(s) && Enabled(s, e)
    ensures PendingIsHeld(Step(s, e))
  {
  }

  /** A run of q begins. */
  ghost predicate Starts(before: System, after: System, q: Request) {
    exists t :: 0 <= t < |after.tasks| && after.tasks[t] == Running(q)
      && (t < |before.tasks| ==> before.tasks[t] != Running(q))
  }

  ghost predicate ServedBy(before: System, after: System, r: Request) {
    exists q :: Serves(q, r) && Starts(before, after, q)
  }

  /** What is held for a request after a step is there for it still, unless a run that serves it has begun. */
  lemma HeldOrServed(s: System, e: Event, r: Request)
    requires Inv(s) && Enabled(s, e) && r.explicit && Held(s, r)
    ensures Held(Step(s, e), r) || ServedBy(s, Step(s, e), r)
  {
    hide Inv, ServedBy;
    var s' := Step(s, e);
    if exists i :: 0 <= i < |s.tasks| && TaskHolds(s.tasks[i], r) {
      var i :| 0 <= i < |s.tasks| && TaskHolds(s.tasks[i], r);
      HeldByTask(s, e, r, i);
    } else if exists i :: 0 <= i < |s.loop.todo| && s.loop.todo[i].explicit && Serves(s.loop.todo[i], r) {
      var i :| 0 <= i < |s.loop.todo| && s.loop.todo[i].explicit && Serves(s.loop.todo[i], r);
      if e.AddWait? {
        if i > 0 { assert s'.loop.todo[i - 1] == s.loop.todo[i]; }
      } else {
        assert s'.loop.todo[i] == s.loop.todo[i];
      }
    } else if s.loop.Armed? && s.loop.req.explicit && Serves(s.loop.req, r) {
      if e.Spawn? { assert TaskHolds(s'.tasks[|s.tasks|], r); }
    } else {
      HeldByPending(s, e, r);
    }
  }

  lemma HeldByTask(s: System, e: Event, r: Request, i: nat)
    requires Inv(s) && Enabled(s, e) && i < |s.tasks| && TaskHolds(s.tasks[i], r)
    ensures Held(Step(s, e), r) || ServedBy(s, Step(s, e), r)
  {
    var s' := Step(s, e);
    if e.Respawn? && e.t == i {
      assert TaskHolds(s'.tasks[|s.tasks|], r);
    } else if e.Enter? && e.t == i {
      var q := s.tasks[i].req;
      if q.name in s.running {
        assert r.name in s'.pending && Serves(s'.pending[r.name], r);
      } else {
        assert s'.tasks[i] == Running(q);
        assert Starts(s, s', q);
      }
    } else {
      assert s'.tasks[i] == s.tasks[i];
    }
  }

  lemma HeldByPending(s: System, e: Event, r: Request)
    requires Inv(s) && Enabled(s, e) && r.name in s.pending && Serves(s.pending[r.name], r)
    ensures Held(Step(s, e), r)
  {
    var s' := Step(s, e);
    if e.Exit? && s.tasks[e.t].req.name == r.name {
      assert TaskHolds(s'.tasks[e.t], r);
    } else {
      assert r.name in s'.pending && Serves(s'.pending[r.name], r);
    }
  }

  lemma InvKept(s: System, e: Event)
    requires Inv(s) && Enabled(s, e)
    ensures Inv(Step(s, e))
  {
    hide RunningIsExact, WaitGroupCounts;
    CountsKept(s, e);
    RunningKept(s, e);
    PendingKept(s, e);
  }

  lemma StartInv(immediate: seq<Name>, queue: seq<Request>)
    requires forall i :: 0 <= i < |queue| ==> queue[i].explicit
    ensures Inv(Start(immediate, queue))
  {
  }

  lemma {:induction false} RunInv(immediate: seq<Name>, states: seq<System>, events: seq<Event>, k: nat)
    requires FromStart(immediate, states, events) && k <= |events|
    ensures Inv(states[k])
  {
    hide Inv;
    if k == 0 {
      StartInv(immediate, states[0].queue);
    } else {
      RunInv(immediate, states, events, k - 1);
      InvKept(states[k - 1], events[k - 1]);
    }
  }

  lemma ReachableInv(s: System)
    requires Reachable(s)
    ensures Inv(s)
  {
    var immediate: seq<Name>, states: seq<System>, events: seq<Event> :|
      FromStart(immediate, states, events) && states[|events|] == s;
    RunInv(immediate, states, events, |events|);
  }

  // --- What holds in every reachable state ---

  /** No task is ever in its runner twice. */
  lemma AtMostOneRun(s: System, i: nat, j: nat)
    requires Reachable(s) && i < |s.tasks| && j < |s.tasks|
    requires s.tasks[i].Running? && s.tasks[j].Running? && s.tasks[i].req.name == s.tasks[j].req.name
    ensures i == j
  {
    ReachableInv(s);
  }

  lemma PendingNeedsRun(s: System, n: Name)
    requires Reachable(s) && n in s.pending
    ensures n in s.running && exists i :: 0 <= i < |s.tasks| && Runs(s.tasks[i], n)
  {
    ReachableInv(s);
  }

  lemma {:induction false} SumZero(tasks: seq<Task>)
    requires Sum(tasks, Claims) == 0
    ensures forall i :: 0 <= i < |tasks| ==> tasks[i] == Gone
  {
    if tasks != [] {
      SumZero(tasks[1..]);
      assert forall i :: 0 < i < |tasks| ==> tasks[i] == tasks[1..][i - 1];
    }
  }

  /** When the WaitGroup is at zero, as Wait waits for, no run is under way and none is pending. */
  lemma WaitGroupZero(s: System)
    requires Reachable(s) && s.wg == 0
    ensures s.running == {} && s.pending == map[]
    ensures forall i :: 0 <= i < |s.tasks| ==> s.tasks[i] == Gone
  {
    ReachableInv(s);
    SumZero(s.tasks);
  }

  // --- Without new triggers or timer fires, the daemon comes to rest with every request served ---

  predicate Internal(e: Event) { !e.Trigger? && !e.Timer? }

  function Weight(task: Task): nat {
    match task
    case Entering(_) => 20
    case Running(_) => 10
    case Respawning(_) => 22
    case Finishing => 1
    case Gone => 0
  }

  /** Bounds the number of internal steps that can follow. */
  function Measure(s: System): nat {
    Sum(s.tasks, Weight) + 13 * |s.pending| + 23 * |s.queue| + 22 * |s.loop.todo| + if s.loop.Armed? then 21 else 0
  }

  lemma PendingSize(m: map<Name, Request>, n: Name, r: Request)
    ensures |m[n := r]| == |m| + if n in m then 0 else 1
    ensures |m - {n}| == |m| - if n in m then 1 else 0
  {
    assert m[n := r].Keys == m.Keys + {n};
    assert (m - {n}).Keys == m.Keys - {n};
    assert |m.Keys| == |m| && |m[n := r].Keys| == |m[n := r]| && |(m - {n}).Keys| == |m - {n}|;
  }

  lemma EnterDecreases(s: System, t: nat)
    requires Enabled(s, Enter(t))
    ensures Measure(Entered(s, t)) < Measure(s)
  {
    hide Sum;
    var req := s.tasks[t].req;
    SumUpdate(s.tasks, t, Finishing, Weight);
    SumUpdate(s.tasks, t, Running(req), Weight);
    PendingSize(s.pending, req.name, req);
  }

  lemma ExitDecreases(s: System, t: nat)
    requires Enabled(s, Exit(t))
    ensures Measure(Exited(s, t)) < Measure(s)
  {
    hide Sum;
    var req := s.tasks[t].req;
    SumUpdate(s.tasks, t, Finishing, Weight);
    if req.name in s.pending {
      SumUpdate(s.tasks, t, Respawning(s.pending[req.name]), Weight);
      PendingSize(s.pending, req.name, req);
    }
  }

  lemma LoopDecreases(s: System, e: Event)
    requires Enabled(s, e) && (e.Receive? || e.AddWait? || e.Spawn?)
    ensures Measure(Step(s, e)) < Measure(s)
  {
    hide Sum;
    if e.Spawn? { SumAppend(s.tasks, Entering(s.loop.req), Weight); }
  }

  lemma TaskEndDecreases(s: System, e: Event)
    requires Enabled(s, e) && (e.Respawn? || e.Done?)
    ensures Measure(Step(s, e)) < Measure(s)
  {
    hide Sum;
    SumUpdate(s.tasks, e.t, if e.Done? then Gone else Finishing, Weight);
    if e.Respawn? { SumAppend(s.tasks[e.t := Finishing], Entering(s.tasks[e.t].next), Weight); }
  }

  lemma InternalStepsDecrease(s: System, e: Event)
    requires Enabled(s, e) && Internal(e)
    ensures Measure(Step(s, e)) < Measure(s)
  {
    hide Measure, Entered, Exited;
    match e
    case Enter(t) => EnterDecreases(s, t);
    case Exit(t) => ExitDecreases(s, t);
    case Respawn(_) => TaskEndDecreases(s, e);
    case Done(_) => TaskEndDecreases(s, e);
    case _ => LoopDecreases(s, e);
  }

  lemma {:induction false} InternalRunsEnd(states: seq<System>, events: seq<Event>, k: nat)
    requires IsRun(states, events) && k <= |events| && forall i :: 0 <= i < |events| ==> Internal(events[i])
    ensures k + Measure(states[k]) <= Measure(states[0])
  {
    hide Measure;
    if k > 0 {
      InternalRunsEnd(states, events, k - 1);
      InternalStepsDecrease(states[k - 1], events[k - 1]);
    }
  }

  /** No internal step is left to take. */
  ghost predicate AtRest(s: System) {
    forall e :: Internal(e) ==> !Enabled(s, e)
  }

  /** In a reachable state at rest nothing runs, waits or is queued. */
  lemma RestIsServed(s: System)
    requires Reachable(s)
    ensures AtRest(s) <==> s.queue == [] && s.loop == Firing([]) && s.wg == 0
    ensures AtRest(s) ==> s.running == {} && s.pending == map[]
  {
    ReachableInv(s);
    if AtRest(s) {
      assert !Enabled(s, Receive) && !Enabled(s, AddWait) && !Enabled(s, Spawn);
      forall i | 0 <= i < |s.tasks| ensures s.tasks[i] == Gone {
        assert !Enabled(s, Enter(i)) && !Enabled(s, Exit(i)) && !Enabled(s, Respawn(i)) && !Enabled(s, Done(i));
      }
      AllGone(s.tasks);
    }
    if s.wg == 0 {
      SumZero(s.tasks);
    }
  }

  lemma {:induction false} AllGone(tasks: seq<Task>)
    requires forall i :: 0 <= i < |tasks| ==> tasks[i] == Gone
    ensures Sum(tasks, Claims) == 0
  {
    if tasks != [] {
      AllGone(tasks[1..]);
    }
  }

  // --- What becomes of every request ---

  /** The requests an event takes on: those of the due tasks, or the one off the channel. */
  function AskedBy(s: System, e: Event): seq<Request>
    requires Enabled(s, e)
  {
    match e
    case Timer(due) => seq(|due|, i requires 0 <= i < |due| => Request(due[i], false, Schedule, false))
    case Receive => [s.queue[0]]
    case _ => []
  }

  /** All requests taken on in the first k steps, after those of the at-start tasks. */
  ghost function Asked(immediate: seq<Name>, states: seq<System>, events: seq<Event>, k: nat): seq<Request>
    requires FromStart(immediate, states, events) && k <= |events|
  {
    if k == 0 then seq(|immediate|, i requires 0 <= i < |immediate| => Request(immediate[i], false, Startup, false))
    else Asked(immediate, states, events, k - 1) + AskedBy(states[k - 1], events[k - 1])
  }

  /** What the loop has started a goroutine for in a step. */
  function SpawnedBy(before: System, after: System, e: Event): seq<Request> {
    var t := |before.tasks|;
    if e == Spawn && t < |after.tasks| && after.tasks[t].Entering? then [after.tasks[t].req] else []
  }

  /** The requests the loop has started goroutines for in the first k steps. */
  ghost function Spawned(states: seq<System>, events: seq<Event>, k: nat): seq<Request>
    requires IsRun(states, events) && k <= |events|
  {
    if k == 0 then []
    else Spawned(states, events, k - 1) + SpawnedBy(states[k - 1], states[k], events[k - 1])
  }

  function Waiting(loop: Loop): seq<Request> { if loop.Armed? then [loop.req] + loop.todo else loop.todo }

  lemma WaitingStep(s: System, e: Event)
    requires Enabled(s, e)
    ensures Waiting(s.loop) + AskedBy(s, e) == SpawnedBy(s, Step(s, e), e) + Waiting(Step(s, e).loop)
  {
    assert e.AddWait? ==> s.loop.todo == [s.loop.todo[0]] + s.loop.todo[1..];
  }

  /** The loop starts a goroutine for each request it takes on, in order. */
  lemma {:induction false} AskedIsSpawned(immediate: seq<Name>, states: seq<System>, events: seq<Event>, k: nat)
    requires FromStart(immediate, states, events) && k <= |events|
    ensures Asked(immediate, states, events, k) == Spawned(states, events, k) + Waiting(states[k].loop)
  {
    hide AskedBy, SpawnedBy, Waiting, Step;
    if k == 0 {
      assert Waiting(states[0].loop) == states[0].loop.todo by { StartWaits(immediate, states[0].queue); }
    } else {
      AskedIsSpawned(immediate, states, events, k - 1);
      WaitingStep(states[k - 1], events[k - 1]);
      Regroup(Spawned(states, events, k - 1), Waiting(states[k - 1].loop), AskedBy(states[k - 1], events[k - 1]),
              SpawnedBy(states[k - 1], states[k], events[k - 1]), Waiting(states[k].loop));
    }
  }

  lemma StartWaits(immediate: seq<Name>, queue: seq<Request>)
    ensures var s := Start(immediate, queue);
      Waiting(s.loop) == s.loop.todo ==
        seq(|immediate|, i requires 0 <= i < |immediate| => Request(immediate[i], false, Startup, false))
  {
  }

  lemma Regroup(spawned: seq<Request>, waiting: seq<Request>, asked: seq<Request>, now: seq<Request>,
                left: seq<Request>)
    requires waiting + asked == now + left
    ensures spawned + waiting + asked == spawned + now + left
  {
    assert spawned + waiting + asked == spawned + (waiting + asked);
  }

  ghost predicate InProgress(s: System, name: Name) { exists i :: 0 <= i < |s.tasks| && Runs(s.tasks[i], name) }

  /** A run that serves r begins in one of these steps. */
  ghost predicate Served(states: seq<System>, from: nat, to: nat, r: Request) {
    exists j :: from <= j < to < |states| && ServedBy(states[j], states[j + 1], r)
  }

  /**
    At step j goroutine t comes to its request: it begins the run, or a run of
    that name is in progress. Then an explicit request is held or served since.
   */
  ghost predicate Decided(states: seq<System>, events: seq<Event>, t: nat, r: Request, j: nat, n: nat) {
    && j < n <= |events| && n < |states| && events[j] == Enter(t)
    && t < |states[j].tasks| && states[j].tasks[t] == Entering(r) && t < |states[j + 1].tasks|
    && (states[j + 1].tasks[t] == Running(r)
        || (InProgress(states[j], r.name) && (r.explicit ==> Held(states[n], r) || Served(states, j, n, r))))
  }

  ghost predicate Awaits(s: System, t: nat, r: Request) { t < |s.tasks| && s.tasks[t] == Entering(r) }

  lemma ServedMore(states: seq<System>, from: nat, n: nat, r: Request)
    requires n + 1 < |states| && from <= n
    requires Served(states, from, n, r) || ServedBy(states[n], states[n + 1], r)
    ensures Served(states, from, n + 1, r)
  {
    hide ServedBy;
  }

  lemma DecidedKept(states: seq<System>, events: seq<Event>, t: nat, r: Request, j: nat, n: nat)
    requires IsRun(states, events) && n < |events| && Inv(states[n]) && Decided(states, events, t, r, j, n)
    ensures Decided(states, events, t, r, j, n + 1)
  {
    hide Inv, Held, ServedBy, InProgress, Served;
    if r.explicit {
      if Held(states[n], r) { HeldOrServed(states[n], events[n], r); }
      if !Held(states[n + 1], r) && (Served(states, j, n, r) || ServedBy(states[n], states[n + 1], r)) {
        ServedMore(states, j, n, r);
      } else if Served(states, j, n, r) {
        ServedMore(states, j, n, r);
      }
    }
  }

  lemma EnterDecides(states: seq<System>, events: seq<Event>, t: nat, r: Request, n: nat)
    requires IsRun(states, events) && n < |events| && Inv(states[n]) && Awaits(states[n], t, r)
    requires events[n] == Enter(t)
    ensures Decided(states, events, t, r, n, n + 1)
  {
    hide WaitGroupCounts;
    var s, s' := states[n], states[n + 1];
    if r.name in s.running {
      assert InProgress(s, r.name);
      if r.explicit { assert r.name in s'.pending && Serves(s'.pending[r.name], r); }
    }
  }

  lemma AwaitsStill(s: System, e: Event, t: nat, r: Request)
    requires Enabled(s, e) && Awaits(s, t, r) && e != Enter(t)
    ensures Awaits(Step(s, e), t, r)
  {
  }

  /** A goroutine with a request is still to come to it, or has. */
  lemma {:induction false} GoroutineFate(immediate: seq<Name>, states: seq<System>, events: seq<Event>, t: nat,
                                         r: Request, k: nat, n: nat)
    requires FromStart(immediate, states, events) && k <= n <= |events| && Awaits(states[k], t, r)
    ensures Awaits(states[n], t, r) || exists j :: k <= j && Decided(states, events, t, r, j, n)
  {
    hide Inv, Awaits, Decided;
    if n > k {
      GoroutineFate(immediate, states, events, t, r, k, n - 1);
      RunInv(immediate, states, events, n - 1);
      if Awaits(states[n - 1], t, r) {
        if events[n - 1] == Enter(t) {
          EnterDecides(states, events, t, r, n - 1);
        } else {
          AwaitsStill(states[n - 1], events[n - 1], t, r);
        }
      } else {
        var j :| k <= j && Decided(states, events, t, r, j, n - 1);
        DecidedKept(states, events, t, r, j, n - 1);
      }
    }
  }

  lemma SpawnAwaits(before: System, after: System, e: Event)
    ensures SpawnedBy(before, after, e) == []
      || (|SpawnedBy(before, after, e)| == 1 && Awaits(after, |before.tasks|, SpawnedBy(before, after, e)[0]))
  {
  }

  lemma {:induction false} SpawnedAt(states: seq<System>, events: seq<Event>, n: nat, i: nat) returns (k: nat)
    requires IsRun(states, events) && n <= |events| && i < |Spawned(states, events, n)|
    ensures k < n && Awaits(states[k + 1], |states[k].tasks|, Spawned(states, events, n)[i])
  {
    hide Step, SpawnedBy;
    if i < |Spawned(states, events, n - 1)| {
      k := SpawnedAt(states, events, n - 1, i);
    } else {
      k := n - 1;
      SpawnAwaits(states[k], states[n], events[k]);
    }
  }

  /** Goroutine t has r, and is still to come to it or has. */
  ghost predicate Fate(states: seq<System>, events: seq<Event>, n: nat, t: nat, r: Request)
    requires IsRun(states, events) && n <= |events|
  {
    Awaits(states[n], t, r) || exists j :: Decided(states, events, t, r, j, n)
  }

  /**
    Every request taken on, from the timer, the channel or at the start: it waits
    in the loop, or a goroutine of its own has begun its run or found one of that
    name in progress; and an explicit one is then held or served.
   */
  lemma EveryRequest(immediate: seq<Name>, states: seq<System>, events: seq<Event>, n: nat, i: nat)
    requires FromStart(immediate, states, events) && n <= |events| && i < |Asked(immediate, states, events, n)|
    ensures var r := Asked(immediate, states, events, n)[i];
      r in Waiting(states[n].loop) || exists t :: Fate(states, events, n, t, r)
  {
    hide Awaits, Decided, Waiting;
    AskedIsSpawned(immediate, states, events, n);
    var r, spawned := Asked(immediate, states, events, n)[i], Spawned(states, events, n);
    if i < |spawned| {
      var k := SpawnedAt(states, events, n, i);
      GoroutineFate(immediate, states, events, |states[k].tasks|, r, k + 1, n);
      assert Fate(states, events, n, |states[k].tasks|, r);
    } else {
      assert r == Waiting(states[n].loop)[i - |spawned|];
    }
  }

  /** A request off the channel is held by something that serves it until a run that serves it begins. */
  lemma {:induction false} ExplicitServed(immediate: seq<Name>, states: seq<System>, events: seq<Event>, k: nat, n: nat)
    requires FromStart(immediate, states, events) && k < n <= |events| && events[k] == Receive
    ensures var r := states[k].queue[0];
      r.explicit && (Held(states[n], r) || Served(states, k, n, r))
  {
    hide Inv, Held, Served, ServedBy, Serves;
    var r := states[k].queue[0];
    RunInv(immediate, states, events, n - 1);
    QueueExplicit(immediate, states, events, k);
    if n == k + 1 {
      ReceivedHeld(states[k], r);
    } else {
      ExplicitServed(immediate, states, events, k, n - 1);
      if Served(states, k, n - 1, r) {
        ServedMore(states, k, n - 1, r);
      } else {
        HeldOrServed(states[n - 1], events[n - 1], r);
        if !Held(states[n], r) { ServedMore(states, k, n - 1, r); }
      }
    }
  }

  lemma QueueExplicit(immediate: seq<Name>, states: seq<System>, events: seq<Event>, k: nat)
    requires FromStart(immediate, states, events) && k <= |events| && states[k].queue != []
    ensures states[k].queue[0].explicit
  {
    RunInv(immediate, states, events, k);
  }

  lemma ReceivedHeld(s: System, r: Request)
    requires Enabled(s, Receive) && r == s.queue[0] && r.explicit
    ensures Held(Step(s, Receive), r)
  {
    var s' := Step(s, Receive);
    assert s'.loop.todo[0] == r;
  }

  /** A run of its own, or one that was in progress; an explicit request has a run that serves it either way. */
  ghost predicate Answered(states: seq<System>, events: seq<Event>, r: Request) {
    exists j: nat, t: nat :: j < |events| < |states| && t < |states[j].tasks| && t < |states[j + 1].tasks|
      && events[j] == Enter(t) && states[j].tasks[t] == Entering(r)
      && (states[j + 1].tasks[t] == Running(r)
          || (InProgress(states[j], r.name) && (r.explicit ==> Served(states, j, |events|, r))))
  }

  /** When the daemon comes to rest, every request it took on has been answered. */
  lemma RestAnswersAll(immediate: seq<Name>, states: seq<System>, events: seq<Event>, i: nat)
    requires FromStart(immediate, states, events) && AtRest(states[|events|])
    requires i < |Asked(immediate, states, events, |events|)|
    ensures Answered(states, events, Asked(immediate, states, events, |events|)[i])
  {
    hide Inv, AtRest, Decided, Answered, Awaits, Held, Asked;
    var n := |events|;
    var s, r := states[n], Asked(immediate, states, events, n)[i];
    EveryRequest(immediate, states, events, n, i);
    RestIsServed(s);
    assert !Held(s, r) by { NothingHeld(s, r); }
    var t :| Fate(states, events, n, t, r);
    assert !Awaits(s, t, r) by { NothingHeld(s, r); }
    var j :| Decided(states, events, t, r, j, n);
    DecidedAnswers(states, events, t, r, j);
  }

  lemma DecidedAnswers(states: seq<System>, events: seq<Event>, t: nat, r: Request, j: nat)
    requires Decided(states, events, t, r, j, |events|) && !Held(states[|events|], r)
    ensures Answered(states, events, r)
  {
    hide InProgress, Served, Held;
  }

  lemma NothingHeld(s: System, r: Request)
    requires Reachable(s) && s.wg == 0 && s.loop == Firing([])
    ensures !Held(s, r) && forall t :: !Awaits(s, t, r)
  {
    WaitGroupZero(s);
  }

  /** A task found due is run, unless a run of it is in progress when its turn comes; and never as a dry run. */
  lemma DueTaskRuns(immediate: seq<Name>, states: seq<System>, events: seq<Event>, k: nat, name: Name)
    requires FromStart(immediate, states, events) && AtRest(states[|events|])
    requires k < |events| && events[k].Timer? && name in events[k].due
    ensures Answered(states, events, Request(name, false, Schedule, false))
  {
    hide Answered, AtRest;
    var i :| 0 <= i < |events[k].due| && events[k].due[i] == name;
    AskedStays(immediate, states, events, k + 1, |events|);
    var before := |Asked(immediate, states, events, k)|;
    assert AskedBy(states[k], events[k])[i] == Request(name, false, Schedule, false);
    RestAnswersAll(immediate, states, events, before + i);
  }

  /** A request off the channel has been followed by a run of its name, and by one that is no dry run if it is none. */
  lemma TriggerRuns(immediate: seq<Name>, states: seq<System>, events: seq<Event>, k: nat)
    requires FromStart(immediate, states, events) && AtRest(states[|events|])
    requires k < |events| && events[k] == Receive
    ensures var r := states[k].queue[0];
      exists j: nat, q :: k <= j < |events| && Starts(states[j], states[j + 1], q)
        && q.name == r.name && (!r.dryRun ==> !q.dryRun)
  {
    hide Inv, AtRest, Held, Starts;
    var r, n := states[k].queue[0], |events|;
    ExplicitServed(immediate, states, events, k, n);
    RestIsServed(states[n]);
    NothingHeld(states[n], r);
    var j: nat :| k <= j < n && ServedBy(states[j], states[j + 1], r);
    var q :| Serves(q, r) && Starts(states[j], states[j + 1], q);
    assert q.name == r.name && (!r.dryRun ==> !q.dryRun);
  }

  lemma {:induction false} AskedStays(immediate: seq<Name>, states: seq<System>, events: seq<Event>, k: nat, n: nat)
    requires FromStart(immediate, states, events) && k <= n <= |events|
    ensures Asked(immediate, states, events, k) <= Asked(immediate, states, events, n)
    decreases n
  {
    if k < n { AskedStays(immediate, states, events, k, n - 1); }
  }

  /** The requests sent in the first k steps while there was room in the channel. */
  ghost function Sent(states: seq<System>, events: seq<Event>, k: nat): seq<Request>
    requires IsRun(states, events) && k <= |events|
  {
    if k == 0 then []
    else
      Sent(states, events, k - 1)
      + if events[k - 1].Trigger? && |states[k - 1].queue| < 16 then [events[k - 1].req] else []
  }

  /** The requests that the loop has taken off it. */
  ghost function Received(states: seq<System>, events: seq<Event>, k: nat): seq<Request>
    requires IsRun(states, events) && k <= |events|
  {
    if k == 0 then []
    else Received(states, events, k - 1) + if events[k - 1] == Receive then [states[k - 1].queue[0]] else []
  }

  /** The channel holds up to 16 requests and hands them over in the order they were sent; more are dropped. */
  lemma {:induction false} ChannelInOrder(states: seq<System>, events: seq<Event>, k: nat)
    requires IsRun(states, events) && k <= |events|
    ensures Received(states, events, k) + states[k].queue == states[0].queue + Sent(states, events, k)
  {
    hide Step;
    if k > 0 {
      ChannelInOrder(states, events, k - 1);
      ChannelStep(states[k - 1], events[k - 1]);
      var s, e := states[k - 1], events[k - 1];
      var taken := if e == Receive then [s.queue[0]] else [];
      var put := if e.Trigger? && |s.queue| < 16 then [e.req] else [];
      var received, sent := Received(states, events, k - 1), Sent(states, events, k - 1);
      assert taken + states[k].queue == s.queue + put;
      assert received + taken + states[k].queue == received + (taken + states[k].queue);
      assert received + (s.queue + put) == states[0].queue + sent + put;
      assert states[0].queue + (sent + put) == states[0].queue + sent + put;
    }
  }

  lemma ChannelStep(s: System, e: Event)
    requires Enabled(s, e)
    ensures (if e == Receive then [s.queue[0]] else []) + Step(s, e).queue ==
      s.queue + if e.Trigger? && |s.queue| < 16 then [e.req] else []
  {
  }

  /** Nothing is run, or waits to be, that was not asked for. */
  ghost predicate OnlyThese(s: System, asked: seq<Request>) {
    && (forall r :: r in Waiting(s.loop) ==> r in asked)
    && (forall n :: n in s.pending ==> s.pending[n] in asked)
    && forall i :: 0 <= i < |s.tasks| ==> Carries(s.tasks[i], asked)
  }

  predicate Carries(task: Task, asked: seq<Request>) {
    match task
    case Entering(req) => req in asked
    case Running(req) => req in asked
    case Respawning(next) => next in asked
    case _ => true
  }

  lemma OnlyTheseKept(s: System, e: Event, asked: seq<Request>)
    requires Enabled(s, e) && OnlyThese(s, asked)
    ensures OnlyThese(Step(s, e), asked + AskedBy(s, e))
  {
    var s', more := Step(s, e), asked + AskedBy(s, e);
    assert forall r :: r in Waiting(s.loop) || r in AskedBy(s, e) ==> r in more;
    WaitingStep(s, e);
    forall r | r in Waiting(s'.loop) ensures r in more {
      assert r in SpawnedBy(s, s', e) + Waiting(s'.loop);
    }
    forall i | 0 <= i < |s'.tasks| ensures Carries(s'.tasks[i], more) {
      assert i < |s.tasks| ==> Carries(s.tasks[i], asked);
    }
  }

  lemma {:induction false} OnlyAsked(immediate: seq<Name>, states: seq<System>, events: seq<Event>, k: nat)
    requires FromStart(immediate, states, events) && k <= |events|
    ensures OnlyThese(states[k], Asked(immediate, states, events, k))
  {
    hide OnlyThese;
    if k == 0 {
      assert OnlyThese(states[0], Asked(immediate, states, events, 0)) by { StartsAsked(immediate, states[0].queue); }
    } else {
      OnlyAsked(immediate, states, events, k - 1);
      OnlyTheseKept(states[k - 1], events[k - 1], Asked(immediate, states, events, k - 1));
    }
  }

  lemma StartsAsked(immediate: seq<Name>, queue: seq<Request>)
    ensures OnlyThese(Start(immediate, queue),
      seq(|immediate|, i requires 0 <= i < |immediate| => Request(immediate[i], false, Startup, false)))
  {
  }

  // --- The daemon's steps ---

  class Daemon {
    var running: set<Name>
    var pending: map<Name, Request>
    var wg: int
    var tasks: seq<Task>
    var loop: Loop
    var queue: seq<Request>

    function View(): System
      reads this
    {
      System(running, pending, wg, tasks, loop, queue)
    }

    /** The non-blocking send of Trigger, TriggerWebhook and TriggerProbe. */
    method Send(req: Request)
      requires req.explicit
      modifies this
      ensures View() == Step(old(View()), Trigger(req))
    {
      if |queue| < QUEUE_CAPACITY { queue := queue + [req]; }
    }

    /** One turn of the select: fireDue's tasks, */
    method FireTimer(due: seq<Name>)
      requires loop == Firing([])
      modifies this
      ensures View() == Step(old(View()), Timer(due))
    {
      loop := Firing(ScheduledAll(due));
    }

    /** or a request off the channel. */
    method ReceiveRequest()
      requires loop == Firing([]) && queue != []
      modifies this
      ensures View() == Step(old(View()), Receive)
    {
      var req := queue[0];
      queue := queue[1..];
      loop := Firing([req]);
    }

    method AddToWaitGroup()
      requires loop.Firing? && loop.todo != []
      modifies this
      ensures View() == Step(old(View()), AddWait)
    {
      wg := wg + 1;
      loop := Armed(loop.todo[0], loop.todo[1..]);
    }

    method SpawnTask()
      requires loop.Armed?
      modifies this
      ensures View() == Step(old(View()), Spawn)
    {
      tasks := tasks + [Entering(loop.req)];
      loop := Firing(loop.todo);
    }

    /** The first locked section of runTask. */
    method EnterTask(t: nat)
      requires Enabled(View(), Enter(t))
      modifies this
      ensures View() == Step(old(View()), Enter(t))
    {
      var req := tasks[t].req;
      if req.name in running {
        if req.explicit {
          if req.name !in pending || (pending[req.name].dryRun && !req.dryRun) {
            pending := pending[req.name := req];
          }
        }
        tasks := tasks[t := Finishing];
        return;
      }
      running := running + {req.name};
      tasks := tasks[t := Running(req)];
    }

    /** The deferred locked section of runTask. */
    method ExitTask(t: nat)
      requires Enabled(View(), Exit(t))
      modifies this
      ensures View() == Step(old(View()), Exit(t))
    {
      var name := tasks[t].req.name;
      running := running - {name};
      if name in pending {
        var next := pending[name];
        pending := pending - {name};
        wg := wg + 1;
        tasks := tasks[t := Respawning(next)];
      } else {
        tasks := tasks[t := Finishing];
      }
    }

    method SpawnFollowUp(t: nat)
      requires Enabled(View(), Respawn(t))
      modifies this
      ensures View() == Step(old(View()), Respawn(t))
    {
      var next := tasks[t].next;
      tasks := tasks[t := Finishing] + [Entering(next)];
    }

    method TaskDone(t: nat)
      requires Enabled(View(), Done(t))
      modifies this
      ensures View() == Step(old(View()), Done(t))
    {
      wg := wg - 1;
      tasks := tasks[t := Gone];
    }
  }

  // --- The timetable: fireDue and nextWake ---

  datatype Entry = Entry(task: Name, schedule: int -> int, next: int)

  function Refired(e: Entry, now: int): Entry {
    if e.next <= now then e.(next := e.schedule(now)) else e
  }

  function DueNames(entries: seq<Entry>, now: int): seq<Name> {
    if entries == [] then []
    else
      var k := |entries| - 1;
      DueNames(entries[..k], now) + if entries[k].next <= now then [entries[k].task] else []
  }

  class Timetable {
    var entries: seq<Entry>

    /** Takes the due tasks in entry order and moves each to its next time. */
    method FireDue(now: int) returns (due: seq<Name>)
      modifies this
      ensures due == DueNames(old(entries), now)
      ensures |entries| == |old(entries)|
      ensures forall i :: 0 <= i < |entries| ==> entries[i] == Refired(old(entries)[i], now)
    {
      due := [];
      for k := 0 to |entries|
        invariant |entries| == |old(entries)|
        invariant forall i :: 0 <= i < k ==> entries[i] == Refired(old(entries)[i], now)
        invariant forall i :: k <= i < |entries| ==> entries[i] == old(entries)[i]
        invariant due == DueNames(old(entries)[..k], now)
      {
        assert old(entries)[..k + 1][..k] == old(entries)[..k];
        var e := entries[k];
        if e.next <= now {
          due := due + [e.task];
          entries := entries[k := e.(next := e.schedule(now))];
        }
      }
      assert old(entries)[..|entries|] == old(entries);
    }

    /** The earliest next time; `some` is false where the source returns the zero time. */
    method NextWake() returns (some: bool, earliest: int)
      ensures some <==> entries != []
      ensures some ==> exists i :: 0 <= i < |entries| && entries[i].next == earliest
      ensures some ==> forall i :: 0 <= i < |entries| ==> earliest <= entries[i].next
    {
      some, earliest := false, 0;
      for k := 0 to |entries|
        invariant some <==> k > 0
        invariant some ==> exists i :: 0 <= i < k && entries[i].next == earliest
        invariant some ==> forall i :: 0 <= i < k ==> earliest <= entries[i].next
      {
        if !some || entries[k].next < earliest {
          some, earliest := true, entries[k].next;
        }
      }
    }
  }

  /** fireDue fires a task exactly when one of its entries is due. */
  lemma {:induction false} DueExactly(entries: seq<Entry>, now: int, task: Name)
    ensures task in DueNames(entries, now) <==>
      exists i :: 0 <= i < |entries| && entries[i].next <= now && entries[i].task == task
  {
    if entries != [] {
      var k := |entries| - 1;
      DueExactly(entries[..k], now, task);
      assert forall i :: 0 <= i < k ==> entries[..k][i] == entries[i];
    }
  }

  /** With schedules that only move forward, as Next does, nothing is due once fireDue has run. */
  lemma NothingDueAgain(entries: seq<Entry>, after: seq<Entry>, now: int)
    requires |after| == |entries| && forall i :: 0 <= i < |entries| ==> after[i] == Refired(entries[i], now)
    requires forall i :: 0 <= i < |entries| ==> now < entries[i].schedule(now)
    ensures DueNames(after, now) == []
  {
    if DueNames(after, now) != [] {
      var task := DueNames(after, now)[0];
      DueExactly(after, now, task);
    }
  }

  /** x is the first of the instants after t. */
  ghost predicate FirstAfter(at: int -> bool, t: int, x: int) {
    t < x && at(x) && forall y :: t < y < x ==> !at(y)
  }

  /** An entry as the checks at times[1], times[2], ... have left it; it was added at times[0]. */
  function Checked(e: Entry, times: seq<int>): Entry {
    if |times| <= 1 then e else Refired(Checked(e, times[..|times| - 1]), times[|times| - 1])
  }

  /**
    Over all checks of the timetable, a task is due at one exactly when an
    instant of its schedule has come since the check before; none is missed,
    and none fires twice.
   */
  lemma {:induction false} NoneMissed(e: Entry, at: int -> bool, times: seq<int>)
    requires forall t :: FirstAfter(at, t, e.schedule(t))
    requires times != [] && e.next == e.schedule(times[0])
    requires forall i :: 0 < i < |times| ==> times[i - 1] <= times[i]
    ensures FirstAfter(at, times[|times| - 1], Checked(e, times).next) && Checked(e, times).schedule == e.schedule
    ensures |times| > 1 ==>
      var (last, now) := (times[|times| - 2], times[|times| - 1]);
      Checked(e, times[..|times| - 1]).next <= now <==> exists x :: last < x <= now && at(x)
  {
    var n := |times| - 1;
    if n > 0 {
      NoneMissed(e, at, times[..n]);
      CheckedOnce(Checked(e, times[..n]), at, times[n - 1], times[n]);
    }
  }

  lemma CheckedOnce(e: Entry, at: int -> bool, last: int, now: int)
    requires FirstAfter(at, last, e.next) && FirstAfter(at, now, e.schedule(now)) && last <= now
    ensures FirstAfter(at, now, Refired(e, now).next) && Refired(e, now).schedule == e.schedule
    ensures e.next <= now <==> exists x :: last < x <= now && at(x)
  {
  }
}
