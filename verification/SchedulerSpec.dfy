/**
 The local scheduler as a value: one state, one transition per handler, the invariant that
 every transition keeps, and what that means for whole runs.
 */
module SchedulerSpec {
  import opened IdLists
  import opened Tasks
  import opened TaskQueues
  import opened FetchIndex
  import opened WorkerPool

  datatype Queues = Queues(waiting: seq<Node>, dispatch: seq<Node>, next: nat, local: set<ObjectId>)

  datatype Assignment = Assignment(worker: WorkerId, task: Task)

  /** `sent` holds the ExecuteTask messages and `forwarded` the tasks handed to the global
      scheduler, both in order; `dead` holds the removed drivers; `aborted` says that a check of
      the scheduler failed, which ends its process. */
  datatype State = State(
    q: Queues, p: Pool, dead: set<DriverId>, hasGlobal: bool,
    sent: seq<Assignment>, forwarded: seq<Task>, aborted: bool)

  datatype Event =
    | Connected(worker: WorkerId)
    | Submitted(task: Task)
    | Scheduled(task: Task)
    | GetTask(worker: WorkerId)
    | Reconstruct(worker: WorkerId)
    | NotifyUnblocked(worker: WorkerId)
    | Disconnected(worker: WorkerId)
    | ObjectAvailable(object: ObjectId)
    | ObjectRemoved(object: ObjectId)
    | DriverRemoved(driver: DriverId)

  function Initial(cpu: Amount, gpu: Amount, hasGlobal: bool): State {
    State(Queues([], [], 0, {}), Pool([], map[], [], [], [], cpu, gpu, cpu, gpu), {}, hasGlobal, [], [], false)
  }

  // ---- The queue part of the handlers ----

  /** A task decided to run here joins the dispatch queue when its arguments are local, and the
      waiting queue otherwise. */
  function Enqueue(q: Queues, t: Task): Queues {
    if CanRun(t, q.local) then q.(dispatch := q.dispatch + [Node(q.next, t)], next := q.next + 1)
    else q.(waiting := q.waiting + [Node(q.next, t)], next := q.next + 1)
  }

  function Arrive(q: Queues, o: ObjectId): Queues {
    var m := Scan(Moved(q.waiting, q.dispatch, q.next), q.local + {o});
    Queues(m.waiting, m.dispatch, m.next, q.local + {o})
  }

  function Depart(q: Queues, o: ObjectId): Queues {
    var back := Select(q.dispatch, Needs(o), true);
    Queues(q.waiting + Renumber(back, q.next), Select(q.dispatch, Needs(o), false), q.next + |back|, q.local - {o})
  }

  function DropDriver(q: Queues, d: DriverId): Queues {
    q.(waiting := Select(q.waiting, OwnedBy(d), false), dispatch := Select(q.dispatch, OwnedBy(d), false))
  }

  // ---- One dispatch pass ----

  predicate SomeResource(p: Pool) {
    p.freeCpu > 0.0 || p.freeGpu > 0.0
  }

  function AssignAt(s: State, i: nat): State
    requires i < |s.q.dispatch| && s.p.available != []
  {
    var t := s.q.dispatch[i].task;
    s.(q := s.q.(dispatch := Erase(s.q.dispatch, i)),
       p := Start(s.p, t),
       sent := s.sent + [Assignment(s.p.available[|s.p.available| - 1], t)])
  }

  /** The pass over the dispatch queue from position `i` on. Assigning a task checks that its
      driver is alive before anything else happens. */
  function DispatchFrom(s: State, i: nat): State
    requires i <= |s.q.dispatch|
    decreases |s.q.dispatch| - i
  {
    if i == |s.q.dispatch| || s.p.available == [] || !SomeResource(s.p) then s
    else if !Fits(s.q.dispatch[i].task, s.p) then DispatchFrom(s, i + 1)
    else if s.q.dispatch[i].task.driver in s.dead then s.(aborted := true)
    else DispatchFrom(AssignAt(s, i), i)
  }

  function Dispatch(s: State): State {
    DispatchFrom(s, 0)
  }

  // ---- Transitions ----

  /** What the handler's checks, and the order in which clients send messages, demand. */
  predicate Enabled(s: State, e: Event) {
    && !s.aborted
    && match e
    case Connected(w) => w !in s.p.clients
    case Submitted(t) => true
    case Scheduled(t) => true
    case GetTask(w) => w in s.p.clients && w !in s.p.available && w !in s.p.blocked
    case Reconstruct(w) => w in s.p.clients
    case NotifyUnblocked(w) => w in s.p.clients && (s.p.clients[w].task.Some? ==> s.p.clients[w].blocked)
    case Disconnected(w) => w in s.p.clients
    case ObjectAvailable(o) => o !in s.q.local && NamedOnce(s.q.waiting, o, s.q.local + {o})
    case ObjectRemoved(o) => o in s.q.local
    case DriverRemoved(d) => true
  }

  predicate RunsHereAtOnce(s: State, t: Task) {
    && t.cpus <= s.p.totalCpu && t.gpus <= s.p.totalGpu && Fits(t, s.p)
    && s.p.available != [] && CanRun(t, s.q.local)
  }

  function Submit(s: State, t: Task): State {
    if RunsHereAtOnce(s, t) || !s.hasGlobal then s.(q := Enqueue(s.q, t))
    else s.(forwarded := s.forwarded + [t])
  }

  function Step(s: State, e: Event): State
    requires Enabled(s, e)
  {
    match e
    case Connected(w) => s.(p := Connect(s.p, w))
    case Submitted(t) => Dispatch(Submit(s, t))
    case Scheduled(t) => if t.driver in s.dead then s else Dispatch(s.(q := Enqueue(s.q, t)))
    case GetTask(w) => Dispatch(s.(p := Finish(s.p, w)))
    case Reconstruct(w) =>
      if s.p.clients[w].task.Some? && !s.p.clients[w].blocked then Dispatch(s.(p := Block(s.p, w))) else s
    case NotifyUnblocked(w) => if s.p.clients[w].task.Some? then s.(p := Unblock(s.p, w)) else s
    case Disconnected(w) => s.(p := Kill(s.p, w))
    case ObjectAvailable(o) =>
      var s' := s.(q := Arrive(s.q, o));
      if Index(s.q.waiting, o) != [] then Dispatch(s') else s'
    case ObjectRemoved(o) => s.(q := Depart(s.q, o))
    case DriverRemoved(d) =>
      s.(q := DropDriver(s.q, d), p := KillOwned(s.p, s.p.workers, d), dead := s.dead + {d})
  }

  predicate Feasible(s: State, es: seq<Event>)
    decreases |es|
  {
    es == [] || (Enabled(s, es[0]) && Feasible(Step(s, es[0]), es[1..]))
  }

  function Run(s: State, es: seq<Event>): State
    requires Feasible(s, es)
    decreases |es|
  {
    if es == [] then s else Run(Step(s, es[0]), es[1..])
  }

  // ---- The invariant ----

  /** Waiting tasks miss an argument and dispatchable tasks miss none. */
  predicate QueueInv(q: Queues) {
    && Ordered(q.waiting, q.next)
    && All(q.waiting, Ready(q.local), false)
    && All(q.dispatch, Ready(q.local), true)
  }

  ghost predicate Inv(s: State) {
    QueueInv(s.q) && PoolInv(s.p)
  }

  lemma EnqueueKeeps(q: Queues, t: Task)
    requires QueueInv(q)
    ensures QueueInv(Enqueue(q, t))
  {
    assert Ordered(q.waiting + [Node(q.next, t)], q.next + 1);
  }

  lemma ArriveKeeps(q: Queues, o: ObjectId)
    requires QueueInv(q)
    ensures QueueInv(Arrive(q, o))
  {
    var test := Ready(q.local + {o});
    SelectOrdered(q.waiting, test, false, q.next);
    SelectHolds(q.waiting, test, true);
    SelectHolds(q.waiting, test, false);
    var ready, rest := Select(q.waiting, test, true), Select(q.waiting, test, false);
    assert forall i :: 0 <= i < |ready| ==> ready[i] in q.waiting;
    assert forall i :: 0 <= i < |rest| ==> rest[i] in q.waiting;
    forall i | 0 <= i < |q.dispatch| ensures Holds(test, q.dispatch[i].task) {
      assert Holds(Ready(q.local), q.dispatch[i].task);
    }
    var d' := Arrive(q, o).dispatch;
    forall i | 0 <= i < |d'| ensures Holds(test, d'[i].task) {
      if i >= |q.dispatch| {
        assert d'[i].task == ready[i - |q.dispatch|].task;
      }
    }
  }

  lemma DepartKeeps(q: Queues, o: ObjectId)
    requires QueueInv(q)
    ensures QueueInv(Depart(q, o))
  {
    SelectHolds(q.dispatch, Needs(o), true);
    SelectHolds(q.dispatch, Needs(o), false);
    var back, rest := Select(q.dispatch, Needs(o), true), Select(q.dispatch, Needs(o), false);
    RenumberOrdered(q.waiting, back, q.next);
    forall i | 0 <= i < |rest| ensures CanRun(rest[i].task, q.local - {o}) {
      assert rest[i] in q.dispatch;
      assert Holds(Needs(o), rest[i].task) == false;
      RemovalStopsDependents(rest[i].task, q.local, o);
    }
    forall i | 0 <= i < |back| ensures !CanRun(back[i].task, q.local - {o}) {
      assert back[i] in q.dispatch;
      assert Holds(Needs(o), back[i].task) == true;
      RemovalStopsDependents(back[i].task, q.local, o);
    }
    var w' := Depart(q, o).waiting;
    forall i | 0 <= i < |w'| ensures !CanRun(w'[i].task, q.local - {o}) {
      if i < |q.waiting| {
        assert !Holds(Ready(q.local), w'[i].task);
      } else {
        assert w'[i].task == back[i - |q.waiting|].task;
      }
    }
  }

  lemma DropDriverKeeps(q: Queues, d: DriverId)
    requires QueueInv(q)
    ensures QueueInv(DropDriver(q, d))
  {
    var w, r := Select(q.waiting, OwnedBy(d), false), Select(q.dispatch, OwnedBy(d), false);
    SelectOrdered(q.waiting, OwnedBy(d), false, q.next);
    SelectHolds(q.waiting, OwnedBy(d), false);
    SelectHolds(q.dispatch, OwnedBy(d), false);
    forall i | 0 <= i < |w| ensures w[i] in q.waiting && !Holds(OwnedBy(d), w[i].task) {}
    forall i | 0 <= i < |r| ensures r[i] in q.dispatch && !Holds(OwnedBy(d), r[i].task) {}
  }

  lemma AssignKeeps(s: State, i: nat)
    requires Inv(s) && i < |s.q.dispatch| && s.p.available != [] && Fits(s.q.dispatch[i].task, s.p)
    ensures Inv(AssignAt(s, i))
  {
    StartKeeps(s.p, s.q.dispatch[i].task);
    var d' := Erase(s.q.dispatch, i);
    forall k | 0 <= k < |d'| ensures d'[k] == s.q.dispatch[if k < i then k else k + 1] {}
  }

  lemma {:induction false} DispatchKeeps(s: State, i: nat)
    requires Inv(s) && i <= |s.q.dispatch|
    ensures Inv(DispatchFrom(s, i))
    decreases |s.q.dispatch| - i
  {
    if i == |s.q.dispatch| || s.p.available == [] || !SomeResource(s.p) {
    } else if !Fits(s.q.dispatch[i].task, s.p) {
      DispatchKeeps(s, i + 1);
    } else if s.q.dispatch[i].task.driver !in s.dead {
      AssignKeeps(s, i);
      DispatchKeeps(AssignAt(s, i), i);
    }
  }

  /** Every handler keeps the invariant. */
  lemma StepKeeps(s: State, e: Event)
    requires Inv(s) && Enabled(s, e)
    ensures Inv(Step(s, e))
  {
    match e
    case Connected(w) => ConnectKeeps(s.p, w);
    case Submitted(t) =>
      EnqueueKeeps(s.q, t);
      DispatchKeeps(Submit(s, t), 0);
    case Scheduled(t) =>
      if t.driver !in s.dead {
        EnqueueKeeps(s.q, t);
        DispatchKeeps(s.(q := Enqueue(s.q, t)), 0);
      }
    case GetTask(w) =>
      FinishKeeps(s.p, w);
      DispatchKeeps(s.(p := Finish(s.p, w)), 0);
    case Reconstruct(w) =>
      if s.p.clients[w].task.Some? && !s.p.clients[w].blocked {
        BlockKeeps(s.p, w);
        DispatchKeeps(s.(p := Block(s.p, w)), 0);
      }
    case NotifyUnblocked(w) =>
      if s.p.clients[w].task.Some? {
        UnblockKeeps(s.p, w);
      }
    case Disconnected(w) => KillKeeps(s.p, w);
    case ObjectAvailable(o) =>
      ArriveKeeps(s.q, o);
      DispatchKeeps(s.(q := Arrive(s.q, o)), 0);
    case ObjectRemoved(o) => DepartKeeps(s.q, o);
    case DriverRemoved(d) =>
      DropDriverKeeps(s.q, d);
      KillOwnedKeeps(s.p, s.p.workers, d);
  }

  /** Over every run: waiting tasks miss an argument, dispatchable tasks miss none, resources are
      conserved and the worker lists agree with the workers. */
  lemma {:induction false} RunKeeps(s: State, es: seq<Event>)
    requires Inv(s) && Feasible(s, es)
    ensures Inv(Run(s, es))
    decreases |es|
  {
    if es != [] {
      StepKeeps(s, es[0]);
      RunKeeps(Step(s, es[0]), es[1..]);
    }
  }

  // ---- What one dispatch pass does ----

  predicate Sublist(a: seq<Node>, b: seq<Node>)
    decreases |b|
  {
    if a == [] then true
    else if b == [] then false
    else (a[0] == b[0] && Sublist(a[1..], b[1..])) || Sublist(a, b[1..])
  }

  function Assigned(a: seq<Assignment>): (r: seq<Task>)
    ensures |r| == |a|
  {
    seq(|a|, i requires 0 <= i < |a| => a[i].task)
  }

  lemma {:induction false} SublistSelf(a: seq<Node>)
    ensures Sublist(a, a)
  {
    if a != [] {
      SublistSelf(a[1..]);
    }
  }

  lemma {:induction false} SublistErase(a: seq<Node>, b: seq<Node>, i: nat)
    requires i < |b| && Sublist(a, Erase(b, i))
    ensures Sublist(a, b)
    decreases |b|
  {
    if a != [] {
      if i == 0 {
        assert Erase(b, 0) == b[1..];
      } else {
        assert Erase(b, i)[0] == b[0] && Erase(b, i)[1..] == Erase(b[1..], i - 1);
        if a[0] == b[0] && Sublist(a[1..], Erase(b, i)[1..]) {
          SublistErase(a[1..], b[1..], i - 1);
        } else {
          SublistErase(a, b[1..], i - 1);
        }
      }
    }
  }

  lemma TasksOfErase(q: seq<Node>, i: nat)
    requires i < |q|
    ensures multiset(TasksOf(q)) == multiset(TasksOf(Erase(q, i))) + multiset{q[i].task}
  {
    assert q == q[..i] + ([q[i]] + q[i + 1..]);
    TasksOfAppend(q[..i], [q[i]] + q[i + 1..]);
    TasksOfAppend([q[i]], q[i + 1..]);
    TasksOfAppend(q[..i], q[i + 1..]);
    assert TasksOf([q[i]]) == [q[i].task];
  }

  /** A pass leaves the rest of the queue in order and moves nothing but the dispatch queue, the
      worker pool and the sent messages. */
  lemma {:induction false} PassKeepsOrder(s: State, i: nat)
    requires i <= |s.q.dispatch|
    ensures Sublist(DispatchFrom(s, i).q.dispatch, s.q.dispatch)
    ensures
      var s' := DispatchFrom(s, i);
      s' == s.(q := s.q.(dispatch := s'.q.dispatch), p := s'.p, sent := s'.sent, aborted := s'.aborted)
    decreases |s.q.dispatch| - i
  {
    if i == |s.q.dispatch| || s.p.available == [] || !SomeResource(s.p) {
      SublistSelf(s.q.dispatch);
    } else if !Fits(s.q.dispatch[i].task, s.p) {
      PassKeepsOrder(s, i + 1);
    } else if s.q.dispatch[i].task.driver !in s.dead {
      PassKeepsOrder(AssignAt(s, i), i);
      SublistErase(DispatchFrom(s, i).q.dispatch, s.q.dispatch, i);
    } else {
      SublistSelf(s.q.dispatch);
    }
  }

  /** The workers given to a pass's tasks: the available workers, each once, from the back. */
  ghost predicate InTurn(s: State, s': State) {
    var n := |s'.sent| - |s.sent|;
    && 0 <= n <= |s.p.available|
    && s'.sent[..|s.sent|] == s.sent
    && (forall k :: |s.sent| <= k < |s'.sent| ==>
          s'.sent[k].worker == s.p.available[|s.p.available| - 1 - (k - |s.sent|)])
    && s'.p.available == s.p.available[..|s.p.available| - n]
  }

  lemma InTurnStep(s: State, i: nat, s': State)
    requires i < |s.q.dispatch| && s.p.available != []
    requires InTurn(AssignAt(s, i), s')
    ensures InTurn(s, s')
  {
    var m := AssignAt(s, i);
    var n := |s'.sent| - |m.sent|;
    assert s'.sent[|s.sent|] == s'.sent[..|m.sent|][|s.sent|];
    assert s'.sent[..|s.sent|] == s'.sent[..|m.sent|][..|s.sent|] == s.sent;
    forall k | |s.sent| <= k < |s'.sent|
      ensures s'.sent[k].worker == s.p.available[|s.p.available| - 1 - (k - |s.sent|)]
    {
      if k > |s.sent| {
        assert s'.sent[k].worker == m.p.available[|m.p.available| - 1 - (k - |m.sent|)];
      }
    }
    assert s'.p.available == s.p.available[..|s.p.available| - (n + 1)];
  }

  /** Each task that a pass removes goes to exactly one worker, and no worker gets two. */
  lemma {:induction false} PassTakesWorkersInTurn(s: State, i: nat)
    requires i <= |s.q.dispatch|
    ensures InTurn(s, DispatchFrom(s, i))
    decreases |s.q.dispatch| - i
  {
    if i == |s.q.dispatch| || s.p.available == [] || !SomeResource(s.p) {
    } else if !Fits(s.q.dispatch[i].task, s.p) {
      PassTakesWorkersInTurn(s, i + 1);
    } else if s.q.dispatch[i].task.driver !in s.dead {
      PassTakesWorkersInTurn(AssignAt(s, i), i);
      InTurnStep(s, i, DispatchFrom(s, i));
    }
  }

  /** Every task a pass sends had all its by-reference arguments local and its driver alive. */
  lemma {:induction false} PassSendsReadyTasks(s: State, i: nat, k: nat)
    requires i <= |s.q.dispatch| && QueueInv(s.q)
    requires |s.sent| <= k < |DispatchFrom(s, i).sent|
    ensures CanRun(DispatchFrom(s, i).sent[k].task, s.q.local)
    ensures DispatchFrom(s, i).sent[k].task.driver !in s.dead
    decreases |s.q.dispatch| - i
  {
    if !Fits(s.q.dispatch[i].task, s.p) {
      PassSendsReadyTasks(s, i + 1, k);
    } else {
      var m := AssignAt(s, i);
      assert Holds(Ready(s.q.local), s.q.dispatch[i].task);
      PassTakesWorkersInTurn(m, i);
      if k == |s.sent| {
        assert DispatchFrom(m, i).sent[k] == DispatchFrom(m, i).sent[..|m.sent|][k];
      } else {
        var d' := Erase(s.q.dispatch, i);
        forall k | 0 <= k < |d'| ensures d'[k] == s.q.dispatch[if k < i then k else k + 1] {}
        PassSendsReadyTasks(m, i, k);
      }
    }
  }

  /** Nothing more can be dispatched: the queue is empty, no worker is free, no resource is
      positive, or no queued task fits. */
  predicate Maximal(s: State) {
    || s.q.dispatch == [] || s.p.available == [] || !SomeResource(s.p)
    || (forall i :: 0 <= i < |s.q.dispatch| ==> !Fits(s.q.dispatch[i].task, s.p))
  }

  /** One pass is maximal: a task once skipped stays unfit, because resources only shrink. */
  lemma {:induction false} PassIsMaximal(s: State, i: nat)
    requires i <= |s.q.dispatch|
    requires forall k :: 0 <= k < i ==> !Fits(s.q.dispatch[k].task, s.p)
    ensures !DispatchFrom(s, i).aborted ==> Maximal(DispatchFrom(s, i))
    decreases |s.q.dispatch| - i
  {
    if i == |s.q.dispatch| || s.p.available == [] || !SomeResource(s.p) {
    } else if !Fits(s.q.dispatch[i].task, s.p) {
      PassIsMaximal(s, i + 1);
    } else if s.q.dispatch[i].task.driver !in s.dead {
      PassIsMaximal(AssignAt(s, i), i);
    }
  }

  lemma {:induction false} SelectFits(q: seq<Node>, test: Test, p: Pool)
    requires forall i :: 0 <= i < |q| ==> !Fits(q[i].task, p)
    ensures forall i :: 0 <= i < |Select(q, test, false)| ==> !Fits(Select(q, test, false)[i].task, p)
  {
    SelectHolds(q, test, false);
    var r := Select(q, test, false);
    forall i | 0 <= i < |r| ensures !Fits(r[i].task, p) {
      assert r[i] in q;
    }
  }

  /** Whether the task fits once `cpu` and `gpu` more are free. */
  predicate FitsWith(t: Task, p: Pool, cpu: real, gpu: real) {
    t.cpus <= p.freeCpu + cpu && t.gpus <= p.freeGpu + gpu
  }

  /** No other worker is available, nothing is free even with the lease of `w`, or no queued task
      fits even then. */
  predicate HarmlessLoss(s: State, w: WorkerId)
    requires w in s.p.clients
  {
    var c := s.p.clients[w];
    || (forall x :: x in s.p.available ==> x == w)
    || (s.p.freeCpu + c.cpus <= 0.0 && s.p.freeGpu + c.gpus <= 0.0)
    || (forall i :: 0 <= i < |s.q.dispatch| ==> !FitsWith(s.q.dispatch[i].task, s.p, c.cpus, c.gpus))
  }

  /** No worker is available, nothing is free even with the leases of the workers that run tasks of
      driver `d`, or no queued task of another driver fits even then. */
  predicate HarmlessRemoval(s: State, d: DriverId) {
    var cpu, gpu := OwnedLease(Cpu, s.p, s.p.workers, d), OwnedLease(Gpu, s.p, s.p.workers, d);
    || s.p.available == []
    || (s.p.freeCpu + cpu <= 0.0 && s.p.freeGpu + gpu <= 0.0)
    || (forall i :: 0 <= i < |s.q.dispatch| && s.q.dispatch[i].task.driver != d ==>
          !FitsWith(s.q.dispatch[i].task, s.p, cpu, gpu))
  }

  /** The two handlers that take workers away start no dispatch pass; every other event is harmless. */
  predicate Harmless(s: State, e: Event)
    requires Enabled(s, e)
  {
    match e
    case Disconnected(w) => HarmlessLoss(s, w)
    case DriverRemoved(d) => HarmlessRemoval(s, d)
    case _ => true
  }

  lemma DisconnectStaysMaximalIff(s: State, w: WorkerId)
    requires Inv(s) && Enabled(s, Disconnected(w))
    ensures Maximal(Step(s, Disconnected(w))) <==> HarmlessLoss(s, w)
  {
    var s', c := Step(s, Disconnected(w)), s.p.clients[w];
    SwapOutRemoves(s.p.available, w);
    hide SwapOut, QueueInv, PoolInv;
    if s'.p.available != [] {
      assert s'.p.available[0] in s.p.available && s'.p.available[0] != w;
    }
    assert forall i :: 0 <= i < |s.q.dispatch| ==>
      Fits(s.q.dispatch[i].task, s'.p) == FitsWith(s.q.dispatch[i].task, s.p, c.cpus, c.gpus);
  }

  lemma DriverRemovedStaysMaximalIff(s: State, d: DriverId)
    requires Inv(s) && Enabled(s, DriverRemoved(d))
    ensures Maximal(Step(s, DriverRemoved(d))) <==> HarmlessRemoval(s, d)
  {
    hide QueueInv, Select, KillOwned, OwnedLease;
    var s' := Step(s, DriverRemoved(d));
    var cpu, gpu := OwnedLease(Cpu, s.p, s.p.workers, d), OwnedLease(Gpu, s.p, s.p.workers, d);
    KillOwnedFrees(s.p, s.p.workers, d);
    hide PoolInv;
    SelectHolds(s.q.dispatch, OwnedBy(d), false);
    assert s'.p.available == s.p.available && s'.p.freeCpu == s.p.freeCpu + cpu && s'.p.freeGpu == s.p.freeGpu + gpu;
    forall t: Task ensures Fits(t, s'.p) == FitsWith(t, s.p, cpu, gpu) {}
    var old', new' := s.q.dispatch, s'.q.dispatch;
    forall i | 0 <= i < |new'| ensures new'[i] in old' && new'[i].task.driver != d {
      assert new'[i] in new' && !Holds(OwnedBy(d), new'[i].task);
    }
    forall i | 0 <= i < |old'| && old'[i].task.driver != d ensures old'[i] in new' {
      assert !Holds(OwnedBy(d), old'[i].task);
    }
  }

  /** A handler that leaves the scheduler running leaves nothing dispatchable behind, if and only if
      it is harmless. */
  lemma StepStaysMaximalIff(s: State, e: Event)
    requires Inv(s) && Enabled(s, e) && Maximal(s)
    ensures Step(s, e).aborted || (Maximal(Step(s, e)) <==> Harmless(s, e))
  {
    match e
    case Disconnected(w) => DisconnectStaysMaximalIff(s, w);
    case DriverRemoved(d) => DriverRemovedStaysMaximalIff(s, d);
    case _ => StepStaysMaximal(s, e);
  }

  lemma StepStaysMaximal(s: State, e: Event)
    requires Inv(s) && Enabled(s, e) && Maximal(s) && !e.Disconnected? && !e.DriverRemoved?
    ensures Step(s, e).aborted || Maximal(Step(s, e))
  {
    match e
    case Connected(w) =>
    case Submitted(t) => PassIsMaximal(Submit(s, t), 0);
    case Scheduled(t) =>
      if t.driver !in s.dead {
        PassIsMaximal(s.(q := Enqueue(s.q, t)), 0);
      }
    case GetTask(w) => PassIsMaximal(s.(p := Finish(s.p, w)), 0);
    case Reconstruct(w) =>
      if s.p.clients[w].task.Some? && !s.p.clients[w].blocked {
        PassIsMaximal(s.(p := Block(s.p, w)), 0);
      }
    case NotifyUnblocked(w) =>
    case ObjectAvailable(o) =>
      if Index(s.q.waiting, o) != [] {
        PassIsMaximal(s.(q := Arrive(s.q, o)), 0);
      } else {
        NobodyWakesUp(s.q, o);
      }
    case ObjectRemoved(o) =>
      if forall i :: 0 <= i < |s.q.dispatch| ==> !Fits(s.q.dispatch[i].task, s.p) {
        SelectFits(s.q.dispatch, Needs(o), s.p);
      }
  }

  lemma NobodyWakesUp(q: Queues, o: ObjectId)
    requires All(q.waiting, Ready(q.local), false) && Index(q.waiting, o) == []
    ensures Arrive(q, o) == q.(local := q.local + {o})
  {
    forall i | 0 <= i < |q.waiting| ensures !CanRun(q.waiting[i].task, q.local + {o}) {
      assert !Holds(Ready(q.local), q.waiting[i].task);
      IndexNonEmpty(q.waiting, o);
      if CanRun(q.waiting[i].task, q.local + {o}) {
        OnlyDependentsWakeUp(q.waiting[i].task, q.local, o);
      }
    }
    SelectUniform(q.waiting, Ready(q.local + {o}), false);
    assert q.dispatch + Renumber([], q.next) == q.dispatch;
  }

  /** Every step of the run leaves nothing to assign, unless the scheduler's process has ended. */
  predicate MaximalThroughout(s: State, es: seq<Event>)
    requires Feasible(s, es)
    decreases |es|
  {
    (s.aborted || Maximal(s)) && (es == [] || MaximalThroughout(Step(s, es[0]), es[1..]))
  }

  predicate HarmlessThroughout(s: State, es: seq<Event>)
    requires Feasible(s, es)
    decreases |es|
  {
    es == [] || (Harmless(s, es[0]) && HarmlessThroughout(Step(s, es[0]), es[1..]))
  }

  /** Over every run: no step ever leaves a task that could be assigned behind, if and only if every
      lost worker and every removed driver is harmless at its moment. */
  lemma {:induction false} RunStaysMaximalIff(s: State, es: seq<Event>)
    requires Inv(s) && Feasible(s, es) && Maximal(s)
    ensures MaximalThroughout(s, es) <==> HarmlessThroughout(s, es)
    decreases |es|
  {
    if es != [] {
      var s' := Step(s, es[0]);
      StepKeeps(s, es[0]);
      StepStaysMaximalIff(s, es[0]);
      if s'.aborted {
        OnlyPassesAbort(s, es[0]);
        assert es[1..] == [];
      } else if Maximal(s') {
        RunStaysMaximalIff(s', es[1..]);
      }
    }
  }

  /** Only a handler that starts a dispatch pass can end the process. */
  lemma OnlyPassesAbort(s: State, e: Event)
    requires Enabled(s, e) && Step(s, e).aborted
    ensures Harmless(s, e)
  {
  }

  // ---- Submissions are not tested for a removed driver ----

  /** No queued task belongs to a removed driver. */
  predicate Alive(s: State) {
    && (forall i :: 0 <= i < |s.q.waiting| ==> s.q.waiting[i].task.driver !in s.dead)
    && (forall i :: 0 <= i < |s.q.dispatch| ==> s.q.dispatch[i].task.driver !in s.dead)
  }

  predicate Forwards(s: State, t: Task) {
    s.hasGlobal && !RunsHereAtOnce(s, t)
  }

  /** The state with `n` at the end of the dispatch queue. */
  function WithLast(s: State, n: Node, next: nat): State {
    s.(q := s.q.(dispatch := s.q.dispatch + [n], next := next))
  }

  predicate Assignable(s: State, t: Task) {
    s.p.available != [] && SomeResource(s.p) && Fits(t, s.p)
  }

  /** A pass that fails no check skips or assigns every task, and leaves the queues alive. */
  lemma {:induction false} PassStaysAlive(s: State, i: nat)
    requires i <= |s.q.dispatch| && Alive(s) && !s.aborted
    ensures Alive(DispatchFrom(s, i)) && !DispatchFrom(s, i).aborted
    decreases |s.q.dispatch| - i
  {
    if i == |s.q.dispatch| || s.p.available == [] || !SomeResource(s.p) {
    } else if !Fits(s.q.dispatch[i].task, s.p) {
      PassStaysAlive(s, i + 1);
    } else {
      var d' := Erase(s.q.dispatch, i);
      forall k | 0 <= k < |d'| ensures d'[k] == s.q.dispatch[if k < i then k else k + 1] {}
      PassStaysAlive(AssignAt(s, i), i);
    }
  }

  /** A pass with one more task at the end serves the others first, and comes to the last task, if
      it can be assigned then, only after them. */
  lemma {:induction false} PassReachesLast(s: State, i: nat, n: Node, next: nat)
    requires i <= |s.q.dispatch| && Alive(s) && !s.aborted
    ensures
      var a := DispatchFrom(s, i);
      var k := |a.q.dispatch|;
      DispatchFrom(WithLast(s, n, next), i) ==
        if !Assignable(a, n.task) then WithLast(a, n, next)
        else if n.task.driver in s.dead then WithLast(a, n, next).(aborted := true)
        else AssignAt(WithLast(a, n, next), k)
    decreases |s.q.dispatch| - i
  {
    var b := WithLast(s, n, next);
    if i == |s.q.dispatch| {
      LastTurn(s, n, next);
    } else if s.p.available == [] || !SomeResource(s.p) {
    } else if !Fits(s.q.dispatch[i].task, s.p) {
      PassReachesLast(s, i + 1, n, next);
    } else {
      var d' := Erase(s.q.dispatch, i);
      forall k | 0 <= k < |d'| ensures d'[k] == s.q.dispatch[if k < i then k else k + 1] {}
      PassReachesLast(AssignAt(s, i), i, n, next);
      assert Erase(b.q.dispatch, i) == d' + [n];
      assert AssignAt(b, i) == WithLast(AssignAt(s, i), n, next);
    }
  }

  lemma LastTurn(s: State, n: Node, next: nat)
    ensures
      var b, k := WithLast(s, n, next), |s.q.dispatch|;
      DispatchFrom(b, k) ==
        if !Assignable(s, n.task) then b else if n.task.driver in s.dead then b.(aborted := true) else AssignAt(b, k)
  {
    var b, k := WithLast(s, n, next), |s.q.dispatch|;
    if Assignable(s, n.task) && n.task.driver !in s.dead {
      assert AssignAt(b, k).q.dispatch == s.q.dispatch;
    } else if s.p.available != [] && SomeResource(s.p) && !Fits(n.task, s.p) {
      assert DispatchFrom(b, k) == DispatchFrom(b, k + 1);
    }
  }

  /** A submission keeps the scheduler running and its queues free of tasks of removed drivers, if
      and only if its driver is alive or the task is forwarded. The process ends exactly when such
      a task is ready and the pass over the other tasks leaves it a worker and its resources. */
  lemma SubmissionOutcome(s: State, t: Task)
    requires Alive(s) && !s.aborted
    ensures
      var s' := Step(s, Submitted(t));
      Alive(s') && !s'.aborted <==> t.driver !in s.dead || Forwards(s, t)
    ensures Step(s, Submitted(t)).aborted <==>
      t.driver in s.dead && !Forwards(s, t) && CanRun(t, s.q.local) && Assignable(Dispatch(s), t)
  {
    if Forwards(s, t) {
      PassStaysAlive(Submit(s, t), 0);
    } else if CanRun(t, s.q.local) {
      var n, a := Node(s.q.next, t), Dispatch(s);
      PassStaysAlive(s, 0);
      PassKeepsOrder(s, 0);
      PassReachesLast(s, 0, n, s.q.next + 1);
      assert Submit(s, t) == WithLast(s, n, s.q.next + 1);
      assert WithLast(a, n, s.q.next + 1).q.dispatch[|a.q.dispatch|] == n;
      if Assignable(a, t) && t.driver !in s.dead {
        assert Erase(a.q.dispatch + [n], |a.q.dispatch|) == a.q.dispatch;
      }
    } else {
      var m := Submit(s, t);
      assert m.q.waiting[|s.q.waiting|].task == t;
      WaitingStays(s, m.q);
    }
  }

  lemma WaitingStays(s: State, q: Queues)
    requires Alive(s) && !s.aborted && q.dispatch == s.q.dispatch
    ensures
      var m := s.(q := q);
      !Dispatch(m).aborted && Dispatch(m).q.waiting == q.waiting && Dispatch(m).dead == s.dead
    ensures Alive(s.(q := q)) ==> Alive(Dispatch(s.(q := q)))
  {
    var m, none := s.(q := q), s.(q := q.(waiting := []));
    PassStaysAlive(none, 0);
    PassIgnoresWaiting(none, 0, q.waiting);
    PassKeepsOrder(m, 0);
    if Alive(m) {
      PassStaysAlive(m, 0);
    }
  }

  lemma {:induction false} PassIgnoresWaiting(s: State, i: nat, waiting: seq<Node>)
    requires i <= |s.q.dispatch|
    ensures
      var a := DispatchFrom(s, i);
      DispatchFrom(s.(q := s.q.(waiting := waiting)), i) == a.(q := a.q.(waiting := waiting))
    decreases |s.q.dispatch| - i
  {
    if i == |s.q.dispatch| || s.p.available == [] || !SomeResource(s.p) {
    } else if !Fits(s.q.dispatch[i].task, s.p) {
      PassIgnoresWaiting(s, i + 1, waiting);
    } else if s.q.dispatch[i].task.driver !in s.dead {
      PassIgnoresWaiting(AssignAt(s, i), i, waiting);
    }
  }

  /** When nothing was left to assign before, the abort is decided by the state before the call. */
  lemma QuietSubmissionAborts(s: State, t: Task)
    requires Alive(s) && !s.aborted && Maximal(s)
    ensures Step(s, Submitted(t)).aborted <==>
      t.driver in s.dead && !Forwards(s, t) && CanRun(t, s.q.local) && Assignable(s, t)
  {
    SubmissionOutcome(s, t);
    MaximalPassIsIdle(s, 0);
  }

  lemma {:induction false} MaximalPassIsIdle(s: State, i: nat)
    requires i <= |s.q.dispatch| && Maximal(s)
    ensures DispatchFrom(s, i) == s
    decreases |s.q.dispatch| - i
  {
    if i < |s.q.dispatch| && s.p.available != [] && SomeResource(s.p) {
      MaximalPassIsIdle(s, i + 1);
    }
  }

  predicate LiveSubmission(s: State, e: Event) {
    e.Submitted? ==> e.task.driver !in s.dead || Forwards(s, e.task)
  }

  lemma ArriveStaysAlive(s: State, o: ObjectId)
    requires Alive(s)
    ensures Alive(s.(q := Arrive(s.q, o)))
  {
    var test := Ready(s.q.local + {o});
    SelectHolds(s.q.waiting, test, true);
    SelectHolds(s.q.waiting, test, false);
    var ready, rest := Select(s.q.waiting, test, true), Select(s.q.waiting, test, false);
    forall i | 0 <= i < |ready| ensures ready[i] in s.q.waiting {}
    forall i | 0 <= i < |rest| ensures rest[i] in s.q.waiting {}
    var d' := Arrive(s.q, o).dispatch;
    forall i | 0 <= i < |d'| ensures d'[i].task.driver !in s.dead {
      if i >= |s.q.dispatch| {
        assert d'[i].task == ready[i - |s.q.dispatch|].task;
      }
    }
  }

  lemma DepartStaysAlive(s: State, o: ObjectId)
    requires Alive(s)
    ensures Alive(s.(q := Depart(s.q, o)))
  {
    SelectHolds(s.q.dispatch, Needs(o), true);
    SelectHolds(s.q.dispatch, Needs(o), false);
    var back, rest := Select(s.q.dispatch, Needs(o), true), Select(s.q.dispatch, Needs(o), false);
    forall i | 0 <= i < |back| ensures back[i] in s.q.dispatch {}
    forall i | 0 <= i < |rest| ensures rest[i] in s.q.dispatch {}
    var w' := Depart(s.q, o).waiting;
    forall i | 0 <= i < |w'| ensures w'[i].task.driver !in s.dead {
      if i >= |s.q.waiting| {
        assert w'[i].task == back[i - |s.q.waiting|].task;
      }
    }
  }

  lemma DropStaysAlive(s: State, d: DriverId)
    requires Alive(s)
    ensures Alive(s.(q := DropDriver(s.q, d), dead := s.dead + {d}))
  {
    var w, r := Select(s.q.waiting, OwnedBy(d), false), Select(s.q.dispatch, OwnedBy(d), false);
    SelectHolds(s.q.waiting, OwnedBy(d), false);
    SelectHolds(s.q.dispatch, OwnedBy(d), false);
    forall i | 0 <= i < |w| ensures w[i] in s.q.waiting && !Holds(OwnedBy(d), w[i].task) {}
    forall i | 0 <= i < |r| ensures r[i] in s.q.dispatch && !Holds(OwnedBy(d), r[i].task) {}
  }

  /** No handler but the one for submissions can fail the check or queue a removed driver's task. */
  lemma StepStaysAliveIff(s: State, e: Event)
    requires Alive(s) && Enabled(s, e)
    ensures Alive(Step(s, e)) && !Step(s, e).aborted <==> LiveSubmission(s, e)
  {
    match e
    case Submitted(t) => SubmissionOutcome(s, t);
    case Scheduled(t) => if t.driver !in s.dead { PassStaysAlive(s.(q := Enqueue(s.q, t)), 0); }
    case GetTask(w) => PassStaysAlive(s.(p := Finish(s.p, w)), 0);
    case Reconstruct(w) => PassStaysAlive(s.(p := Block(s.p, w)), 0);
    case ObjectAvailable(o) =>
      ArriveStaysAlive(s, o);
      PassStaysAlive(s.(q := Arrive(s.q, o)), 0);
    case ObjectRemoved(o) => DepartStaysAlive(s, o);
    case DriverRemoved(d) => DropStaysAlive(s, d);
    case _ =>
  }

  predicate AliveThroughout(s: State, es: seq<Event>)
    requires Feasible(s, es)
    decreases |es|
  {
    Alive(s) && !s.aborted && (es == [] || AliveThroughout(Step(s, es[0]), es[1..]))
  }

  predicate LiveSubmissions(s: State, es: seq<Event>)
    requires Feasible(s, es)
    decreases |es|
  {
    es == [] || (LiveSubmission(s, es[0]) && LiveSubmissions(Step(s, es[0]), es[1..]))
  }

  /** Over every run: the scheduler keeps running with no removed driver's task in its queues, if and
      only if every submission comes from a live driver or is forwarded. */
  lemma {:induction false} RunStaysAliveIff(s: State, es: seq<Event>)
    requires Alive(s) && !s.aborted && Feasible(s, es)
    ensures AliveThroughout(s, es) <==> LiveSubmissions(s, es)
    decreases |es|
  {
    if es != [] {
      StepStaysAliveIff(s, es[0]);
      if LiveSubmission(s, es[0]) {
        RunStaysAliveIff(Step(s, es[0]), es[1..]);
      }
    }
  }

  // ---- Runs: inputs are local, and every task is in exactly one place ----

  /** Every task a handler sends to a pool worker has all its by-reference arguments local, and
      its driver is alive, at the moment it is sent. */
  lemma SentTasksAreReady(s: State, e: Event, k: nat)
    requires Inv(s) && Enabled(s, e)
    requires |s.sent| <= k < |Step(s, e).sent|
    ensures CanRun(Step(s, e).sent[k].task, Step(s, e).q.local)
    ensures Step(s, e).sent[k].task.driver !in Step(s, e).dead
  {
    StepKeepsBeforeDispatch(s, e);
    PassSendsReadyTasks(BeforeDispatch(s, e), 0, k);
    PassKeepsOrder(BeforeDispatch(s, e), 0);
  }

  /** The state in which the handler calls the dispatch pass. */
  function BeforeDispatch(s: State, e: Event): State
    requires Enabled(s, e)
  {
    match e
    case Submitted(t) => Submit(s, t)
    case Scheduled(t) => if t.driver in s.dead then s else s.(q := Enqueue(s.q, t))
    case GetTask(w) => s.(p := Finish(s.p, w))
    case Reconstruct(w) =>
      if s.p.clients[w].task.Some? && !s.p.clients[w].blocked then s.(p := Block(s.p, w)) else s
    case ObjectAvailable(o) => s.(q := Arrive(s.q, o))
    case _ => Step(s, e)
  }

  lemma StepKeepsBeforeDispatch(s: State, e: Event)
    requires Inv(s) && Enabled(s, e)
    requires |s.sent| < |Step(s, e).sent|
    ensures Inv(BeforeDispatch(s, e)) && Dispatch(BeforeDispatch(s, e)) == Step(s, e)
    ensures BeforeDispatch(s, e).sent == s.sent
  {
    match e
    case Submitted(t) => EnqueueKeeps(s.q, t);
    case Scheduled(t) => if t.driver !in s.dead { EnqueueKeeps(s.q, t); }
    case GetTask(w) => FinishKeeps(s.p, w);
    case Reconstruct(w) =>
      if s.p.clients[w].task.Some? && !s.p.clients[w].blocked { BlockKeeps(s.p, w); }
    case ObjectAvailable(o) => ArriveKeeps(s.q, o);
    case _ =>
  }

  lemma {:induction false} RunExtends(s: State, es: seq<Event>, e: Event)
    ensures Feasible(s, es + [e]) <==> Feasible(s, es) && Enabled(Run(s, es), e)
    ensures Feasible(s, es + [e]) ==> Run(s, es + [e]) == Step(Run(s, es), e)
    decreases |es|
  {
    if es == [] {
      assert es + [e] == [e];
      assert [e][1..] == [];
    } else {
      assert (es + [e])[0] == es[0] && (es + [e])[1..] == es[1..] + [e];
      if Enabled(s, es[0]) {
        RunExtends(Step(s, es[0]), es[1..], e);
      }
    }
  }

  function Queued(q: Queues): multiset<Task> {
    multiset(TasksOf(q.waiting)) + multiset(TasksOf(q.dispatch))
  }

  /** Every task in the scheduler's hands or passed on by it. */
  function Accounted(s: State): multiset<Task> {
    Queued(s.q) + multiset(Assigned(s.sent)) + multiset(s.forwarded)
  }

  /** The task that an event brings in. */
  function Brought(s: State, e: Event): multiset<Task> {
    match e
    case Submitted(t) => multiset{t}
    case Scheduled(t) => if t.driver in s.dead then multiset{} else multiset{t}
    case _ => multiset{}
  }

  /** The tasks that an event throws away: the queued tasks of a removed driver. */
  function Dropped(s: State, e: Event): multiset<Task> {
    match e
    case DriverRemoved(d) => Disowned(s.q, d)
    case _ => multiset{}
  }

  function Disowned(q: Queues, d: DriverId): multiset<Task> {
    multiset(TasksOf(Select(q.waiting, OwnedBy(d), true))) + multiset(TasksOf(Select(q.dispatch, OwnedBy(d), true)))
  }

  lemma {:induction false} DispatchAccounts(s: State, i: nat)
    requires i <= |s.q.dispatch|
    ensures Accounted(DispatchFrom(s, i)) == Accounted(s)
    decreases |s.q.dispatch| - i
  {
    if i == |s.q.dispatch| || s.p.available == [] || !SomeResource(s.p) {
    } else if !Fits(s.q.dispatch[i].task, s.p) {
      DispatchAccounts(s, i + 1);
    } else if s.q.dispatch[i].task.driver !in s.dead {
      var m := AssignAt(s, i);
      DispatchAccounts(m, i);
      TasksOfErase(s.q.dispatch, i);
      assert Assigned(m.sent) == Assigned(s.sent) + [s.q.dispatch[i].task];
    }
  }

  lemma EnqueueAccounts(q: Queues, t: Task)
    ensures Queued(Enqueue(q, t)) == Queued(q) + multiset{t}
  {
    var n := Node(q.next, t);
    TasksOfAppend(q.dispatch, [n]);
    TasksOfAppend(q.waiting, [n]);
    assert TasksOf([n]) == [t];
  }

  lemma ArriveAccounts(q: Queues, o: ObjectId)
    ensures Queued(Arrive(q, o)) == Queued(q)
  {
    var test := Ready(q.local + {o});
    var ready := Select(q.waiting, test, true);
    SelectPartitions(q.waiting, test);
    TasksOfAppend(q.dispatch, Renumber(ready, q.next));
    TasksOfRenumber(ready, q.next);
  }

  lemma DepartAccounts(q: Queues, o: ObjectId)
    ensures Queued(Depart(q, o)) == Queued(q)
  {
    var back := Select(q.dispatch, Needs(o), true);
    SelectPartitions(q.dispatch, Needs(o));
    TasksOfAppend(q.waiting, Renumber(back, q.next));
    TasksOfRenumber(back, q.next);
  }

  lemma QueueChangeAccounts(s: State, q: Queues, gone: multiset<Task>, come: multiset<Task>)
    requires Queued(q) + gone == Queued(s.q) + come
    ensures Accounted(s.(q := q)) + gone == Accounted(s) + come
  {
    var rest := multiset(Assigned(s.sent)) + multiset(s.forwarded);
    assert Accounted(s.(q := q)) + gone == (Queued(q) + gone) + rest == (Queued(s.q) + come) + rest;
    assert (Queued(s.q) + come) + rest == Accounted(s) + come;
  }

  lemma SubmitAccounts(s: State, t: Task)
    ensures Accounted(Submit(s, t)) == Accounted(s) + multiset{t}
  {
    EnqueueAccounts(s.q, t);
    QueueChangeAccounts(s, Enqueue(s.q, t), multiset{}, multiset{t});
    assert multiset(s.forwarded + [t]) == multiset(s.forwarded) + multiset{t};
  }

  lemma DropAccounts(q: Queues, d: DriverId)
    ensures Queued(DropDriver(q, d)) + Disowned(q, d) == Queued(q)
  {
    SelectPartitions(q.waiting, OwnedBy(d));
    SelectPartitions(q.dispatch, OwnedBy(d));
  }

  /** A handler neither loses nor duplicates a task. */
  lemma StepAccounts(s: State, e: Event)
    requires Enabled(s, e)
    ensures Accounted(Step(s, e)) + Dropped(s, e) == Accounted(s) + Brought(s, e)
  {
    match e
    case Submitted(t) =>
      SubmitAccounts(s, t);
      DispatchAccounts(Submit(s, t), 0);
    case Scheduled(t) =>
      EnqueueAccounts(s.q, t);
      QueueChangeAccounts(s, Enqueue(s.q, t), multiset{}, multiset{t});
      DispatchAccounts(s.(q := Enqueue(s.q, t)), 0);
    case GetTask(w) => DispatchAccounts(s.(p := Finish(s.p, w)), 0);
    case Reconstruct(w) => DispatchAccounts(s.(p := Block(s.p, w)), 0);
    case ObjectAvailable(o) =>
      ArriveAccounts(s.q, o);
      QueueChangeAccounts(s, Arrive(s.q, o), multiset{}, multiset{});
      DispatchAccounts(s.(q := Arrive(s.q, o)), 0);
    case ObjectRemoved(o) =>
      DepartAccounts(s.q, o);
      QueueChangeAccounts(s, Depart(s.q, o), multiset{}, multiset{});
    case DriverRemoved(d) =>
      DropAccounts(s.q, d);
      QueueChangeAccounts(s, DropDriver(s.q, d), Disowned(s.q, d), multiset{});
    case _ =>
  }

  lemma Balance<T>(a: multiset<T>, a1: multiset<T>, a2: multiset<T>,
                   d0: multiset<T>, d1: multiset<T>, b0: multiset<T>, b1: multiset<T>)
    requires a1 + d0 == a + b0 && a2 + d1 == a1 + b1
    ensures a2 + (d0 + d1) == a + (b0 + b1)
  {
    assert a2 + (d0 + d1) == (a2 + d1) + d0 == (a1 + d0) + b1;
  }

  function AllBrought(s: State, es: seq<Event>): multiset<Task>
    requires Feasible(s, es)
    decreases |es|
  {
    if es == [] then multiset{} else Brought(s, es[0]) + AllBrought(Step(s, es[0]), es[1..])
  }

  function AllDropped(s: State, es: seq<Event>): multiset<Task>
    requires Feasible(s, es)
    decreases |es|
  {
    if es == [] then multiset{} else Dropped(s, es[0]) + AllDropped(Step(s, es[0]), es[1..])
  }

  /** Over every run each task brought in is, with multiplicity, in exactly one of: the two
      queues, the messages sent to workers, the tasks forwarded, the tasks dropped. */
  lemma {:induction false} RunAccounts(s: State, es: seq<Event>)
    requires Feasible(s, es)
    ensures Accounted(Run(s, es)) + AllDropped(s, es) == Accounted(s) + AllBrought(s, es)
    decreases |es|
  {
    if es != [] {
      var s' := Step(s, es[0]);
      StepAccounts(s, es[0]);
      RunAccounts(s', es[1..]);
      Balance(Accounted(s), Accounted(s'), Accounted(Run(s, es)), Dropped(s, es[0]), AllDropped(s', es[1..]),
              Brought(s, es[0]), AllBrought(s', es[1..]));
    }
  }

  lemma InitialInv(cpu: Amount, gpu: Amount, hasGlobal: bool)
    ensures Inv(Initial(cpu, gpu, hasGlobal)) && Maximal(Initial(cpu, gpu, hasGlobal))
  {
  }

  // ---- A run that leaves a task stranded ----

  const FIRST := Task(0, 0, [], 1.0, 0.0)
  const SECOND := Task(1, 1, [], 1.0, 0.0)
  const ONE_CPU := Initial(1.0, 0.0, false)

  function TwoWorkers(available: seq<WorkerId>): State {
    ONE_CPU.(p := Pool([1, 2], map[1 := IDLE, 2 := IDLE], available, [], [], 1.0, 0.0, 1.0, 0.0))
  }

  /** Worker 2 runs the first task on the only CPU; worker 1 is free; `q` is queued. */
  function OneBusy(q: Queues): State {
    var clients := map[1 := IDLE, 2 := Client(Some(FIRST), 1.0, 0.0, false, false)];
    ONE_CPU.(q := q, p := Pool([1, 2], clients, [1], [2], [], 0.0, 0.0, 1.0, 0.0), sent := [Assignment(2, FIRST)])
  }

  lemma TwoWorkersReady()
    ensures
      var es := [Connected(1), Connected(2), GetTask(1), GetTask(2)];
      Feasible(ONE_CPU, es) && Run(ONE_CPU, es) == TwoWorkers([1, 2])
  {
    var a := Step(ONE_CPU, Connected(1));
    assert Step(a, Connected(2)) == TwoWorkers([]);
    assert Step(TwoWorkers([]), GetTask(1)) == TwoWorkers([1]);
    assert Step(TwoWorkers([1]), GetTask(2)) == TwoWorkers([1, 2]);
    RunExtends(ONE_CPU, [], Connected(1));
    assert [] + [Connected(1)] == [Connected(1)];
    RunExtends(ONE_CPU, [Connected(1)], Connected(2));
    RunExtends(ONE_CPU, [Connected(1), Connected(2)], GetTask(1));
    RunExtends(ONE_CPU, [Connected(1), Connected(2), GetTask(1)], GetTask(2));
  }

  lemma SingleTaskIsAssigned(s: State, n: Node)
    requires s.q.dispatch == [n] && Assignable(s, n.task) && n.task.driver !in s.dead
    ensures Dispatch(s) == s.(q := s.q.(dispatch := []), p := Start(s.p, n.task),
                              sent := s.sent + [Assignment(s.p.available[|s.p.available| - 1], n.task)])
  {
    assert Erase([n], 0) == [];
    assert AssignAt(s, 0).q.dispatch == [];
    assert DispatchFrom(AssignAt(s, 0), 0) == AssignAt(s, 0);
  }

  lemma NothingFree(s: State)
    requires !SomeResource(s.p)
    ensures Dispatch(s) == s && Maximal(s)
  {
  }

  lemma FirstIsAssigned()
    ensures Step(TwoWorkers([1, 2]), Submitted(FIRST)) == OneBusy(Queues([], [], 1, {}))
  {
    hide DispatchFrom;
    var s := TwoWorkers([1, 2]);
    var m := s.(q := Queues([], [Node(0, FIRST)], 1, {}));
    assert RunsHereAtOnce(s, FIRST);
    assert Submit(s, FIRST) == m;
    var p := OneBusy(m.q).p;
    assert map[1 := IDLE, 2 := IDLE][2 := p.clients[2]] == p.clients;
    assert Start(m.p, FIRST) == p;
    SingleTaskIsAssigned(m, Node(0, FIRST));
  }

  /** A run after which worker 2 runs the first task and the second task of another driver waits
      for its CPU. */
  lemma SecondIsStuck() returns (es: seq<Event>)
    ensures Feasible(ONE_CPU, es) && Run(ONE_CPU, es) == OneBusy(Queues([], [Node(1, SECOND)], 2, {}))
    ensures Maximal(Run(ONE_CPU, es))
  {
    hide DispatchFrom, Feasible, Run;
    es := [Connected(1), Connected(2), GetTask(1), GetTask(2)];
    var stuck := OneBusy(Queues([], [Node(1, SECOND)], 2, {}));
    TwoWorkersReady();
    FirstIsAssigned();
    RunExtends(ONE_CPU, es, Submitted(FIRST));
    es := es + [Submitted(FIRST)];
    assert Submit(OneBusy(Queues([], [], 1, {})), SECOND) == stuck;
    NothingFree(stuck);
    RunExtends(ONE_CPU, es, Submitted(SECOND));
    es := es + [Submitted(SECOND)];
  }

  /** Losing a worker can strand a task: the handler frees resources but starts no pass. */
  lemma LostWorkerCanStrandTasks()
    ensures exists es, w ::
      && Feasible(ONE_CPU, es) && Maximal(Run(ONE_CPU, es))
      && Feasible(ONE_CPU, es + [Disconnected(w)]) && !Maximal(Run(ONE_CPU, es + [Disconnected(w)]))
  {
    hide DispatchFrom, Feasible, Run;
    var es := SecondIsStuck();
    RunExtends(ONE_CPU, es, Disconnected(2));
    var after := Step(Run(ONE_CPU, es), Disconnected(2));
    assert after.p.available == [1] && Fits(after.q.dispatch[0].task, after.p);
  }

  /** So can removing a driver: its running task gives its CPU back and the task of another driver
      stays in the queue. */
  lemma RemovedDriverCanStrandTasks()
    ensures exists es, d ::
      && Feasible(ONE_CPU, es) && Maximal(Run(ONE_CPU, es))
      && Feasible(ONE_CPU, es + [DriverRemoved(d)]) && !Maximal(Run(ONE_CPU, es + [DriverRemoved(d)]))
  {
    hide DispatchFrom, Feasible, Run;
    var es := SecondIsStuck();
    RunExtends(ONE_CPU, es, DriverRemoved(0));
    var s := Run(ONE_CPU, es);
    var after := Step(s, DriverRemoved(0));
    assert [1, 2][1..] == [2] && [2][1..] == [];
    assert KillOwned(s.p, [1, 2], 0) == KillOwned(s.p, [2], 0) == KillOwned(Kill(s.p, 2), [], 0) == Kill(s.p, 2);
    SelectUniform([Node(1, SECOND)], OwnedBy(0), false);
    assert after.q.dispatch == [Node(1, SECOND)];
    assert after.p.available == [1] && Fits(after.q.dispatch[0].task, after.p);
  }

  /** A task of a removed driver that is submitted while a worker is free ends the process. */
  lemma DeadDriverCanAbort()
    ensures exists es, t ::
      && Feasible(ONE_CPU, es) && LiveSubmissions(ONE_CPU, es)
      && Feasible(ONE_CPU, es + [Submitted(t)]) && Run(ONE_CPU, es + [Submitted(t)]).aborted
  {
    hide DispatchFrom, Feasible, Run, LiveSubmissions;
    var es := [Connected(1), Connected(2), GetTask(1), GetTask(2)];
    var fs := es + [DriverRemoved(0)];
    var gone := TwoWorkers([1, 2]).(dead := {0});
    TwoWorkersReady();
    IdleDriverIsRemoved();
    RunExtends(ONE_CPU, es, DriverRemoved(0));
    NoSubmissionsAreLive(ONE_CPU, fs);
    RunExtends(ONE_CPU, fs, Submitted(FIRST));
    QuietSubmissionAborts(gone, FIRST);
  }

  lemma IdleDriverIsRemoved()
    ensures Step(TwoWorkers([1, 2]), DriverRemoved(0)) == TwoWorkers([1, 2]).(dead := {0})
  {
    var p := TwoWorkers([1, 2]).p;
    assert [1, 2][1..] == [2] && [2][1..] == [];
    assert KillOwned(p, [1, 2], 0) == KillOwned(p, [2], 0) == KillOwned(p, [], 0) == p;
  }

  lemma {:induction false} NoSubmissionsAreLive(s: State, es: seq<Event>)
    requires Feasible(s, es) && forall i :: 0 <= i < |es| ==> !es[i].Submitted?
    ensures LiveSubmissions(s, es)
    decreases |es|
  {
    if es != [] {
      NoSubmissionsAreLive(Step(s, es[0]), es[1..]);
    }
  }
}
