/**
 The local scheduler as the running program keeps it: mutable queues, a fetch table of
 iterators into the waiting queue, worker vectors and resource counters. Every handler is
 proved to make exactly the transition of `SchedulerSpec`, which has no fetch table at all.
 */
module LocalScheduler {
  import opened IdLists
  import opened Tasks
  import opened TaskQueues
  import opened FetchIndex
  import opened WorkerPool
  import opened SchedulerSpec

  class Scheduler {
    var waiting: seq<Node>
    var dispatch: seq<Node>
    var next: nat
    var local: set<ObjectId>
    var remote: FetchTable
    var workers: seq<WorkerId>
    var clients: map<WorkerId, Client>
    var available: seq<WorkerId>
    var executing: seq<WorkerId>
    var blocked: seq<WorkerId>
    var freeCpu: real
    var freeGpu: real
    var dead: set<DriverId>
    var sent: seq<Assignment>
    var forwarded: seq<Task>
    var aborted: bool
    const totalCpu: real
    const totalGpu: real
    const hasGlobal: bool

    ghost function TheQueues(): Queues
      reads this
    {
      Queues(waiting, dispatch, next, local)
    }

    ghost function ThePool(): Pool
      reads this
    {
      Pool(workers, clients, available, executing, blocked, freeCpu, freeGpu, totalCpu, totalGpu)
    }

    ghost function TheState(): State
      reads this
    {
      State(TheQueues(), ThePool(), dead, hasGlobal, sent, forwarded, aborted)
    }

    /** The invariant of the state, and: the fetch table is the inverted index of the waiting queue. */
    ghost predicate Valid()
      reads this
    {
      Inv(TheState()) && Describes(remote, waiting, local)
    }

    constructor (cpu: Amount, gpu: Amount, hasGlobal: bool)
      ensures Valid() && TheState() == Initial(cpu, gpu, hasGlobal)
    {
      waiting, dispatch, next, local, remote := [], [], 0, {}, map[];
      workers, clients, available, executing, blocked := [], map[], [], [], [];
      freeCpu, freeGpu, totalCpu, totalGpu := cpu, gpu, cpu, gpu;
      dead, sent, forwarded, aborted := {}, [], [], false;
      this.hasGlobal := hasGlobal;
    }

    /** `can_run`: look for a by-reference argument that is not local. */
    method TestCanRun(t: Task) returns (runnable: bool)
      ensures runnable == CanRun(t, local)
    {
      for i := 0 to |t.args|
        invariant forall j :: 0 <= j < i && t.args[j].ByRef? ==> t.args[j].id in local
      {
        if t.args[i].ByRef? && t.args[i].id !in local {
          return false;
        }
      }
      return true;
    }

    /** Record that the waiting node at `addr` needs `o`. */
    method FetchMissingDependency(addr: nat, o: ObjectId)
      modifies `remote
      ensures remote == old(remote)[o := (if o in old(remote) then old(remote)[o] else []) + [addr]]
    {
      if o !in remote {
        remote := remote[o := []];
      }
      remote := remote[o := remote[o] + [addr]];
    }

    /** Record every missing argument of the node just appended to the waiting queue. */
    method FetchMissingDependencies(n: Node, ghost before: seq<Node>)
      requires waiting == before + [n] && Describes(remote, before, local)
      modifies `remote
      ensures Describes(remote, waiting, local)
    {
      var t := n.task;
      assert Occurrences(t.args[..0], 0) == 0;
      assert Partial(remote, before, local, n, t.args[..0]) by {
        forall o ensures Index(before, o) + Copies(n.addr, Occurrences(t.args[..0], o)) == Index(before, o) {}
      }
      for i := 0 to |t.args|
        invariant Partial(remote, before, local, n, t.args[..i])
      {
        ghost var table := remote;
        if t.args[i].ByRef? && t.args[i].id !in local {
          FetchMissingDependency(n.addr, t.args[i].id);
        }
        PartialStep(table, remote, before, local, n, i);
      }
      assert t.args[..|t.args|] == t.args;
      PartialDone(remote, before, local, n);
    }

    /** One pass over the dispatch queue: give tasks that fit to available workers. */
    method DispatchTasks()
      requires Valid()
      modifies `dispatch, `clients, `available, `executing, `freeCpu, `freeGpu, `sent, `aborted
      ensures Valid() && TheState() == Dispatch(old(TheState()))
    {
      hide PoolInv, QueueInv;
      var i := 0;
      while i < |dispatch| && |available| != 0 && (freeCpu > 0.0 || freeGpu > 0.0)
        invariant 0 <= i <= |dispatch|
        invariant Inv(TheState())
        invariant DispatchFrom(TheState(), i) == Dispatch(old(TheState()))
        decreases |dispatch| - i
      {
        var t := dispatch[i].task;
        if t.cpus > freeCpu || t.gpus > freeGpu {
          i := i + 1;
        } else if t.driver in dead {
          // The check that the driver is alive fails, which ends the process.
          aborted := true;
          return;
        } else {
          AssignAllowed(TheState(), i);
          AssignKeeps(TheState(), i);
          AssignPosition(i);
        }
      }
    }

    /** Give the task at position `i` to the last available worker and dequeue it. */
    method AssignPosition(i: nat)
      requires i < |dispatch| && |available| > 0 && dispatch[i].task.driver !in dead
      requires var w := available[|available| - 1]; w in clients && clients[w] == IDLE
      requires dispatch[i].task.gpus <= freeGpu
      modifies `dispatch, `clients, `available, `executing, `freeCpu, `freeGpu, `sent
      ensures TheState() == AssignAt(old(TheState()), i)
    {
      var t := dispatch[i].task;
      var w := available[|available| - 1];
      AssignTaskToWorker(t, w);
      available := available[..|available| - 1];
      executing := executing + [w];
      dispatch := dispatch[..i] + dispatch[i + 1..];
    }

    /** Send the task and lease its resources to an idle worker of a live driver's task. */
    method AssignTaskToWorker(t: Task, w: WorkerId)
      requires t.driver !in dead
      requires w in clients && clients[w] == IDLE && t.gpus <= freeGpu
      modifies `clients, `freeCpu, `freeGpu, `sent
      ensures sent == old(sent) + [Assignment(w, t)]
      ensures clients == old(clients)[w := Client(Some(t), t.cpus, t.gpus, false, false)]
      ensures freeCpu == old(freeCpu) - t.cpus && freeGpu == old(freeGpu) - t.gpus
    {
      sent := sent + [Assignment(w, t)];
      AcquireResources(w, t.cpus, t.gpus);
      clients := clients[w := clients[w].(task := Some(t))];
    }

    method AcquireResources(w: WorkerId, cpus: real, gpus: real)
      requires w in clients && clients[w].cpus == 0.0
      requires gpus != 0.0 ==> clients[w].gpus == 0.0 && gpus <= freeGpu
      modifies `clients, `freeCpu, `freeGpu
      ensures freeCpu == old(freeCpu) - cpus && freeGpu == old(freeGpu) - gpus
      ensures clients == old(clients)[w := old(clients)[w].(cpus := cpus, gpus := old(clients)[w].gpus + gpus)]
    {
      freeCpu := freeCpu - cpus;
      clients := clients[w := clients[w].(cpus := clients[w].cpus + cpus)];
      if gpus != 0.0 {
        clients := clients[w := clients[w].(gpus := clients[w].gpus + gpus)];
        freeGpu := freeGpu - gpus;
      }
    }

    method ReleaseResources(w: WorkerId, cpus: real, gpus: real)
      requires w in clients && cpus == clients[w].cpus
      requires gpus != 0.0 ==> gpus == clients[w].gpus
      modifies `clients, `freeCpu, `freeGpu
      ensures freeCpu == old(freeCpu) + cpus && freeGpu == old(freeGpu) + gpus
      ensures clients == old(clients)[w := old(clients)[w].(cpus := 0.0, gpus := old(clients)[w].gpus - gpus)]
    {
      freeCpu := freeCpu + cpus;
      clients := clients[w := clients[w].(cpus := 0.0)];
      if gpus != 0.0 {
        freeGpu := freeGpu + gpus;
        clients := clients[w := clients[w].(gpus := 0.0)];
      }
    }

    /** Remove a worker from a worker vector by swapping it with the last one. */
    method RemoveWorker(vector: seq<WorkerId>, w: WorkerId) returns (r: seq<WorkerId>)
      ensures r == SwapOut(vector, w)
    {
      var i := 0;
      while i < |vector| && vector[i] != w
        invariant 0 <= i <= |vector| && w !in vector[..i]
      {
        i := i + 1;
      }
      if i == |vector| {
        assert vector[..i] == vector;
        return vector;
      }
      FirstIsFound(vector, w, i);
      r := vector[i := vector[|vector| - 1]][..|vector| - 1];
    }

    /** Remove a worker from the list of all workers, keeping the order of the others. */
    method EraseWorker(list: seq<WorkerId>, w: WorkerId) returns (r: seq<WorkerId>)
      requires w in list
      ensures r == Without(list, w)
    {
      var i := 0;
      while i < |list| && list[i] != w
        invariant 0 <= i <= |list| && w !in list[..i]
      {
        i := i + 1;
      }
      assert i < |list| by { assert list[..|list|] == list; }
      FirstIsFound(list, w, i);
      r := list[..i] + list[i + 1..];
    }

    method QueueTaskLocally(t: Task)
      requires Valid()
      modifies `waiting, `dispatch, `next, `remote
      ensures Valid() && TheQueues() == Enqueue(old(TheQueues()), t)
    {
      hide PoolInv, QueueInv, CanRun;
      EnqueueKeeps(TheQueues(), t);
      var runnable := TestCanRun(t);
      var n := Node(next, t);
      next := next + 1;
      if runnable {
        dispatch := dispatch + [n];
      } else {
        waiting := waiting + [n];
        FetchMissingDependencies(n, old(waiting));
      }
    }

    method HandleTaskSubmitted(t: Task)
      requires Valid() && Enabled(TheState(), Submitted(t))
      modifies this
      ensures Valid() && TheState() == Step(old(TheState()), Submitted(t))
    {
      hide PoolInv, QueueInv, Describes, CanRun, DispatchFrom;
      var runnable := TestCanRun(t);
      if t.cpus <= totalCpu && t.gpus <= totalGpu && t.cpus <= freeCpu && t.gpus <= freeGpu
         && |available| > 0 && runnable {
        EnqueueKeeps(TheQueues(), t);
        dispatch := dispatch + [Node(next, t)];
        next := next + 1;
      } else if !hasGlobal {
        QueueTaskLocally(t);
      } else {
        forwarded := forwarded + [t];
      }
      DispatchTasks();
    }

    method HandleTaskScheduled(t: Task)
      requires Valid() && Enabled(TheState(), Scheduled(t))
      modifies this
      ensures Valid() && TheState() == Step(old(TheState()), Scheduled(t))
    {
      hide PoolInv, QueueInv, Describes, CanRun, DispatchFrom;
      if t.driver in dead {
        return;
      }
      QueueTaskLocally(t);
      DispatchTasks();
    }

    method NewClientConnection(w: WorkerId)
      requires Valid() && Enabled(TheState(), Connected(w))
      modifies this
      ensures Valid() && TheState() == Step(old(TheState()), Connected(w))
    {
      ConnectKeeps(ThePool(), w);
      clients := clients[w := IDLE];
      workers := workers + [w];
    }

    /** A worker asks for a task: its current task, if any, is done. */
    method HandleGetTask(w: WorkerId)
      requires Valid() && Enabled(TheState(), GetTask(w))
      modifies this
      ensures Valid() && TheState() == Step(old(TheState()), GetTask(w))
    {
      hide PoolInv, QueueInv, Describes, DispatchFrom;
      FinishKeeps(ThePool(), w);
      FinishAllowed(ThePool(), w);
      FinishTask(w);
      DispatchTasks();
    }

    method FinishTask(w: WorkerId)
      requires w in clients
      requires var c := clients[w];
        if c.task.Some? then !c.blocked && c.cpus == c.task.value.cpus && c.gpus == c.task.value.gpus else c == IDLE
      modifies `clients, `executing, `available, `freeCpu, `freeGpu
      ensures ThePool() == Finish(old(ThePool()), w)
    {
      ghost var p := ThePool();
      if clients[w].task.Some? {
        // The lease is exactly what the finished task demanded.
        assert clients[w].cpus == clients[w].task.value.cpus && clients[w].gpus == clients[w].task.value.gpus;
        ReleaseResources(w, clients[w].cpus, clients[w].gpus);
        clients := clients[w := clients[w].(task := None, resumed := false)];
      }
      assert clients[w] == IDLE;
      executing := RemoveWorker(executing, w);
      available := available + [w];
      assert clients == p.clients[w := IDLE];
    }

    /** A worker waits for an object: it gives its CPUs back and other tasks may start. */
    method HandleReconstruct(w: WorkerId)
      requires Valid() && Enabled(TheState(), Reconstruct(w))
      modifies this
      ensures Valid() && TheState() == Step(old(TheState()), Reconstruct(w))
    {
      hide PoolInv, QueueInv, Describes, DispatchFrom;
      ghost var p := ThePool();
      if clients[w].task.Some? && !clients[w].blocked {
        RunningIsExecuting(p, w);
        BlockKeeps(p, w);
        BlockWorker(w);
        DispatchTasks();
      }
    }

    method BlockWorker(w: WorkerId)
      requires w in clients
      modifies `clients, `executing, `blocked, `freeCpu, `freeGpu
      ensures ThePool() == Block(old(ThePool()), w)
    {
      clients := clients[w := clients[w].(blocked := true)];
      ReleaseResources(w, clients[w].cpus, 0.0);
      executing := RemoveWorker(executing, w);
      blocked := blocked + [w];
      assert clients == Block(old(ThePool()), w).clients;
    }

    method HandleNotifyUnblocked(w: WorkerId)
      requires Valid() && Enabled(TheState(), NotifyUnblocked(w))
      modifies this
      ensures Valid() && TheState() == Step(old(TheState()), NotifyUnblocked(w))
    {
      hide PoolInv, QueueInv, Describes;
      ghost var p := ThePool();
      if clients[w].task.Some? {
        BlockedHoldsNoCpu(p, w);
        UnblockKeeps(p, w);
        UnblockWorker(w);
      }
    }

    method UnblockWorker(w: WorkerId)
      requires w in clients && clients[w].task.Some? && clients[w].cpus == 0.0
      modifies `clients, `executing, `blocked, `freeCpu, `freeGpu
      ensures ThePool() == Unblock(old(ThePool()), w)
    {
      clients := clients[w := clients[w].(blocked := false, resumed := true)];
      AcquireResources(w, clients[w].task.value.cpus, 0.0);
      blocked := RemoveWorker(blocked, w);
      executing := executing + [w];
      assert clients == Unblock(old(ThePool()), w).clients;
    }

    method KillWorker(w: WorkerId)
      requires Valid() && w in clients
      modifies `workers, `clients, `available, `executing, `blocked, `freeCpu, `freeGpu
      ensures Valid() && ThePool() == Kill(old(ThePool()), w)
    {
      hide PoolInv, QueueInv, Describes;
      ghost var p := ThePool();
      KillKeeps(p, w);
      ClientIsListed(p, w);
      workers := EraseWorker(workers, w);
      available := RemoveWorker(available, w);
      executing := RemoveWorker(executing, w);
      blocked := RemoveWorker(blocked, w);
      ReleaseResources(w, clients[w].cpus, clients[w].gpus);
      clients := clients - {w};
      assert clients == p.clients - {w};
      assert ThePool() == Kill(p, w);
    }

    method HandleDisconnect(w: WorkerId)
      requires Valid() && Enabled(TheState(), Disconnected(w))
      modifies this
      ensures Valid() && TheState() == Step(old(TheState()), Disconnected(w))
    {
      KillWorker(w);
    }

    /** An object becomes local: wake the tasks that wait for it and, if there are any, dispatch. */
    method HandleObjectAvailable(o: ObjectId)
      requires Valid() && Enabled(TheState(), ObjectAvailable(o))
      modifies this
      ensures Valid() && TheState() == Step(old(TheState()), ObjectAvailable(o))
    {
      hide PoolInv, QueueInv, Describes, Arrive, Index, DispatchFrom, NamedOnce;
      var listed := AddLocalObject(o);
      if listed {
        DispatchTasks();
      }
    }

    /** Record the object, follow its iterators and move the tasks that can now run. */
    method AddLocalObject(o: ObjectId) returns (listed: bool)
      requires Valid() && Enabled(TheState(), ObjectAvailable(o))
      modifies `waiting, `dispatch, `next, `local, `remote
      ensures Valid() && TheQueues() == Arrive(old(TheQueues()), o)
      ensures listed <==> Index(old(waiting), o) != []
    {
      hide PoolInv, QueueInv, Describes, Index, Drain, Select, All, Ordered, NamedOnce;
      ghost var q := TheQueues();
      ArriveKeeps(q, o);
      QueueShape(q);
      DescribesAfterArrival(remote, waiting, local, o);
      LookUpIndex(remote, waiting, local, o);
      var deps := if o in remote then remote[o] else [];
      listed := deps != [];
      remote := remote - {o};
      local := local + {o};
      if listed {
        DrainIsScan(q.waiting, o, Moved(waiting, dispatch, next), q.local, next);
        WakeDependents(deps);
      } else {
        NobodyWakesUp(q, o);
      }
    }

    /** Dereference each iterator and move its task to the dispatch queue if it can run. */
    method WakeDependents(deps: seq<nat>)
      requires Drain(deps, Moved(waiting, dispatch, next), local).Some?
      modifies `waiting, `dispatch, `next
      ensures Drain(deps, Moved(old(waiting), old(dispatch), old(next)), local) == Some(Moved(waiting, dispatch, next))
    {
      var k := 0;
      while k < |deps|
        invariant 0 <= k <= |deps|
        invariant Drain(deps[k..], Moved(waiting, dispatch, next), local)
               == Drain(deps, Moved(old(waiting), old(dispatch), old(next)), local)
      {
        assert deps[k..][0] == deps[k] && deps[k..][1..] == deps[k + 1..];
        var i := Position(waiting, deps[k]);
        var t := waiting[i].task;
        var runnable := TestCanRun(t);
        if runnable {
          dispatch := dispatch + [Node(next, t)];
          next := next + 1;
          waiting := Erase(waiting, i);
        }
        k := k + 1;
      }
      assert deps[k..] == [];
    }

    /** An object leaves: pull its dependents back from dispatch and record who needs it now. */
    method HandleObjectRemoved(o: ObjectId)
      requires Valid() && Enabled(TheState(), ObjectRemoved(o))
      modifies this
      ensures Valid() && TheState() == Step(old(TheState()), ObjectRemoved(o))
    {
      hide PoolInv, QueueInv, Describes, Select, All, Renumber;
      ghost var q := TheQueues();
      ghost var back := Select(dispatch, Needs(o), true);
      DepartKeeps(q, o);
      BackIsReady(q, o);
      local := local - {o};
      PullBack(o);
      RecordDependents(o, q.waiting, q.local, Renumber(back, q.next));
    }

    /** Move the dependents of `o` from the dispatch queue to the end of the waiting queue. */
    method PullBack(o: ObjectId)
      modifies `waiting, `dispatch, `next
      ensures waiting == old(waiting) + Renumber(Select(old(dispatch), Needs(o), true), old(next))
      ensures dispatch == Select(old(dispatch), Needs(o), false)
      ensures next == old(next) + |Select(old(dispatch), Needs(o), true)|
    {
      var i := 0;
      while i < |dispatch|
        invariant 0 <= i <= |dispatch|
        invariant Depart(Queues(waiting, dispatch[i..], next, {}), o).waiting
               == Depart(Queues(old(waiting), old(dispatch), old(next), {}), o).waiting
        invariant next + |Select(dispatch[i..], Needs(o), true)| == old(next) + |Select(old(dispatch), Needs(o), true)|
        invariant dispatch[..i] + Select(dispatch[i..], Needs(o), false) == Select(old(dispatch), Needs(o), false)
        decreases |dispatch| - i
      {
        ghost var rest, front := dispatch[i..], dispatch[..i];
        assert rest[0] == dispatch[i] && rest[1..] == dispatch[i + 1..];
        var t := dispatch[i].task;
        if ByRef(o) in t.args {
          DepartStep(waiting, rest, next, {}, o);
          waiting := waiting + [Node(next, t)];
          next := next + 1;
          dispatch := dispatch[..i] + dispatch[i + 1..];
          assert dispatch[i..] == rest[1..] && dispatch[..i] == front;
        } else {
          StayStep(front, rest, o);
          assert dispatch[..i + 1] == front + [dispatch[i]];
          i := i + 1;
        }
      }
      assert dispatch[i..] == [];
      assert waiting + Renumber([], next) == waiting;
      assert dispatch[..i] + [] == dispatch;
    }

    /** List every waiting task under `o`, once per argument that names it. */
    method RecordDependents(o: ObjectId, ghost before: seq<Node>, ghost had: set<ObjectId>, ghost back: seq<Node>)
      requires waiting == before + back && All(back, Ready(had), true)
      requires Describes(remote, before, had) && o in had
      modifies `remote
      ensures Describes(remote, waiting, had - {o})
    {
      ghost var table := remote;
      assert waiting[..0] == [];
      for i := 0 to |waiting|
        invariant remote == WithList(table, o, Index(waiting[..i], o))
      {
        var n := waiting[i];
        RecordNode(n, o, table, Index(waiting[..i], o));
        assert waiting[..i + 1] == waiting[..i] + [n];
        IndexAppend(waiting[..i], [n], o);
        assert [n][1..] == [];
        assert Index([n], o) == Copies(n.addr, Occurrences(n.task.args, o)) + Index([], o)
                             == Copies(n.addr, Occurrences(n.task.args, o));
        assert Index(waiting[..i + 1], o) == Index(waiting[..i], o) + Copies(n.addr, Occurrences(n.task.args, o));
      }
      assert waiting[..|waiting|] == waiting;
      DescribesAfterRemoval(table, before, back, had, o);
    }

    /** List one waiting node under `o`, once per argument that names it. */
    method RecordNode(n: Node, o: ObjectId, ghost table: FetchTable, ghost listed: seq<nat>)
      requires o !in table && remote == WithList(table, o, listed)
      modifies `remote
      ensures remote == WithList(table, o, listed + Copies(n.addr, Occurrences(n.task.args, o)))
    {
      ghost var now := listed;
      assert listed + Copies(n.addr, 0) == listed;
      for k := 0 to |n.task.args|
        invariant now == listed + Copies(n.addr, Occurrences(n.task.args[..k], o))
        invariant remote == WithList(table, o, now)
      {
        assert n.task.args[..k + 1][..k] == n.task.args[..k];
        if n.task.args[k] == ByRef(o) {
          FetchMissingDependency(n.addr, o);
          now := now + [n.addr];
        }
      }
      assert n.task.args[..|n.task.args|] == n.task.args;
    }

    /** A driver is gone: kill the workers that run its tasks and drop its queued tasks. */
    method HandleDriverRemoved(d: DriverId)
      requires Valid() && Enabled(TheState(), DriverRemoved(d))
      modifies this
      ensures Valid() && TheState() == Step(old(TheState()), DriverRemoved(d))
    {
      hide PoolInv, QueueInv, Describes;
      KillWorkersOf(d);
      DropQueuedTasks(d);
    }

    /** Walk the list of workers, stepping past a worker before killing it. */
    method KillWorkersOf(d: DriverId)
      requires Valid()
      modifies `workers, `clients, `available, `executing, `blocked, `freeCpu, `freeGpu
      ensures Valid() && ThePool() == KillOwned(old(ThePool()), old(workers), d)
    {
      hide QueueInv, Describes, Listed, Conserved;
      ghost var p := ThePool();
      var i := 0;
      while i < |workers|
        invariant 0 <= i <= |workers|
        invariant Valid()
        invariant KillOwned(ThePool(), workers[i..], d) == KillOwned(p, p.workers, d)
        decreases |workers| - i
      {
        var w := workers[i];
        ghost var here := ThePool();
        assert workers[i..][0] == w && workers[i..][1..] == workers[i + 1..];
        if clients[w].task.Some? && clients[w].task.value.driver == d {
          KillWorker(w);
          assert Find(here.workers, w) == i by {
            assert here.workers[Find(here.workers, w)] == here.workers[i];
          }
          assert workers == here.workers[..i] + here.workers[i + 1..];
          assert workers[i..] == here.workers[i + 1..];
        } else {
          i := i + 1;
        }
      }
      assert workers[i..] == [];
    }

    /** Clean the fetch table first, while its iterators are live, then the two queues. */
    method DropQueuedTasks(d: DriverId)
      requires Valid()
      modifies `remote, `waiting, `dispatch, `dead
      ensures Valid() && TheQueues() == DropDriver(old(TheQueues()), d) && dead == old(dead) + {d}
    {
      hide PoolInv, QueueInv, Describes, Select, Ordered, All;
      DropDriverKeeps(TheQueues(), d);
      QueueShape(TheQueues());
      dead := dead + {d};
      CleanFetchTable(d);
      waiting := DropNodes(waiting, d);
      dispatch := DropNodes(dispatch, d);
    }

    /** Drop the driver's tasks from every list of the fetch table, and lists that become empty. */
    method CleanFetchTable(d: DriverId)
      requires Describes(remote, waiting, local) && Ordered(waiting, next)
      modifies `remote
      ensures Describes(remote, Select(waiting, OwnedBy(d), false), local)
    {
      hide Index, Keep, Select, Ordered;
      ghost var table := remote;
      ghost var kept := Select(waiting, OwnedBy(d), false);
      var todo := remote.Keys;
      while todo != {}
        invariant todo <= remote.Keys <= table.Keys
        invariant forall o :: o in todo ==> remote[o] == table[o]
        invariant forall o :: o in table && o !in todo ==> (o in remote <==> Index(kept, o) != [])
        invariant forall o :: o in remote && o !in todo ==> remote[o] == Index(kept, o)
        decreases |todo|
      {
        var o :| o in todo;
        AllLive(waiting, o);
        assert [] + waiting == waiting;
        KeepIsIndex([], waiting, waiting, d, o, next);
        var left := DropAddresses(remote[o], d);
        todo := todo - {o};
        if |left| == 0 {
          remote := remote - {o};
        } else {
          remote := remote[o := left];
        }
      }
      forall o | o !in table && o !in local ensures Index(kept, o) == [] {
        SubIndexEmpty(waiting, OwnedBy(d), o);
      }
    }

    method DropAddresses(addrs: seq<nat>, d: DriverId) returns (left: seq<nat>)
      requires forall k :: 0 <= k < |addrs| ==> Live(waiting, addrs[k])
      ensures left == Keep(addrs, waiting, d)
    {
      left := addrs;
      ghost var front, rest := [], addrs;
      var k := 0;
      while k < |left|
        invariant 0 <= k <= |left| && front == left[..k] && rest == left[k..]
        invariant forall j :: 0 <= j < |rest| ==> Live(waiting, rest[j])
        invariant front + Keep(rest, waiting, d) == Keep(addrs, waiting, d)
        decreases |left| - k
      {
        var a := left[k];
        KeepStep(front, rest, waiting, d);
        if waiting[Position(waiting, a)].task.driver == d {
          left := left[..k] + left[k + 1..];
        } else {
          k := k + 1;
          front := front + [a];
        }
        rest := rest[1..];
      }
      assert front + [] == left;
    }

    method DropNodes(q: seq<Node>, d: DriverId) returns (left: seq<Node>)
      ensures left == Select(q, OwnedBy(d), false)
    {
      left := q;
      ghost var front, rest := [], q;
      var k := 0;
      while k < |left|
        invariant 0 <= k <= |left| && front == left[..k] && rest == left[k..]
        invariant front + Select(rest, OwnedBy(d), false) == Select(q, OwnedBy(d), false)
        decreases |left| - k
      {
        var n := left[k];
        DropStep(front, rest, d);
        if n.task.driver == d {
          left := left[..k] + left[k + 1..];
        } else {
          k := k + 1;
          front := front + [n];
        }
        rest := rest[1..];
      }
      assert front + [] == left;
    }
  }

  // ---- What the invariant gives a handler ----

  lemma AssignAllowed(s: State, i: nat)
    requires Inv(s) && i < |s.q.dispatch| && s.p.available != []
    ensures
      var w := s.p.available[|s.p.available| - 1];
      w in s.p.clients && s.p.clients[w] == IDLE
  {
    assert s.p.available[|s.p.available| - 1] in s.p.available;
  }

  lemma FinishAllowed(p: Pool, w: WorkerId)
    requires PoolInv(p) && w in p.clients && w !in p.available && w !in p.blocked
    ensures
      var c := p.clients[w];
      if c.task.Some? then !c.blocked && c.cpus == c.task.value.cpus && c.gpus == c.task.value.gpus else c == IDLE
  {
    assert Consistent(p.clients[w]);
  }

  lemma RunningIsExecuting(p: Pool, w: WorkerId)
    requires PoolInv(p) && w in p.clients && p.clients[w].task.Some? && !p.clients[w].blocked
    ensures w in p.executing
  {
  }

  lemma BlockedHoldsNoCpu(p: Pool, w: WorkerId)
    requires PoolInv(p) && w in p.clients && p.clients[w].task.Some? && p.clients[w].blocked
    ensures w in p.blocked && p.clients[w].cpus == 0.0
  {
    assert Consistent(p.clients[w]);
  }

  lemma ClientIsListed(p: Pool, w: WorkerId)
    requires PoolInv(p) && w in p.clients
    ensures w in p.workers
  {
  }

  // ---- Steps of the loops above ----

  lemma FirstIsFound(s: seq<WorkerId>, w: WorkerId, i: nat)
    requires i < |s| && s[i] == w && w !in s[..i]
    ensures w in s && Find(s, w) == i
  {
    if i > 0 {
      assert s[0] == s[..i][0];
      assert s[1..][..i - 1] == s[..i][1..];
      FirstIsFound(s[1..], w, i - 1);
    }
  }

  function WithList(table: FetchTable, o: ObjectId, listed: seq<nat>): FetchTable {
    if listed == [] then table else table[o := listed]
  }

  /** Recording one more argument. */
  lemma PartialStep(table: FetchTable, table': FetchTable, before: seq<Node>, local: set<ObjectId>, n: Node, i: nat)
    requires i < |n.task.args| && Partial(table, before, local, n, n.task.args[..i])
    requires var a := n.task.args[i];
      table' == if a.ByRef? && a.id !in local then table[a.id := (if a.id in table then table[a.id] else []) + [n.addr]]
                else table
    ensures Partial(table', before, local, n, n.task.args[..i + 1])
  {
    var args := n.task.args;
    assert args[..i + 1][..i] == args[..i];
    forall o
      ensures
        var listed := Index(before, o) + Copies(n.addr, Occurrences(args[..i + 1], o));
        && (o in table' <==> o !in local && listed != [])
        && (o in table' ==> table'[o] == listed)
    {
      var old' := Index(before, o) + Copies(n.addr, Occurrences(args[..i], o));
      if args[i] == ByRef(o) {
        assert Index(before, o) + Copies(n.addr, Occurrences(args[..i + 1], o)) == old' + [n.addr];
      }
    }
  }

  /** Pulling the first dependent task back to the waiting queue. */
  lemma DepartStep(waiting: seq<Node>, rest: seq<Node>, next: nat, local: set<ObjectId>, o: ObjectId)
    requires rest != [] && DependsOn(rest[0].task, o)
    ensures Depart(Queues(waiting + [Node(next, rest[0].task)], rest[1..], next + 1, local), o).waiting
         == Depart(Queues(waiting, rest, next, local), o).waiting
    ensures |Select(rest, Needs(o), true)| == 1 + |Select(rest[1..], Needs(o), true)|
    ensures Select(rest, Needs(o), false) == Select(rest[1..], Needs(o), false)
  {
    var back := Select(rest[1..], Needs(o), true);
    assert Select(rest, Needs(o), true) == [rest[0]] + back;
    assert Renumber([rest[0]] + back, next) == [Node(next, rest[0].task)] + Renumber(back, next + 1);
    assert (waiting + [Node(next, rest[0].task)]) + Renumber(back, next + 1)
        == waiting + Renumber([rest[0]] + back, next);
  }

  /** Leaving the first independent task in the dispatch queue. */
  lemma StayStep(front: seq<Node>, rest: seq<Node>, o: ObjectId)
    requires rest != [] && !DependsOn(rest[0].task, o)
    ensures front + Select(rest, Needs(o), false) == (front + [rest[0]]) + Select(rest[1..], Needs(o), false)
    ensures Select(rest, Needs(o), true) == Select(rest[1..], Needs(o), true)
  {
    assert Select(rest, Needs(o), false) == [rest[0]] + Select(rest[1..], Needs(o), false);
  }

  lemma DropStep(front: seq<Node>, rest: seq<Node>, d: DriverId)
    requires rest != []
    ensures front + Select(rest, OwnedBy(d), false)
         == (if rest[0].task.driver == d then front else front + [rest[0]]) + Select(rest[1..], OwnedBy(d), false)
  {
    var tail := Select(rest[1..], OwnedBy(d), false);
    if rest[0].task.driver == d {
      assert Select(rest, OwnedBy(d), false) == tail;
    } else {
      assert Select(rest, OwnedBy(d), false) == [rest[0]] + tail;
      assert front + ([rest[0]] + tail) == (front + [rest[0]]) + tail;
    }
  }

  lemma KeepStep(front: seq<nat>, rest: seq<nat>, waiting: seq<Node>, d: DriverId)
    requires rest != [] && forall j :: 0 <= j < |rest| ==> Live(waiting, rest[j])
    ensures forall j :: 0 <= j < |rest[1..]| ==> Live(waiting, rest[1..][j])
    ensures front + Keep(rest, waiting, d)
         == (if waiting[Position(waiting, rest[0])].task.driver == d then front else front + [rest[0]])
            + Keep(rest[1..], waiting, d)
  {
    assert forall j :: 0 <= j < |rest[1..]| ==> rest[1..][j] == rest[j + 1];
    var tail := Keep(rest[1..], waiting, d);
    if waiting[Position(waiting, rest[0])].task.driver == d {
      assert Keep(rest, waiting, d) == tail;
    } else {
      assert Keep(rest, waiting, d) == [rest[0]] + tail;
      assert front + ([rest[0]] + tail) == (front + [rest[0]]) + tail;
    }
  }

  lemma LookUpIndex(table: FetchTable, waiting: seq<Node>, local: set<ObjectId>, o: ObjectId)
    requires Describes(table, waiting, local) && o !in local
    ensures (if o in table then table[o] else []) == Index(waiting, o)
  {
  }

  lemma QueueShape(q: Queues)
    requires QueueInv(q)
    ensures Ordered(q.waiting, q.next) && All(q.waiting, Ready(q.local), false) && All(q.dispatch, Ready(q.local), true)
  {
  }

  lemma BackIsReady(q: Queues, o: ObjectId)
    requires QueueInv(q)
    ensures All(Renumber(Select(q.dispatch, Needs(o), true), q.next), Ready(q.local), true)
  {
    SelectHolds(q.dispatch, Needs(o), true);
    var back := Select(q.dispatch, Needs(o), true);
    forall j | 0 <= j < |back| ensures Holds(Ready(q.local), back[j].task) {
      assert back[j] in q.dispatch;
    }
  }

  lemma SubIndexEmpty(q: seq<Node>, test: Test, o: ObjectId)
    requires Index(q, o) == []
    ensures Index(Select(q, test, false), o) == []
  {
    IndexNonEmpty(q, o);
    IndexNonEmpty(Select(q, test, false), o);
    SelectHolds(q, test, false);
    var r := Select(q, test, false);
    forall i | 0 <= i < |r| ensures !DependsOn(r[i].task, o) {
      assert r[i] in q;
    }
  }
}
