/**
 The workers of one local scheduler: the three worker lists, what each worker holds, and the
 free CPU and GPU. Each operation is the value-level form of one handler's bookkeeping.
 */
module WorkerPool {
  import opened IdLists
  import opened Tasks

  /** What the scheduler records about one connected client. `resumed` is a history flag: the
      worker blocked and was unblocked again during its current task. */
  datatype Client = Client(task: Option<Task>, cpus: real, gpus: real, blocked: bool, resumed: bool)

  const IDLE := Client(None, 0.0, 0.0, false, false)

  datatype Pool = Pool(
    workers: seq<WorkerId>, clients: map<WorkerId, Client>,
    available: seq<WorkerId>, executing: seq<WorkerId>, blocked: seq<WorkerId>,
    freeCpu: real, freeGpu: real, totalCpu: real, totalGpu: real)

  // ---- Worker vectors ----

  /** Swap with the last element and pop: how a worker leaves a worker vector. */
  function SwapOut(s: seq<WorkerId>, w: WorkerId): seq<WorkerId> {
    if w in s then s[Find(s, w) := s[|s| - 1]][..|s| - 1] else s
  }

  lemma SwapOutRemoves(s: seq<WorkerId>, w: WorkerId)
    requires NoRepeat(s)
    ensures NoRepeat(SwapOut(s, w))
    ensures forall x :: x in SwapOut(s, w) <==> x in s && x != w
  {
    if w in s {
      var k, r := Find(s, w), SwapOut(s, w);
      forall x | x in s && x != w ensures x in r {
        var i :| 0 <= i < |s| && s[i] == x;
        assert r[if i == |s| - 1 then k else i] == x;
      }
    }
  }

  // ---- Leases ----

  datatype Kind = Cpu | Gpu | ResumedCpu

  function Held(k: Kind, c: Client): real {
    match k
    case Cpu => c.cpus
    case Gpu => c.gpus
    case ResumedCpu => if c.resumed then c.cpus else 0.0
  }

  /** The amount of one resource leased to the listed workers. */
  function Leased(k: Kind, workers: seq<WorkerId>, clients: map<WorkerId, Client>): real
    requires forall w :: w in workers ==> w in clients
  {
    if workers == [] then 0.0
    else Held(k, clients[workers[0]]) + Leased(k, workers[1..], clients)
  }

  lemma {:induction false} LeasedFrame(k: Kind, workers: seq<WorkerId>, a: map<WorkerId, Client>,
                                       b: map<WorkerId, Client>)
    requires forall w :: w in workers ==> w in a && w in b && a[w] == b[w]
    ensures Leased(k, workers, a) == Leased(k, workers, b)
  {
    if workers != [] {
      LeasedFrame(k, workers[1..], a, b);
    }
  }

  lemma {:induction false} LeasedUpdate(k: Kind, workers: seq<WorkerId>, m: map<WorkerId, Client>, w: WorkerId,
                                        c: Client)
    requires NoRepeat(workers) && w in workers
    requires forall x :: x in workers ==> x in m
    ensures Leased(k, workers, m[w := c]) == Leased(k, workers, m) - Held(k, m[w]) + Held(k, c)
  {
    if workers[0] == w {
      LeasedFrame(k, workers[1..], m, m[w := c]);
    } else {
      LeasedUpdate(k, workers[1..], m, w, c);
    }
  }

  lemma {:induction false} LeasedAppend(k: Kind, a: seq<WorkerId>, b: seq<WorkerId>, m: map<WorkerId, Client>)
    requires forall x :: x in a + b ==> x in m
    ensures Leased(k, a + b, m) == Leased(k, a, m) + Leased(k, b, m)
  {
    assert forall x :: x in a || x in b ==> x in a + b;
    if a == [] {
      assert a + b == b;
    } else {
      assert (a + b)[1..] == a[1..] + b;
      assert forall x :: x in a[1..] + b ==> x in a + b;
      LeasedAppend(k, a[1..], b, m);
    }
  }

  lemma LeasedErase(k: Kind, workers: seq<WorkerId>, m: map<WorkerId, Client>, w: WorkerId)
    requires NoRepeat(workers) && w in workers
    requires forall x :: x in workers ==> x in m
    requires forall x :: x in Without(workers, w) ==> x in m - {w}
    ensures Leased(k, Without(workers, w), m - {w}) == Leased(k, workers, m) - Held(k, m[w])
  {
    var i := Find(workers, w);
    var a, b := workers[..i], workers[i + 1..];
    assert workers == a + ([w] + b);
    LeasedAppend(k, a, [w] + b, m);
    LeasedAppend(k, [w], b, m);
    LeasedAppend(k, a, b, m);
    LeasedFrame(k, a + b, m, m - {w});
  }

  lemma {:induction false} LeasedNonNegative(k: Kind, workers: seq<WorkerId>, m: map<WorkerId, Client>)
    requires forall w :: w in workers ==> w in m && 0.0 <= m[w].cpus && 0.0 <= m[w].gpus
    ensures 0.0 <= Leased(k, workers, m)
  {
    if workers != [] {
      LeasedNonNegative(k, workers[1..], m);
    }
  }

  // ---- The invariant ----

  /** The task, the lease and the blocked flag of one client agree. */
  predicate Consistent(c: Client) {
    match c.task
    case None => c == IDLE
    case Some(t) => c.gpus == t.gpus && c.cpus == (if c.blocked then 0.0 else t.cpus)
  }

  ghost predicate Registered(p: Pool) {
    && NoRepeat(p.workers)
    && (forall w :: w in p.clients <==> w in p.workers)
    && (forall w :: w in p.clients ==> Consistent(p.clients[w]))
  }

  /** Membership in the three lists is decided by the client's own fields. */
  ghost predicate Listed(p: Pool) {
    && NoRepeat(p.available) && NoRepeat(p.executing) && NoRepeat(p.blocked)
    && (forall w :: w in p.available ==> w in p.clients && p.clients[w].task.None?)
    && (forall w :: w in p.executing <==> w in p.clients && p.clients[w].task.Some? && !p.clients[w].blocked)
    && (forall w :: w in p.blocked <==> w in p.clients && p.clients[w].task.Some? && p.clients[w].blocked)
  }

  /** Free plus leased is the static amount; the GPUs are never oversubscribed, and the CPUs only
      by workers that blocked and came back. */
  ghost predicate Conserved(p: Pool)
    requires Registered(p)
  {
    && p.freeCpu + Leased(Cpu, p.workers, p.clients) == p.totalCpu
    && p.freeGpu + Leased(Gpu, p.workers, p.clients) == p.totalGpu
    && 0.0 <= p.freeGpu
    && 0.0 <= p.freeCpu + Leased(ResumedCpu, p.workers, p.clients)
  }

  ghost predicate PoolInv(p: Pool) {
    Registered(p) && Listed(p) && Conserved(p)
  }

  predicate Fits(t: Task, p: Pool) {
    t.cpus <= p.freeCpu && t.gpus <= p.freeGpu
  }

  // ---- Operations ----

  function Connect(p: Pool, w: WorkerId): Pool {
    p.(workers := p.workers + [w], clients := p.clients[w := IDLE])
  }

  /** Lease the task's resources to the last available worker and give it the task. */
  function Start(p: Pool, t: Task): Pool
    requires p.available != []
  {
    var w := p.available[|p.available| - 1];
    p.(clients := p.clients[w := Client(Some(t), t.cpus, t.gpus, false, false)],
       available := p.available[..|p.available| - 1],
       executing := p.executing + [w],
       freeCpu := p.freeCpu - t.cpus,
       freeGpu := p.freeGpu - t.gpus)
  }

  /** The worker asks for a task: whatever it was running is done. */
  function Finish(p: Pool, w: WorkerId): Pool
    requires w in p.clients
  {
    var c := p.clients[w];
    p.(clients := p.clients[w := IDLE],
       executing := SwapOut(p.executing, w),
       available := p.available + [w],
       freeCpu := p.freeCpu + c.cpus,
       freeGpu := p.freeGpu + c.gpus)
  }

  /** The worker waits for an object: it gives back its CPUs but keeps its GPUs. */
  function Block(p: Pool, w: WorkerId): Pool
    requires w in p.clients
  {
    var c := p.clients[w];
    p.(clients := p.clients[w := c.(cpus := 0.0, blocked := true)],
       executing := SwapOut(p.executing, w),
       blocked := p.blocked + [w],
       freeCpu := p.freeCpu + c.cpus)
  }

  /** The worker resumes and leases its CPUs again, even when they are not free. */
  function Unblock(p: Pool, w: WorkerId): Pool
    requires w in p.clients && p.clients[w].task.Some?
  {
    var c := p.clients[w];
    p.(clients := p.clients[w := c.(cpus := c.task.value.cpus, blocked := false, resumed := true)],
       blocked := SwapOut(p.blocked, w),
       executing := p.executing + [w],
       freeCpu := p.freeCpu - c.task.value.cpus)
  }

  function Kill(p: Pool, w: WorkerId): Pool
    requires w in p.clients
  {
    var c := p.clients[w];
    p.(workers := Without(p.workers, w), clients := p.clients - {w},
       available := SwapOut(p.available, w),
       executing := SwapOut(p.executing, w),
       blocked := SwapOut(p.blocked, w),
       freeCpu := p.freeCpu + c.cpus,
       freeGpu := p.freeGpu + c.gpus)
  }

  predicate Runs(p: Pool, w: WorkerId, d: DriverId) {
    w in p.clients && p.clients[w].task.Some? && p.clients[w].task.value.driver == d
  }

  /** Kill, in list order, the workers of `list` that run a task of driver `d`. */
  function KillOwned(p: Pool, list: seq<WorkerId>, d: DriverId): Pool
    decreases |list|
  {
    if list == [] then p
    else KillOwned(if Runs(p, list[0], d) then Kill(p, list[0]) else p, list[1..], d)
  }

  /** What the listed workers that run a task of driver `d` lease. */
  function OwnedLease(k: Kind, p: Pool, list: seq<WorkerId>, d: DriverId): real {
    if list == [] then 0.0
    else (if Runs(p, list[0], d) then Held(k, p.clients[list[0]]) else 0.0) + OwnedLease(k, p, list[1..], d)
  }

  // ---- Every operation keeps the invariant ----

  lemma ConnectKeeps(p: Pool, w: WorkerId)
    requires PoolInv(p) && w !in p.clients
    ensures PoolInv(Connect(p, w))
  {
    var p' := Connect(p, w);
    forall k: Kind ensures Leased(k, p'.workers, p'.clients) == Leased(k, p.workers, p.clients) {
      LeasedAppend(k, p.workers, [w], p'.clients);
      LeasedFrame(k, p.workers, p.clients, p'.clients);
      assert [w][1..] == [];
    }
  }

  lemma StartLists(p: Pool, t: Task)
    requires Registered(p) && Listed(p) && p.available != []
    ensures Registered(Start(p, t)) && Listed(Start(p, t))
  {
    var w, p' := p.available[|p.available| - 1], Start(p, t);
    assert w in p.available;
    assert p.available == p'.available + [w];
  }

  lemma StartKeeps(p: Pool, t: Task)
    requires PoolInv(p) && p.available != [] && Fits(t, p)
    ensures PoolInv(Start(p, t))
  {
    var w, p' := p.available[|p.available| - 1], Start(p, t);
    assert w in p.available;
    StartLists(p, t);
    hide Listed;
    forall k: Kind
      ensures Leased(k, p'.workers, p'.clients) == Leased(k, p.workers, p.clients) + Held(k, p'.clients[w])
    {
      LeasedUpdate(k, p.workers, p.clients, w, p'.clients[w]);
      assert Consistent(p.clients[w]);
    }
    LeasedNonNegativeIn(p', ResumedCpu);
  }

  lemma LeasedNonNegativeIn(p: Pool, k: Kind)
    requires Registered(p)
    ensures 0.0 <= Leased(k, p.workers, p.clients)
  {
    LeasedNonNegative(k, p.workers, p.clients);
  }

  lemma FinishKeeps(p: Pool, w: WorkerId)
    requires PoolInv(p) && w in p.clients && w !in p.available && w !in p.blocked
    ensures PoolInv(Finish(p, w))
  {
    var p' := Finish(p, w);
    forall k: Kind
      ensures Leased(k, p'.workers, p'.clients) == Leased(k, p.workers, p.clients) - Held(k, p.clients[w])
    {
      LeasedUpdate(k, p.workers, p.clients, w, IDLE);
    }
    SwapOutRemoves(p.executing, w);
  }

  lemma BlockKeeps(p: Pool, w: WorkerId)
    requires PoolInv(p) && w in p.executing
    ensures PoolInv(Block(p, w))
  {
    var p' := Block(p, w);
    forall k: Kind
      ensures Leased(k, p'.workers, p'.clients)
           == Leased(k, p.workers, p.clients) - Held(k, p.clients[w]) + Held(k, p'.clients[w])
    {
      LeasedUpdate(k, p.workers, p.clients, w, p'.clients[w]);
    }
    SwapOutRemoves(p.executing, w);
  }

  lemma UnblockKeeps(p: Pool, w: WorkerId)
    requires PoolInv(p) && w in p.blocked
    ensures PoolInv(Unblock(p, w))
  {
    var p' := Unblock(p, w);
    forall k: Kind
      ensures Leased(k, p'.workers, p'.clients)
           == Leased(k, p.workers, p.clients) - Held(k, p.clients[w]) + Held(k, p'.clients[w])
    {
      LeasedUpdate(k, p.workers, p.clients, w, p'.clients[w]);
    }
    SwapOutRemoves(p.blocked, w);
  }

  lemma KillLists(p: Pool, w: WorkerId)
    requires Registered(p) && Listed(p) && w in p.clients
    ensures Registered(Kill(p, w)) && Listed(Kill(p, w))
    ensures forall x :: x in Kill(p, w).clients <==> x in p.clients && x != w
  {
    hide Consistent, Without, SwapOut, NoRepeat;
    WithoutRemoves(p.workers, w);
    SwapOutRemoves(p.available, w);
    SwapOutRemoves(p.executing, w);
    SwapOutRemoves(p.blocked, w);
  }

  lemma KillKeeps(p: Pool, w: WorkerId)
    requires PoolInv(p) && w in p.clients
    ensures PoolInv(Kill(p, w))
    ensures forall x :: x in Kill(p, w).clients <==> x in p.clients && x != w
  {
    var p' := Kill(p, w);
    KillLists(p, w);
    forall k: Kind
      ensures Leased(k, p'.workers, p'.clients) == Leased(k, p.workers, p.clients) - Held(k, p.clients[w])
    {
      LeasedErase(k, p.workers, p.clients, w);
    }
  }

  /** Killing a driver's workers removes exactly the workers that run its tasks. */
  lemma {:induction false} KillOwnedKeeps(p: Pool, list: seq<WorkerId>, d: DriverId)
    requires PoolInv(p)
    ensures PoolInv(KillOwned(p, list, d))
    ensures forall w :: w in KillOwned(p, list, d).clients <==> w in p.clients && !(w in list && Runs(p, w, d))
    ensures forall w :: w in KillOwned(p, list, d).clients ==> KillOwned(p, list, d).clients[w] == p.clients[w]
    decreases |list|
  {
    if list != [] {
      var p' := if Runs(p, list[0], d) then Kill(p, list[0]) else p;
      if Runs(p, list[0], d) {
        KillKeeps(p, list[0]);
      }
      KillOwnedKeeps(p', list[1..], d);
      assert list == [list[0]] + list[1..];
    }
  }

  lemma {:induction false} OwnedLeaseFrame(k: Kind, a: Pool, b: Pool, list: seq<WorkerId>, d: DriverId)
    requires forall w :: w in list ==> (w in a.clients <==> w in b.clients)
    requires forall w :: w in list && w in a.clients ==> a.clients[w] == b.clients[w]
    ensures OwnedLease(k, a, list, d) == OwnedLease(k, b, list, d)
  {
    if list != [] {
      assert list[0] in list;
      OwnedLeaseFrame(k, a, b, list[1..], d);
    }
  }

  /** Killing a driver's workers frees exactly what they lease, and no worker that was available. */
  lemma {:induction false} KillOwnedFrees(p: Pool, list: seq<WorkerId>, d: DriverId)
    requires PoolInv(p) && NoRepeat(list)
    ensures
      var p' := KillOwned(p, list, d);
      && p'.available == p.available
      && p'.freeCpu == p.freeCpu + OwnedLease(Cpu, p, list, d)
      && p'.freeGpu == p.freeGpu + OwnedLease(Gpu, p, list, d)
    decreases |list|
  {
    if list != [] {
      var p' := if Runs(p, list[0], d) then Kill(p, list[0]) else p;
      if Runs(p, list[0], d) {
        KillKeeps(p, list[0]);
        assert list[0] !in p.available;
      }
      forall w | w in list[1..] ensures w != list[0] {}
      hide PoolInv;
      OwnedLeaseFrame(Cpu, p, p', list[1..], d);
      OwnedLeaseFrame(Gpu, p, p', list[1..], d);
      KillOwnedFrees(p', list[1..], d);
    }
  }

  // ---- What the invariant says ----

  /** No worker is in two lists; the CPU deficit is at most what resumed workers lease; and the
      free GPUs stay between zero and the static amount. */
  lemma PoolMeaning(p: Pool, w: WorkerId)
    requires PoolInv(p)
    ensures !(w in p.available && w in p.executing) && !(w in p.available && w in p.blocked)
         && !(w in p.executing && w in p.blocked)
    ensures 0.0 <= p.freeGpu <= p.totalGpu && p.freeCpu <= p.totalCpu
    ensures -p.freeCpu <= Leased(ResumedCpu, p.workers, p.clients)
  {
    LeasedNonNegativeIn(p, Gpu);
    LeasedNonNegativeIn(p, Cpu);
  }
}
