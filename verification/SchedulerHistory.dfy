/**
 The local scheduler told from outside: what its state and its messages are, as a function of the
 events alone. Nothing here depends on how `SchedulerSpec` keeps its queues and lists.
 */
module SchedulerHistory {
  import opened IdLists
  import opened Tasks
  import opened TaskQueues
  import opened FetchIndex
  import opened WorkerPool
  import opened SchedulerSpec

  // ---- What the notifications say ----

  predicate Notice(e: Event, o: ObjectId) {
    e == ObjectAvailable(o) || e == ObjectRemoved(o)
  }

  /** The last notification about `o` says that it is available; or there is none, and it was local at
      the start. */
  predicate ReportedLocal(es: seq<Event>, o: ObjectId, before: bool) {
    || (exists i :: 0 <= i < |es| && es[i] == ObjectAvailable(o) && forall j :: i < j < |es| ==> !Notice(es[j], o))
    || (before && forall j :: 0 <= j < |es| ==> !Notice(es[j], o))
  }

  lemma StepLocal(s: State, e: Event)
    requires Enabled(s, e)
    ensures Step(s, e).q.local ==
      (match e
       case ObjectAvailable(o) => s.q.local + {o}
       case ObjectRemoved(o) => s.q.local - {o}
       case _ => s.q.local)
    ensures Step(s, e).dead == s.dead + if e.DriverRemoved? then {e.driver} else {}
    ensures Step(s, e).hasGlobal == s.hasGlobal
  {
    if e.Submitted? || e.Scheduled? || e.GetTask? || e.Reconstruct? || e.ObjectAvailable? {
      PassKeepsOrder(BeforeDispatch(s, e), 0);
    }
  }

  lemma ReportedMore(es: seq<Event>, e: Event, o: ObjectId, before: bool)
    ensures ReportedLocal(es + [e], o, before) <==>
      e == ObjectAvailable(o) || (e != ObjectRemoved(o) && ReportedLocal(es, o, before))
  {
    var fs, n := es + [e], |es|;
    assert fs[n] == e && forall i :: 0 <= i < n ==> fs[i] == es[i];
    if e != ObjectRemoved(o) && e != ObjectAvailable(o) && ReportedLocal(es, o, before) {
      if exists i :: 0 <= i < n && es[i] == ObjectAvailable(o) && forall j :: i < j < n ==> !Notice(es[j], o) {
        var i :| 0 <= i < n && es[i] == ObjectAvailable(o) && forall j :: i < j < n ==> !Notice(es[j], o);
        assert fs[i] == ObjectAvailable(o);
      }
    }
    if ReportedLocal(fs, o, before) && e != ObjectAvailable(o) {
      assert !Notice(fs[n], o) by {
        if exists i :: 0 <= i < |fs| && fs[i] == ObjectAvailable(o) && forall j :: i < j < |fs| ==> !Notice(fs[j], o) {
          var i :| 0 <= i < |fs| && fs[i] == ObjectAvailable(o) && forall j :: i < j < |fs| ==> !Notice(fs[j], o);
        }
      }
      if exists i :: 0 <= i < |fs| && fs[i] == ObjectAvailable(o) && forall j :: i < j < |fs| ==> !Notice(fs[j], o) {
        var i :| 0 <= i < |fs| && fs[i] == ObjectAvailable(o) && forall j :: i < j < |fs| ==> !Notice(fs[j], o);
        assert es[i] == ObjectAvailable(o);
      }
    }
  }

  /** Over every run: an object counts as local if and only if the last notification about it said so,
      and a driver as removed if and only if its removal was announced. */
  lemma {:induction false} RunLocalIff(s: State, es: seq<Event>, o: ObjectId)
    requires Feasible(s, es)
    ensures o in Run(s, es).q.local <==> ReportedLocal(es, o, o in s.q.local)
    ensures forall d :: d in Run(s, es).dead <==> d in s.dead || DriverRemoved(d) in es
    decreases |es|
  {
    if es == [] {
    } else {
      var n := |es| - 1;
      var fs, e := es[..n], es[n];
      assert es == fs + [e];
      RunExtends(s, fs, e);
      RunLocalIff(s, fs, o);
      StepLocal(Run(s, fs), e);
      ReportedMore(fs, e, o, o in s.q.local);
    }
  }

  /** Over every run, of which `e` is the last step so far: every task sent in that step had all its
      by-reference arguments reported available, by the notifications up to then, and its driver was
      alive. */
  lemma RunSendsReadyTasks(s: State, es: seq<Event>, e: Event, k: nat)
    requires Inv(s) && Feasible(s, es) && Feasible(s, es + [e])
    requires |Run(s, es).sent| <= k < |Run(s, es + [e]).sent|
    ensures CanRun(Run(s, es + [e]).sent[k].task, Run(s, es + [e]).q.local)
    ensures forall o :: DependsOn(Run(s, es + [e]).sent[k].task, o) ==> ReportedLocal(es + [e], o, o in s.q.local)
    ensures
      var d := Run(s, es + [e]).sent[k].task.driver;
      d !in Run(s, es + [e]).dead && d !in s.dead && DriverRemoved(d) !in es + [e]
  {
    RunKeeps(s, es);
    RunExtends(s, es, e);
    SentTasksAreReady(Run(s, es), e, k);
    var t := Run(s, es + [e]).sent[k].task;
    forall o | DependsOn(t, o) ensures ReportedLocal(es + [e], o, o in s.q.local) {
      RunLocalIff(s, es + [e], o);
    }
    RunLocalIff(s, es + [e], 0);
  }

  // ---- What a worker is given ----

  /** How often a worker asked for a task. */
  function Asked(es: seq<Event>, w: WorkerId): nat {
    if es == [] then 0 else Asked(es[..|es| - 1], w) + if es[|es| - 1] == GetTask(w) then 1 else 0
  }

  /** How many tasks it was sent. */
  function Given(sent: seq<Assignment>, w: WorkerId): nat {
    if sent == [] then 0 else Given(sent[..|sent| - 1], w) + if sent[|sent| - 1].worker == w then 1 else 0
  }

  function Unserved(p: Pool, w: WorkerId): nat {
    if w in p.available then 1 else 0
  }

  lemma GivenMore(sent: seq<Assignment>, a: Assignment, w: WorkerId)
    ensures Given(sent + [a], w) == Given(sent, w) + if a.worker == w then 1 else 0
  {
    assert (sent + [a])[..|sent|] == sent;
  }

  lemma {:induction false} PassServes(s: State, i: nat, w: WorkerId)
    requires i <= |s.q.dispatch| && NoRepeat(s.p.available)
    ensures NoRepeat(DispatchFrom(s, i).p.available)
    ensures Given(DispatchFrom(s, i).sent, w) + Unserved(DispatchFrom(s, i).p, w) == Given(s.sent, w) + Unserved(s.p, w)
    decreases |s.q.dispatch| - i
  {
    if i == |s.q.dispatch| || s.p.available == [] || !SomeResource(s.p) {
    } else if !Fits(s.q.dispatch[i].task, s.p) {
      PassServes(s, i + 1, w);
    } else if s.q.dispatch[i].task.driver !in s.dead {
      var n := |s.p.available| - 1;
      assert s.p.available == s.p.available[..n] + [s.p.available[n]];
      GivenMore(s.sent, Assignment(s.p.available[n], s.q.dispatch[i].task), w);
      PassServes(AssignAt(s, i), i, w);
    }
  }

  /** Before the pass, if there is one: who is available, and that nothing has been sent. */
  lemma StepReady(s: State, e: Event, w: WorkerId)
    requires Inv(s) && Enabled(s, e) && e != Disconnected(w)
    ensures
      var m := BeforeDispatch(s, e);
      && NoRepeat(m.p.available) && m.sent == s.sent
      && Unserved(m.p, w) == Unserved(s.p, w) + if e == GetTask(w) then 1 else 0
  {
    match e
    case Disconnected(x) => SwapOutRemoves(s.p.available, x);
    case DriverRemoved(d) => KillOwnedFrees(s.p, s.p.workers, d);
    case _ =>
  }

  lemma StepIsPass(s: State, e: Event)
    requires Enabled(s, e)
    ensures Step(s, e) == BeforeDispatch(s, e) || Step(s, e) == Dispatch(BeforeDispatch(s, e))
  {
  }

  lemma StepServes(s: State, e: Event, w: WorkerId)
    requires Inv(s) && Enabled(s, e) && e != Disconnected(w)
    ensures Given(Step(s, e).sent, w) + Unserved(Step(s, e).p, w)
         == Given(s.sent, w) + Unserved(s.p, w) + if e == GetTask(w) then 1 else 0
  {
    StepReady(s, e, w);
    StepIsPass(s, e);
    PassServes(BeforeDispatch(s, e), 0, w);
  }

  /** Over every run in which a worker does not disconnect: it is sent one task for each time it asked,
      except that it is available if the last request is not answered yet. */
  lemma {:induction false} RunServesEachRequest(s: State, es: seq<Event>, w: WorkerId)
    requires Inv(s) && Feasible(s, es) && Disconnected(w) !in es
    ensures Given(Run(s, es).sent, w) + Unserved(Run(s, es).p, w) == Given(s.sent, w) + Unserved(s.p, w) + Asked(es, w)
    decreases |es|
  {
    if es != [] {
      var n := |es| - 1;
      var fs, e := es[..n], es[n];
      assert es == fs + [e];
      RunExtends(s, fs, e);
      RunKeeps(s, fs);
      RunServesEachRequest(s, fs, w);
      hide Inv, Step, Enabled, Given;
      StepServes(Run(s, fs), e, w);
    }
  }

  /** The task a worker is recorded to run is the last one sent to it. */
  ghost predicate RunsLastSent(s: State) {
    forall w :: w in s.p.clients && s.p.clients[w].task.Some? ==>
      exists k :: LastSent(s.sent, k, w, s.p.clients[w].task.value)
  }

  predicate LastSent(sent: seq<Assignment>, k: int, w: WorkerId, t: Task) {
    0 <= k < |sent| && sent[k] == Assignment(w, t) && forall j :: k < j < |sent| ==> sent[j].worker != w
  }

  lemma AssignRunsLastSent(s: State, i: nat)
    requires RunsLastSent(s) && i < |s.q.dispatch| && s.p.available != []
    ensures RunsLastSent(AssignAt(s, i))
  {
    var s', n, x := AssignAt(s, i), |s.sent|, s.p.available[|s.p.available| - 1];
    forall w | w in s'.p.clients && s'.p.clients[w].task.Some?
      ensures exists k :: LastSent(s'.sent, k, w, s'.p.clients[w].task.value)
    {
      if w == x {
        assert LastSent(s'.sent, n, w, s'.p.clients[w].task.value);
      } else {
        var k :| LastSent(s.sent, k, w, s.p.clients[w].task.value);
        assert LastSent(s'.sent, k, w, s'.p.clients[w].task.value);
      }
    }
  }

  lemma {:induction false} PassRunsLastSent(s: State, i: nat)
    requires RunsLastSent(s) && i <= |s.q.dispatch|
    ensures RunsLastSent(DispatchFrom(s, i))
    decreases |s.q.dispatch| - i
  {
    if i == |s.q.dispatch| || s.p.available == [] || !SomeResource(s.p) {
    } else if !Fits(s.q.dispatch[i].task, s.p) {
      PassRunsLastSent(s, i + 1);
    } else if s.q.dispatch[i].task.driver !in s.dead {
      AssignRunsLastSent(s, i);
      PassRunsLastSent(AssignAt(s, i), i);
    }
  }

  /** No handler but the pass gives a worker a task. */
  lemma StepTasksStay(s: State, e: Event)
    requires Inv(s) && Enabled(s, e)
    ensures BeforeDispatch(s, e).sent == s.sent
    ensures forall w :: w in BeforeDispatch(s, e).p.clients && BeforeDispatch(s, e).p.clients[w].task.Some? ==>
      w in s.p.clients && s.p.clients[w].task == BeforeDispatch(s, e).p.clients[w].task
  {
    if e.DriverRemoved? {
      KillOwnedKeeps(s.p, s.p.workers, e.driver);
    }
  }

  lemma {:induction false} RunRunsLastSent(s: State, es: seq<Event>)
    requires Inv(s) && Feasible(s, es) && RunsLastSent(s)
    ensures RunsLastSent(Run(s, es))
    decreases |es|
  {
    if es != [] {
      var m := BeforeDispatch(s, es[0]);
      StepKeeps(s, es[0]);
      StepTasksStay(s, es[0]);
      assert RunsLastSent(m);
      StepIsPass(s, es[0]);
      PassRunsLastSent(m, 0);
      hide Inv, RunsLastSent, Step, Enabled, BeforeDispatch;
      RunRunsLastSent(Step(s, es[0]), es[1..]);
    }
  }

  // ---- Who is connected ----

  lemma {:induction false} PassKeepsClients(s: State, i: nat)
    requires i <= |s.q.dispatch| && forall w :: w in s.p.available ==> w in s.p.clients
    ensures DispatchFrom(s, i).p.clients.Keys == s.p.clients.Keys
    decreases |s.q.dispatch| - i
  {
    if i == |s.q.dispatch| || s.p.available == [] || !SomeResource(s.p) {
    } else if !Fits(s.q.dispatch[i].task, s.p) {
      PassKeepsClients(s, i + 1);
    } else if s.q.dispatch[i].task.driver !in s.dead {
      var n := |s.p.available| - 1;
      assert s.p.available == s.p.available[..n] + [s.p.available[n]];
      assert s.p.available[n] in s.p.available;
      PassKeepsClients(AssignAt(s, i), i);
    }
  }

  /** A worker is known from the moment it connects until it disconnects, or its task's driver is
      removed. */
  lemma StepConnectedIff(s: State, e: Event, w: WorkerId)
    requires Inv(s) && Enabled(s, e)
    ensures w in Step(s, e).p.clients <==>
      || e == Connected(w)
      || (w in s.p.clients && e != Disconnected(w) && !(e.DriverRemoved? && Runs(s.p, w, e.driver)))
  {
    if e.DriverRemoved? {
      KillOwnedKeeps(s.p, s.p.workers, e.driver);
      hide KillOwned;
      assert w in s.p.clients ==> w in s.p.workers;
    } else {
      StepIsPass(s, e);
      hide DispatchFrom, Arrive, Depart, Enqueue, SwapOut, QueueInv;
      PassKeepsClients(BeforeDispatch(s, e), 0);
    }
  }

  // ---- Who is blocked ----

  /** A pass blocks nobody and unblocks nobody. */
  lemma {:induction false} PassKeepsBlocked(s: State, i: nat)
    requires i <= |s.q.dispatch|
    ensures DispatchFrom(s, i).p.blocked == s.p.blocked
    decreases |s.q.dispatch| - i
  {
    if i == |s.q.dispatch| || s.p.available == [] || !SomeResource(s.p) {
    } else if !Fits(s.q.dispatch[i].task, s.p) {
      PassKeepsBlocked(s, i + 1);
    } else if s.q.dispatch[i].task.driver !in s.dead {
      PassKeepsBlocked(AssignAt(s, i), i);
    }
  }

  predicate Running(p: Pool, w: WorkerId) {
    w in p.clients && p.clients[w].task.Some?
  }

  /** What ends the time for which a worker is blocked. */
  predicate Unblocks(p: Pool, e: Event, w: WorkerId) {
    e == NotifyUnblocked(w) || e == Disconnected(w) || (e.DriverRemoved? && Runs(p, w, e.driver))
  }

  lemma KilledIff(p: Pool, d: DriverId, w: WorkerId)
    requires PoolInv(p)
    ensures w in KillOwned(p, p.workers, d).blocked <==> w in p.blocked && !Runs(p, w, d)
  {
    KillOwnedKeeps(p, p.workers, d);
    hide KillOwned, Conserved;
  }

  lemma BlockedBeforePass(s: State, e: Event, w: WorkerId)
    requires PoolInv(s.p) && Enabled(s, e) && !e.DriverRemoved?
    ensures w in BeforeDispatch(s, e).p.blocked <==>
      (w in s.p.blocked || (e == Reconstruct(w) && Running(s.p, w))) && !Unblocks(s.p, e, w)
  {
    hide Conserved, DispatchFrom, Arrive, Depart, Enqueue;
    match e
    case Disconnected(x) => SwapOutRemoves(s.p.blocked, x);
    case NotifyUnblocked(x) => SwapOutRemoves(s.p.blocked, x);
    case _ =>
  }

  lemma StepBlockedIff(s: State, e: Event, w: WorkerId)
    requires Inv(s) && Enabled(s, e)
    ensures w in Step(s, e).p.blocked <==>
      (w in s.p.blocked || (e == Reconstruct(w) && Running(s.p, w))) && !Unblocks(s.p, e, w)
  {
    if e.DriverRemoved? {
      hide PoolInv, KillOwned, QueueInv;
      KilledIff(s.p, e.driver, w);
    } else {
      hide PoolInv, QueueInv, Step, BeforeDispatch, Enabled, Unblocks;
      StepIsPass(s, e);
      PassKeepsBlocked(BeforeDispatch(s, e), 0);
      BlockedBeforePass(s, e, w);
    }
  }

  /** Over every run: a worker is blocked at the end if and only if it was at the start or asked for a
      reconstruction while it ran a task, and nothing has ended that since. */
  lemma {:induction false} RunBlockedIff(s: State, es: seq<Event>, w: WorkerId)
    requires Inv(s) && Feasible(s, es)
    ensures w in Run(s, es).p.blocked <==> BlockedSince(s, es, w)
    decreases |es|
  {
    if es != [] {
      var n := |es| - 1;
      var fs, e := es[..n], es[n];
      assert es == fs + [e];
      RunExtends(s, fs, e);
      RunKeeps(s, fs);
      RunBlockedIff(s, fs, w);
      hide Inv, Step, Enabled;
      StepBlockedIff(Run(s, fs), e, w);
    }
  }

  predicate BlockedSince(s: State, es: seq<Event>, w: WorkerId)
    requires Feasible(s, es)
    decreases |es|
  {
    if es == [] then w in s.p.blocked
    else
      var n := |es| - 1;
      assert es == es[..n] + [es[n]];
      RunExtends(s, es[..n], es[n]);
      var m := Run(s, es[..n]);
      (BlockedSince(s, es[..n], w) || (es[n] == Reconstruct(w) && Running(m.p, w))) && !Unblocks(m.p, es[n], w)
  }

  // ---- Which tasks are forwarded ----

  /** A task is handed to the global scheduler, if there is one, exactly when it is submitted here and
      demands more than the node has, or more than is free, or no worker is available, or an object it
      names is not local. No other event forwards anything. */
  lemma ForwardedIff(s: State, e: Event)
    requires Enabled(s, e)
    ensures !e.Submitted? ==> Step(s, e).forwarded == s.forwarded
    ensures e.Submitted? ==>
      var t := e.task;
      var stays := t.cpus <= s.p.totalCpu && t.gpus <= s.p.totalGpu && t.cpus <= s.p.freeCpu && t.gpus <= s.p.freeGpu
        && |s.p.available| > 0 && forall o :: DependsOn(t, o) ==> o in s.q.local;
      Step(s, e).forwarded == s.forwarded + if s.hasGlobal && !stays then [t] else []
  {
    StepIsPass(s, e);
    PassKeepsOrder(BeforeDispatch(s, e), 0);
    if e.Submitted? {
      RunnableHasNoMissing(e.task, s.q.local);
      forall o ensures DependsOn(e.task, o) <==> Occurrences(e.task.args, o) > 0 {
        OccurrencesPositive(e.task.args, o);
      }
      hide Occurrences, CanRun, DependsOn, DispatchFrom;
      assert s.forwarded + [] == s.forwarded;
    }
  }

  /** From a state in which nothing could be assigned, a task of a live driver that is kept because it
      fits starts at once, on the last available worker. */
  lemma KeptTaskStartsAtOnce(s: State, t: Task)
    requires Alive(s) && !s.aborted && Maximal(s) && t.driver !in s.dead && SomeResource(s.p)
    requires s.hasGlobal && Step(s, Submitted(t)).forwarded == s.forwarded
    ensures s.p.available != []
    ensures Step(s, Submitted(t)).sent == s.sent + [Assignment(s.p.available[|s.p.available| - 1], t)]
  {
    hide DispatchFrom;
    ForwardedIff(s, Submitted(t));
    assert [t] != [];
    RunnableHasNoMissing(t, s.q.local);
    forall o ensures DependsOn(t, o) <==> Occurrences(t.args, o) > 0 {
      OccurrencesPositive(t.args, o);
    }
    assert RunsHereAtOnce(s, t) by {
      assert |s.forwarded + [t]| == |s.forwarded| + 1;
    }
    var n := Node(s.q.next, t);
    MaximalPassIsIdle(s, 0);
    PassReachesLast(s, 0, n, s.q.next + 1);
    assert Submit(s, t) == WithLast(s, n, s.q.next + 1);
  }
}
