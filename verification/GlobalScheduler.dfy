/** The global scheduler as the running program keeps it, proved against `PlacementSpec`. */
module GlobalScheduler {
  import opened Tasks
  import opened PlacementSpec

  /** The loop over the local schedulers: whether the task suits one, and the best for it. */
  method ChooseScheduler(ns: seq<Scheduler>, t: Task) returns (feasible: bool, best: Option<SchedulerId>)
    ensures feasible == SomeSuits(ns, t)
    ensures best == match Pick(ns, t) case None => None case Some(i) => Some(ns[i].id)
  {
    var bestScore: int := -LIMIT;
    feasible, best := false, None;
    for k := 0 to |ns|
      invariant feasible == SomeSuits(ns[..k], t)
      invariant best == match Pick(ns[..k], t) case None => None case Some(i) => Some(ns[i].id)
      invariant bestScore == match Pick(ns[..k], t) case None => -LIMIT case Some(i) => 0 - Cost(ns[i])
    {
      SuitsNext(ns, t, k);
      PickNext(ns, t, k);
      if !Suits(ns[k], t) {
        continue;
      }
      feasible := true;
      var score := -1 * Cost(ns[k]);
      if score > bestScore {
        bestScore := score;
        best := Some(ns[k].id);
      }
    }
    assert ns[..|ns|] == ns;
  }

  lemma SuitsNext(ns: seq<Scheduler>, t: Task, k: nat)
    requires k < |ns|
    ensures SomeSuits(ns[..k + 1], t) <==> SomeSuits(ns[..k], t) || Suits(ns[k], t)
  {
    hide Suits;
    var a, b := ns[..k], ns[..k + 1];
    assert forall i :: 0 <= i < k ==> a[i] == b[i];
    if SomeSuits(a, t) {
      var i :| 0 <= i < k && Suits(a[i], t);
      assert Suits(b[i], t);
    }
    assert b[k] == ns[k];
  }

  lemma PickNext(ns: seq<Scheduler>, t: Task, k: nat)
    requires k < |ns|
    ensures Pick(ns[..k + 1], t)
         == var best := Pick(ns[..k], t);
            if !Suits(ns[k], t) then best
            else if Cost(ns[k]) < (match best case None => LIMIT case Some(i) => Cost(ns[i])) then Some(k)
            else best
  {
    assert ns[..k + 1][..k] == ns[..k];
    assert forall i :: 0 <= i < k ==> ns[..k + 1][i] == ns[i];
  }

  lemma AddKeepsDistinctIff(ns: seq<Scheduler>, n: Scheduler)
    requires DistinctIds(ns)
    ensures DistinctIds(ns + [n]) <==> forall i :: 0 <= i < |ns| ==> ns[i].id != n.id
  {
    var more := ns + [n];
    assert more[|ns|] == n && forall i :: 0 <= i < |ns| ==> more[i] == ns[i];
    if DistinctIds(more) {
      forall i | 0 <= i < |ns| ensures ns[i].id != n.id {
        assert more[i].id != more[|ns|].id;
      }
    }
  }

  class Global {
    var schedulers: seq<Scheduler>
    var pending: seq<Task>
    var placed: seq<Placement>
    var aborted: bool

    ghost function TheState(): State
      reads this
    {
      State(schedulers, pending, placed, aborted)
    }

    ghost predicate Valid()
      reads this
    {
      DistinctIds(schedulers)
    }

    constructor ()
      ensures Valid() && TheState() == State([], [], [], false)
    {
      schedulers, pending, placed, aborted := [], [], [], false;
    }

    method GetLocalScheduler(id: SchedulerId) returns (found: Option<nat>)
      ensures found.Some? ==> found.value < |schedulers| && schedulers[found.value].id == id
      ensures found.None? ==> forall i :: 0 <= i < |schedulers| ==> schedulers[i].id != id
    {
      for i := 0 to |schedulers|
        invariant forall j :: 0 <= j < i ==> schedulers[j].id != id
      {
        if schedulers[i].id == id {
          return Some(i);
        }
      }
      return None;
    }

    /** A new scheduler starts without resources and without load. Ids stay different if and only if
        its id is new. */
    method AddLocalScheduler(id: SchedulerId)
      requires Valid()
      modifies `schedulers
      ensures schedulers == old(schedulers) + [Registered(id)]
      ensures Valid() <==> forall i :: 0 <= i < |old(schedulers)| ==> old(schedulers)[i].id != id
    {
      schedulers := schedulers + [Registered(id)];
      AddKeepsDistinctIff(old(schedulers), schedulers[|schedulers| - 1]);
    }

    method AssignTask(t: Task, id: SchedulerId, ghost i: nat)
      requires Valid() && i < |schedulers| && schedulers[i].id == id
      modifies `schedulers, `placed
      ensures Valid()
      ensures schedulers == old(schedulers)[i := Charge(old(schedulers)[i], t)]
      ensures placed == old(placed) + [Placement(t, id)]
    {
      placed := placed + [Placement(t, id)];
      var found := GetLocalScheduler(id);
      var n := schedulers[found.value];
      n := n.(sent := n.sent + 1, recent := n.recent + 1);
      n := n.(freeCpus := MaxReal(0.0, n.freeCpus - t.cpus), freeGpus := MaxReal(0.0, n.freeGpus - t.gpus));
      schedulers := schedulers[found.value := n];
    }

    method HandleTaskWaiting(t: Task) returns (ok: bool)
      requires Valid()
      modifies `schedulers, `placed, `aborted
      ensures Valid() && Outcome(TheState(), ok) == Handle(old(TheState()), t)
    {
      if aborted {
        return false;
      }
      var feasible, best := ChooseScheduler(schedulers, t);
      if !feasible {
        PlacedIff(TheState(), t);
        return false;
      }
      if best.None? {
        aborted := true;
        return false;
      }
      AssignTask(t, best.value, Pick(schedulers, t).value);
      return true;
    }

    method ProcessTaskWaiting(t: Task)
      requires Valid()
      modifies this
      ensures Valid() && TheState() == Submit(old(TheState()), t)
    {
      var ok := HandleTaskWaiting(t);
      if !ok && !aborted {
        pending := pending + [t];
      }
    }

    /** The retry timer: walk the pending tasks backwards, erasing those that are placed. */
    method TaskCleanup()
      requires Valid()
      modifies this
      ensures Valid() && TheState() == Retry(old(TheState()), |old(pending)|)
    {
      var i := |pending|;
      while i > 0
        invariant Valid() && 0 <= i <= |pending|
        invariant Retry(TheState(), i) == Retry(old(TheState()), |old(pending)|)
      {
        ghost var before := TheState();
        var ok := HandleTaskWaiting(pending[i - 1]);
        HandleSuits(before, pending[i - 1], pending[i - 1]);
        if ok {
          pending := pending[..i - 1] + pending[i..];
        }
        i := i - 1;
      }
    }

    /** A heartbeat replaces what is known about a scheduler and resets its recent count. */
    method HandleHeartbeat(id: SchedulerId, r: Report)
      requires Valid()
      modifies `schedulers
      ensures Valid() && schedulers == Beat(old(schedulers), id, r)
    {
      var found := GetLocalScheduler(id);
      if found.Some? {
        schedulers := schedulers[found.value := Beaten(schedulers[found.value], r)];
      }
    }
  }
}
