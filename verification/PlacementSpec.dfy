/**
 Placement of tasks by the global scheduler: each task goes to the least loaded local scheduler
 that has the resources for it; a task for which there is none is kept and tried again later.
 */
module PlacementSpec {
  import opened Tasks

  type SchedulerId = nat

  /** `recent` counts the tasks sent since the last heartbeat, which reported `queued` tasks. */
  datatype Scheduler = Scheduler(
    id: SchedulerId, cpus: real, gpus: real, freeCpus: real, freeGpus: real,
    sent: nat, recent: nat, queued: nat)

  datatype Placement = Placement(task: Task, at: SchedulerId)

  /** `aborted` is set when the check fails that a task with a fitting scheduler gets one. */
  datatype State = State(schedulers: seq<Scheduler>, pending: seq<Task>, placed: seq<Placement>, aborted: bool)

  /** Scores are negated costs, and a score must exceed the smallest 32-bit integer. */
  const LIMIT: int := 0x8000_0000

  predicate Suits(n: Scheduler, t: Task) {
    n.cpus >= t.cpus && n.gpus >= t.gpus
  }

  function Cost(n: Scheduler): nat {
    n.recent + n.queued
  }

  predicate SomeSuits(ns: seq<Scheduler>, t: Task) {
    exists i :: 0 <= i < |ns| && Suits(ns[i], t)
  }

  /** The choice among the schedulers looked at so far. */
  function Pick(ns: seq<Scheduler>, t: Task): (best: Option<nat>)
    ensures best.Some? ==> best.value < |ns|
  {
    if ns == [] then None
    else
      var k := |ns| - 1;
      var best := Pick(ns[..k], t);
      if !Suits(ns[k], t) then best
      else if Cost(ns[k]) < (match best case None => LIMIT case Some(i) => Cost(ns[i])) then Some(k)
      else best
  }

  function MaxReal(a: real, b: real): real {
    if a > b then a else b
  }

  function Charge(n: Scheduler, t: Task): Scheduler {
    n.(sent := n.sent + 1, recent := n.recent + 1,
       freeCpus := MaxReal(0.0, n.freeCpus - t.cpus), freeGpus := MaxReal(0.0, n.freeGpus - t.gpus))
  }

  datatype Outcome = Outcome(state: State, ok: bool)

  function Handle(s: State, t: Task): Outcome {
    if s.aborted then Outcome(s, false)
    else
      match Pick(s.schedulers, t)
      case Some(i) =>
        var n := s.schedulers[i];
        Outcome(s.(schedulers := s.schedulers[i := Charge(n, t)], placed := s.placed + [Placement(t, n.id)]), true)
      case None => Outcome(s.(aborted := SomeSuits(s.schedulers, t)), false)
  }

  /** A task arrives. */
  function Submit(s: State, t: Task): State {
    var r := Handle(s, t);
    if r.ok || r.state.aborted then r.state else r.state.(pending := s.pending + [t])
  }

  /** Try the first `i` pending tasks again, from the last of them to the first. */
  function Retry(s: State, i: nat): State
    requires i <= |s.pending|
    decreases i
  {
    if i == 0 then s
    else
      var r := Handle(s, s.pending[i - 1]);
      Retry(if r.ok then r.state.(pending := s.pending[..i - 1] + s.pending[i..]) else r.state, i - 1)
  }

  /** What a heartbeat says about one scheduler. */
  datatype Report = Report(cpus: real, gpus: real, freeCpus: real, freeGpus: real, queued: nat)

  function Beaten(n: Scheduler, r: Report): Scheduler {
    Scheduler(n.id, r.cpus, r.gpus, r.freeCpus, r.freeGpus, n.sent, 0, r.queued)
  }

  /** A heartbeat replaces what is known about its scheduler, and resets the recent count. */
  function Beat(ns: seq<Scheduler>, id: SchedulerId, r: Report): (b: seq<Scheduler>)
    ensures |b| == |ns|
  {
    seq(|ns|, i requires 0 <= i < |ns| => if ns[i].id == id then Beaten(ns[i], r) else ns[i])
  }

  /** A scheduler that has just registered: nothing is known about its resources. */
  function Registered(id: SchedulerId): Scheduler {
    Scheduler(id, 0.0, 0.0, 0.0, 0.0, 0, 0, 0)
  }

  predicate DistinctIds(ns: seq<Scheduler>) {
    forall i, j :: 0 <= i < j < |ns| ==> ns[i].id != ns[j].id
  }

  // ---- The choice ----

  /** The chosen scheduler suits the task, no suitable one costs less, and no earlier suitable one
      costs as little. There is one if and only if some suitable scheduler costs less than 2^31. */
  lemma {:induction false} PickIsBest(ns: seq<Scheduler>, t: Task)
    ensures Pick(ns, t).Some? ==>
      var b := Pick(ns, t).value;
      && Suits(ns[b], t) && Cost(ns[b]) < LIMIT
      && (forall i :: 0 <= i < |ns| && Suits(ns[i], t) ==> Cost(ns[b]) <= Cost(ns[i]))
      && (forall i :: 0 <= i < b && Suits(ns[i], t) ==> Cost(ns[b]) < Cost(ns[i]))
    ensures Pick(ns, t).None? ==> forall i :: 0 <= i < |ns| && Suits(ns[i], t) ==> Cost(ns[i]) >= LIMIT
  {
    if ns != [] {
      var k := |ns| - 1;
      PickIsBest(ns[..k], t);
      hide Suits, Cost;
      assert forall i :: 0 <= i < k ==> ns[..k][i] == ns[i];
    }
  }

  /** A task that some scheduler suits is placed exactly when one of those costs less than 2^31;
      otherwise the scheduler process aborts. A task that none suits is not placed. */
  lemma PlacedIff(s: State, t: Task)
    requires !s.aborted
    ensures Handle(s, t).ok <==>
      exists i :: 0 <= i < |s.schedulers| && Suits(s.schedulers[i], t) && Cost(s.schedulers[i]) < LIMIT
    ensures Handle(s, t).state.aborted <==> !Handle(s, t).ok && SomeSuits(s.schedulers, t)
  {
    PickIsBest(s.schedulers, t);
  }

  /** Placing tasks does not change what suits what. */
  lemma HandleSuits(s: State, t: Task, u: Task)
    ensures SomeSuits(Handle(s, t).state.schedulers, u) <==> SomeSuits(s.schedulers, u)
    ensures |Handle(s, t).state.schedulers| == |s.schedulers| && Handle(s, t).state.pending == s.pending
  {
    var a, b := s.schedulers, Handle(s, t).state.schedulers;
    assert forall i :: 0 <= i < |a| ==> Suits(a[i], u) == Suits(b[i], u);
    if SomeSuits(a, u) {
      var i :| 0 <= i < |a| && Suits(a[i], u);
      assert Suits(b[i], u);
    }
    if SomeSuits(b, u) {
      var i :| 0 <= i < |b| && Suits(b[i], u);
      assert Suits(a[i], u);
    }
  }

  // ---- Trying again ----

  /** The tasks that no scheduler suits, in order. */
  function Unsuited(ns: seq<Scheduler>, ts: seq<Task>): seq<Task> {
    if ts == [] then []
    else
      var k := |ts| - 1;
      Unsuited(ns, ts[..k]) + if SomeSuits(ns, ts[k]) then [] else [ts[k]]
  }

  lemma {:induction false} UnsuitedSame(a: seq<Scheduler>, b: seq<Scheduler>, ts: seq<Task>)
    requires forall u :: SomeSuits(a, u) <==> SomeSuits(b, u)
    ensures Unsuited(a, ts) == Unsuited(b, ts)
  {
    if ts != [] {
      hide SomeSuits;
      UnsuitedSame(a, b, ts[..|ts| - 1]);
    }
  }

  /** A pass leaves, of the tasks it has come to, exactly those that no scheduler suits, in their order,
      and those it has not come to. It comes to all of them unless it aborts, at a task that some
      scheduler suits. */
  lemma {:induction false} RetryOutcome(s: State, i: nat) returns (j: nat)
    requires i <= |s.pending| && !s.aborted
    ensures j <= i
    ensures Retry(s, i).pending == s.pending[..j] + Unsuited(s.schedulers, s.pending[j..i]) + s.pending[i..]
    ensures Retry(s, i).aborted <==> j > 0
    ensures j > 0 ==> SomeSuits(s.schedulers, s.pending[j - 1])
    decreases i
  {
    if i == 0 {
      j := 0;
      assert s.pending[..0] + [] + s.pending[0..] == s.pending;
    } else {
      var t, r := s.pending[i - 1], Handle(s, s.pending[i - 1]);
      var s1 := if r.ok then r.state.(pending := s.pending[..i - 1] + s.pending[i..]) else r.state;
      PlacedIff(s, t);
      forall u ensures SomeSuits(s1.schedulers, u) <==> SomeSuits(s.schedulers, u) {
        HandleSuits(s, t, u);
      }
      HandleSuits(s, t, t);
      if s1.aborted {
        j := i;
        RetryStops(s1, i - 1);
        assert s.pending[..i] + [] + s.pending[i..] == s.pending;
      } else {
        hide Handle, SomeSuits, Unsuited;
        j := RetryOutcome(s1, i - 1);
        UnsuitedSame(s1.schedulers, s.schedulers, s1.pending[j..i - 1]);
        UnsuitedLast(s, s1, j, i, r.ok);
      }
    }
  }

  lemma {:induction false} RetryStops(s: State, i: nat)
    requires s.aborted && i <= |s.pending|
    ensures Retry(s, i) == s
    decreases i
  {
    if i > 0 {
      RetryStops(s, i - 1);
    }
  }

  lemma UnsuitedLast(s: State, s1: State, j: nat, i: nat, ok: bool)
    requires j < i <= |s.pending| && ok == SomeSuits(s.schedulers, s.pending[i - 1])
    requires s1.pending == if ok then s.pending[..i - 1] + s.pending[i..] else s.pending
    ensures s1.pending[..j] + Unsuited(s.schedulers, s1.pending[j..i - 1]) + s1.pending[i - 1..]
         == s.pending[..j] + Unsuited(s.schedulers, s.pending[j..i]) + s.pending[i..]
    ensures j > 0 ==> s1.pending[j - 1] == s.pending[j - 1]
  {
    var ts := s.pending[j..i];
    assert ts[..|ts| - 1] == s.pending[j..i - 1] == s1.pending[j..i - 1] && s1.pending[..j] == s.pending[..j];
    assert ts[|ts| - 1] == s.pending[i - 1];
    var front := Unsuited(s.schedulers, ts[..|ts| - 1]);
    if ok {
      assert s1.pending[i - 1..] == s.pending[i..];
      assert front + [] == front;
    } else {
      assert s1.pending[i - 1..] == [s.pending[i - 1]] + s.pending[i..];
      assert s.pending[..j] + front + ([s.pending[i - 1]] + s.pending[i..])
          == s.pending[..j] + (front + [s.pending[i - 1]]) + s.pending[i..];
    }
  }

  /** A pass that does not abort leaves exactly the tasks that no scheduler suits, in their order. */
  lemma RetryLeavesUnsuited(s: State, i: nat)
    requires i <= |s.pending| && !s.aborted && !Retry(s, i).aborted
    ensures Retry(s, i).pending == Unsuited(s.schedulers, s.pending[..i]) + s.pending[i..]
  {
    var j := RetryOutcome(s, i);
    var left := Unsuited(s.schedulers, s.pending[..i]);
    assert s.pending[..j] == [] && s.pending[j..i] == s.pending[..i];
    assert [] + left == left;
  }

  // ---- Balance ----

  function Costs(ns: seq<Scheduler>): (c: seq<nat>)
    ensures |c| == |ns|
  {
    seq(|ns|, i requires 0 <= i < |ns| => Cost(ns[i]))
  }

  function Sum(c: seq<nat>): nat {
    if c == [] then 0 else Sum(c[..|c| - 1]) + c[|c| - 1]
  }

  /** Any two costs differ by at most `d`. */
  predicate Within(c: seq<nat>, d: nat) {
    forall i, j :: 0 <= i < |c| && 0 <= j < |c| ==> c[i] <= c[j] + d
  }

  predicate SuitsAll(ns: seq<Scheduler>, t: Task) {
    forall i :: 0 <= i < |ns| ==> Suits(ns[i], t)
  }

  lemma {:induction false} SumAdd(c: seq<nat>, m: nat)
    requires m < |c|
    ensures Sum(c[m := c[m] + 1]) == Sum(c) + 1
  {
    var k, c' := |c| - 1, c[m := c[m] + 1];
    if m == k {
      assert c'[..k] == c[..k];
    } else {
      assert c'[..k] == c[..k][m := c[..k][m] + 1];
      SumAdd(c[..k], m);
    }
  }

  /** A task that suits every scheduler adds one to the cost of a cheapest scheduler. */
  lemma PlacementRaisesCheapest(s: State, t: Task) returns (m: nat)
    requires !s.aborted && SuitsAll(s.schedulers, t) && Handle(s, t).ok
    ensures m < |s.schedulers|
    ensures forall i :: 0 <= i < |s.schedulers| ==> Costs(s.schedulers)[m] <= Costs(s.schedulers)[i]
    ensures Costs(Handle(s, t).state.schedulers) == Costs(s.schedulers)[m := Costs(s.schedulers)[m] + 1]
  {
    PickIsBest(s.schedulers, t);
    m := Pick(s.schedulers, t).value;
    hide Pick;
    var a, b := Costs(s.schedulers), Costs(Handle(s, t).state.schedulers);
    assert forall i :: 0 <= i < |a| ==> a[i] == Cost(s.schedulers[i]);
    assert b == a[m := a[m] + 1];
  }

  /** Place several tasks one after the other; stop at the first that cannot be placed. */
  function PlaceAll(s: State, ts: seq<Task>): State
    decreases |ts|
  {
    if ts == [] || !Handle(s, ts[0]).ok then s else PlaceAll(Handle(s, ts[0]).state, ts[1..])
  }

  predicate AllPlaced(s: State, ts: seq<Task>)
    decreases |ts|
  {
    ts == [] || (Handle(s, ts[0]).ok && AllPlaced(Handle(s, ts[0]).state, ts[1..]))
  }

  lemma SuitsAllStays(s: State, t: Task, u: Task)
    requires SuitsAll(s.schedulers, u)
    ensures SuitsAll(Handle(s, t).state.schedulers, u)
  {
  }

  lemma {:induction false} PlacementBalances(s: State, ts: seq<Task>, d: nat)
    requires !s.aborted && AllPlaced(s, ts) && d >= 1 && Within(Costs(s.schedulers), d)
    requires forall i :: 0 <= i < |ts| ==> SuitsAll(s.schedulers, ts[i])
    ensures Within(Costs(PlaceAll(s, ts).schedulers), d)
    ensures Sum(Costs(PlaceAll(s, ts).schedulers)) == Sum(Costs(s.schedulers)) + |ts|
    ensures |PlaceAll(s, ts).schedulers| == |s.schedulers|
    decreases |ts|
  {
    if ts != [] {
      var s1 := Handle(s, ts[0]).state;
      var m := PlacementRaisesCheapest(s, ts[0]);
      SumAdd(Costs(s.schedulers), m);
      assert Within(Costs(s1.schedulers), d);
      forall i | 0 <= i < |ts[1..]| ensures SuitsAll(s1.schedulers, ts[1..][i]) {
        assert ts[1..][i] == ts[i + 1];
        SuitsAllStays(s, ts[0], ts[i + 1]);
      }
      hide Within, Handle, Costs, Sum, SuitsAll;
      PlacementBalances(s1, ts[1..], d);
    }
  }

  // ---- No other placement has a lower peak ----

  /** Every cost is one that some scheduler started with, or at most one more than any other. */
  predicate Level(c: seq<nat>, start: seq<nat>) {
    forall i :: 0 <= i < |c| ==>
      (exists k :: 0 <= k < |start| && c[i] <= start[k]) || (forall j :: 0 <= j < |c| ==> c[i] <= c[j] + 1)
  }

  lemma RaisingKeepsLevel(c: seq<nat>, start: seq<nat>, m: nat)
    requires Level(c, start) && m < |c| && forall i :: 0 <= i < |c| ==> c[m] <= c[i]
    ensures Level(c[m := c[m] + 1], start)
  {
    var c' := c[m := c[m] + 1];
    forall i | 0 <= i < |c'|
      ensures (exists k :: 0 <= k < |start| && c'[i] <= start[k]) || (forall j :: 0 <= j < |c'| ==> c'[i] <= c'[j] + 1)
    {
      if i != m {
        assert c'[i] == c[i];
        if exists k :: 0 <= k < |start| && c[i] <= start[k] {
          var k :| 0 <= k < |start| && c[i] <= start[k];
          assert c'[i] <= start[k];
        }
      }
    }
  }

  lemma {:induction false} PlacementStaysLevel(s: State, ts: seq<Task>, start: seq<nat>)
    requires !s.aborted && AllPlaced(s, ts) && Level(Costs(s.schedulers), start)
    requires forall i :: 0 <= i < |ts| ==> SuitsAll(s.schedulers, ts[i])
    ensures Level(Costs(PlaceAll(s, ts).schedulers), start)
    decreases |ts|
  {
    if ts != [] {
      var s1 := Handle(s, ts[0]).state;
      var m := PlacementRaisesCheapest(s, ts[0]);
      RaisingKeepsLevel(Costs(s.schedulers), start, m);
      forall i | 0 <= i < |ts[1..]| ensures SuitsAll(s1.schedulers, ts[1..][i]) {
        assert ts[1..][i] == ts[i + 1];
        SuitsAllStays(s, ts[0], ts[i + 1]);
      }
      hide Level, Handle, Costs, SuitsAll;
      PlacementStaysLevel(s1, ts[1..], start);
    }
  }

  lemma {:induction false} SumBelow(a: seq<nat>, b: seq<nat>)
    requires |a| == |b| && forall i :: 0 <= i < |a| ==> a[i] <= b[i]
    ensures Sum(a) <= Sum(b)
    ensures (exists i :: 0 <= i < |a| && a[i] < b[i]) ==> Sum(a) < Sum(b)
  {
    if a != [] {
      var k := |a| - 1;
      SumBelow(a[..k], b[..k]);
      if exists i :: 0 <= i < |a| && a[i] < b[i] {
        var i :| 0 <= i < |a| && a[i] < b[i];
        if i < k {
          assert a[..k][i] < b[..k][i];
        }
      }
    }
  }

  /** However the same number of tasks is spread over the same schedulers, some scheduler costs at
      least as much as any does after the greedy placement. */
  lemma LevelPeakIsLeast(c: seq<nat>, start: seq<nat>, other: seq<nat>, i: nat)
    requires Level(c, start) && |start| == |c| == |other| && Sum(other) == Sum(c) && i < |c|
    requires forall k :: 0 <= k < |start| ==> start[k] <= other[k]
    ensures exists k :: 0 <= k < |other| && c[i] <= other[k]
  {
    if exists k :: 0 <= k < |start| && c[i] <= start[k] {
      var k :| 0 <= k < |start| && c[i] <= start[k];
      assert c[i] <= other[k];
    } else if forall k :: 0 <= k < |other| ==> other[k] < c[i] {
      assert other[i] < c[i];
      SumBelow(other, c);
    }
  }

  lemma GreedyPeakIsLeast(s: State, ts: seq<Task>, other: seq<nat>, i: nat)
    requires !s.aborted && AllPlaced(s, ts) && forall j :: 0 <= j < |ts| ==> SuitsAll(s.schedulers, ts[j])
    requires |other| == |s.schedulers| && Sum(other) == Sum(Costs(s.schedulers)) + |ts|
    requires forall k :: 0 <= k < |other| ==> Costs(s.schedulers)[k] <= other[k]
    requires i < |s.schedulers|
    ensures |PlaceAll(s, ts).schedulers| == |s.schedulers|
    ensures exists k :: 0 <= k < |other| && Costs(PlaceAll(s, ts).schedulers)[i] <= other[k]
  {
    hide Level, Handle, SuitsAll, Sum, Pick, PlaceAll, AllPlaced, Within;
    var start := Costs(s.schedulers);
    LevelSelf(start);
    PlacementStaysLevel(s, ts, start);
    SpreadIsBounded(start);
    PlacementBalances(s, ts, Sum(start) + 1);
    LevelPeakIsLeast(Costs(PlaceAll(s, ts).schedulers), start, other, i);
  }

  lemma LevelSelf(c: seq<nat>)
    ensures Level(c, c)
  {
  }

  lemma SpreadIsBounded(c: seq<nat>)
    ensures Within(c, Sum(c) + 1)
  {
    hide Sum;
    forall a, b | 0 <= a < |c| && 0 <= b < |c| ensures c[a] <= c[b] + Sum(c) + 1 {
      SumAtLeast(c, a);
    }
  }

  lemma {:induction false} SumAtLeast(c: seq<nat>, i: nat)
    requires i < |c|
    ensures c[i] <= Sum(c)
  {
    if i < |c| - 1 {
      SumAtLeast(c[..|c| - 1], i);
    }
  }

  // ---- When nothing aborts ----

  /** Tasks that all suit one scheduler are all placed if its cost leaves room for them below 2^31. */
  lemma {:induction false} RoomMeansPlaced(s: State, ts: seq<Task>, i: nat)
    requires !s.aborted && i < |s.schedulers| && Cost(s.schedulers[i]) + |ts| <= LIMIT
    requires forall j :: 0 <= j < |ts| ==> Suits(s.schedulers[i], ts[j])
    ensures AllPlaced(s, ts) && !PlaceAll(s, ts).aborted
    decreases |ts|
  {
    if ts != [] {
      PlacedIff(s, ts[0]);
      assert Suits(s.schedulers[i], ts[0]);
      var s1 := Handle(s, ts[0]).state;
      assert Cost(s1.schedulers[i]) <= Cost(s.schedulers[i]) + 1;
      assert forall j :: 0 <= j < |ts[1..]| ==> ts[1..][j] == ts[j + 1];
      RoomMeansPlaced(s1, ts[1..], i);
    }
  }

  /** A retry in which every cost leaves room for all retried tasks below 2^31 does not abort, and
      leaves exactly the tasks that no scheduler suits, in their order. */
  lemma {:induction false} RoomMeansRetried(s: State, i: nat)
    requires !s.aborted && i <= |s.pending|
    requires forall k :: 0 <= k < |s.schedulers| ==> Cost(s.schedulers[k]) + i <= LIMIT
    ensures !Retry(s, i).aborted
    ensures Retry(s, i).pending == Unsuited(s.schedulers, s.pending[..i]) + s.pending[i..]
    decreases i
  {
    RetryHasRoom(s, i);
    RetryLeavesUnsuited(s, i);
  }

  lemma {:induction false} RetryHasRoom(s: State, i: nat)
    requires !s.aborted && i <= |s.pending|
    requires forall k :: 0 <= k < |s.schedulers| ==> Cost(s.schedulers[k]) + i <= LIMIT
    ensures !Retry(s, i).aborted
    decreases i
  {
    if i > 0 {
      var t, r := s.pending[i - 1], Handle(s, s.pending[i - 1]);
      var s1 := if r.ok then r.state.(pending := s.pending[..i - 1] + s.pending[i..]) else r.state;
      PlacedIff(s, t);
      HandleSuits(s, t, t);
      if SomeSuits(s.schedulers, t) {
        var k :| 0 <= k < |s.schedulers| && Suits(s.schedulers[k], t);
        assert Cost(s.schedulers[k]) < LIMIT;
      }
      forall k | 0 <= k < |s1.schedulers| ensures Cost(s1.schedulers[k]) + (i - 1) <= LIMIT {
        assert Cost(s1.schedulers[k]) <= Cost(s.schedulers[k]) + 1;
      }
      RetryHasRoom(s1, i - 1);
    }
  }

  /** A scheduler that suits the task but is loaded to the limit makes the process abort. */
  lemma FullSchedulerAborts()
    ensures exists s: State, t: Task :: !s.aborted && SomeSuits(s.schedulers, t) && Handle(s, t).state.aborted
  {
    var n := Scheduler(0, 1.0, 0.0, 0.0, 0.0, 0, 0, LIMIT);
    var s, t := State([n], [], [], false), Task(0, 0, [], 1.0, 0.0);
    assert Suits(s.schedulers[0], t);
    PlacedIff(s, t);
  }
}
