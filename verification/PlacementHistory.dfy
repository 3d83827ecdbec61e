/**
 The global scheduler told from outside: what becomes of every task submitted to it, and what it knows
 about every local scheduler, counted from the events and from the placements it has sent.
 */
module PlacementHistory {
  import opened Tasks
  import opened PlacementSpec

  datatype Event =
    | Submitted(task: Task)
    | RetryTimer
    | Heartbeat(id: SchedulerId, report: Report)
    | Joined(id: SchedulerId)

  predicate Known(ns: seq<Scheduler>, id: SchedulerId) {
    exists i :: 0 <= i < |ns| && ns[i].id == id
  }

  /** A scheduler registers once. */
  predicate Enabled(s: State, e: Event) {
    !s.aborted && (e.Joined? ==> !Known(s.schedulers, e.id))
  }

  function Step(s: State, e: Event): State
    requires Enabled(s, e)
  {
    match e
    case Submitted(t) => Submit(s, t)
    case RetryTimer => Retry(s, |s.pending|)
    case Heartbeat(id, r) => s.(schedulers := Beat(s.schedulers, id, r))
    case Joined(id) => s.(schedulers := s.schedulers + [Registered(id)])
  }

  predicate Feasible(s: State, es: seq<Event>)
    decreases |es|
  {
    es == [] || (Enabled(s, es[0]) && Feasible(Step(s, es[0]), es[1..]))
  }

  function Run(s: State, es: seq<Event>): State
    requires Feasible(s, es)
    decreases |es|
  {
    if es == [] then s else Run(Step(s, es[0]), es[1..])
  }

  // ---- Every task is placed or pending ----

  function Placed(ps: seq<Placement>): (ts: seq<Task>)
    ensures |ts| == |ps|
  {
    seq(|ps|, i requires 0 <= i < |ps| => ps[i].task)
  }

  /** All tasks that the scheduler has placed or keeps. */
  function Accounted(s: State): multiset<Task> {
    multiset(Placed(s.placed)) + multiset(s.pending)
  }

  function AllSubmitted(es: seq<Event>): multiset<Task> {
    if es == [] then multiset{}
    else (if es[0].Submitted? then multiset{es[0].task} else multiset{}) + AllSubmitted(es[1..])
  }

  lemma HandleAccounts(s: State, t: Task)
    ensures Handle(s, t).state.pending == s.pending
    ensures Handle(s, t).ok ==> multiset(Placed(Handle(s, t).state.placed)) == multiset(Placed(s.placed)) + multiset{t}
    ensures !Handle(s, t).ok ==> Handle(s, t).state.placed == s.placed
  {
    if Handle(s, t).ok {
      var p := Handle(s, t).state.placed[|s.placed|];
      assert Placed(s.placed + [p]) == Placed(s.placed) + [t];
    }
  }

  /** A submitted task is kept if and only if no scheduler suits it; otherwise it is placed, or the
      process ends. */
  lemma JoinsPendingIff(s: State, t: Task)
    requires !s.aborted
    ensures Submit(s, t).pending == s.pending + (if SomeSuits(s.schedulers, t) then [] else [t])
    ensures !Submit(s, t).aborted ==> Accounted(Submit(s, t)) == Accounted(s) + multiset{t}
  {
    PlacedIff(s, t);
    HandleAccounts(s, t);
    assert s.pending + [] == s.pending;
    if Handle(s, t).ok {
      var i :| 0 <= i < |s.schedulers| && Suits(s.schedulers[i], t) && Cost(s.schedulers[i]) < LIMIT;
      assert SomeSuits(s.schedulers, t);
    }
  }

  /** A retry moves tasks from the pending ones to the placed ones, whether it aborts or not. */
  lemma {:induction false} RetryAccounts(s: State, i: nat)
    requires i <= |s.pending|
    ensures Accounted(Retry(s, i)) == Accounted(s)
    decreases i
  {
    if i > 0 {
      var t, r := s.pending[i - 1], Handle(s, s.pending[i - 1]);
      var s1 := if r.ok then r.state.(pending := s.pending[..i - 1] + s.pending[i..]) else r.state;
      HandleAccounts(s, t);
      hide Handle;
      if r.ok {
        TakenOut(s.pending, i - 1);
        assert s.pending[..i - 1] + s.pending[i - 1 + 1..] == s1.pending;
      }
      RetryAccounts(s1, i - 1);
    }
  }

  lemma TakenOut(ts: seq<Task>, i: nat)
    requires i < |ts|
    ensures multiset(ts) == multiset(ts[..i] + ts[i + 1..]) + multiset{ts[i]}
  {
    assert ts == ts[..i] + ([ts[i]] + ts[i + 1..]);
  }

  lemma StepAccounts(s: State, e: Event)
    requires Enabled(s, e) && !Step(s, e).aborted
    ensures Accounted(Step(s, e)) == Accounted(s) + if e.Submitted? then multiset{e.task} else multiset{}
  {
    match e
    case Submitted(t) => JoinsPendingIff(s, t);
    case RetryTimer => RetryAccounts(s, |s.pending|);
    case Heartbeat(id, r) =>
    case Joined(id) =>
  }

  lemma AbortedEnds(s: State, es: seq<Event>)
    requires Feasible(s, es) && s.aborted
    ensures es == []
  {
  }

  /** Over every run that does not abort: the tasks placed and the tasks pending are, with multiplicity,
      exactly the tasks submitted. */
  lemma {:induction false} RunAccounts(s: State, es: seq<Event>)
    requires Feasible(s, es) && !Run(s, es).aborted
    ensures Accounted(Run(s, es)) == Accounted(s) + AllSubmitted(es)
    decreases |es|
  {
    if es != [] {
      var s1 := Step(s, es[0]);
      if s1.aborted {
        AbortedEnds(s1, es[1..]);
      }
      StepAccounts(s, es[0]);
      hide Step, Enabled, Accounted;
      RunAccounts(s1, es[1..]);
    }
  }

  // ---- What is known about a local scheduler ----

  function PlacedAt(ps: seq<Placement>, id: SchedulerId): nat {
    if ps == [] then 0 else PlacedAt(ps[..|ps| - 1], id) + if ps[|ps| - 1].at == id then 1 else 0
  }

  /** The CPUs and GPUs that the tasks placed there demand. */
  function CpusAt(ps: seq<Placement>, id: SchedulerId): real {
    if ps == [] then 0.0
    else CpusAt(ps[..|ps| - 1], id) + if ps[|ps| - 1].at == id then ps[|ps| - 1].task.cpus else 0.0
  }

  function GpusAt(ps: seq<Placement>, id: SchedulerId): real {
    if ps == [] then 0.0
    else GpusAt(ps[..|ps| - 1], id) + if ps[|ps| - 1].at == id then ps[|ps| - 1].task.gpus else 0.0
  }

  lemma PlacedMore(ps: seq<Placement>, p: Placement, id: SchedulerId)
    ensures PlacedAt(ps + [p], id) == PlacedAt(ps, id) + if p.at == id then 1 else 0
    ensures CpusAt(ps + [p], id) == CpusAt(ps, id) + if p.at == id then p.task.cpus else 0.0
    ensures GpusAt(ps + [p], id) == GpusAt(ps, id) + if p.at == id then p.task.gpus else 0.0
  {
    assert (ps + [p])[..|ps|] == ps;
  }

  /** The record of scheduler `k` has followed the placements between two states: its counts have grown
      by them, its resources have shrunk by their demands but not below zero, and nothing else about it
      has changed. */
  ghost predicate Follows(a: State, b: State, k: nat) {
    && k < |a.schedulers| && k < |b.schedulers| && DistinctIds(b.schedulers)
    && var m, n := a.schedulers[k], b.schedulers[k];
       var count := PlacedAt(b.placed, m.id) - PlacedAt(a.placed, m.id);
       var cpus := CpusAt(b.placed, m.id) - CpusAt(a.placed, m.id);
       var gpus := GpusAt(b.placed, m.id) - GpusAt(a.placed, m.id);
       && n.id == m.id && n.cpus == m.cpus && n.gpus == m.gpus && n.queued == m.queued
       && n.sent == m.sent + count && n.recent == m.recent + count
       && cpus >= 0.0 && gpus >= 0.0
       && n.freeCpus == MaxReal(0.0, m.freeCpus - cpus) && n.freeGpus == MaxReal(0.0, m.freeGpus - gpus)
  }

  lemma FollowsSelf(s: State, k: nat)
    requires k < |s.schedulers| && DistinctIds(s.schedulers)
    requires s.schedulers[k].freeCpus >= 0.0 && s.schedulers[k].freeGpus >= 0.0
    ensures Follows(s, s, k)
  {
  }

  lemma HandleFollows(a: State, s: State, t: Task, k: nat)
    requires Follows(a, s, k)
    ensures Follows(a, Handle(s, t).state, k)
  {
    hide Pick, SomeSuits, PlacedAt, CpusAt, GpusAt;
    if Handle(s, t).ok {
      ChargeFollows(a, s, t, k, Pick(s.schedulers, t).value);
    }
  }

  /** One more task is placed at scheduler `i`. */
  lemma ChargeFollows(a: State, s: State, t: Task, k: nat, i: nat)
    requires Follows(a, s, k) && i < |s.schedulers|
    ensures
      var n := s.schedulers[i];
      Follows(a, s.(schedulers := s.schedulers[i := Charge(n, t)], placed := s.placed + [Placement(t, n.id)]), k)
  {
    hide PlacedAt, CpusAt, GpusAt;
    PlacedMore(s.placed, Placement(t, s.schedulers[i].id), a.schedulers[k].id);
    var ns := s.schedulers[i := Charge(s.schedulers[i], t)];
    assert DistinctIds(ns) by {
      assert forall j :: 0 <= j < |ns| ==> ns[j].id == s.schedulers[j].id;
    }
  }

  lemma PendingIsIrrelevant(a: State, s: State, k: nat, pending: seq<Task>, aborted: bool)
    requires Follows(a, s, k)
    ensures Follows(a, s.(pending := pending, aborted := aborted), k)
  {
  }

  lemma {:induction false} RetryFollows(a: State, s: State, i: nat, k: nat)
    requires Follows(a, s, k) && i <= |s.pending|
    ensures Follows(a, Retry(s, i), k)
    decreases i
  {
    if i > 0 {
      var t, r := s.pending[i - 1], Handle(s, s.pending[i - 1]);
      HandleFollows(a, s, t, k);
      HandleAccounts(s, t);
      hide Follows, Handle;
      var s1 := if r.ok then r.state.(pending := s.pending[..i - 1] + s.pending[i..]) else r.state;
      PendingIsIrrelevant(a, r.state, k, s1.pending, s1.aborted);
      RetryFollows(a, s1, i - 1, k);
    }
  }

  lemma StepFollows(a: State, s: State, e: Event, k: nat)
    requires Follows(a, s, k) && Enabled(s, e) && !(e.Heartbeat? && e.id == a.schedulers[k].id)
    ensures Follows(a, Step(s, e), k)
  {
    match e
    case Submitted(t) =>
      HandleFollows(a, s, t, k);
      hide Follows, Handle;
      var r := Handle(s, t).state;
      PendingIsIrrelevant(a, r, k, Submit(s, t).pending, r.aborted);
    case RetryTimer => RetryFollows(a, s, |s.pending|, k);
    case Heartbeat(id, r) => assert DistinctIds(Beat(s.schedulers, id, r));
    case Joined(id) =>
      var more := s.schedulers + [Registered(id)];
      assert forall j :: 0 <= j < |s.schedulers| ==> more[j] == s.schedulers[j];
  }

  /** Over every run without a heartbeat of a local scheduler: what is known about it is what was known at
      the start, changed by the tasks placed there since, and by nothing else. */
  lemma {:induction false} RunFollows(a: State, s: State, es: seq<Event>, k: nat)
    requires Follows(a, s, k) && Feasible(s, es)
    requires forall i :: 0 <= i < |es| ==> !(es[i].Heartbeat? && es[i].id == a.schedulers[k].id)
    ensures Follows(a, Run(s, es), k)
    decreases |es|
  {
    if es != [] {
      assert forall i :: 0 <= i < |es[1..]| ==> es[1..][i] == es[i + 1];
      StepFollows(a, s, es[0], k);
      hide Follows, Step, Enabled;
      RunFollows(a, Step(s, es[0]), es[1..], k);
    }
  }

  /** A heartbeat puts what it reports in place of that: the load is then what it reports. */
  lemma HeartbeatReplaces(s: State, id: SchedulerId, r: Report, k: nat)
    requires Enabled(s, Heartbeat(id, r)) && k < |s.schedulers| && s.schedulers[k].id == id
    ensures
      var n := Step(s, Heartbeat(id, r)).schedulers[k];
      && n.cpus == r.cpus && n.gpus == r.gpus && n.freeCpus == r.freeCpus && n.freeGpus == r.freeGpus
      && Cost(n) == r.queued && n.sent == s.schedulers[k].sent && n.id == id
  {
  }

  /** Over every run: ids stay different. */
  lemma {:induction false} RunStaysDistinct(s: State, es: seq<Event>)
    requires DistinctIds(s.schedulers) && Feasible(s, es)
    ensures DistinctIds(Run(s, es).schedulers)
    decreases |es|
  {
    if es != [] {
      StepStaysDistinct(s, es[0]);
      RunStaysDistinct(Step(s, es[0]), es[1..]);
    }
  }

  lemma StepStaysDistinct(s: State, e: Event)
    requires DistinctIds(s.schedulers) && Enabled(s, e)
    ensures DistinctIds(Step(s, e).schedulers)
  {
    match e
    case Submitted(t) => HandleIds(s, t);
    case RetryTimer => RetryIds(s, |s.pending|);
    case Heartbeat(id, r) =>
    case Joined(id) =>
  }

  lemma HandleIds(s: State, t: Task)
    requires DistinctIds(s.schedulers)
    ensures DistinctIds(Handle(s, t).state.schedulers)
  {
    var ns := Handle(s, t).state.schedulers;
    assert forall j :: 0 <= j < |ns| ==> ns[j].id == s.schedulers[j].id;
  }

  lemma {:induction false} RetryIds(s: State, i: nat)
    requires DistinctIds(s.schedulers) && i <= |s.pending|
    ensures DistinctIds(Retry(s, i).schedulers)
    decreases i
  {
    if i > 0 {
      var t, r := s.pending[i - 1], Handle(s, s.pending[i - 1]);
      HandleIds(s, t);
      HandleAccounts(s, t);
      hide Handle;
      RetryIds(if r.ok then r.state.(pending := s.pending[..i - 1] + s.pending[i..]) else r.state, i - 1);
    }
  }
}
