/**
 The task queue of one local actor. Calls carry the counter that their submitter gave them;
 they may arrive in any order and are executed in counter order.
 */
module ActorQueue {

  datatype Call = Call(counter: nat, payload: nat)

  /** `executed` holds the calls given to the actor's worker, and `arrived` every call ever
      queued, both in order. */
  datatype Actor = Actor(
    counter: nat, queue: seq<Call>, connected: bool, available: bool,
    executed: seq<Call>, arrived: seq<Call>)

  const NEW_ACTOR := Actor(0, [], false, false, [], [])

  datatype Event = Submitted(call: Call) | WorkerConnected | WorkerAvailable

  /** Insert before the first call that does not have a smaller counter. */
  function Insert(q: seq<Call>, c: Call): seq<Call> {
    if q == [] || c.counter <= q[0].counter then [c] + q else [q[0]] + Insert(q[1..], c)
  }

  predicate Startable(a: Actor) {
    a.queue != [] && a.queue[0].counter == a.counter && a.available
  }

  /** Give the first call to the worker if it is the next one in order and the worker is free. */
  function DispatchCall(a: Actor): Actor {
    if Startable(a) then
      a.(counter := a.counter + 1, queue := a.queue[1..], available := false, executed := a.executed + [a.queue[0]])
    else a
  }

  function Add(a: Actor, c: Call): Actor {
    a.(queue := Insert(a.queue, c), arrived := a.arrived + [c])
  }

  /** Counters are not reused, and a worker reports itself free once per task. */
  predicate Enabled(a: Actor, e: Event) {
    match e
    case Submitted(c) => forall i :: 0 <= i < |a.arrived| ==> a.arrived[i].counter != c.counter
    case WorkerConnected => true
    case WorkerAvailable => a.connected && !a.available
  }

  function Step(a: Actor, e: Event): Actor {
    match e
    case Submitted(c) => DispatchCall(Add(a, c))
    case WorkerConnected => DispatchCall(a.(connected := true))
    case WorkerAvailable => DispatchCall(a.(available := true))
  }

  predicate Feasible(a: Actor, es: seq<Event>)
    decreases |es|
  {
    es == [] || (Enabled(a, es[0]) && Feasible(Step(a, es[0]), es[1..]))
  }

  function Run(a: Actor, es: seq<Event>): Actor
    decreases |es|
  {
    if es == [] then a else Run(Step(a, es[0]), es[1..])
  }

  // ---- The invariant ----

  predicate Sorted(q: seq<Call>) {
    forall i, j :: 0 <= i < j < |q| ==> q[i].counter < q[j].counter
  }

  predicate AtLeast(q: seq<Call>, n: nat) {
    forall i :: 0 <= i < |q| ==> n <= q[i].counter
  }

  /** The calls with counters 0, 1, 2, ... in this order, without gap or repeat. */
  predicate InOrder(executed: seq<Call>) {
    forall i :: 0 <= i < |executed| ==> executed[i].counter == i
  }

  /** The calls executed so far are exactly 0, 1, ..., and the queue holds, sorted, all others
      that arrived. */
  predicate Ordered(a: Actor) {
    && Sorted(a.queue) && AtLeast(a.queue, a.counter)
    && InOrder(a.executed) && |a.executed| == a.counter
    && multiset(a.arrived) == multiset(a.executed) + multiset(a.queue)
  }

  /** No free worker has its next call waiting in the queue. */
  predicate Inv(a: Actor) {
    Ordered(a) && !Startable(a) && (a.available ==> a.connected)
  }

  lemma {:induction false} InsertSorts(q: seq<Call>, c: Call, n: nat)
    requires Sorted(q) && AtLeast(q, n) && n <= c.counter
    requires forall i :: 0 <= i < |q| ==> q[i].counter != c.counter
    ensures Sorted(Insert(q, c)) && AtLeast(Insert(q, c), n)
  {
    if q == [] || c.counter <= q[0].counter {
    } else {
      var rest := Insert(q[1..], c);
      InsertSorts(q[1..], c, q[0].counter + 1);
      assert Insert(q, c) == [q[0]] + rest;
      forall i | 0 <= i < |rest| ensures q[0].counter < rest[i].counter {}
    }
  }

  lemma {:induction false} InsertAdds(q: seq<Call>, c: Call)
    ensures multiset(Insert(q, c)) == multiset(q) + multiset{c}
  {
    if q == [] || c.counter <= q[0].counter {
    } else {
      InsertAdds(q[1..], c);
      assert q == [q[0]] + q[1..];
    }
  }

  /** A call whose counter is new is not below the number of executed calls: the check on
      arrival holds exactly for counters that have not been executed. */
  lemma NewCounterIsAhead(a: Actor, c: Call)
    requires Ordered(a)
    ensures c.counter >= a.counter <==> forall i :: 0 <= i < |a.executed| ==> a.executed[i].counter != c.counter
  {
    if c.counter < a.counter {
      assert a.executed[c.counter].counter == c.counter;
    }
  }

  lemma ArrivedIsSplit(a: Actor, c: Call)
    requires Ordered(a)
    ensures c in a.arrived <==> c in a.executed || c in a.queue
  {
    assert c in a.arrived <==> c in multiset(a.arrived);
    assert c in multiset(a.executed) <==> c in a.executed;
    assert c in multiset(a.queue) <==> c in a.queue;
  }

  lemma AddKeeps(a: Actor, c: Call)
    requires Ordered(a) && Enabled(a, Submitted(c))
    ensures Ordered(Add(a, c))
  {
    forall i | 0 <= i < |a.executed| ensures a.executed[i].counter != c.counter {
      ArrivedIsSplit(a, a.executed[i]);
    }
    forall i | 0 <= i < |a.queue| ensures a.queue[i].counter != c.counter {
      ArrivedIsSplit(a, a.queue[i]);
    }
    NewCounterIsAhead(a, c);
    InsertSorts(a.queue, c, a.counter);
    InsertAdds(a.queue, c);
  }

  lemma DispatchKeeps(a: Actor)
    requires Ordered(a) && (a.available ==> a.connected)
    ensures Inv(DispatchCall(a)) && DispatchCall(a).arrived == a.arrived
  {
    if Startable(a) {
      assert a.queue == [a.queue[0]] + a.queue[1..];
    }
  }

  lemma StepKeeps(a: Actor, e: Event)
    requires Inv(a) && Enabled(a, e)
    ensures Inv(Step(a, e))
  {
    match e
    case Submitted(c) =>
      AddKeeps(a, c);
      DispatchKeeps(Add(a, c));
    case WorkerConnected => DispatchKeeps(a.(connected := true));
    case WorkerAvailable => DispatchKeeps(a.(available := true));
  }

  /** Over every arrival order the actor executes its calls as exactly 0, 1, 2, ..., and a
      handler never leaves a free worker beside its queued next call. */
  lemma {:induction false} RunKeeps(a: Actor, es: seq<Event>)
    requires Inv(a) && Feasible(a, es)
    ensures Inv(Run(a, es))
    decreases |es|
  {
    if es != [] {
      StepKeeps(a, es[0]);
      RunKeeps(Step(a, es[0]), es[1..]);
    }
  }

  // ---- Arrival order does not matter ----

  predicate DistinctCounters(s: seq<Call>) {
    forall i, j :: 0 <= i < j < |s| ==> s[i].counter != s[j].counter
  }

  function Arrival(e: Event): seq<Call> {
    if e.Submitted? then [e.call] else []
  }

  function Calls(es: seq<Event>): seq<Call> {
    if es == [] then [] else Arrival(es[0]) + Calls(es[1..])
  }

  lemma StepArrivals(a: Actor, e: Event)
    requires Enabled(a, e) && DistinctCounters(a.arrived)
    ensures Step(a, e).arrived == a.arrived + Arrival(e) && DistinctCounters(Step(a, e).arrived)
  {
    assert a.arrived + [] == a.arrived;
  }

  /** A run records exactly the calls submitted in it. */
  lemma {:induction false} RunArrivals(a: Actor, es: seq<Event>)
    requires Feasible(a, es) && DistinctCounters(a.arrived)
    ensures Run(a, es).arrived == a.arrived + Calls(es)
    ensures DistinctCounters(Run(a, es).arrived)
    decreases |es|
  {
    if es == [] {
      assert a.arrived + [] == a.arrived;
    } else {
      hide Step, Arrival, DistinctCounters;
      StepArrivals(a, es[0]);
      RunArrivals(Step(a, es[0]), es[1..]);
      assert (a.arrived + Arrival(es[0])) + Calls(es[1..]) == a.arrived + (Arrival(es[0]) + Calls(es[1..]));
    }
  }

  /** A free worker is stuck only on a call that has not arrived. */
  lemma FreeWorkerWaitsForMissingCall(a: Actor, c: Call)
    requires Inv(a) && a.available && c in a.arrived && DistinctCounters(a.arrived)
    ensures c.counter != a.counter
  {
    ArrivedIsSplit(a, c);
    if c in a.queue {
      var i :| 0 <= i < |a.queue| && a.queue[i] == c;
      assert a.queue[0].counter <= a.queue[i].counter;
    }
  }

  lemma SameCallAtSameCounter(a: Actor, b: Actor, i: nat)
    requires Inv(a) && Inv(b) && multiset(a.arrived) == multiset(b.arrived) && DistinctCounters(a.arrived)
    requires i < |a.executed| && i < |b.executed|
    ensures a.executed[i] == b.executed[i]
  {
    var x, y := a.executed[i], b.executed[i];
    ArrivedIsSplit(a, x);
    ArrivedIsSplit(b, y);
    assert y in multiset(b.arrived) && y in a.arrived;
    var j :| 0 <= j < |a.arrived| && a.arrived[j] == x;
    var k :| 0 <= k < |a.arrived| && a.arrived[k] == y;
  }

  /** Two runs that submit the same calls, in whatever orders and with whatever timing of the
      worker, execute the same sequence as far as both got; and the same sequence altogether
      when both end with the worker free. */
  lemma ArrivalOrderIsIrrelevant(es: seq<Event>, fs: seq<Event>)
    requires Feasible(NEW_ACTOR, es) && Feasible(NEW_ACTOR, fs)
    requires multiset(Calls(es)) == multiset(Calls(fs))
    ensures
      var a, b := Run(NEW_ACTOR, es), Run(NEW_ACTOR, fs);
      && (|a.executed| <= |b.executed| ==> a.executed <= b.executed)
      && (a.available && b.available ==> a.executed == b.executed)
  {
    hide Run, Feasible, Calls, Ordered;
    var a, b := Run(NEW_ACTOR, es), Run(NEW_ACTOR, fs);
    NewActorInv();
    RunKeeps(NEW_ACTOR, es);
    RunKeeps(NEW_ACTOR, fs);
    RunArrivals(NEW_ACTOR, es);
    RunArrivals(NEW_ACTOR, fs);
    assert [] + Calls(es) == Calls(es) && [] + Calls(fs) == Calls(fs);
    forall i | 0 <= i < |a.executed| && i < |b.executed| ensures a.executed[i] == b.executed[i] {
      SameCallAtSameCounter(a, b, i);
    }
    ProgressIsCounted(a);
    ProgressIsCounted(b);
    if a.available && b.available {
      EqualProgress(a, b);
      EqualProgress(b, a);
    }
  }

  lemma NewActorInv()
    ensures Inv(NEW_ACTOR) && DistinctCounters(NEW_ACTOR.arrived)
  {
  }

  lemma ProgressIsCounted(a: Actor)
    requires Inv(a)
    ensures |a.executed| == a.counter
  {
  }

  lemma EqualProgress(a: Actor, b: Actor)
    requires Inv(a) && Inv(b) && a.available && DistinctCounters(a.arrived)
    requires multiset(a.arrived) == multiset(b.arrived)
    ensures b.counter <= a.counter
  {
    if a.counter < b.counter {
      var c := b.executed[a.counter];
      ArrivedIsSplit(b, c);
      assert c in multiset(a.arrived);
      FreeWorkerWaitsForMissingCall(a, c);
    }
  }

  // ---- How far an actor gets, told from the events alone ----

  lemma {:induction false} RunExtends(a: Actor, es: seq<Event>, e: Event)
    ensures Feasible(a, es + [e]) <==> Feasible(a, es) && Enabled(Run(a, es), e)
    ensures Run(a, es + [e]) == Step(Run(a, es), e)
    decreases |es|
  {
    if es == [] {
      assert es + [e] == [e] && [e][1..] == [];
    } else {
      assert (es + [e])[0] == es[0] && (es + [e])[1..] == es[1..] + [e];
      RunExtends(Step(a, es[0]), es[1..], e);
    }
  }

  /** How often the worker reported itself free. */
  function Frees(es: seq<Event>): nat {
    if es == [] then 0 else Frees(es[..|es| - 1]) + if es[|es| - 1].WorkerAvailable? then 1 else 0
  }

  /** A call with this counter was submitted. */
  predicate Has(es: seq<Event>, k: nat) {
    exists i :: 0 <= i < |es| && es[i].Submitted? && es[i].call.counter == k
  }

  /** The calls 0, ..., n - 1 were submitted, and call n was not. */
  predicate Reaches(es: seq<Event>, n: nat) {
    (forall k: nat :: k < n ==> Has(es, k)) && !Has(es, n)
  }

  lemma HasMore(es: seq<Event>, e: Event, k: nat)
    ensures Has(es + [e], k) <==> Has(es, k) || (e.Submitted? && e.call.counter == k)
  {
    var fs := es + [e];
    assert fs[|es|] == e && forall i :: 0 <= i < |es| ==> fs[i] == es[i];
    if Has(es, k) {
      var i :| 0 <= i < |es| && es[i].Submitted? && es[i].call.counter == k;
      assert fs[i].call.counter == k;
    }
  }

  /** The events are possible if and only if no counter is submitted twice, and the worker reports
      itself free only when it is connected and each earlier report has been answered by a call: the
      calls up to that number have been submitted. */
  predicate Possible(es: seq<Event>) {
    forall i :: 0 <= i < |es| ==> PossibleNext(es[..i], es[i])
  }

  predicate PossibleNext(past: seq<Event>, e: Event) {
    match e
    case Submitted(c) => !Has(past, c.counter)
    case WorkerConnected => true
    case WorkerAvailable => WorkerConnected in past && forall k: nat :: k < Frees(past) ==> Has(past, k)
  }

  /** What the events say about the actor: the calls that arrived, whether the worker is connected, and
      how often it was free. */
  ghost predicate Tells(a: Actor, es: seq<Event>) {
    && (forall k: nat :: Has(es, k) <==> exists i :: 0 <= i < |a.arrived| && a.arrived[i].counter == k)
    && (a.connected <==> WorkerConnected in es)
    && Frees(es) == |a.executed| + if a.available then 1 else 0
  }

  lemma {:induction false} RunTells(es: seq<Event>)
    requires Feasible(NEW_ACTOR, es)
    ensures Inv(Run(NEW_ACTOR, es)) && Tells(Run(NEW_ACTOR, es), es)
    decreases |es|
  {
    if es == [] {
      NewActorInv();
    } else {
      var n := |es| - 1;
      var fs, e := es[..n], es[n];
      assert es == fs + [e];
      RunExtends(NEW_ACTOR, fs, e);
      RunTells(fs);
      StepKeeps(Run(NEW_ACTOR, fs), e);
      StepTells(Run(NEW_ACTOR, fs), fs, e);
    }
  }

  lemma StepTells(a: Actor, es: seq<Event>, e: Event)
    requires Tells(a, es) && Enabled(a, e)
    ensures Tells(Step(a, e), es + [e])
  {
    var b, fs := Step(a, e), es + [e];
    assert fs[..|es|] == es;
    assert b.arrived == a.arrived + Arrival(e);
    forall k: nat ensures Has(fs, k) <==> exists i :: 0 <= i < |b.arrived| && b.arrived[i].counter == k {
      HasMore(es, e, k);
      ArrivedMore(a.arrived, e, k);
    }
  }

  lemma ArrivedMore(arrived: seq<Call>, e: Event, k: nat)
    ensures (exists i :: 0 <= i < |arrived + Arrival(e)| && (arrived + Arrival(e))[i].counter == k) <==>
      (exists i :: 0 <= i < |arrived| && arrived[i].counter == k) || (e.Submitted? && e.call.counter == k)
  {
    var more := arrived + Arrival(e);
    assert forall i :: 0 <= i < |arrived| ==> more[i] == arrived[i];
    if exists i :: 0 <= i < |arrived| && arrived[i].counter == k {
      var i :| 0 <= i < |arrived| && arrived[i].counter == k;
      assert more[i].counter == k;
    } else if e.Submitted? && e.call.counter == k {
      assert more[|arrived|].counter == k;
    }
  }

  /** A free actor worker lacks its next call; the calls it has executed have all been submitted. */
  lemma ProgressMeans(a: Actor, es: seq<Event>)
    requires Inv(a) && Tells(a, es) && DistinctCounters(a.arrived)
    ensures forall k: nat :: k < |a.executed| ==> Has(es, k)
    ensures a.available ==> !Has(es, |a.executed|)
  {
    forall k: nat | k < |a.executed| ensures Has(es, k) {
      ArrivedIsSplit(a, a.executed[k]);
      var i :| 0 <= i < |a.arrived| && a.arrived[i] == a.executed[k];
      assert a.arrived[i].counter == k;
    }
    if a.available && Has(es, |a.executed|) {
      var i :| 0 <= i < |a.arrived| && a.arrived[i].counter == |a.executed|;
      FreeWorkerWaitsForMissingCall(a, a.arrived[i]);
    }
  }

  /** For every run: the actor has executed as many calls as its worker was free for and as came without
      a gap, whichever is less; and the call executed at each position is the one that was submitted
      with that counter. */
  lemma ExecutedCount(es: seq<Event>, n: nat)
    requires Feasible(NEW_ACTOR, es) && Reaches(es, n)
    ensures |Run(NEW_ACTOR, es).executed| == if Frees(es) < n then Frees(es) else n
    ensures forall i :: 0 <= i < |Run(NEW_ACTOR, es).executed| ==>
      var c := Run(NEW_ACTOR, es).executed[i]; c.counter == i && c in Calls(es)
  {
    var a := Run(NEW_ACTOR, es);
    NewActorInv();
    RunTells(es);
    RunArrivals(NEW_ACTOR, es);
    assert [] + Calls(es) == Calls(es);
    ProgressMeans(a, es);
    hide Run, Feasible, Calls;
    if a.available {
      assert n <= |a.executed|;
      assert n >= |a.executed|;
    } else {
      assert n >= |a.executed|;
    }
    forall i | 0 <= i < |a.executed| ensures a.executed[i].counter == i && a.executed[i] in Calls(es) {
      ArrivedIsSplit(a, a.executed[i]);
    }
  }

  /** Which runs there are, told from the events alone. */
  lemma {:induction false} FeasibleIff(es: seq<Event>)
    ensures Feasible(NEW_ACTOR, es) <==> Possible(es)
    decreases |es|
  {
    if es != [] {
      var n := |es| - 1;
      var fs, e := es[..n], es[n];
      assert es == fs + [e];
      RunExtends(NEW_ACTOR, fs, e);
      FeasibleIff(fs);
      assert forall i :: 0 <= i < n ==> es[..i] == fs[..i] && es[i] == fs[i];
      assert Possible(es) <==> Possible(fs) && PossibleNext(fs, e);
      if Feasible(NEW_ACTOR, fs) {
        EnabledIff(fs, e);
      }
    }
  }

  lemma EnabledIff(es: seq<Event>, e: Event)
    requires Feasible(NEW_ACTOR, es)
    ensures Enabled(Run(NEW_ACTOR, es), e) <==> PossibleNext(es, e)
  {
    var a := Run(NEW_ACTOR, es);
    NewActorInv();
    RunTells(es);
    RunArrivals(NEW_ACTOR, es);
    ProgressMeans(a, es);
    hide Run, Feasible, Calls, Inv;
    if e.WorkerAvailable? {
      if a.available {
        assert Frees(es) == |a.executed| + 1;
        assert !Has(es, |a.executed|);
      }
    } else if e.Submitted? {
      assert Has(es, e.call.counter) <==> exists i :: 0 <= i < |a.arrived| && a.arrived[i].counter == e.call.counter;
    }
  }

  /** There is always a number of calls without a gap. */
  lemma {:induction false} ReachExists(es: seq<Event>) returns (n: nat)
    ensures Reaches(es, n)
    decreases |es|
  {
    if es == [] {
      n := 0;
    } else {
      var k := |es| - 1;
      var fs, e := es[..k], es[k];
      assert es == fs + [e];
      n := ReachExists(fs);
      n := ReachMore(fs, e, n);
    }
  }

  lemma ReachMore(es: seq<Event>, e: Event, n: nat) returns (m: nat)
    requires forall k: nat :: k < n ==> Has(es, k)
    ensures Reaches(es + [e], m)
  {
    m := n;
    var top := TopCounter(es + [e]);
    forall k: nat | k < n ensures Has(es + [e], k) {
      HasMore(es, e, k);
    }
    while Has(es + [e], m)
      invariant forall k: nat :: k < m ==> Has(es + [e], k)
      decreases top - m
    {
      assert m < top;
      m := m + 1;
    }
  }

  lemma {:induction false} TopCounter(es: seq<Event>) returns (top: nat)
    ensures forall k: nat :: Has(es, k) ==> k < top
    decreases |es|
  {
    if es == [] {
      top := 0;
    } else {
      var n := |es| - 1;
      assert es == es[..n] + [es[n]];
      top := TopCounter(es[..n]);
      forall k: nat ensures Has(es, k) ==> Has(es[..n], k) || (es[n].Submitted? && es[n].call.counter == k) {
        HasMore(es[..n], es[n], k);
      }
      if es[n].Submitted? && es[n].call.counter >= top {
        top := es[n].call.counter + 1;
      }
    }
  }

  // ---- The entry as the scheduler keeps it ----

  lemma InsertStep(front: seq<Call>, rest: seq<Call>, c: Call)
    requires rest != [] && c.counter > rest[0].counter
    ensures front + Insert(rest, c) == (front + [rest[0]]) + Insert(rest[1..], c)
  {
  }

  /** Walk the queue to the place of the new call and insert it there. */
  method InsertInOrder(queue: seq<Call>, c: Call) returns (r: seq<Call>)
    ensures r == Insert(queue, c)
  {
    ghost var front, rest := [], queue;
    var i := 0;
    while i < |queue| && c.counter > queue[i].counter
      invariant 0 <= i <= |queue| && front == queue[..i] && rest == queue[i..]
      invariant front + Insert(rest, c) == Insert(queue, c)
    {
      InsertStep(front, rest, c);
      front, rest := front + [queue[i]], rest[1..];
      i := i + 1;
    }
    assert Insert(rest, c) == [c] + rest;
    assert front + ([c] + rest) == queue[..i] + [c] + queue[i..];
    r := queue[..i] + [c] + queue[i..];
  }

  class LocalActor {
    var counter: nat
    var queue: seq<Call>
    var connected: bool
    var available: bool
    var executed: seq<Call>
    ghost var arrived: seq<Call>

    ghost function View(): Actor
      reads this
    {
      Actor(counter, queue, connected, available, executed, arrived)
    }

    constructor ()
      ensures View() == NEW_ACTOR && Inv(View())
    {
      counter, queue, connected, available, executed, arrived := 0, [], false, false, [], [];
    }

    method AddTask(c: Call)
      requires Ordered(View()) && Enabled(View(), Submitted(c))
      modifies this
      ensures View() == Add(old(View()), c) && Ordered(View())
    {
      hide Ordered, Enabled;
      AddKeeps(View(), c);
      queue := InsertInOrder(queue, c);
      arrived := arrived + [c];
    }

    method DispatchTask() returns (dispatched: bool)
      requires Ordered(View()) && (available ==> connected)
      modifies this
      ensures View() == DispatchCall(old(View())) && Inv(View())
      ensures dispatched == Startable(old(View()))
    {
      DispatchKeeps(View());
      if |queue| == 0 {
        return false;
      }
      var first := queue[0];
      if first.counter != counter {
        assert first.counter > counter;
        return false;
      }
      if !available {
        return false;
      }
      counter := counter + 1;
      executed := executed + [first];
      available := false;
      queue := queue[1..];
      return true;
    }

    method HandleTaskSubmitted(c: Call)
      requires Inv(View()) && Enabled(View(), Submitted(c))
      modifies this
      ensures View() == Step(old(View()), Submitted(c)) && Inv(View())
    {
      AddTask(c);
      var _ := DispatchTask();
    }

    method HandleWorkerConnect()
      requires Inv(View())
      modifies this
      ensures View() == Step(old(View()), WorkerConnected) && Inv(View())
    {
      connected := true;
      var _ := DispatchTask();
    }

    method HandleWorkerAvailable()
      requires Inv(View()) && Enabled(View(), WorkerAvailable)
      modifies this
      ensures View() == Step(old(View()), WorkerAvailable) && Inv(View())
    {
      available := true;
      var _ := DispatchTask();
    }
  }
}
