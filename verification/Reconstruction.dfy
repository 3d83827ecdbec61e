/**
 The reconstruction protocol between any number of local schedulers and the global scheduler.
 They share one task table. A table write is issued by a node, travels on that node's own
 connection in order, and takes effect later; only the test-and-set is atomic.
 */
module Reconstruction {

  type TaskId = nat
  type NodeId = nat

  /** The node that places waiting tasks. */
  const GLOBAL: NodeId := 0

  datatype Status = Waiting | Scheduled(to: NodeId) | Queued | Running | Done | Lost | Reconstructing

  predicate Terminal(st: Status) {
    st.Done? || st.Lost?
  }

  /** A write that hands the task to whoever is notified of it. */
  predicate HandsOver(st: Status) {
    st.Waiting? || st.Scheduled?
  }

  /** Where an instance of a task is: a resubmission that a node owes after its test-and-set (or
      a first submission), a notification in flight to a node, a queue entry, a running copy. */
  datatype Place = Owed | Noticed | InQueue | OnWorker

  datatype Holding = Holding(node: NodeId, task: TaskId, place: Place)

  datatype Write = Write(node: NodeId, task: TaskId, status: Status)

  /** `known` holds the tasks that have been submitted; the program does not store it. */
  datatype System = System(
    table: map<TaskId, Status>, wire: seq<Write>, held: seq<Holding>, known: set<TaskId>)

  datatype Action =
    | Submit(node: NodeId, task: TaskId)
    | TestAndSet(node: NodeId, task: TaskId, onlyLost: bool)
    | QueueHere(i: nat)
    | PassToGlobal(i: nat)
    | Place(i: nat, to: NodeId)
    | Accept(i: nat)
    | Assign(i: nat)
    | Complete(i: nat)
    | Fail(i: nat)
    | Drop(i: nat)
    | Apply(w: nat)

  predicate HeldAt(s: System, i: nat, place: Place) {
    i < |s.held| && s.held[i].place == place
  }

  /** A worker may submit a task that has been submitted before: a task that is executed again submits
      its children again, under the same ids, and the table is not consulted. */
  predicate Enabled(s: System, a: Action) {
    match a
    case Submit(n, t) => n != GLOBAL
    case TestAndSet(n, t, _) => t in s.table && n != GLOBAL
    case QueueHere(i) => HeldAt(s, i, Owed)
    case PassToGlobal(i) => HeldAt(s, i, Owed)
    case Place(i, to) => HeldAt(s, i, Noticed) && s.held[i].node == GLOBAL && to != GLOBAL
    case Accept(i) => HeldAt(s, i, Noticed) && s.held[i].node != GLOBAL
    case Assign(i) => HeldAt(s, i, InQueue)
    case Complete(i) => HeldAt(s, i, OnWorker)
    case Fail(i) => HeldAt(s, i, OnWorker)
    case Drop(i) => i < |s.held| && (s.held[i].place.InQueue? || s.held[i].place.Noticed?)
    case Apply(w) => w < |s.wire| && forall j :: 0 <= j < w ==> s.wire[j].node != s.wire[w].node
  }

  function EraseHeld(held: seq<Holding>, i: nat): seq<Holding>
    requires i < |held|
  {
    held[..i] + held[i + 1..]
  }

  function EraseWrite(wire: seq<Write>, i: nat): seq<Write>
    requires i < |wire|
  {
    wire[..i] + wire[i + 1..]
  }

  /** The holding moves to another place of the same node, which issues a table write. */
  function Advance(s: System, i: nat, place: Place, status: Status): System
    requires i < |s.held|
  {
    var h := s.held[i];
    s.(held := s.held[i := h.(place := place)], wire := s.wire + [Write(h.node, h.task, status)])
  }

  /** The holding ends with a table write of its node. */
  function Give(s: System, i: nat, status: Status): System
    requires i < |s.held|
  {
    var h := s.held[i];
    s.(held := EraseHeld(s.held, i), wire := s.wire + [Write(h.node, h.task, status)])
  }

  predicate Claims(st: Status, onlyLost: bool) {
    st.Lost? || (st.Done? && !onlyLost)
  }

  function Receiver(st: Status): NodeId {
    if st.Scheduled? then st.to else GLOBAL
  }

  function ApplyWrite(s: System, w: nat): System
    requires w < |s.wire|
  {
    var x := s.wire[w];
    s.(table := s.table[x.task := x.status],
       wire := EraseWrite(s.wire, w),
       held := if HandsOver(x.status) then s.held + [Holding(Receiver(x.status), x.task, Noticed)] else s.held)
  }

  function Step(s: System, a: Action): System
    requires Enabled(s, a)
  {
    match a
    case Submit(n, t) => s.(held := s.held + [Holding(n, t, Owed)], known := s.known + {t})
    case TestAndSet(n, t, onlyLost) =>
      if Claims(s.table[t], onlyLost)
      then s.(table := s.table[t := Reconstructing], held := s.held + [Holding(n, t, Owed)])
      else s
    case QueueHere(i) => Advance(s, i, InQueue, Queued)
    case PassToGlobal(i) => Give(s, i, Waiting)
    case Place(i, to) => Give(s, i, Scheduled(to))
    case Accept(i) => Advance(s, i, InQueue, Queued)
    case Assign(i) => Advance(s, i, OnWorker, Running)
    case Complete(i) => Give(s, i, Done)
    case Fail(i) => Give(s, i, Lost)
    case Drop(i) => s.(held := EraseHeld(s.held, i))
    case Apply(w) => ApplyWrite(s, w)
  }

  predicate Feasible(s: System, run: seq<Action>)
    decreases |run|
  {
    run == [] || (Enabled(s, run[0]) && Feasible(Step(s, run[0]), run[1..]))
  }

  function Run(s: System, run: seq<Action>): System
    requires Feasible(s, run)
    decreases |run|
  {
    if run == [] then s else Run(Step(s, run[0]), run[1..])
  }

  // ---- The invariant ----

  predicate Mentioned(s: System, t: TaskId) {
    || (exists i :: 0 <= i < |s.held| && s.held[i].task == t)
    || (exists j :: 0 <= j < |s.wire| && s.wire[j].task == t)
  }

  /** No task is held twice. */
  predicate HeldOnce(s: System) {
    forall i, j :: 0 <= i < j < |s.held| ==> s.held[i].task != s.held[j].task
  }

  /** A finished task has no instance and no write on the way. */
  predicate FinishedIsQuiet(s: System) {
    && (forall i :: 0 <= i < |s.held| && s.held[i].task in s.table ==> !Terminal(s.table[s.held[i].task]))
    && (forall j :: 0 <= j < |s.wire| && s.wire[j].task in s.table ==> !Terminal(s.table[s.wire[j].task]))
  }

  predicate Final(st: Status) {
    Terminal(st) || HandsOver(st)
  }

  /** All writes on the way about one task come from one node, and one that ends or hands over an
      instance is the last of them. */
  predicate OneWriter(s: System) {
    forall i, j :: 0 <= i < j < |s.wire| && s.wire[i].task == s.wire[j].task ==>
      s.wire[i].node == s.wire[j].node && !Final(s.wire[i].status)
  }

  /** Writes about a held task come from its holder and do not end or hand over the instance; a
      notification is on its way only after every write. */
  predicate HolderWrites(s: System) {
    forall i, j :: 0 <= i < |s.held| && 0 <= j < |s.wire| && s.held[i].task == s.wire[j].task ==>
      !s.held[i].place.Noticed? && s.wire[j].node == s.held[i].node && !Final(s.wire[j].status)
  }

  predicate Recorded(s: System) {
    && (forall i :: 0 <= i < |s.held| ==> s.held[i].task in s.known)
    && (forall j :: 0 <= j < |s.wire| ==> s.wire[j].task in s.known)
    && s.table.Keys <= s.known
  }

  predicate Inv(s: System) {
    HeldOnce(s) && FinishedIsQuiet(s) && OneWriter(s) && HolderWrites(s) && Recorded(s)
  }

  lemma EraseHeldAt(held: seq<Holding>, i: nat)
    requires i < |held|
    ensures forall k :: 0 <= k < |held| - 1 ==> EraseHeld(held, i)[k] == held[if k < i then k else k + 1]
  {
  }

  lemma EraseWriteAt(wire: seq<Write>, i: nat)
    requires i < |wire|
    ensures forall k :: 0 <= k < |wire| - 1 ==> EraseWrite(wire, i)[k] == wire[if k < i then k else k + 1]
  {
  }

  lemma AdvanceKeeps(s: System, i: nat, place: Place, status: Status)
    requires Inv(s) && i < |s.held| && !place.Noticed? && !Final(status)
    ensures Inv(Advance(s, i, place, status))
  {
  }

  lemma GiveKeeps(s: System, i: nat, status: Status)
    requires Inv(s) && i < |s.held| && Final(status)
    ensures Inv(Give(s, i, status))
  {
    EraseHeldAt(s.held, i);
  }

  lemma DropKeeps(s: System, i: nat)
    requires Inv(s) && i < |s.held|
    ensures Inv(s.(held := EraseHeld(s.held, i)))
  {
    EraseHeldAt(s.held, i);
  }

  /** The first write of a node is also the first write about its task. */
  lemma AppliesInOrder(s: System, w: nat)
    requires Inv(s) && Enabled(s, Apply(w))
    ensures forall j :: 0 <= j < |s.wire| && j != w && s.wire[j].task == s.wire[w].task ==>
      w < j && !Final(s.wire[w].status)
  {
  }

  lemma ApplyKeeps(s: System, w: nat)
    requires Inv(s) && Enabled(s, Apply(w))
    ensures Inv(ApplyWrite(s, w))
  {
    AppliesInOrder(s, w);
    ApplyTable(s, w);
    ApplyWire(s, w);
    var s', x := ApplyWrite(s, w), s.wire[w];
    assert HolderWrites(s') by {
      EraseWriteAt(s.wire, w);
    }
    hide OneWriter, FinishedIsQuiet, HolderWrites;
    EraseWriteAt(s.wire, w);
  }

  lemma ApplyTable(s: System, w: nat)
    requires FinishedIsQuiet(s) && HolderWrites(s) && w < |s.wire|
    requires forall j :: 0 <= j < |s.wire| && j != w && s.wire[j].task == s.wire[w].task ==> !Final(s.wire[w].status)
    ensures FinishedIsQuiet(ApplyWrite(s, w))
  {
    EraseWriteAt(s.wire, w);
  }

  lemma ApplyWire(s: System, w: nat)
    requires OneWriter(s) && w < |s.wire|
    ensures OneWriter(ApplyWrite(s, w))
  {
    EraseWriteAt(s.wire, w);
  }

  /** The task has an instance, is finished, or a write is on the way that makes it so. */
  predicate Taken(s: System, t: TaskId) {
    || (exists i :: 0 <= i < |s.held| && s.held[i].task == t)
    || (exists j :: 0 <= j < |s.wire| && s.wire[j].task == t && Final(s.wire[j].status))
    || (t in s.table && Terminal(s.table[t]))
  }

  /** The task is not taken, and no other node's write about it is on the way. */
  predicate Untouched(s: System, n: NodeId, t: TaskId) {
    !Taken(s, t) && forall j :: 0 <= j < |s.wire| && s.wire[j].task == t ==> s.wire[j].node == n
  }

  /** A submission keeps the invariant if and only if the task is untouched. */
  lemma SubmitKeepsIff(s: System, n: NodeId, t: TaskId)
    requires Inv(s) && Enabled(s, Submit(n, t))
    ensures Inv(Step(s, Submit(n, t))) <==> Untouched(s, n, t)
  {
    var s', k := Step(s, Submit(n, t)), |s.held|;
    assert s'.held[k] == Holding(n, t, Owed) && forall i :: 0 <= i < k ==> s'.held[i] == s.held[i];
    if Inv(s') {
      forall j | 0 <= j < |s.wire| && s.wire[j].task == t ensures s.wire[j].node == n && !Final(s.wire[j].status) {
        assert s'.held[k].task == s'.wire[j].task;
      }
    }
  }

  predicate UntouchedSubmission(s: System, a: Action) {
    a.Submit? ==> Untouched(s, a.node, a.task)
  }

  /** Each action keeps the invariant, a submission if and only if its task is untouched. */
  lemma StepKeepsIff(s: System, a: Action)
    requires Inv(s) && Enabled(s, a)
    ensures Inv(Step(s, a)) <==> UntouchedSubmission(s, a)
  {
    match a
    case Submit(n, t) => SubmitKeepsIff(s, n, t);
    case TestAndSet(n, t, onlyLost) =>
    case QueueHere(i) => AdvanceKeeps(s, i, InQueue, Queued);
    case PassToGlobal(i) => GiveKeeps(s, i, Waiting);
    case Place(i, to) => GiveKeeps(s, i, Scheduled(to));
    case Accept(i) => AdvanceKeeps(s, i, InQueue, Queued);
    case Assign(i) => AdvanceKeeps(s, i, OnWorker, Running);
    case Complete(i) => GiveKeeps(s, i, Done);
    case Fail(i) => GiveKeeps(s, i, Lost);
    case Drop(i) => DropKeeps(s, i);
    case Apply(w) => ApplyKeeps(s, w);
  }

  predicate UntouchedSubmissions(s: System, run: seq<Action>)
    requires Feasible(s, run)
    decreases |run|
  {
    run == [] || (UntouchedSubmission(s, run[0]) && UntouchedSubmissions(Step(s, run[0]), run[1..]))
  }

  predicate InvThroughout(s: System, run: seq<Action>)
    requires Feasible(s, run)
    decreases |run|
  {
    Inv(s) && (run == [] || InvThroughout(Step(s, run[0]), run[1..]))
  }

  /** Over every run: the invariant holds throughout if and only if every submission is of a task that
      is untouched at its moment. */
  lemma {:induction false} RunKeepsIff(s: System, run: seq<Action>)
    requires Inv(s) && Feasible(s, run)
    ensures InvThroughout(s, run) <==> UntouchedSubmissions(s, run)
    ensures UntouchedSubmissions(s, run) ==> Inv(Run(s, run))
    decreases |run|
  {
    if run != [] {
      StepKeepsIff(s, run[0]);
      if UntouchedSubmission(s, run[0]) {
        RunKeepsIff(Step(s, run[0]), run[1..]);
      }
    }
  }

  // ---- At most one live instance ----

  function HeldCount(held: seq<Holding>, t: TaskId): nat {
    if held == [] then 0 else (if held[0].task == t then 1 else 0) + HeldCount(held[1..], t)
  }

  /** Instances that are inside a hand-over write still on the wire. */
  function HandOverCount(wire: seq<Write>, t: TaskId): nat {
    if wire == [] then 0
    else (if wire[0].task == t && HandsOver(wire[0].status) then 1 else 0) + HandOverCount(wire[1..], t)
  }

  function Instances(s: System, t: TaskId): nat {
    HeldCount(s.held, t) + HandOverCount(s.wire, t)
  }

  lemma {:induction false} HeldCountBound(held: seq<Holding>, t: TaskId)
    requires forall i, j :: 0 <= i < j < |held| ==> held[i].task != held[j].task
    ensures HeldCount(held, t) <= 1
    ensures HeldCount(held, t) == 0 <==> forall i :: 0 <= i < |held| ==> held[i].task != t
  {
    if held != [] {
      HeldCountBound(held[1..], t);
      assert forall i :: 0 <= i < |held[1..]| ==> held[1..][i] == held[i + 1];
      if HeldCount(held, t) == 0 {
        forall i | 0 <= i < |held| ensures held[i].task != t {
          assert i > 0 ==> held[i] == held[1..][i - 1];
        }
      }
    }
  }

  lemma {:induction false} HandOverCountBound(wire: seq<Write>, t: TaskId)
    requires forall i, j :: 0 <= i < j < |wire| && Final(wire[i].status) && Final(wire[j].status) ==>
      wire[i].task != wire[j].task
    ensures HandOverCount(wire, t) <= 1
    ensures HandOverCount(wire, t) > 0 ==>
      exists j :: 0 <= j < |wire| && wire[j].task == t && HandsOver(wire[j].status)
  {
    if wire != [] {
      HandOverCountBound(wire[1..], t);
      assert forall i :: 0 <= i < |wire[1..]| ==> wire[1..][i] == wire[i + 1];
      if HandOverCount(wire[1..], t) > 0 {
        var j :| 0 <= j < |wire[1..]| && wire[1..][j].task == t && HandsOver(wire[1..][j].status);
        assert wire[j + 1].task == t && HandsOver(wire[j + 1].status);
      }
    }
  }

  lemma {:induction false} HeldCountAppend(held: seq<Holding>, h: Holding, t: TaskId)
    ensures HeldCount(held + [h], t) == HeldCount(held, t) + if h.task == t then 1 else 0
  {
    if held == [] {
      assert held + [h] == [h] && [h][1..] == [];
    } else {
      assert (held + [h])[1..] == held[1..] + [h];
      HeldCountAppend(held[1..], h, t);
    }
  }

  lemma {:induction false} HeldCounts(held: seq<Holding>, i: nat)
    requires i < |held|
    ensures HeldCount(held, held[i].task) > 0
  {
    if i > 0 {
      HeldCounts(held[1..], i - 1);
    }
  }

  lemma {:induction false} HandOverCounts(wire: seq<Write>, j: nat)
    requires j < |wire| && HandsOver(wire[j].status)
    ensures HandOverCount(wire, wire[j].task) > 0
  {
    if j > 0 {
      HandOverCounts(wire[1..], j - 1);
    }
  }

  /** No task has two instances, and none has one while the table says it is done or lost. */
  ghost predicate Single(s: System) {
    forall t :: Instances(s, t) <= (if t in s.table && Terminal(s.table[t]) then 0 else 1)
  }

  /** In addition, no write is on the way about a task that is done or lost. */
  ghost predicate Calm(s: System) {
    Single(s) && forall t :: t in s.table && Terminal(s.table[t]) ==> !Mentioned(s, t)
  }

  // ---- What single instances need ----

  /** A task is held once, or one write on the way ends or hands over its instance, or it is finished:
      no two of these at once. Nothing is said about the order of writes. */
  predicate Exclusive(s: System) {
    && HeldOnce(s)
    && (forall i, j :: 0 <= i < j < |s.wire| && Final(s.wire[i].status) && Final(s.wire[j].status) ==>
          s.wire[i].task != s.wire[j].task)
    && (forall i, j :: 0 <= i < |s.held| && 0 <= j < |s.wire| && Final(s.wire[j].status) ==>
          s.held[i].task != s.wire[j].task)
    && (forall i :: 0 <= i < |s.held| && s.held[i].task in s.table ==> !Terminal(s.table[s.held[i].task]))
    && (forall j :: 0 <= j < |s.wire| && Final(s.wire[j].status) && s.wire[j].task in s.table ==>
          !Terminal(s.table[s.wire[j].task]))
  }

  lemma InvIsExclusive(s: System)
    requires Inv(s)
    ensures Exclusive(s)
  {
  }

  lemma ExclusiveIsSingle(s: System)
    requires Exclusive(s)
    ensures Single(s)
  {
    forall t ensures Instances(s, t) <= (if t in s.table && Terminal(s.table[t]) then 0 else 1) {
      InstancesBound(s, t);
    }
  }

  lemma InstancesBound(s: System, t: TaskId)
    requires Exclusive(s)
    ensures Instances(s, t) <= 1
    ensures t in s.table && Terminal(s.table[t]) ==> Instances(s, t) == 0
  {
    HeldCountBound(s.held, t);
    HandOverCountBound(s.wire, t);
    if HandOverCount(s.wire, t) > 0 {
      var j :| 0 <= j < |s.wire| && s.wire[j].task == t && HandsOver(s.wire[j].status);
      assert Final(s.wire[j].status);
      assert forall i :: 0 <= i < |s.held| ==> s.held[i].task != t;
    }
  }

  lemma GiveStaysExclusive(s: System, i: nat, status: Status)
    requires Exclusive(s) && i < |s.held|
    ensures Exclusive(Give(s, i, status))
  {
    EraseHeldAt(s.held, i);
  }

  lemma DropStaysExclusive(s: System, i: nat)
    requires Exclusive(s) && i < |s.held|
    ensures Exclusive(s.(held := EraseHeld(s.held, i)))
  {
    EraseHeldAt(s.held, i);
  }

  lemma ApplyStaysExclusive(s: System, w: nat)
    requires Exclusive(s) && w < |s.wire|
    ensures Exclusive(ApplyWrite(s, w))
  {
    EraseWriteAt(s.wire, w);
    var x, wire' := s.wire[w], EraseWrite(s.wire, w);
    assert Final(x.status) ==> forall j :: 0 <= j < |wire'| && Final(wire'[j].status) ==> wire'[j].task != x.task;
  }

  predicate FreeSubmission(s: System, a: Action) {
    a.Submit? ==> !Taken(s, a.task)
  }

  lemma AdvanceStaysExclusive(s: System, i: nat, place: Place, status: Status)
    requires Exclusive(s) && i < |s.held| && !Final(status)
    ensures Exclusive(Advance(s, i, place, status))
  {
  }

  lemma NewHoldingStaysExclusive(s: System, h: Holding)
    requires Exclusive(s) && !Taken(s, h.task)
    ensures Exclusive(s.(held := s.held + [h]))
  {
  }

  lemma TestAndSetStaysExclusive(s: System, n: NodeId, t: TaskId, onlyLost: bool)
    requires Exclusive(s) && Enabled(s, TestAndSet(n, t, onlyLost))
    ensures Exclusive(Step(s, TestAndSet(n, t, onlyLost)))
  {
  }

  lemma StepStaysExclusive(s: System, a: Action)
    requires Exclusive(s) && Enabled(s, a) && FreeSubmission(s, a)
    ensures Exclusive(Step(s, a))
  {
    match a
    case Submit(n, t) =>
      NewHoldingStaysExclusive(s, Holding(n, t, Owed));
    case TestAndSet(n, t, onlyLost) => TestAndSetStaysExclusive(s, n, t, onlyLost);
    case QueueHere(i) => AdvanceStaysExclusive(s, i, InQueue, Queued);
    case PassToGlobal(i) => GiveStaysExclusive(s, i, Waiting);
    case Place(i, to) => GiveStaysExclusive(s, i, Scheduled(to));
    case Accept(i) => AdvanceStaysExclusive(s, i, InQueue, Queued);
    case Assign(i) => AdvanceStaysExclusive(s, i, OnWorker, Running);
    case Complete(i) => GiveStaysExclusive(s, i, Done);
    case Fail(i) => GiveStaysExclusive(s, i, Lost);
    case Drop(i) => DropStaysExclusive(s, i);
    case Apply(w) => ApplyStaysExclusive(s, w);
  }

  // ---- A task submitted again ----

  predicate NoSubmission(run: seq<Action>) {
    forall i :: 0 <= i < |run| ==> !run[i].Submit?
  }

  /** Whatever happens next, short of another submission, instances stay single. */
  ghost predicate LastingSingle(s: System) {
    forall run :: Feasible(s, run) && NoSubmission(run) ==> Single(Run(s, run))
  }

  ghost predicate LastingCalm(s: System) {
    forall run :: Feasible(s, run) && NoSubmission(run) ==> Calm(Run(s, run))
  }

  lemma Prepend(s: System, a: Action, run: seq<Action>)
    requires Enabled(s, a) && Feasible(Step(s, a), run)
    ensures Feasible(s, [a] + run) && Run(s, [a] + run) == Run(Step(s, a), run)
  {
    assert ([a] + run)[0] == a && ([a] + run)[1..] == run;
  }

  /** The writes of one node take effect in their order up to a given one, before those of others. */
  lemma {:induction false} Flush(s: System, w: nat) returns (run: seq<Action>)
    requires w < |s.wire|
    ensures Feasible(s, run) && NoSubmission(run)
    ensures
      var s', x := Run(s, run), s.wire[w];
      && x.task in s'.table && s'.table[x.task] == x.status && s.held <= s'.held
      && (HandsOver(x.status) ==> Holding(Receiver(x.status), x.task, Noticed) in s'.held)
      && forall y :: y in s.wire && y.node != x.node ==> y in s'.wire
    decreases w
  {
    var x, first := s.wire[w], FirstOf(s.wire, w);
    var a, s1 := Apply(first), ApplyWrite(s, first);
    EraseWriteAt(s.wire, first);
    StaysOnWire(s.wire, first);
    assert s.held <= s1.held;
    if first == w {
      run := [a];
      Prepend(s, a, []);
      assert [a] + [] == [a];
    } else {
      assert s1.wire[w - 1] == x;
      var rest := Flush(s1, w - 1);
      run := [a] + rest;
      Prepend(s, a, rest);
    }
  }

  /** The first write of the node whose write is at `w`. */
  function FirstOf(wire: seq<Write>, w: nat): (j: nat)
    requires w < |wire|
    ensures j <= w && wire[j].node == wire[w].node && forall i :: 0 <= i < j ==> wire[i].node != wire[w].node
  {
    if wire[0].node == wire[w].node then 0 else 1 + FirstOf(wire[1..], w - 1)
  }

  lemma StaysOnWire(wire: seq<Write>, j: nat)
    requires j < |wire|
    ensures forall y :: y in wire && y.node != wire[j].node ==> y in EraseWrite(wire, j)
  {
    forall y | y in wire && y.node != wire[j].node ensures y in EraseWrite(wire, j) {
      var i :| 0 <= i < |wire| && wire[i] == y;
      assert EraseWrite(wire, j)[if i < j then i else i - 1] == y;
    }
  }

  /** A task that is taken and submitted again can have two instances, or one while it is finished. */
  lemma TakenIsNotSingle(s: System, n: NodeId, t: TaskId)
    requires Enabled(s, Submit(n, t)) && Taken(s, t)
    ensures !LastingSingle(Step(s, Submit(n, t)))
  {
    var s' := Step(s, Submit(n, t));
    HeldCountAppend(s.held, Holding(n, t, Owed), t);
    if exists j :: 0 <= j < |s.wire| && s.wire[j].task == t && Terminal(s.wire[j].status) {
      var j :| 0 <= j < |s.wire| && s.wire[j].task == t && Terminal(s.wire[j].status);
      var run := Flush(s', j);
      var k, s2 := |s.held|, Run(s', run);
      assert s2.held[k] == s'.held[k] == Holding(n, t, Owed);
      HeldCounts(s2.held, k);
      assert Instances(s2, t) > 0;
      assert !Single(s2);
    } else {
      if exists i :: 0 <= i < |s.held| && s.held[i].task == t {
        var i :| 0 <= i < |s.held| && s.held[i].task == t;
        HeldCounts(s.held, i);
      } else if exists j :: 0 <= j < |s.wire| && s.wire[j].task == t && Final(s.wire[j].status) {
        var j :| 0 <= j < |s.wire| && s.wire[j].task == t && Final(s.wire[j].status);
        HandOverCounts(s.wire, j);
      }
      assert Instances(s', t) > if t in s'.table && Terminal(s'.table[t]) then 0 else 1;
      assert Feasible(s', []) && Run(s', []) == s' && NoSubmission([]);
    }
  }

  lemma {:induction false} ExclusiveLasts(s: System, run: seq<Action>)
    requires Exclusive(s) && Feasible(s, run) && NoSubmission(run)
    ensures Single(Run(s, run))
    decreases |run|
  {
    hide Exclusive, Single, Step, Enabled;
    if run == [] {
      ExclusiveIsSingle(s);
    } else {
      StepStaysExclusive(s, run[0]);
      assert forall i :: 0 <= i < |run[1..]| ==> run[1..][i] == run[i + 1];
      ExclusiveLasts(Step(s, run[0]), run[1..]);
    }
  }

  /** After a submission instances stay single, whatever happens next, if and only if the task was not
      taken: it was not held, the table did not say that it is done or lost, and no write on the way
      ended or handed over an instance. */
  lemma SubmitStaysSingleIff(s: System, n: NodeId, t: TaskId)
    requires Exclusive(s) && Enabled(s, Submit(n, t))
    ensures LastingSingle(Step(s, Submit(n, t))) <==> !Taken(s, t)
  {
    hide Exclusive, Single, Step, Taken;
    if Taken(s, t) {
      TakenIsNotSingle(s, n, t);
    } else {
      var s' := Step(s, Submit(n, t));
      StepStaysExclusive(s, Submit(n, t));
      forall run | Feasible(s', run) && NoSubmission(run) ensures Single(Run(s', run)) {
        ExclusiveLasts(s', run);
      }
    }
  }

  predicate FreeSubmissions(s: System, run: seq<Action>)
    requires Feasible(s, run)
    decreases |run|
  {
    run == [] || (FreeSubmission(s, run[0]) && FreeSubmissions(Step(s, run[0]), run[1..]))
  }

  /** Instances are single at every moment of the run, and stay so from each of them on if nothing more
      is submitted. */
  ghost predicate SingleThroughout(s: System, run: seq<Action>)
    requires Feasible(s, run)
    decreases |run|
  {
    LastingSingle(s) && (run == [] || SingleThroughout(Step(s, run[0]), run[1..]))
  }

  lemma {:induction false} RunStaysSingleIff(s: System, run: seq<Action>)
    requires Exclusive(s) && Feasible(s, run)
    ensures SingleThroughout(s, run) <==> FreeSubmissions(s, run)
    ensures FreeSubmissions(s, run) ==> Exclusive(Run(s, run))
    decreases |run|
  {
    hide Exclusive, Single, Step, Enabled, Taken, LastingSingle;
    ExclusiveIsLasting(s);
    if run != [] {
      if FreeSubmission(s, run[0]) {
        StepStaysExclusive(s, run[0]);
        RunStaysSingleIff(Step(s, run[0]), run[1..]);
      } else {
        SubmitStaysSingleIff(s, run[0].node, run[0].task);
        SingleStarts(Step(s, run[0]), run[1..]);
      }
    }
  }

  lemma ExclusiveIsLasting(s: System)
    requires Exclusive(s)
    ensures LastingSingle(s)
  {
    forall run | Feasible(s, run) && NoSubmission(run) ensures Single(Run(s, run)) {
      ExclusiveLasts(s, run);
    }
  }

  lemma SingleStarts(s: System, run: seq<Action>)
    requires Feasible(s, run)
    ensures SingleThroughout(s, run) ==> LastingSingle(s)
  {
  }

  // ---- No late writes about finished tasks ----

  lemma InvIsCalm(s: System)
    requires Inv(s)
    ensures Calm(s)
  {
    InvIsExclusive(s);
    ExclusiveIsSingle(s);
  }

  lemma {:induction false} InvLasts(s: System, run: seq<Action>)
    requires Inv(s) && Feasible(s, run) && NoSubmission(run)
    ensures Calm(Run(s, run))
    decreases |run|
  {
    hide Inv, Calm, Step, Enabled;
    if run == [] {
      InvIsCalm(s);
    } else {
      StepKeepsIff(s, run[0]);
      assert forall i :: 0 <= i < |run[1..]| ==> run[1..][i] == run[i + 1];
      InvLasts(Step(s, run[0]), run[1..]);
    }
  }

  /** A write of another node that is on the way when the task is submitted can arrive after the task
      has been executed. */
  lemma LateWriteIsNotCalm(s: System, n: NodeId, t: TaskId, j: nat)
    requires Enabled(s, Submit(n, t)) && j < |s.wire| && s.wire[j].task == t && s.wire[j].node != n
    ensures !LastingCalm(Step(s, Submit(n, t)))
  {
    var s0, k, y := Step(s, Submit(n, t)), |s.held|, s.wire[j];
    var s1 := Step(s0, QueueHere(k));
    var s2 := Step(s1, Assign(k));
    var s3 := Step(s2, Complete(k));
    assert s3.wire == s.wire + [Write(n, t, Queued), Write(n, t, Running), Write(n, t, Done)];
    var w := |s.wire| + 2;
    assert s3.wire[w] == Write(n, t, Done) && s3.wire[j] == y;
    var rest := Flush(s3, w);
    Prepend(s2, Complete(k), rest);
    Prepend(s1, Assign(k), [Complete(k)] + rest);
    Prepend(s0, QueueHere(k), [Assign(k)] + ([Complete(k)] + rest));
    var run := [QueueHere(k)] + ([Assign(k)] + ([Complete(k)] + rest));
    assert NoSubmission(run);
    var s' := Run(s0, run);
    assert y in s'.wire && Mentioned(s', t) && !Calm(s');
  }

  /** After a submission finished tasks stay without instances and without writes on the way, whatever
      happens next, if and only if the task was untouched. */
  lemma SubmitStaysCalmIff(s: System, n: NodeId, t: TaskId)
    requires Inv(s) && Enabled(s, Submit(n, t))
    ensures LastingCalm(Step(s, Submit(n, t))) <==> Untouched(s, n, t)
  {
    var s' := Step(s, Submit(n, t));
    hide Inv, Single, Step, Taken;
    if Untouched(s, n, t) {
      SubmitKeepsIff(s, n, t);
      InvIsLasting(s');
    } else if Taken(s, t) {
      TakenIsNotSingle(s, n, t);
      CalmIsSingle(s');
    } else {
      var j :| 0 <= j < |s.wire| && s.wire[j].task == t && s.wire[j].node != n;
      LateWriteIsNotCalm(s, n, t, j);
    }
  }

  lemma CalmIsSingle(s: System)
    ensures LastingCalm(s) ==> LastingSingle(s)
  {
  }

  lemma InvIsLasting(s: System)
    requires Inv(s)
    ensures LastingCalm(s)
  {
    forall run | Feasible(s, run) && NoSubmission(run) ensures Calm(Run(s, run)) {
      InvLasts(s, run);
    }
  }

  ghost predicate CalmThroughout(s: System, run: seq<Action>)
    requires Feasible(s, run)
    decreases |run|
  {
    LastingCalm(s) && (run == [] || CalmThroughout(Step(s, run[0]), run[1..]))
  }

  lemma CalmStarts(s: System, run: seq<Action>)
    requires Feasible(s, run)
    ensures CalmThroughout(s, run) ==> LastingCalm(s)
  {
  }

  lemma {:induction false} RunStaysCalmIff(s: System, run: seq<Action>)
    requires Inv(s) && Feasible(s, run)
    ensures CalmThroughout(s, run) <==> UntouchedSubmissions(s, run)
    decreases |run|
  {
    hide Inv, Step, Enabled, Untouched, LastingCalm;
    InvIsLasting(s);
    if run != [] {
      if UntouchedSubmission(s, run[0]) {
        StepKeepsIff(s, run[0]);
        RunStaysCalmIff(Step(s, run[0]), run[1..]);
      } else {
        SubmitStaysCalmIff(s, run[0].node, run[0].task);
        CalmStarts(Step(s, run[0]), run[1..]);
      }
    }
  }

  // ---- Runs from the start ----

  const EMPTY_SYSTEM := System(map[], [], [], {})

  /** For any number of nodes asking for reconstruction at once, in every run and from each of its
      moments on: a task has at most one instance, counting owed resubmissions, hand-overs on the way,
      queue entries and running copies, and none while the table says it is done or lost; if and only
      if no task is submitted while it is taken. */
  lemma AtMostOneInstanceIff(run: seq<Action>)
    requires Feasible(EMPTY_SYSTEM, run)
    ensures SingleThroughout(EMPTY_SYSTEM, run) <==> FreeSubmissions(EMPTY_SYSTEM, run)
    ensures CalmThroughout(EMPTY_SYSTEM, run) <==> UntouchedSubmissions(EMPTY_SYSTEM, run)
  {
    assert Inv(EMPTY_SYSTEM) && Exclusive(EMPTY_SYSTEM);
    RunStaysSingleIff(EMPTY_SYSTEM, run);
    RunStaysCalmIff(EMPTY_SYSTEM, run);
  }

  /** No task is submitted twice. */
  predicate FirstSubmissions(s: System, run: seq<Action>)
    requires Feasible(s, run)
    decreases |run|
  {
    || run == []
    || ((run[0].Submit? ==> run[0].task !in s.known) && FirstSubmissions(Step(s, run[0]), run[1..]))
  }

  lemma {:induction false} FirstSubmissionsAreUntouched(s: System, run: seq<Action>)
    requires Inv(s) && Feasible(s, run) && FirstSubmissions(s, run)
    ensures UntouchedSubmissions(s, run)
    decreases |run|
  {
    if run != [] {
      StepKeepsIff(s, run[0]);
      FirstSubmissionsAreUntouched(Step(s, run[0]), run[1..]);
    }
  }

  /** In every run in which no task is submitted twice, a task has at most one instance; and none, and no
      write on the way, while the table says it is done or lost. */
  lemma AtMostOneInstance(run: seq<Action>, t: TaskId)
    requires Feasible(EMPTY_SYSTEM, run) && FirstSubmissions(EMPTY_SYSTEM, run)
    ensures Instances(Run(EMPTY_SYSTEM, run), t) <= 1
    ensures
      var s := Run(EMPTY_SYSTEM, run);
      t in s.table && Terminal(s.table[t]) ==> Instances(s, t) == 0 && !Mentioned(s, t)
  {
    FirstSubmissionsAreUntouched(EMPTY_SYSTEM, run);
    RunKeepsIff(EMPTY_SYSTEM, run);
    InvIsCalm(Run(EMPTY_SYSTEM, run));
    assert Instances(Run(EMPTY_SYSTEM, run), t) <= 1;
  }

  // ---- A reconstructed parent submits its child again ----

  lemma {:induction false} Concatenate(s: System, a: seq<Action>, b: seq<Action>)
    requires Feasible(s, a) && Feasible(Run(s, a), b)
    ensures Feasible(s, a + b) && Run(s, a + b) == Run(Run(s, a), b)
    decreases |a|
  {
    if a == [] {
      assert a + b == b;
    } else {
      assert (a + b)[0] == a[0] && (a + b)[1..] == a[1..] + b;
      Concatenate(Step(s, a[0]), a[1..], b);
    }
  }

  const PARENT: TaskId := 1
  const CHILD: TaskId := 7

  /** What node `n` writes while it runs a task. */
  function Started(n: NodeId, t: TaskId): seq<Write> {
    [Write(n, t, Queued), Write(n, t, Running)]
  }

  /** A node runs a task that it owes, with `k` other holdings before. */
  lemma Starts(s: System, held: seq<Holding>, n: NodeId, t: TaskId)
    requires s.held == held + [Holding(n, t, Owed)]
    ensures
      var run := [QueueHere(|held|), Assign(|held|)];
      && Feasible(s, run)
      && Run(s, run) == s.(held := held + [Holding(n, t, OnWorker)], wire := s.wire + Started(n, t))
  {
    var k := |held|;
    var s1 := Step(s, QueueHere(k));
    assert s1.held == held + [Holding(n, t, InQueue)];
    var s2 := Step(s1, Assign(k));
    assert s2.held == held + [Holding(n, t, OnWorker)] && s2.wire == s.wire + Started(n, t);
    Prepend(s1, Assign(k), []);
    Prepend(s, QueueHere(k), [Assign(k)]);
    assert [Assign(k)] + [] == [Assign(k)] && [QueueHere(k)] + [Assign(k)] == [QueueHere(k), Assign(k)];
  }

  lemma Submits(s: System, n: NodeId, t: TaskId)
    requires n != GLOBAL
    ensures
      var run := [Submit(n, t), QueueHere(|s.held|), Assign(|s.held|)];
      && Feasible(s, run)
      && Run(s, run) == s.(held := s.held + [Holding(n, t, OnWorker)], wire := s.wire + Started(n, t),
                           known := s.known + {t})
  {
    var s1, k := Step(s, Submit(n, t)), |s.held|;
    Starts(s1, s.held, n, t);
    Prepend(s, Submit(n, t), [QueueHere(k), Assign(k)]);
    assert [Submit(n, t)] + [QueueHere(k), Assign(k)] == [Submit(n, t), QueueHere(k), Assign(k)];
  }

  function Overwritten(table: map<TaskId, Status>, wire: seq<Write>): map<TaskId, Status>
    decreases |wire|
  {
    if wire == [] then table else Overwritten(table[wire[0].task := wire[0].status], wire[1..])
  }

  /** All writes on the way take effect in order, when none of them hands a task over. */
  lemma {:induction false} Settles(s: System) returns (run: seq<Action>)
    requires forall j :: 0 <= j < |s.wire| ==> !HandsOver(s.wire[j].status)
    ensures Feasible(s, run) && Run(s, run) == s.(table := Overwritten(s.table, s.wire), wire := [])
    decreases |s.wire|
  {
    if s.wire == [] {
      run := [];
    } else {
      var s1 := Step(s, Apply(0));
      assert s1.wire == s.wire[1..];
      var rest := Settles(s1);
      run := [Apply(0)] + rest;
      Prepend(s, Apply(0), rest);
    }
  }

  /** The parent has submitted the child and finished, and the child is running. */
  const FINISHED_PARENT := System(
    map[PARENT := Done, CHILD := Running], [], [Holding(1, CHILD, OnWorker)], {PARENT, CHILD})

  lemma ParentFinishes() returns (run: seq<Action>)
    ensures Feasible(EMPTY_SYSTEM, run) && Run(EMPTY_SYSTEM, run) == FINISHED_PARENT
  {
    hide Feasible, Run;
    var parent, child := Holding(1, PARENT, OnWorker), Holding(1, CHILD, OnWorker);
    var a := [Submit(1, PARENT), QueueHere(0), Assign(0)];
    var b := [Submit(1, CHILD), QueueHere(1), Assign(1)];
    Submits(EMPTY_SYSTEM, 1, PARENT);
    var s1 := Run(EMPTY_SYSTEM, a);
    assert s1 == System(map[], Started(1, PARENT), [parent], {PARENT});
    Submits(s1, 1, CHILD);
    var s2 := Run(s1, b);
    assert s2 == System(map[], Started(1, PARENT) + Started(1, CHILD), [parent, child], {PARENT, CHILD});
    var s3 := Step(s2, Complete(0));
    assert s3.held == [child];
    ParentSettles(s3);
    var d := Settles(s3);
    Prepend(s2, Complete(0), d);
    Concatenate(s1, b, [Complete(0)] + d);
    Concatenate(EMPTY_SYSTEM, a, b + ([Complete(0)] + d));
    run := a + (b + ([Complete(0)] + d));
  }

  lemma ParentSettles(s: System)
    requires s.table == map[]
    requires s.wire == (Started(1, PARENT) + Started(1, CHILD)) + [Write(1, PARENT, Done)]
    ensures forall j :: 0 <= j < |s.wire| ==> !HandsOver(s.wire[j].status)
    ensures Overwritten(s.table, s.wire) == map[PARENT := Done, CHILD := Running]
  {
    var w := s.wire;
    var t1 := s.table[PARENT := Queued][PARENT := Running];
    var t2 := t1[CHILD := Queued][CHILD := Running];
    assert w == [Write(1, PARENT, Queued), Write(1, PARENT, Running), Write(1, CHILD, Queued),
                 Write(1, CHILD, Running), Write(1, PARENT, Done)];
    assert Overwritten(s.table, w) == Overwritten(t1, w[2..]) by {
      assert w[1..][1..] == w[2..] && w[1..][0] == w[1];
    }
    assert Overwritten(t1, w[2..]) == Overwritten(t2, w[4..]) by {
      assert w[2..][1..] == w[3..] && w[3..][1..] == w[4..] && w[3..][0] == w[3];
    }
    assert w[4..][1..] == [];
    assert Overwritten(t2, w[4..]) == t2[PARENT := Done];
  }

  /** A run in which the parent is reconstructed while the child runs, and submits the child again: the
      child has two instances. */
  lemma ReconstructedParentDuplicatesChild()
    ensures exists run :: Feasible(EMPTY_SYSTEM, run) && Instances(Run(EMPTY_SYSTEM, run), CHILD) == 2
  {
    hide Feasible, Run;
    var past := ParentFinishes();
    var child := Holding(1, CHILD, OnWorker);
    var s1 := Step(FINISHED_PARENT, TestAndSet(2, PARENT, false));
    Starts(s1, [child], 2, PARENT);
    var a := [QueueHere(1), Assign(1)];
    var s2 := Run(s1, a);
    assert s2.held == [child, Holding(2, PARENT, OnWorker)];
    var s3 := Step(s2, Submit(2, CHILD));
    assert s3.held == [child, Holding(2, PARENT, OnWorker), Holding(2, CHILD, Owed)];
    assert Feasible(s3, []) && Run(s3, []) == s3 by { Starting(s3); }
    Prepend(s2, Submit(2, CHILD), []);
    Concatenate(s1, a, [Submit(2, CHILD)] + []);
    Prepend(FINISHED_PARENT, TestAndSet(2, PARENT, false), a + ([Submit(2, CHILD)] + []));
    Concatenate(EMPTY_SYSTEM, past, [TestAndSet(2, PARENT, false)] + (a + ([Submit(2, CHILD)] + [])));
    TwoOfThree(s3, child, Holding(2, PARENT, OnWorker), Holding(2, CHILD, Owed));
  }

  lemma Starting(s: System)
    ensures Feasible(s, []) && Run(s, []) == s
  {
  }

  lemma TwoOfThree(s: System, a: Holding, b: Holding, c: Holding)
    requires s.held == [a, b, c] && a.task == c.task == CHILD != b.task
    requires s.wire == Started(2, PARENT)
    ensures Instances(s, CHILD) == 2
  {
    assert s.held[1..] == [b, c] && [b, c][1..] == [c] && [c][1..] == [];
    assert HeldCount([c], CHILD) == 1 && HeldCount([b, c], CHILD) == 1;
    assert s.wire[1..] == [Write(2, PARENT, Running)] && s.wire[1..][1..] == [];
    assert HandOverCount(s.wire[1..], CHILD) == 0;
  }

  /** A run in which a finished task is submitted again: it has an instance while the table says that it
      is done, and a node that asks for its result then claims a second one. */
  lemma FinishedTaskSubmittedAgain()
    ensures exists run, more ::
      && Feasible(EMPTY_SYSTEM, run) && Feasible(Run(EMPTY_SYSTEM, run), more) && NoSubmission(more)
      && var s := Run(EMPTY_SYSTEM, run);
         && CHILD in s.table && s.table[CHILD].Done? && Instances(s, CHILD) == 1
         && Instances(Run(s, more), CHILD) == 2
  {
    hide Feasible, Run;
    var child, again := Holding(1, CHILD, OnWorker), Holding(2, CHILD, Owed);
    var past := ChildFinishes();
    var s1 := System(map[CHILD := Done], [], [], {CHILD});
    var s2 := Step(s1, Submit(2, CHILD));
    Starting(s2);
    Prepend(s1, Submit(2, CHILD), []);
    Concatenate(EMPTY_SYSTEM, past, [Submit(2, CHILD)] + []);
    var a := TestAndSet(1, CHILD, false);
    var s3 := Step(s2, a);
    Starting(s3);
    Prepend(s2, a, []);
    assert s2.held == [again] && s3.held == [again, Holding(1, CHILD, Owed)];
    assert s3.held[1..] == [Holding(1, CHILD, Owed)] && s3.held[1..][1..] == [] && s2.held[1..] == [];
    assert HeldCount(s3.held[1..], CHILD) == 1;
    assert NoSubmission([a] + []);
    var run, more := past + ([Submit(2, CHILD)] + []), [a] + [];
    assert Run(EMPTY_SYSTEM, run) == s2 && Run(s2, more) == s3;
    assert Instances(s2, CHILD) == 1 && Instances(s3, CHILD) == 2;
  }

  lemma ChildFinishes() returns (run: seq<Action>)
    ensures Feasible(EMPTY_SYSTEM, run)
    ensures Run(EMPTY_SYSTEM, run) == System(map[CHILD := Done], [], [], {CHILD})
  {
    hide Feasible, Run;
    var a := [Submit(1, CHILD), QueueHere(0), Assign(0)];
    Submits(EMPTY_SYSTEM, 1, CHILD);
    var s1 := Run(EMPTY_SYSTEM, a);
    assert s1 == System(map[], Started(1, CHILD), [Holding(1, CHILD, OnWorker)], {CHILD});
    var s2 := Step(s1, Complete(0));
    assert s2.held == [];
    assert s2.wire == [Write(1, CHILD, Queued), Write(1, CHILD, Running), Write(1, CHILD, Done)];
    ChildSettles(s2);
    var d := Settles(s2);
    Prepend(s1, Complete(0), d);
    Concatenate(EMPTY_SYSTEM, a, [Complete(0)] + d);
    run := a + ([Complete(0)] + d);
  }

  lemma ChildSettles(s: System)
    requires s.table == map[]
    requires s.wire == [Write(1, CHILD, Queued), Write(1, CHILD, Running), Write(1, CHILD, Done)]
    ensures Overwritten(s.table, s.wire) == map[CHILD := Done]
  {
    var w, t := s.wire, s.table[CHILD := Queued][CHILD := Running];
    assert w[1..][1..] == w[2..] && w[1..][0] == w[1] && w[2..][1..] == [];
    assert Overwritten(s.table, w) == Overwritten(t, w[2..]) == t[CHILD := Done];
  }
}
