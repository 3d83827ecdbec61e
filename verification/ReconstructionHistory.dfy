/**
 The reconstruction protocol told from outside: no instance of a task is lost or made up, the task
 table catches up with what happened last, and every instance can still be run wherever it is sent.
 */
module ReconstructionHistory {
  import opened Reconstruction

  lemma {:induction false} RunExtends(s: System, run: seq<Action>, a: Action)
    ensures Feasible(s, run + [a]) <==> Feasible(s, run) && Enabled(Run(s, run), a)
    ensures Feasible(s, run + [a]) ==> Run(s, run + [a]) == Step(Run(s, run), a)
    decreases |run|
  {
    if run == [] {
      assert run + [a] == [a] && [a][1..] == [];
    } else {
      assert (run + [a])[0] == run[0] && (run + [a])[1..] == run[1..] + [a];
      if Enabled(s, run[0]) {
        RunExtends(Step(s, run[0]), run[1..], a);
      }
    }
  }

  // ---- Conservation of instances ----

  /** The action begins an instance: a submission, or a test-and-set that finds the task lost, or done
      when its caller takes a done task too. */
  predicate Begins(s: System, a: Action, t: TaskId)
    requires Enabled(s, a)
  {
    || (a.Submit? && a.task == t)
    || (a.TestAndSet? && a.task == t && (s.table[t] == Lost || (s.table[t] == Done && !a.onlyLost)))
  }

  /** The action ends an instance: it completes or fails on its worker, or dies with its node. */
  predicate Ends(s: System, a: Action, t: TaskId)
    requires Enabled(s, a)
  {
    (a.Complete? || a.Fail? || a.Drop?) && s.held[a.i].task == t
  }

  function Begun(s: System, run: seq<Action>, t: TaskId): nat
    requires Feasible(s, run)
    decreases |run|
  {
    if run == [] then 0
    else (if Begins(s, run[0], t) then 1 else 0) + Begun(Step(s, run[0]), run[1..], t)
  }

  function Ended(s: System, run: seq<Action>, t: TaskId): nat
    requires Feasible(s, run)
    decreases |run|
  {
    if run == [] then 0
    else (if Ends(s, run[0], t) then 1 else 0) + Ended(Step(s, run[0]), run[1..], t)
  }

  lemma {:induction false} HeldCountErase(held: seq<Holding>, i: nat, t: TaskId)
    requires i < |held|
    ensures HeldCount(EraseHeld(held, i), t) + (if held[i].task == t then 1 else 0) == HeldCount(held, t)
  {
    if i == 0 {
      assert EraseHeld(held, 0) == held[1..];
    } else {
      assert EraseHeld(held, i)[0] == held[0] && EraseHeld(held, i)[1..] == EraseHeld(held[1..], i - 1);
      HeldCountErase(held[1..], i - 1, t);
    }
  }

  lemma {:induction false} HeldCountUpdate(held: seq<Holding>, i: nat, h: Holding, t: TaskId)
    requires i < |held| && h.task == held[i].task
    ensures HeldCount(held[i := h], t) == HeldCount(held, t)
  {
    if i == 0 {
      assert held[0 := h][1..] == held[1..];
    } else {
      assert held[i := h][0] == held[0] && held[i := h][1..] == held[1..][i - 1 := h];
      HeldCountUpdate(held[1..], i - 1, h, t);
    }
  }

  lemma {:induction false} HandOverCountAppend(wire: seq<Write>, w: Write, t: TaskId)
    ensures HandOverCount(wire + [w], t)
      == HandOverCount(wire, t) + if w.task == t && HandsOver(w.status) then 1 else 0
  {
    if wire == [] {
      assert wire + [w] == [w] && [w][1..] == [];
    } else {
      assert (wire + [w])[1..] == wire[1..] + [w];
      HandOverCountAppend(wire[1..], w, t);
    }
  }

  lemma {:induction false} HandOverCountErase(wire: seq<Write>, i: nat, t: TaskId)
    requires i < |wire|
    ensures HandOverCount(EraseWrite(wire, i), t)
      + (if wire[i].task == t && HandsOver(wire[i].status) then 1 else 0) == HandOverCount(wire, t)
  {
    if i == 0 {
      assert EraseWrite(wire, 0) == wire[1..];
    } else {
      assert EraseWrite(wire, i)[0] == wire[0] && EraseWrite(wire, i)[1..] == EraseWrite(wire[1..], i - 1);
      HandOverCountErase(wire[1..], i - 1, t);
    }
  }

  /** An action changes the number of instances of a task only by beginning or ending one. */
  lemma StepConserves(s: System, a: Action, t: TaskId)
    requires Enabled(s, a)
    ensures Instances(Step(s, a), t) + (if Ends(s, a, t) then 1 else 0)
      == Instances(s, t) + (if Begins(s, a, t) then 1 else 0)
  {
    hide HeldCount, HandOverCount, EraseHeld, EraseWrite;
    match a
    case Submit(n, u) => HeldCountAppend(s.held, Holding(n, u, Owed), t);
    case TestAndSet(n, u, onlyLost) => HeldCountAppend(s.held, Holding(n, u, Owed), t);
    case QueueHere(i) => AdvanceConserves(s, i, InQueue, Queued, t);
    case PassToGlobal(i) => GiveConserves(s, i, Waiting, t);
    case Place(i, to) => GiveConserves(s, i, Scheduled(to), t);
    case Accept(i) => AdvanceConserves(s, i, InQueue, Queued, t);
    case Assign(i) => AdvanceConserves(s, i, OnWorker, Running, t);
    case Complete(i) => GiveConserves(s, i, Done, t);
    case Fail(i) => GiveConserves(s, i, Lost, t);
    case Drop(i) => HeldCountErase(s.held, i, t);
    case Apply(w) => ApplyConserves(s, w, t);
  }

  lemma AdvanceConserves(s: System, i: nat, place: Place, status: Status, t: TaskId)
    requires i < |s.held| && !HandsOver(status)
    ensures Instances(Advance(s, i, place, status), t) == Instances(s, t)
  {
    var h := s.held[i];
    HeldCountUpdate(s.held, i, h.(place := place), t);
    HandOverCountAppend(s.wire, Write(h.node, h.task, status), t);
  }

  lemma GiveConserves(s: System, i: nat, status: Status, t: TaskId)
    requires i < |s.held|
    ensures Instances(Give(s, i, status), t) + (if s.held[i].task == t && !HandsOver(status) then 1 else 0)
      == Instances(s, t)
  {
    var h := s.held[i];
    HeldCountErase(s.held, i, t);
    HandOverCountAppend(s.wire, Write(h.node, h.task, status), t);
  }

  lemma ApplyConserves(s: System, w: nat, t: TaskId)
    requires w < |s.wire|
    ensures Instances(ApplyWrite(s, w), t) == Instances(s, t)
  {
    var x := s.wire[w];
    HandOverCountErase(s.wire, w, t);
    HeldCountAppend(s.held, Holding(Receiver(x.status), x.task, Noticed), t);
  }

  /** Over every run, whatever is submitted: the instances of a task that began are those that ended and
      those that are there, in a hand, in a queue, on a worker or inside a message. */
  lemma {:induction false} InstancesAreConserved(s: System, run: seq<Action>, t: TaskId)
    requires Feasible(s, run)
    ensures Instances(Run(s, run), t) + Ended(s, run, t) == Instances(s, t) + Begun(s, run, t)
    decreases |run|
  {
    if run != [] {
      StepConserves(s, run[0], t);
      hide Instances, Step, Begins, Ends;
      InstancesAreConserved(Step(s, run[0]), run[1..], t);
    }
  }

  // ---- The table catches up ----

  datatype Word = Nothing | Said(status: Status)

  /** What the last write on the way says about a task. */
  function LastWrite(wire: seq<Write>, t: TaskId): Word {
    if wire == [] then Nothing
    else
      var n := |wire| - 1;
      if wire[n].task == t then Said(wire[n].status) else LastWrite(wire[..n], t)
  }

  /** What the table will say once every write has arrived. */
  function LastWord(s: System, t: TaskId): Word {
    var w := LastWrite(s.wire, t);
    if w != Nothing then w else if t in s.table then Said(s.table[t]) else Nothing
  }

  /** What an action says about a task. */
  function Says(s: System, a: Action, t: TaskId): Word
    requires Enabled(s, a)
  {
    match a
    case Submit(_, _) => Nothing
    case TestAndSet(_, _, _) => if Begins(s, a, t) then Said(Reconstructing) else Nothing
    case QueueHere(i) => if s.held[i].task == t then Said(Queued) else Nothing
    case PassToGlobal(i) => if s.held[i].task == t then Said(Waiting) else Nothing
    case Place(i, to) => if s.held[i].task == t then Said(Scheduled(to)) else Nothing
    case Accept(i) => if s.held[i].task == t then Said(Queued) else Nothing
    case Assign(i) => if s.held[i].task == t then Said(Running) else Nothing
    case Complete(i) => if s.held[i].task == t then Said(Done) else Nothing
    case Fail(i) => if s.held[i].task == t then Said(Lost) else Nothing
    case Drop(_) => Nothing
    case Apply(_) => Nothing
  }

  /** What was said last, over a run. */
  function LastSaid(s: System, run: seq<Action>, t: TaskId, before: Word): Word
    requires Feasible(s, run)
    decreases |run|
  {
    if run == [] then before
    else
      var w := Says(s, run[0], t);
      LastSaid(Step(s, run[0]), run[1..], t, if w == Nothing then before else w)
  }

  lemma LastWriteAppend(wire: seq<Write>, w: Write, t: TaskId)
    ensures LastWrite(wire + [w], t) == if w.task == t then Said(w.status) else LastWrite(wire, t)
  {
    assert (wire + [w])[..|wire|] == wire;
  }

  lemma {:induction false} LastWriteIs(wire: seq<Write>, t: TaskId)
    ensures LastWrite(wire, t) == Nothing <==> forall j :: 0 <= j < |wire| ==> wire[j].task != t
  {
    if wire != [] {
      var n := |wire| - 1;
      LastWriteIs(wire[..n], t);
      assert forall j :: 0 <= j < n ==> wire[..n][j] == wire[j];
    }
  }

  /** Taking the first write about a task off the wire leaves the last one, if there is another. */
  lemma {:induction false} LastWriteErase(wire: seq<Write>, w: nat, t: TaskId)
    requires w < |wire|
    requires wire[w].task == t ==> forall j :: 0 <= j < w ==> wire[j].task != t
    ensures
      var rest := LastWrite(EraseWrite(wire, w), t);
      if wire[w].task == t && rest == Nothing then LastWrite(wire, t) == Said(wire[w].status)
      else LastWrite(wire, t) == rest
  {
    var n := |wire| - 1;
    if w == n {
      assert EraseWrite(wire, w) == wire[..n];
      LastWriteIs(wire[..n], t);
    } else {
      var e := EraseWrite(wire, w);
      assert e[n - 1] == wire[n] && e[..n - 1] == EraseWrite(wire[..n], w);
      LastWriteErase(wire[..n], w, t);
    }
  }

  /** A write that arrives changes nothing about what the table will say. */
  lemma ApplySaysNothing(s: System, w: nat, t: TaskId)
    requires Inv(s) && Enabled(s, Apply(w))
    ensures LastWord(ApplyWrite(s, w), t) == LastWord(s, t)
  {
    AppliesInOrder(s, w);
    LastWriteErase(s.wire, w, t);
  }

  lemma StepSays(s: System, a: Action, t: TaskId)
    requires Inv(s) && Enabled(s, a)
    ensures LastWord(Step(s, a), t) == if Says(s, a, t) == Nothing then LastWord(s, t) else Says(s, a, t)
  {
    hide LastWrite, Inv, EraseHeld;
    match a
    case Submit(_, _) =>
    case TestAndSet(_, _, _) => ClaimSays(s, a, t);
    case QueueHere(i) => LastWriteAppend(s.wire, Write(s.held[i].node, s.held[i].task, Queued), t);
    case PassToGlobal(i) => LastWriteAppend(s.wire, Write(s.held[i].node, s.held[i].task, Waiting), t);
    case Place(i, to) => LastWriteAppend(s.wire, Write(s.held[i].node, s.held[i].task, Scheduled(to)), t);
    case Accept(i) => LastWriteAppend(s.wire, Write(s.held[i].node, s.held[i].task, Queued), t);
    case Assign(i) => LastWriteAppend(s.wire, Write(s.held[i].node, s.held[i].task, Running), t);
    case Complete(i) => LastWriteAppend(s.wire, Write(s.held[i].node, s.held[i].task, Done), t);
    case Fail(i) => LastWriteAppend(s.wire, Write(s.held[i].node, s.held[i].task, Lost), t);
    case Drop(_) =>
    case Apply(w) => ApplySaysNothing(s, w, t);
  }

  /** The test-and-set of a finished task finds no write about it on the way. */
  lemma ClaimSays(s: System, a: Action, t: TaskId)
    requires Inv(s) && Enabled(s, a) && a.TestAndSet?
    ensures LastWord(Step(s, a), t) == if Begins(s, a, t) then Said(Reconstructing) else LastWord(s, t)
  {
    LastWriteIs(s.wire, t);
  }

  lemma {:induction false} LastWordIsLastSaid(s: System, run: seq<Action>, t: TaskId, before: Word)
    requires Inv(s) && Feasible(s, run) && UntouchedSubmissions(s, run) && before == LastWord(s, t)
    ensures LastWord(Run(s, run), t) == LastSaid(s, run, t, before)
    decreases |run|
  {
    if run != [] {
      StepKeepsIff(s, run[0]);
      StepSays(s, run[0], t);
      hide Inv, Step, LastWord, Says;
      LastWordIsLastSaid(Step(s, run[0]), run[1..], t, LastWord(Step(s, run[0]), t));
    }
  }

  /** Over every run whose submissions are of untouched tasks: once no write about a task is on its way,
      the table holds what was said about the task last, though every write took effect late. */
  lemma TableCatchesUp(run: seq<Action>, t: TaskId)
    requires Feasible(EMPTY_SYSTEM, run) && UntouchedSubmissions(EMPTY_SYSTEM, run)
    requires
      var s := Run(EMPTY_SYSTEM, run);
      forall j :: 0 <= j < |s.wire| ==> s.wire[j].task != t
    ensures
      var s := Run(EMPTY_SYSTEM, run);
      LastSaid(EMPTY_SYSTEM, run, t, Nothing) == if t in s.table then Said(s.table[t]) else Nothing
  {
    var s := Run(EMPTY_SYSTEM, run);
    LastWordIsLastSaid(EMPTY_SYSTEM, run, t, Nothing);
    LastWriteIs(s.wire, t);
  }

  /** What was said last about a task tells where its instance is. */
  predicate Located(h: Holding, w: Word) {
    match h.place
    case Owed => true
    case Noticed => w == Said(if h.node == GLOBAL then Waiting else Scheduled(h.node))
    case InQueue => w == Said(Queued)
    case OnWorker => w == Said(Running)
  }

  ghost predicate AllLocated(s: System) {
    && (forall i :: 0 <= i < |s.held| ==> Located(s.held[i], LastWord(s, s.held[i].task)))
    && (forall j :: 0 <= j < |s.wire| && s.wire[j].status.Scheduled? ==> s.wire[j].status.to != GLOBAL)
  }

  lemma AdvanceLocated(s: System, i: nat, place: Place, status: Status)
    requires Inv(s) && AllLocated(s) && i < |s.held|
    requires (place == InQueue && status == Queued) || (place == OnWorker && status == Running)
    ensures AllLocated(Advance(s, i, place, status))
  {
    hide LastWrite, FinishedIsQuiet, OneWriter, HolderWrites, Recorded;
    var h := s.held[i];
    var s' := Advance(s, i, place, status);
    forall k | 0 <= k < |s'.held| ensures Located(s'.held[k], LastWord(s', s'.held[k].task)) {
      LastWriteAppend(s.wire, Write(h.node, h.task, status), s'.held[k].task);
    }
  }

  lemma GiveLocated(s: System, i: nat, status: Status)
    requires Inv(s) && AllLocated(s) && i < |s.held| && (status.Scheduled? ==> status.to != GLOBAL)
    ensures AllLocated(Give(s, i, status))
  {
    hide LastWrite, FinishedIsQuiet, OneWriter, HolderWrites, Recorded;
    EraseHeldAt(s.held, i);
    var h := s.held[i];
    var s' := Give(s, i, status);
    forall k | 0 <= k < |s'.held| ensures Located(s'.held[k], LastWord(s', s'.held[k].task)) {
      LastWriteAppend(s.wire, Write(h.node, h.task, status), s'.held[k].task);
    }
  }

  lemma ApplyLocated(s: System, w: nat)
    requires Inv(s) && AllLocated(s) && Enabled(s, Apply(w))
    ensures AllLocated(ApplyWrite(s, w))
  {
    var x, s' := s.wire[w], ApplyWrite(s, w);
    EraseWriteAt(s.wire, w);
    forall k | 0 <= k < |s'.held| ensures Located(s'.held[k], LastWord(s', s'.held[k].task)) {
      ApplySaysNothing(s, w, s'.held[k].task);
      if k == |s.held| {
        HandOverIsLast(s, w);
      }
    }
  }

  /** A write that hands over is the only one about its task. */
  lemma HandOverIsLast(s: System, w: nat)
    requires Inv(s) && Enabled(s, Apply(w)) && Final(s.wire[w].status)
    ensures LastWord(s, s.wire[w].task) == Said(s.wire[w].status)
  {
    AppliesInOrder(s, w);
    LastWriteErase(s.wire, w, s.wire[w].task);
    LastWriteIs(EraseWrite(s.wire, w), s.wire[w].task);
    EraseWriteAt(s.wire, w);
  }

  lemma StepLocated(s: System, a: Action)
    requires Inv(s) && AllLocated(s) && Enabled(s, a) && UntouchedSubmission(s, a)
    ensures AllLocated(Step(s, a))
  {
    match a
    case Submit(n, t) =>
    case TestAndSet(n, t, onlyLost) => ClaimLocated(s, a);
    case QueueHere(i) => AdvanceLocated(s, i, InQueue, Queued);
    case PassToGlobal(i) => GiveLocated(s, i, Waiting);
    case Place(i, to) => GiveLocated(s, i, Scheduled(to));
    case Accept(i) => AdvanceLocated(s, i, InQueue, Queued);
    case Assign(i) => AdvanceLocated(s, i, OnWorker, Running);
    case Complete(i) => GiveLocated(s, i, Done);
    case Fail(i) => GiveLocated(s, i, Lost);
    case Drop(i) => EraseHeldAt(s.held, i);
    case Apply(w) => ApplyLocated(s, w);
  }

  lemma ClaimLocated(s: System, a: Action)
    requires Inv(s) && AllLocated(s) && Enabled(s, a) && a.TestAndSet?
    ensures AllLocated(Step(s, a))
  {
    var s' := Step(s, a);
    forall k | 0 <= k < |s'.held| ensures Located(s'.held[k], LastWord(s', s'.held[k].task)) {
      ClaimSays(s, a, s'.held[k].task);
    }
  }

  /** Over every run whose submissions are of untouched tasks: a queued instance has been said to be
      queued, a running one to be running, and one that is on its way to a node to be scheduled there. */
  lemma {:induction false} RunLocates(s: System, run: seq<Action>)
    requires Inv(s) && AllLocated(s) && Feasible(s, run) && UntouchedSubmissions(s, run)
    ensures AllLocated(Run(s, run))
    decreases |run|
  {
    if run != [] {
      StepKeepsIff(s, run[0]);
      StepLocated(s, run[0]);
      hide Inv, Step, AllLocated;
      RunLocates(Step(s, run[0]), run[1..]);
    }
  }

  // ---- Every instance can still be run ----

  /** A run without submissions from one state to another. */
  ghost predicate Leads(s: System, s': System) {
    exists run :: Feasible(s, run) && NoSubmission(run) && Run(s, run) == s'
  }

  lemma LeadsOn(a: System, b: System, c: System)
    requires Leads(a, b) && Leads(b, c)
    ensures Leads(a, c)
  {
    var r1 :| Feasible(a, r1) && NoSubmission(r1) && Run(a, r1) == b;
    var r2 :| Feasible(b, r2) && NoSubmission(r2) && Run(b, r2) == c;
    Concatenate(a, r1, r2);
    assert NoSubmission(r1 + r2);
  }

  lemma OneStep(s: System, a: Action)
    requires Enabled(s, a) && !a.Submit?
    ensures Leads(s, Step(s, a))
  {
    Prepend(s, a, []);
    assert NoSubmission([a] + []);
  }

  /** A write arrives, and with it, if it hands over, the notification. */
  lemma Arrives(s: System, w: nat) returns (s': System)
    requires w < |s.wire|
    ensures Leads(s, s') && s.wire[w].task in s'.table && s'.table[s.wire[w].task] == s.wire[w].status
    ensures
      var x := s.wire[w];
      HandsOver(x.status) ==> Holding(Receiver(x.status), x.task, Noticed) in s'.held
  {
    var run := Flush(s, w);
    s' := Run(s, run);
  }

  /** An instance that a node holds, in whatever place, can get onto a worker of that node. */
  lemma GetsToWorker(s: System, i: nat) returns (s': System)
    requires i < |s.held| && s.held[i].node != GLOBAL
    ensures Leads(s, s') && i < |s'.held| && s'.held[i] == s.held[i].(place := OnWorker)
  {
    var h := s.held[i];
    assert Leads(s, s) by {
      assert Feasible(s, []) && Run(s, []) == s && NoSubmission([]);
    }
    match h.place
    case Owed =>
      OneStep(s, QueueHere(i));
      var s1 := Step(s, QueueHere(i));
      OneStep(s1, Assign(i));
      s' := Step(s1, Assign(i));
      LeadsOn(s, s1, s');
    case Noticed =>
      OneStep(s, Accept(i));
      var s1 := Step(s, Accept(i));
      OneStep(s1, Assign(i));
      s' := Step(s1, Assign(i));
      LeadsOn(s, s1, s');
    case InQueue =>
      OneStep(s, Assign(i));
      s' := Step(s, Assign(i));
    case OnWorker => s' := s;
  }

  /** An instance that awaits placement can get onto a worker of any node. */
  lemma PlacedGetsToWorker(s: System, i: nat, to: NodeId) returns (s': System, k: nat)
    requires HeldAt(s, i, Noticed) && s.held[i].node == GLOBAL && to != GLOBAL
    ensures Leads(s, s') && k < |s'.held| && s'.held[k] == Holding(to, s.held[i].task, OnWorker)
  {
    var t := s.held[i].task;
    OneStep(s, Action.Place(i, to));
    var s1 := Step(s, Action.Place(i, to));
    assert s1.wire[|s.wire|] == Write(GLOBAL, t, Scheduled(to));
    var s2 := Arrives(s1, |s.wire|);
    LeadsOn(s, s1, s2);
    k :| 0 <= k < |s2.held| && s2.held[k] == Holding(to, t, Noticed);
    s' := GetsToWorker(s2, k);
    LeadsOn(s, s2, s');
  }

  /** An instance that a node passes on can get onto a worker of any node. */
  lemma PassedGetsToWorker(s: System, i: nat, to: NodeId) returns (s': System, k: nat)
    requires HeldAt(s, i, Owed) && to != GLOBAL
    ensures Leads(s, s') && k < |s'.held| && s'.held[k] == Holding(to, s.held[i].task, OnWorker)
  {
    var h := s.held[i];
    OneStep(s, PassToGlobal(i));
    var s1 := Step(s, PassToGlobal(i));
    assert s1.wire[|s.wire|] == Write(h.node, h.task, Waiting);
    var s2 := Arrives(s1, |s.wire|);
    LeadsOn(s, s1, s2);
    var j :| 0 <= j < |s2.held| && s2.held[j] == Holding(GLOBAL, h.task, Noticed);
    var s3, k3 := PlacedGetsToWorker(s2, j, to);
    s', k := s3, k3;
    LeadsOn(s, s2, s');
  }

  /** From every state: an instance on a worker can complete or fail, and the table then says which; and
      a lost task can then be claimed by any node. */
  lemma FinishesAndIsRecorded(s: System, i: nat, n: NodeId) returns (done: System, lost: System)
    requires HeldAt(s, i, OnWorker) && n != GLOBAL
    ensures Leads(s, done) && s.held[i].task in done.table && done.table[s.held[i].task] == Done
    ensures Leads(s, lost) && s.held[i].task in lost.table && lost.table[s.held[i].task] == Lost
    ensures
      var claim := TestAndSet(n, s.held[i].task, true);
      && Enabled(lost, claim) && Enabled(done, claim)
      && Step(lost, claim).held == lost.held + [Holding(n, s.held[i].task, Owed)]
      && Step(done, claim) == done
  {
    var h := s.held[i];
    OneStep(s, Complete(i));
    var s1 := Step(s, Complete(i));
    assert s1.wire[|s.wire|] == Write(h.node, h.task, Done);
    done := Arrives(s1, |s.wire|);
    LeadsOn(s, s1, done);
    OneStep(s, Fail(i));
    var s2 := Step(s, Fail(i));
    assert s2.wire[|s.wire|] == Write(h.node, h.task, Lost);
    lost := Arrives(s2, |s.wire|);
    LeadsOn(s, s2, lost);
  }
}
