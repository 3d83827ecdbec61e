/**
 GPU reservations told from outside: every call is answered, in the order of the calls of its client;
 the answers are the transactions that took effect; and a client that nobody disturbs succeeds.
 */
module GpuHistory {
  import opened IdLists
  import opened GpuReservation

  lemma {:induction false} RunExtends(s: System, run: seq<Action>, a: Action)
    ensures Feasible(s, run + [a]) <==> Feasible(s, run) && Enabled(Run(s, run), a)
    ensures Feasible(s, run + [a]) ==> Run(s, run + [a]) == Step(Run(s, run), a)
    decreases |run|
  {
    if run == [] {
      assert run + [a] == [a] && [a][1..] == [];
    } else {
      assert (run + [a])[0] == run[0] && (run + [a])[1..] == run[1..] + [a];
      if Enabled(s, run[0]) {
        RunExtends(Step(s, run[0]), run[1..], a);
      }
    }
  }

  // ---- Every call is answered once ----

  datatype Request = Request(node: NodeId, op: Op)

  /** What a client has asked for, in order. */
  function Asked(run: seq<Action>, c: ClientId): seq<Request> {
    if run == [] then []
    else
      var n := |run| - 1;
      Asked(run[..n], c) + if run[n].Call? && run[n].client == c then [Request(run[n].node, run[n].op)] else []
  }

  /** What a client has been answered, in order. */
  function Answered(rs: seq<Result>, c: ClientId): seq<Request> {
    if rs == [] then []
    else
      var n := |rs| - 1;
      Answered(rs[..n], c) + if rs[n].client == c then [Request(rs[n].node, rs[n].op)] else []
  }

  function Open(p: Phase): seq<Request> {
    if p.Idle? then [] else [Request(p.node, p.op)]
  }

  lemma AnsweredMore(rs: seq<Result>, r: Result, c: ClientId)
    ensures Answered(rs + [r], c) == Answered(rs, c) + if r.client == c then [Request(r.node, r.op)] else []
  {
    assert (rs + [r])[..|rs|] == rs;
  }

  /** One action opens a request, or answers the one that is open, or leaves both as they are. */
  lemma StepAnswers(s: System, a: Action, c: ClientId)
    requires Enabled(s, a)
    ensures Answered(Step(s, a).results, c) + Open(PhaseOf(Step(s, a), c))
      == Answered(s.results, c) + Open(PhaseOf(s, c))
         + if a.Call? && a.client == c then [Request(a.node, a.op)] else []
  {
    hide Answered;
    match a
    case Execute(d, gpus) =>
      var p := s.clients[d];
      AnsweredMore(s.results, Result(d, p.node, p.op, []), c);
      AnsweredMore(s.results, Result(d, p.node, p.op, gpus), c);
    case _ =>
  }

  /** Over every run: a client's calls are its answers, in the order of the calls and each for the node
      and operation that was asked for, followed by the one call that is still open, if any. */
  lemma {:induction false} CallsAreAnswered(s: System, run: seq<Action>, c: ClientId)
    requires Feasible(s, run) && s.results == [] && s.clients == map[]
    ensures Asked(run, c) == Answered(Run(s, run).results, c) + Open(PhaseOf(Run(s, run), c))
    decreases |run|
  {
    if run != [] {
      var n := |run| - 1;
      var fs, a := run[..n], run[n];
      assert run == fs + [a];
      RunExtends(s, fs, a);
      CallsAreAnswered(s, fs, c);
      StepAnswers(Run(s, fs), a, c);
    }
  }

  // ---- The answers are the transactions ----

  /** The answer is one that took effect: a removal, or a reservation with as many GPUs as asked for. */
  function EntryOf(r: Result): seq<Entry> {
    match r.op
    case Reserving(d, num) => if |r.gpus| == num then [Took(d, r.gpus)] else []
    case Removing(d) => [Returned(d)]
  }

  /** The transactions on a node that the answers tell of. */
  function Told(rs: seq<Result>, node: NodeId): seq<Entry> {
    if rs == [] then []
    else
      var n := |rs| - 1;
      Told(rs[..n], node) + if rs[n].node == node then EntryOf(rs[n]) else []
  }

  lemma ToldMore(rs: seq<Result>, r: Result, node: NodeId)
    ensures Told(rs + [r], node) == Told(rs, node) + if r.node == node then EntryOf(r) else []
  {
    assert (rs + [r])[..|rs|] == rs;
  }

  ghost predicate AllTold(s: System) {
    forall node :: node in s.nodes ==> s.nodes[node].log == Told(s.results, node)
  }

  lemma StepTells(s: System, a: Action)
    requires Inv(s) && Enabled(s, a) && AllTold(s)
    ensures AllTold(Step(s, a))
  {
    if a.Execute? {
      ExecuteTells(s, a.client, a.gpus);
    }
  }

  /** With a proper table no number of GPUs is refused that fits. */
  lemma ExecuteTells(s: System, c: ClientId, gpus: seq<GpuId>)
    requires Inv(s) && Enabled(s, Execute(c, gpus)) && AllTold(s)
    ensures AllTold(Commit(s, c, gpus))
  {
    var p, s' := s.clients[c], Commit(s, c, gpus);
    assert PhaseOk(s.nodes, p);
    NothingAlwaysFits(p.table, s.nodes[p.node].total);
    hide Told, TableOk, Used, NodeOk, PhaseOk, Fresh, Apply;
    forall node | node in s'.nodes ensures s'.nodes[node].log == Told(s'.results, node) {
      ToldMore(s.results, Result(c, p.node, p.op, []), node);
      ToldMore(s.results, Result(c, p.node, p.op, gpus), node);
    }
  }

  lemma NothingAlwaysFits(t: Table, total: nat)
    requires TableOk(t, total)
    ensures |Used(t)| <= total
  {
    BelowCounts(Used(t), total);
  }

  /** Over every run of any number of clients: the table of each node is what its clients were told, one
      after the other. */
  lemma {:induction false} TablesAreTold(s: System, run: seq<Action>)
    requires Inv(s) && Feasible(s, run) && AllTold(s)
    ensures AllTold(Run(s, run)) && Inv(Run(s, run))
    ensures forall node :: node in Run(s, run).nodes ==>
      Run(s, run).nodes[node].table == Replay(Told(Run(s, run).results, node))
    decreases |run|
  {
    if run == [] {
      forall node | node in s.nodes ensures s.nodes[node].table == Replay(Told(s.results, node)) {
        assert NodeOk(s.nodes[node]);
      }
    } else {
      StepKeeps(s, run[0]);
      StepTells(s, run[0]);
      hide Inv, AllTold, Step, Enabled;
      TablesAreTold(Step(s, run[0]), run[1..]);
    }
  }

  /** A driver's GPUs by the log alone: what it took since it was last removed. */
  function Holdings(log: seq<Entry>, d: DriverId): seq<GpuId> {
    if log == [] then []
    else
      var n := |log| - 1;
      match log[n]
      case Took(e, gpus) => if e == d then Holdings(log[..n], d) + gpus else Holdings(log[..n], d)
      case Returned(e) => if e == d then [] else Holdings(log[..n], d)
  }

  lemma {:induction false} ReplayHolds(log: seq<Entry>, d: DriverId)
    ensures Lookup(Replay(log), d) == Holdings(log, d)
  {
    if log != [] {
      ReplayHolds(log[..|log| - 1], d);
    }
  }

  /** Over every run: on every node a driver has the GPUs that clients were given for it since a client
      was last told that it was removed. */
  lemma DriversHoldWhatWasTold(s: System, run: seq<Action>, node: NodeId, d: DriverId)
    requires Inv(s) && Feasible(s, run) && AllTold(s) && node in Run(s, run).nodes
    ensures Lookup(Run(s, run).nodes[node].table, d) == Holdings(Told(Run(s, run).results, node), d)
  {
    TablesAreTold(s, run);
    ReplayHolds(Told(Run(s, run).results, node), d);
  }

  // ---- A client that nobody disturbs ----

  lemma UndisturbedLooks(s: System, c: ClientId, node: NodeId, op: Op)
    requires PhaseOf(s, c).Idle? && node in s.nodes
    ensures
      var s1 := Put(s, c, Starting(node, op));
      var s2 := Put(s1, c, Watching(node, op, s.nodes[node].version));
      var s3 := Put(s2, c, Looked(node, op, s.nodes[node].version, s.nodes[node].table));
      && Enabled(s, Call(c, node, op)) && Step(s, Call(c, node, op)) == s1
      && Enabled(s1, Watch(c)) && Step(s1, Watch(c)) == s2
      && Enabled(s2, Look(c)) && Step(s2, Look(c)) == s3
  {
  }

  lemma UndisturbedReads(s: System, c: ClientId, node: NodeId, op: Op)
    requires PhaseOf(s, c).Idle? && node in s.nodes
    ensures
      var run, n := [Call(c, node, op), Watch(c), Look(c)], s.nodes[node];
      Feasible(s, run) && Run(s, run) == Put(s, c, Looked(node, op, n.version, n.table))
  {
    UndisturbedLooks(s, c, node, op);
    var a, b, d := Call(c, node, op), Watch(c), Look(c);
    assert Feasible(s, []) && Run(s, []) == s;
    RunExtends(s, [], a);
    RunExtends(s, [a], b);
    RunExtends(s, [a, b], d);
    assert [] + [a] == [a] && [a] + [b] == [a, b] && [a, b] + [d] == [a, b, d];
    hide Step, Enabled;
  }

  /** The client is idle again and has been answered; a reservation has brought the GPUs if the node had
      enough of them and none otherwise, a removal has freed the driver's. */
  ghost predicate Succeeds(s: System, s': System, c: ClientId, node: NodeId, op: Op, gpus: seq<GpuId>)
    requires node in s.nodes
  {
    var n := s.nodes[node];
    var fits := op.Reserving? && |Used(n.table)| + op.num <= n.total;
    && PhaseOf(s', c).Idle? && s'.nodes.Keys == s.nodes.Keys
    && s'.results == s.results + [Result(c, node, op, if fits then gpus else [])]
    && (fits ==> Lookup(s'.nodes[node].table, op.driver) == Lookup(n.table, op.driver) + gpus)
    && (op.Reserving? && !fits ==> s'.nodes[node] == n)
    && (op.Removing? ==> op.driver !in s'.nodes[node].table)
    && (forall d :: d != op.driver ==> Lookup(s'.nodes[node].table, d) == Lookup(n.table, d))
  }

  lemma UndisturbedExecutes(s: System, c: ClientId, node: NodeId, op: Op, gpus: seq<GpuId>)
    requires PhaseOf(s, c).Idle? && node in s.nodes
    ensures
      var s1 := Put(s, c, Looked(node, op, s.nodes[node].version, s.nodes[node].table));
      Succeeds(s, Commit(s1, c, gpus), c, node, op, gpus)
  {
    hide Used;
  }

  /** From every state: an idle client that calls, watches, looks and executes without anyone else in
      between gets its GPUs if the node has enough, and is told that it gets none otherwise; a removal
      that nobody disturbs frees all of the driver's GPUs. */
  lemma UndisturbedSucceeds(s: System, c: ClientId, node: NodeId, op: Op, gpus: seq<GpuId>)
    requires PhaseOf(s, c).Idle? && node in s.nodes
    requires
      var n := s.nodes[node];
      op.Reserving? && |Used(n.table)| + op.num <= n.total ==> Granted(n.table, n.total, op.num, gpus)
    ensures
      var run := [Call(c, node, op), Watch(c), Look(c), Execute(c, gpus)];
      Feasible(s, run) && Succeeds(s, Run(s, run), c, node, op, gpus)
  {
    hide Feasible, Run, Succeeds, Granted, Commit;
    UndisturbedReads(s, c, node, op);
    UndisturbedExecutes(s, c, node, op, gpus);
    var run := [Call(c, node, op), Watch(c), Look(c)];
    RunExtends(s, run, Execute(c, gpus));
    assert run + [Execute(c, gpus)] == [Call(c, node, op), Watch(c), Look(c), Execute(c, gpus)];
  }
}
