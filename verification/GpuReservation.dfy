/**
 GPU reservations: for every node the database holds, per driver, the GPUs that its actors have
 reserved. Clients change this table in optimistic transactions: they watch the key, read the
 table, and write a new one, which takes effect only if nobody has changed the key since.
 */
module GpuReservation {
  import opened IdLists

  type NodeId = nat
  type ClientId = nat
  type DriverId = nat
  type GpuId = nat

  type Table = map<DriverId, seq<GpuId>>

  function Used(t: Table): set<GpuId> {
    set d, g | d in t && g in t[d] :: g
  }

  /** No GPU is listed twice, for one driver or for two, and all exist. */
  ghost predicate TableOk(t: Table, total: nat) {
    && (forall d :: d in t ==> NoRepeat(t[d]))
    && (forall d, e, g :: d in t && e in t && g in t[d] && g in t[e] ==> d == e)
    && (forall d, g :: d in t && g in t[d] ==> g < total)
  }

  function Lookup(t: Table, d: DriverId): seq<GpuId> {
    if d in t then t[d] else []
  }

  function Reserve(t: Table, d: DriverId, gpus: seq<GpuId>): Table {
    t[d := Lookup(t, d) + gpus]
  }

  /** Different GPUs of the node, none of which is used. */
  ghost predicate Fresh(t: Table, total: nat, gpus: seq<GpuId>) {
    NoRepeat(gpus) && forall g :: g in gpus ==> g < total && g !in Used(t)
  }

  lemma ReserveKeeps(t: Table, total: nat, d: DriverId, gpus: seq<GpuId>)
    requires TableOk(t, total) && Fresh(t, total, gpus)
    ensures TableOk(Reserve(t, d, gpus), total)
    ensures Used(Reserve(t, d, gpus)) == Used(t) + (set g | g in gpus)
  {
    var t', had := Reserve(t, d, gpus), Lookup(t, d);
    forall g | g in gpus ensures g !in had {
      assert d in t && g in t[d] ==> g in Used(t);
    }
    AppendNoRepeat(had, gpus);
    forall e, g | e in t && e != d && g in t[e] ensures g !in t'[d] {
      assert g in Used(t);
    }
    forall g ensures g in Used(t') <==> g in Used(t) || g in gpus {
      if g in Used(t) {
        var e :| e in t && g in t[e];
        assert e in t' && g in t'[e];
      }
      if g in gpus {
        assert d in t' && g in t'[d];
      }
    }
  }

  lemma ReleaseKeeps(t: Table, total: nat, d: DriverId)
    requires TableOk(t, total)
    ensures TableOk(t - {d}, total)
    ensures Used(t - {d}) == Used(t) - (set g | g in Lookup(t, d))
  {
    var t' := t - {d};
    forall g ensures g in Used(t') <==> g in Used(t) && g !in Lookup(t, d) {
      if g in Used(t) && g !in Lookup(t, d) {
        var e :| e in t && g in t[e];
        assert e in t' && g in t'[e];
      }
    }
  }

  // ---- One round of a reservation ----

  /** What the drivers other than those still to be looked at use. */
  function UsedBut(t: Table, todo: set<DriverId>): set<GpuId> {
    set d, g | d in t && d !in todo && g in t[d] :: g
  }

  lemma UsedOneMore(t: Table, total: nat, todo: set<DriverId>, d: DriverId)
    requires TableOk(t, total) && d in t && d in todo
    ensures UsedBut(t, todo - {d}) == UsedBut(t, todo) + AsSet(t[d])
    ensures forall g :: g in t[d] ==> g !in UsedBut(t, todo)
  {
  }

  /** All GPUs in use, driver by driver in whatever order: the two assertions of the program about
      this list, that it is not longer than the node has GPUs and has no repeats, hold. */
  method ListUsed(t: Table, total: nat) returns (all: seq<GpuId>)
    requires TableOk(t, total)
    ensures NoRepeat(all) && AsSet(all) == Used(t) && |all| <= total
  {
    all := [];
    var todo := t.Keys;
    while todo != {}
      invariant todo <= t.Keys && NoRepeat(all) && AsSet(all) == UsedBut(t, todo)
      decreases |todo|
    {
      var d :| d in todo;
      UsedOneMore(t, total, todo, d);
      AppendNoRepeat(all, t[d]);
      AppendSet(all, t[d]);
      hide TableOk, UsedBut, AsSet, NoRepeat;
      todo := todo - {d};
      all := all + t[d];
    }
    assert UsedBut(t, {}) == Used(t);
    DistinctIff(all);
    BelowCounts(Used(t), total);
  }

  lemma AppendNoRepeat(a: seq<nat>, b: seq<nat>)
    requires NoRepeat(a) && NoRepeat(b) && forall x :: x in b ==> x !in AsSet(a)
    ensures NoRepeat(a + b)
  {
    var s := a + b;
    forall i, j | 0 <= i < j < |s| ensures s[i] != s[j] {
      if i < |a| <= j {
        assert s[j] == b[j - |a|] && s[j] in b && s[i] == a[i];
      }
    }
  }

  lemma AppendSet(a: seq<nat>, b: seq<nat>)
    ensures AsSet(a + b) == AsSet(a) + AsSet(b)
  {
  }

  lemma {:induction false} BelowCounts(s: set<nat>, n: nat)
    requires forall x :: x in s ==> x < n
    ensures |s| <= n
  {
    if n == 0 {
      assert s == {};
    } else {
      var rest := s - {n - 1};
      BelowCounts(rest, n - 1);
      if n - 1 in s {
        assert s == rest + {n - 1};
      } else {
        assert s == rest;
      }
    }
  }

  function Range(n: nat): (r: set<nat>)
    ensures |r| == n && forall x: nat :: x in r <==> x < n
  {
    if n == 0 then {} else Range(n - 1) + {n - 1}
  }

  /** The outcome of one round: nothing, or the requested number of unused GPUs. */
  ghost predicate Granted(t: Table, total: nat, num: nat, gpus: seq<GpuId>) {
    Fresh(t, total, gpus) && |gpus| == num
  }

  /** One round, up to the write: `enough` says whether a new table is to be written. */
  method PlanReservation(t: Table, total: nat, num: nat, d: DriverId)
    returns (enough: bool, gpus: seq<GpuId>, t': Table)
    requires TableOk(t, total)
    ensures enough == (|Used(t)| + num <= total)
    ensures if enough then Granted(t, total, num, gpus) && t' == Reserve(t, d, gpus) else gpus == [] && t' == t
  {
    hide Used, Fresh, TableOk, NoRepeat, AsSet, Range;
    var all := ListUsed(t, total);
    DistinctIff(all);
    gpus, t' := [], t;
    enough := total - |all| >= num;
    if enough {
      var free := FreeGpus(all, total);
      FreeCounts(t, total, free);
      gpus := TakeSome(free, num);
      TakenAreFresh(t, total, gpus);
      if d !in t' {
        t' := t'[d := []];
      }
      t' := t'[d := t'[d] + gpus];
      assert t' == Reserve(t, d, gpus);
    }
  }

  method FreeGpus(all: seq<GpuId>, total: nat) returns (free: set<GpuId>)
    ensures free == Range(total) - AsSet(all)
  {
    free := Range(total);
    for i := 0 to |all|
      invariant free == Range(total) - AsSet(all[..i])
    {
      assert all[..i + 1] == all[..i] + [all[i]];
      AppendSet(all[..i], [all[i]]);
      free := free - {all[i]};
    }
    assert all[..|all|] == all;
  }

  lemma FreeCounts(t: Table, total: nat, free: set<GpuId>)
    requires TableOk(t, total) && free == Range(total) - Used(t)
    ensures |free| == total - |Used(t)|
  {
    assert Used(t) <= Range(total);
    assert Range(total) == free + Used(t);
  }

  lemma TakenAreFresh(t: Table, total: nat, gpus: seq<GpuId>)
    requires NoRepeat(gpus) && AsSet(gpus) <= Range(total) - Used(t)
    ensures Fresh(t, total, gpus)
  {
    forall g | g in gpus ensures g < total && g !in Used(t) {
      assert g in AsSet(gpus);
    }
  }

  /** The first `num` elements in whatever order the set is walked. */
  method TakeSome(free: set<GpuId>, num: nat) returns (gpus: seq<GpuId>)
    requires num <= |free|
    ensures NoRepeat(gpus) && |gpus| == num && AsSet(gpus) <= free
  {
    gpus := [];
    var left := free;
    while |gpus| < num
      invariant |gpus| <= num && left <= free && |left| == |free| - |gpus|
      invariant NoRepeat(gpus) && AsSet(gpus) == free - left
    {
      var g :| g in left;
      AppendNoRepeat(gpus, [g]);
      AppendSet(gpus, [g]);
      gpus := gpus + [g];
      left := left - {g};
    }
  }

  /** The retry loop. Round `i` reads `tables[i]`, and its write takes effect if `commits[i]`. The
      last round ends the loop. Only what the last round planned is returned. */
  method AttemptToReserve(tables: seq<Table>, commits: seq<bool>, total: nat, num: nat, d: DriverId)
    returns (gpus: seq<GpuId>, round: nat)
    requires |tables| == |commits| > 0 && forall i :: 0 <= i < |tables| ==> TableOk(tables[i], total)
    requires commits[|commits| - 1]
    ensures round < |tables| && forall i :: 0 <= i < round ==> !commits[i] && |Used(tables[i])| + num <= total
    ensures
      if |Used(tables[round])| + num <= total
      then commits[round] && Granted(tables[round], total, num, gpus)
      else gpus == []
  {
    gpus, round := [], 0;
    while true
      invariant round < |tables| && gpus == []
      invariant forall i :: 0 <= i < round ==> !commits[i] && |Used(tables[i])| + num <= total
      decreases |tables| - round
    {
      var enough, t';
      enough, gpus, t' := PlanReservation(tables[round], total, num, d);
      if !enough || commits[round] {
        return;
      }
      gpus := [];
      round := round + 1;
    }
  }

  /** The retry loop of a driver's removal: what is written is the table of the last round without
      the driver, and nothing is written before. */
  method RemoveDriver(tables: seq<Table>, commits: seq<bool>, d: DriverId) returns (t': Table, round: nat)
    requires |tables| == |commits| > 0 && commits[|commits| - 1]
    ensures round < |tables| && commits[round] && forall i :: 0 <= i < round ==> !commits[i]
    ensures t' == tables[round] - {d}
  {
    round := 0;
    while true
      invariant round < |tables| && forall i :: 0 <= i < round ==> !commits[i]
      decreases |tables| - round
    {
      t' := tables[round];
      if d in t' {
        t' := t' - {d};
      }
      assert t' == tables[round] - {d};
      if commits[round] {
        return;
      }
      round := round + 1;
    }
  }

  /** What the rounds of one node's transactions read, and whether their writes take effect. */
  datatype Rounds = Rounds(tables: seq<Table>, commits: seq<bool>, total: nat)

  ghost predicate RoundsOk(x: Rounds) {
    && |x.tables| == |x.commits| > 0 && x.commits[|x.commits| - 1]
    && forall i :: 0 <= i < |x.tables| ==> TableOk(x.tables[i], x.total)
  }

  /** All rounds before `round` saw enough GPUs and lost the race. */
  predicate Reached(x: Rounds, num: nat, round: nat) {
    && round < |x.tables| && round < |x.commits|
    && forall i :: 0 <= i < round ==> !x.commits[i] && |Used(x.tables[i])| + num <= x.total
  }

  /** Some round is reached that does not see enough GPUs. */
  ghost predicate Refuses(x: Rounds, num: nat) {
    exists round: nat :: Reached(x, num, round) && |Used(x.tables[round])| + num > x.total
  }

  /** Try to reserve on the nodes in turn. The first node that does not refuse is taken, with GPUs that
      are unused in the table that its committing round replaces. Without GPUs any node will do. */
  method SelectLocalScheduler(nodes: seq<Rounds>, num: nat, d: DriverId, choice: nat)
    returns (node: int, gpus: seq<GpuId>, round: nat)
    requires forall i :: 0 <= i < |nodes| ==> RoundsOk(nodes[i])
    requires num == 0 ==> choice < |nodes|
    ensures num == 0 ==> node == choice && gpus == []
    ensures num > 0 && node == -1 ==> gpus == [] && forall i :: 0 <= i < |nodes| ==> Refuses(nodes[i], num)
    ensures node == -1 || 0 <= node < |nodes|
    ensures num > 0 && node != -1 ==>
      var x := nodes[node];
      && (forall i :: 0 <= i < node ==> Refuses(nodes[i], num))
      && Reached(x, num, round) && x.commits[round] && Granted(x.tables[round], x.total, num, gpus)
  {
    if num == 0 {
      return choice, [], 0;
    }
    hide TableOk, Used, Fresh;
    for i := 0 to |nodes|
      invariant forall j :: 0 <= j < i ==> Refuses(nodes[j], num)
    {
      assert RoundsOk(nodes[i]);
      gpus, round := AttemptToReserve(nodes[i].tables, nodes[i].commits, nodes[i].total, num, d);
      assert Reached(nodes[i], num, round);
      if |gpus| == num {
        return i, gpus, round;
      }
      assert gpus == [];
    }
    return -1, [], 0;
  }

  // ---- Many clients ----

  datatype Entry = Took(driver: DriverId, gpus: seq<GpuId>) | Returned(driver: DriverId)

  /** `version` counts the changes of the key; `log` lists the transactions in the order in which
      they took effect. The program stores neither. */
  datatype Node = Node(total: nat, table: Table, version: nat, log: seq<Entry>)

  datatype Op = Reserving(driver: DriverId, num: nat) | Removing(driver: DriverId)

  datatype Phase =
    | Idle
    | Starting(node: NodeId, op: Op)
    | Watching(node: NodeId, op: Op, version: nat)
    | Looked(node: NodeId, op: Op, version: nat, table: Table)

  datatype Result = Result(client: ClientId, node: NodeId, op: Op, gpus: seq<GpuId>)

  datatype System = System(nodes: map<NodeId, Node>, clients: map<ClientId, Phase>, results: seq<Result>)

  datatype Action =
    | Call(client: ClientId, node: NodeId, op: Op)
    | Watch(client: ClientId)
    | Look(client: ClientId)
    | Execute(client: ClientId, gpus: seq<GpuId>)
    | Touch(node: NodeId)

  function PhaseOf(s: System, c: ClientId): Phase {
    if c in s.clients then s.clients[c] else Idle
  }

  function Put(s: System, c: ClientId, p: Phase): System {
    s.(clients := s.clients[c := p])
  }

  function Apply(t: Table, e: Entry): Table {
    match e
    case Took(d, gpus) => Reserve(t, d, gpus)
    case Returned(d) => t - {d}
  }

  predicate Enough(p: Phase, total: nat)
    requires p.Looked? && p.op.Reserving?
  {
    |Used(p.table)| + p.op.num <= total
  }

  /** A client that has read the table writes a new one. Without enough GPUs it writes nothing; if
      the key has changed since it was watched, the write is dropped and the client starts again. */
  function Commit(s: System, c: ClientId, gpus: seq<GpuId>): System
    requires c in s.clients && s.clients[c].Looked? && s.clients[c].node in s.nodes
  {
    var p := s.clients[c];
    var n := s.nodes[p.node];
    var e := match p.op case Reserving(d, _) => Took(d, gpus) case Removing(d) => Returned(d);
    if p.op.Reserving? && !Enough(p, n.total) then
      Put(s, c, Idle).(results := s.results + [Result(c, p.node, p.op, [])])
    else if n.version != p.version then Put(s, c, Starting(p.node, p.op))
    else
      var n' := n.(table := Apply(p.table, e), version := n.version + 1, log := n.log + [e]);
      Put(s, c, Idle).(nodes := s.nodes[p.node := n'],
                       results := s.results + [Result(c, p.node, p.op, if p.op.Reserving? then gpus else [])])
  }

  ghost predicate Enabled(s: System, a: Action) {
    match a
    case Call(c, node, op) => PhaseOf(s, c).Idle? && node in s.nodes
    case Watch(c) => PhaseOf(s, c).Starting? && PhaseOf(s, c).node in s.nodes
    case Look(c) => PhaseOf(s, c).Watching? && PhaseOf(s, c).node in s.nodes
    case Execute(c, gpus) =>
      && c in s.clients && s.clients[c].Looked? && s.clients[c].node in s.nodes
      && (s.clients[c].op.Reserving? && Enough(s.clients[c], s.nodes[s.clients[c].node].total) ==>
            Granted(s.clients[c].table, s.nodes[s.clients[c].node].total, s.clients[c].op.num, gpus))
    case Touch(node) => node in s.nodes
  }

  ghost function Step(s: System, a: Action): System
    requires Enabled(s, a)
  {
    match a
    case Call(c, node, op) => Put(s, c, Starting(node, op))
    case Watch(c) =>
      var p := PhaseOf(s, c);
      Put(s, c, Watching(p.node, p.op, s.nodes[p.node].version))
    case Look(c) =>
      var p := PhaseOf(s, c);
      Put(s, c, Looked(p.node, p.op, p.version, s.nodes[p.node].table))
    case Execute(c, gpus) => Commit(s, c, gpus)
    case Touch(node) => s.(nodes := s.nodes[node := s.nodes[node].(version := s.nodes[node].version + 1)])
  }

  // ---- The invariant ----

  function Replay(log: seq<Entry>): Table {
    if log == [] then map[] else Apply(Replay(log[..|log| - 1]), log[|log| - 1])
  }

  /** Every reservation took GPUs that were free at its turn. */
  ghost predicate Sound(log: seq<Entry>, total: nat) {
    forall k :: 0 <= k < |log| && log[k].Took? ==> Fresh(Replay(log[..k]), total, log[k].gpus)
  }

  ghost predicate NodeOk(n: Node) {
    TableOk(n.table, n.total) && n.table == Replay(n.log) && Sound(n.log, n.total)
  }

  /** What a client has read is a proper table, and the current one if the key has not changed. */
  ghost predicate PhaseOk(nodes: map<NodeId, Node>, p: Phase) {
    match p
    case Idle => true
    case Starting(node, _) => node in nodes
    case Watching(node, _, v) => node in nodes && v <= nodes[node].version
    case Looked(node, _, v, t) =>
      && node in nodes && v <= nodes[node].version && TableOk(t, nodes[node].total)
      && (v == nodes[node].version ==> t == nodes[node].table)
  }

  /** A reservation brings the requested number of GPUs or none. */
  predicate ResultOk(r: Result) {
    r.gpus == [] || (r.op.Reserving? && |r.gpus| == r.op.num)
  }

  ghost predicate Inv(s: System) {
    && (forall node :: node in s.nodes ==> NodeOk(s.nodes[node]))
    && (forall c :: c in s.clients ==> PhaseOk(s.nodes, s.clients[c]))
    && (forall i :: 0 <= i < |s.results| ==> ResultOk(s.results[i]))
  }

  /** Nodes on which nothing is reserved yet. */
  lemma InitialInv(nodes: map<NodeId, Node>)
    requires forall n :: n in nodes ==> nodes[n].table == map[] && nodes[n].log == []
    ensures Inv(System(nodes, map[], []))
  {
    assert Replay([]) == map[];
  }

  lemma SoundMore(log: seq<Entry>, total: nat, e: Entry)
    requires Sound(log, total) && (e.Took? ==> Fresh(Replay(log), total, e.gpus))
    ensures Sound(log + [e], total) && Replay(log + [e]) == Apply(Replay(log), e)
  {
    var more := log + [e];
    assert more[..|log|] == log;
    hide Fresh, Replay;
    forall k | 0 <= k < |more| && more[k].Took? ensures Fresh(Replay(more[..k]), total, more[k].gpus) {
      if k < |log| {
        assert more[..k] == log[..k] && more[k] == log[k];
      }
    }
  }

  lemma NodeAfter(n: Node, e: Entry)
    requires NodeOk(n) && (e.Took? ==> Fresh(n.table, n.total, e.gpus))
    ensures NodeOk(n.(table := Apply(n.table, e), version := n.version + 1, log := n.log + [e]))
  {
    SoundMore(n.log, n.total, e);
    match e
    case Took(d, gpus) => ReserveKeeps(n.table, n.total, d, gpus);
    case Returned(d) => ReleaseKeeps(n.table, n.total, d);
  }

  /** Other clients notice a change only by the version of the key. */
  lemma PhaseStays(nodes: map<NodeId, Node>, node: NodeId, n': Node, p: Phase)
    requires PhaseOk(nodes, p) && node in nodes && n'.total == nodes[node].total
    requires n'.version > nodes[node].version
    ensures PhaseOk(nodes[node := n'], p)
  {
  }

  lemma ExecuteKeeps(s: System, c: ClientId, gpus: seq<GpuId>)
    requires Inv(s) && Enabled(s, Execute(c, gpus))
    ensures Inv(Commit(s, c, gpus))
  {
    var p := s.clients[c];
    var n, s' := s.nodes[p.node], Commit(s, c, gpus);
    assert PhaseOk(s.nodes, p) && NodeOk(n);
    var e := match p.op case Reserving(d, _) => Took(d, gpus) case Removing(d) => Returned(d);
    if (p.op.Reserving? && !Enough(p, n.total)) || n.version != p.version {
      hide NodeOk, TableOk, Granted;
    } else {
      NodeAfter(n, e);
      hide NodeOk, TableOk, Granted, Apply;
      forall d | d in s'.clients ensures PhaseOk(s'.nodes, s'.clients[d]) {
        if d != c {
          PhaseStays(s.nodes, p.node, s'.nodes[p.node], s.clients[d]);
        }
      }
    }
  }

  lemma TouchKeeps(s: System, node: NodeId)
    requires Inv(s) && node in s.nodes
    ensures Inv(Step(s, Touch(node)))
  {
    var s' := Step(s, Touch(node));
    assert NodeOk(s'.nodes[node]);
    hide NodeOk;
    forall d | d in s'.clients ensures PhaseOk(s'.nodes, s'.clients[d]) {
      PhaseStays(s.nodes, node, s'.nodes[node], s.clients[d]);
    }
  }

  lemma StepKeeps(s: System, a: Action)
    requires Inv(s) && Enabled(s, a)
    ensures Inv(Step(s, a))
  {
    match a
    case Execute(c, gpus) => ExecuteKeeps(s, c, gpus);
    case Touch(node) => TouchKeeps(s, node);
    case Look(c) =>
      assert PhaseOk(s.nodes, s.clients[c]) && NodeOk(s.nodes[s.clients[c].node]);
      hide TableOk, Sound, Replay;
    case _ => hide NodeOk, TableOk;
  }

  ghost predicate Feasible(s: System, actions: seq<Action>)
    decreases |actions|
  {
    actions == [] || (Enabled(s, actions[0]) && Feasible(Step(s, actions[0]), actions[1..]))
  }

  ghost function Run(s: System, actions: seq<Action>): System
    requires Feasible(s, actions)
    decreases |actions|
  {
    if actions == [] then s else Run(Step(s, actions[0]), actions[1..])
  }

  /** For any number of clients and any interleaving: on every node no GPU is reserved twice, the
      table is what the transactions give one after the other, each of which took GPUs that were
      free at its turn, and every reservation brought what was asked for or nothing. */
  lemma {:induction false} RunKeeps(s: System, actions: seq<Action>)
    requires Inv(s) && Feasible(s, actions)
    ensures Inv(Run(s, actions))
    decreases |actions|
  {
    if actions != [] {
      StepKeeps(s, actions[0]);
      RunKeeps(Step(s, actions[0]), actions[1..]);
    }
  }

  /** A reservation that takes effect takes exactly the requested number of GPUs from the free ones
      and gives them to its driver; otherwise it changes no table and brings none. */
  lemma ReservationTakesFree(s: System, c: ClientId, gpus: seq<GpuId>)
    requires Inv(s) && Enabled(s, Execute(c, gpus)) && s.clients[c].op.Reserving?
    ensures
      var p, s' := s.clients[c], Commit(s, c, gpus);
      var n, d := s.nodes[p.node], p.op.driver;
      var t, t' := n.table, s'.nodes[p.node].table;
      if |Used(p.table)| + p.op.num <= n.total && n.version == p.version then
        && |gpus| == p.op.num && AsSet(gpus) !! Used(t) && Used(t') == Used(t) + AsSet(gpus)
        && Lookup(t', d) == Lookup(t, d) + gpus && s'.results == s.results + [Result(c, p.node, p.op, gpus)]
      else s'.nodes == s.nodes && (s'.results == s.results || s'.results == s.results + [Result(c, p.node, p.op, [])])
  {
    var p := s.clients[c];
    assert PhaseOk(s.nodes, p) && NodeOk(s.nodes[p.node]);
    if Enough(p, s.nodes[p.node].total) && s.nodes[p.node].version == p.version {
      ReserveKeeps(p.table, s.nodes[p.node].total, p.op.driver, gpus);
    }
  }

  /** The removal of a driver that takes effect frees exactly that driver's GPUs. */
  lemma RemovalFreesDriver(s: System, c: ClientId, gpus: seq<GpuId>)
    requires Inv(s) && Enabled(s, Execute(c, gpus)) && s.clients[c].op.Removing?
    requires s.nodes[s.clients[c].node].version == s.clients[c].version
    ensures
      var p, s' := s.clients[c], Commit(s, c, gpus);
      var t, t' := s.nodes[p.node].table, s'.nodes[p.node].table;
      && p.op.driver !in t' && Used(t') == Used(t) - AsSet(Lookup(t, p.op.driver))
      && forall d :: d != p.op.driver ==> Lookup(t', d) == Lookup(t, d)
  {
    var p := s.clients[c];
    assert PhaseOk(s.nodes, p) && NodeOk(s.nodes[p.node]);
    ReleaseKeeps(p.table, s.nodes[p.node].total, p.op.driver);
  }

  /** A dropped write means that somebody else has changed the key in the meantime. */
  lemma RetryMeansProgress(s: System, c: ClientId, gpus: seq<GpuId>)
    requires Inv(s) && Enabled(s, Execute(c, gpus))
    ensures Commit(s, c, gpus).clients[c].Starting? ==> s.clients[c].version < s.nodes[s.clients[c].node].version
    ensures Commit(s, c, gpus).clients[c].Starting? ==>
      Commit(s, c, gpus).nodes == s.nodes && Commit(s, c, gpus).results == s.results
  {
    assert PhaseOk(s.nodes, s.clients[c]);
  }
}
