/**
 The table of active fetches. For every missing object it lists iterators (node addresses)
 of the waiting tasks that need it. `Describes` says that the table is exactly the inverted
 index of the waiting queue: it is a function of the queue and of the set of local objects.
 */
module FetchIndex {
  import opened IdLists
  import opened Tasks
  import opened TaskQueues

  type FetchTable = map<ObjectId, seq<nat>>

  /** The addresses of the nodes of `q` that name `o`, once per naming argument, in queue order. */
  function Index(q: seq<Node>, o: ObjectId): seq<nat> {
    if q == [] then []
    else Copies(q[0].addr, Occurrences(q[0].task.args, o)) + Index(q[1..], o)
  }

  ghost predicate Describes(table: FetchTable, waiting: seq<Node>, local: set<ObjectId>) {
    && (forall o :: o in table <==> o !in local && Index(waiting, o) != [])
    && (forall o :: o in table ==> table[o] == Index(waiting, o))
  }

  lemma {:induction false} IndexAppend(a: seq<Node>, b: seq<Node>, o: ObjectId)
    ensures Index(a + b, o) == Index(a, o) + Index(b, o)
  {
    if a == [] {
      assert a + b == b;
    } else {
      hide Occurrences, Copies, Index;
      IndexAppend(a[1..], b, o);
      assert (a + b)[1..] == a[1..] + b;
      IndexCons(a, o);
      IndexCons(a + b, o);
      assert (a + b)[0] == a[0];
      Regroup(Copies(a[0].addr, Occurrences(a[0].task.args, o)), Index(a[1..], o), Index(b, o));
    }
  }

  lemma IndexCons(q: seq<Node>, o: ObjectId)
    requires q != []
    ensures Index(q, o) == Copies(q[0].addr, Occurrences(q[0].task.args, o)) + Index(q[1..], o)
  {
  }

  /** An object is listed exactly when some node of the queue depends on it. */
  lemma {:induction false} IndexNonEmpty(q: seq<Node>, o: ObjectId)
    ensures Index(q, o) != [] <==> exists i :: 0 <= i < |q| && DependsOn(q[i].task, o)
  {
    if q != [] {
      hide Occurrences, Copies, Index;
      IndexCons(q, o);
      IndexNonEmpty(q[1..], o);
      OccurrencesPositive(q[0].task.args, o);
      if Index(q[1..], o) != [] {
        var i :| 0 <= i < |q[1..]| && DependsOn(q[1..][i].task, o);
        assert DependsOn(q[i + 1].task, o);
      }
      forall i | 0 <= i < |q| && DependsOn(q[i].task, o) ensures Index(q, o) != [] {
        assert i > 0 ==> DependsOn(q[1..][i - 1].task, o);
      }
    }
  }

  /** Every listed address is the address of a live node of the queue that needs the object. */
  lemma {:induction false} IndexLive(q: seq<Node>, o: ObjectId, k: nat) returns (i: nat)
    requires k < |Index(q, o)|
    ensures i < |q| && q[i].addr == Index(q, o)[k] && DependsOn(q[i].task, o)
  {
    var n := Occurrences(q[0].task.args, o);
    if k < n {
      OccurrencesPositive(q[0].task.args, o);
      i := 0;
    } else {
      var j := IndexLive(q[1..], o, k - n);
      i := j + 1;
    }
  }

  /** The list of an object holds the address of each waiting node once per argument that names it. */
  lemma {:induction false} IndexCounts(q: seq<Node>, next: nat, i: nat, o: ObjectId)
    requires Ordered(q, next) && i < |q|
    ensures multiset(Index(q, o))[q[i].addr] == Occurrences(q[i].task.args, o)
    decreases |q|
  {
    hide Occurrences, Copies, Index;
    var n, rest := Occurrences(q[0].task.args, o), Index(q[1..], o);
    IndexCons(q, o);
    CopiesCount(q[0].addr, n, q[i].addr);
    assert multiset(Copies(q[0].addr, n) + rest)[q[i].addr]
        == multiset(Copies(q[0].addr, n))[q[i].addr] + multiset(rest)[q[i].addr];
    if i > 0 {
      assert q[1..][i - 1] == q[i];
      IndexCounts(q[1..], next, i - 1, o);
    } else if q[0].addr in rest {
      var k :| 0 <= k < |rest| && rest[k] == q[0].addr;
      var j := IndexLive(q[1..], o, k);
      assert false;
    }
  }

  predicate DistinctReferences(args: seq<Arg>) {
    forall i, j :: 0 <= i < j < |args| && args[i].ByRef? ==> args[i] != args[j]
  }

  lemma {:induction false} DistinctArgumentsOccurOnce(args: seq<Arg>, o: ObjectId)
    requires DistinctReferences(args)
    ensures Occurrences(args, o) == if ByRef(o) in args then 1 else 0
  {
    if args != [] {
      var front := args[..|args| - 1];
      DistinctArgumentsOccurOnce(front, o);
      assert args == front + [args[|args| - 1]];
    }
  }

  /** When no task names an argument twice, the entry of a missing object lists each waiting task
      that needs it exactly once, and no other address. */
  lemma EntriesListEachTaskOnce(table: FetchTable, waiting: seq<Node>, next: nat, local: set<ObjectId>, o: ObjectId)
    requires Describes(table, waiting, local) && Ordered(waiting, next) && o in table
    requires forall i :: 0 <= i < |waiting| ==> DistinctReferences(waiting[i].task.args)
    ensures forall i :: 0 <= i < |waiting| ==>
      multiset(table[o])[waiting[i].addr] == if DependsOn(waiting[i].task, o) then 1 else 0
    ensures forall a :: a in table[o] ==>
      exists i :: 0 <= i < |waiting| && waiting[i].addr == a && DependsOn(waiting[i].task, o)
  {
    forall i | 0 <= i < |waiting|
      ensures multiset(table[o])[waiting[i].addr] == if DependsOn(waiting[i].task, o) then 1 else 0
    {
      IndexCounts(waiting, next, i, o);
      DistinctArgumentsOccurOnce(waiting[i].task.args, o);
    }
    forall a | a in table[o]
      ensures exists i :: 0 <= i < |waiting| && waiting[i].addr == a && DependsOn(waiting[i].task, o)
    {
      var k :| 0 <= k < |table[o]| && table[o][k] == a;
      var i := IndexLive(waiting, o, k);
    }
  }

  /** Nodes that do not name `o` can be dropped from the queue without changing its list. */
  lemma {:induction false} IndexIgnores(q: seq<Node>, test: Test, want: bool, o: ObjectId)
    requires forall i :: 0 <= i < |q| && Holds(test, q[i].task) != want ==> Occurrences(q[i].task.args, o) == 0
    ensures Index(Select(q, test, want), o) == Index(q, o)
  {
    if q != [] {
      IndexIgnores(q[1..], test, want, o);
      if Holds(test, q[0].task) == want {
        assert Select(q, test, want)[1..] == Select(q[1..], test, want);
      } else {
        assert Select(q, test, want) == Select(q[1..], test, want);
        assert Index(q, o) == [] + Index(q[1..], o);
      }
    }
  }

  // ---- Following the iterators of one object when it arrives ----

  predicate Live(q: seq<Node>, addr: nat) {
    exists i :: 0 <= i < |q| && q[i].addr == addr
  }

  /** The position of the node that the iterator `addr` points to. */
  function Position(q: seq<Node>, addr: nat): (i: nat)
    requires Live(q, addr)
    ensures i < |q| && q[i].addr == addr
  {
    if q[0].addr == addr then 0
    else
      assert Live(q[1..], addr) by {
        var i :| 0 <= i < |q| && q[i].addr == addr;
        assert q[1..][i - 1].addr == addr;
      }
      1 + Position(q[1..], addr)
  }

  function Erase(q: seq<Node>, i: nat): seq<Node>
    requires i < |q|
  {
    q[..i] + q[i + 1..]
  }

  datatype Moved = Moved(waiting: seq<Node>, dispatch: seq<Node>, next: nat)

  /** The loop over the dependent tasks of an arrived object: each iterator is dereferenced,
      and a task that can now run is copied to the dispatch queue and its node erased.
      `None` stands for dereferencing an iterator whose node is gone. */
  function Drain(deps: seq<nat>, m: Moved, local: set<ObjectId>): Option<Moved>
    decreases |deps|
  {
    if deps == [] then Some(m)
    else if !Live(m.waiting, deps[0]) then None
    else
      var i := Position(m.waiting, deps[0]);
      var t := m.waiting[i].task;
      if CanRun(t, local) then
        Drain(deps[1..], Moved(Erase(m.waiting, i), m.dispatch + [Node(m.next, t)], m.next + 1), local)
      else Drain(deps[1..], m, local)
  }

  /** No waiting task that can run once `o` is local names `o` more than once. */
  predicate NamedOnce(waiting: seq<Node>, o: ObjectId, local: set<ObjectId>) {
    forall i :: 0 <= i < |waiting| && CanRun(waiting[i].task, local) ==> Occurrences(waiting[i].task.args, o) <= 1
  }

  /** The queues after a stable scan of the whole waiting queue: the simple form of the loop. */
  function Scan(m: Moved, local: set<ObjectId>): Moved {
    var ready := Select(m.waiting, Ready(local), true);
    Moved(Select(m.waiting, Ready(local), false), m.dispatch + Renumber(ready, m.next), m.next + |ready|)
  }

  lemma PositionUnique(q: seq<Node>, i: nat, next: nat)
    requires Ordered(q, next) && i < |q|
    ensures Live(q, q[i].addr) && Position(q, q[i].addr) == i
  {
    assert q[Position(q, q[i].addr)].addr == q[i].addr;
  }

  /** Iterators to a task that still cannot run change nothing. */
  lemma {:induction false} DrainSkips(addr: nat, n: nat, rest: seq<nat>, m: Moved, local: set<ObjectId>)
    requires Live(m.waiting, addr) && !CanRun(m.waiting[Position(m.waiting, addr)].task, local)
    ensures Drain(Copies(addr, n) + rest, m, local) == Drain(rest, m, local)
  {
    if n == 0 {
      assert Copies(addr, n) + rest == rest;
    } else {
      DrainSkips(addr, n - 1, rest, m, local);
      assert (Copies(addr, n) + rest)[1..] == Copies(addr, n - 1) + rest;
    }
  }

  /** The queues once the nodes `w` behind the already visited `pre` have been scanned. */
  function ScanFrom(pre: seq<Node>, w: seq<Node>, m: Moved, local: set<ObjectId>): Moved {
    var ready := Select(w, Ready(local), true);
    Moved(pre + Select(w, Ready(local), false), m.dispatch + Renumber(ready, m.next), m.next + |ready|)
  }

  lemma ScanKeeps(pre: seq<Node>, w: seq<Node>, m: Moved, local: set<ObjectId>)
    requires w != [] && !CanRun(w[0].task, local)
    ensures ScanFrom(pre + [w[0]], w[1..], m, local) == ScanFrom(pre, w, m, local)
  {
    assert Select(w, Ready(local), true) == Select(w[1..], Ready(local), true);
    assert (pre + [w[0]]) + Select(w[1..], Ready(local), false) == pre + Select(w, Ready(local), false);
  }

  lemma ScanMoves(pre: seq<Node>, w: seq<Node>, m: Moved, waiting': seq<Node>, local: set<ObjectId>)
    requires w != [] && CanRun(w[0].task, local)
    ensures
      var m' := Moved(waiting', m.dispatch + [Node(m.next, w[0].task)], m.next + 1);
      ScanFrom(pre, w[1..], m', local) == ScanFrom(pre, w, m, local)
  {
    var ready := Select(w[1..], Ready(local), true);
    assert Select(w, Ready(local), true) == [w[0]] + ready;
    assert Select(w, Ready(local), false) == Select(w[1..], Ready(local), false);
    assert Renumber([w[0]] + ready, m.next) == [Node(m.next, w[0].task)] + Renumber(ready, m.next + 1);
    assert (m.dispatch + [Node(m.next, w[0].task)]) + Renumber(ready, m.next + 1)
        == m.dispatch + Renumber([w[0]] + ready, m.next);
  }

  /** Following the iterators of the index is the same as scanning the queue, and it touches an
      erased node exactly when a task that wakes up named the object more than once. */
  lemma {:induction false} DrainFrom(pre: seq<Node>, w: seq<Node>, o: ObjectId, m: Moved,
                                     local: set<ObjectId>, top: nat)
    requires m.waiting == pre + w && Ordered(pre + w, top)
    requires forall i :: 0 <= i < |w| && CanRun(w[i].task, local) ==> Occurrences(w[i].task.args, o) > 0
    ensures NamedOnce(w, o, local) ==>
      Drain(Index(w, o), m, local) == Some(ScanFrom(pre, w, m, local))
    ensures !NamedOnce(w, o, local) ==> Drain(Index(w, o), m, local) == None
    decreases |w|
  {
    if w == [] {
      assert pre + w == pre;
      assert m.dispatch + Renumber([], m.next) == m.dispatch;
    } else if CanRun(w[0].task, local) {
      DrainWakes(pre, w, o, m, local, top);
    } else {
      var n, rest := w[0], w[1..];
      assert (pre + w)[|pre|] == n;
      PositionUnique(pre + w, |pre|, top);
      DrainSkips(n.addr, Occurrences(n.task.args, o), Index(rest, o), m, local);
      assert pre + w == (pre + [n]) + rest;
      DrainFrom(pre + [n], rest, o, m, local, top);
      ScanKeeps(pre, w, m, local);
      NamedOnceSplits(w, o, local);
    }
  }

  lemma NamedOnceSplits(w: seq<Node>, o: ObjectId, local: set<ObjectId>)
    requires w != []
    ensures NamedOnce(w, o, local)
       <==> (CanRun(w[0].task, local) ==> Occurrences(w[0].task.args, o) <= 1) && NamedOnce(w[1..], o, local)
  {
    forall i | 0 < i < |w| ensures w[i] == w[1..][i - 1] {}
  }

  lemma OrderedWithout(pre: seq<Node>, w: seq<Node>, top: nat)
    requires w != [] && Ordered(pre + w, top)
    ensures Ordered(pre + w[1..], top) && !Live(pre + w[1..], w[0].addr)
  {
    var q, q' := pre + w, pre + w[1..];
    assert q[|pre|] == w[0];
    forall i | 0 <= i < |q'| ensures q'[i] == q[if i < |pre| then i else i + 1] {}
  }

  lemma DrainOne(pre: seq<Node>, w: seq<Node>, deps: seq<nat>, m: Moved, local: set<ObjectId>, top: nat)
    requires w != [] && CanRun(w[0].task, local) && deps != [] && deps[0] == w[0].addr
    requires m.waiting == pre + w && Ordered(pre + w, top)
    ensures Drain(deps, m, local)
         == Drain(deps[1..], Moved(pre + w[1..], m.dispatch + [Node(m.next, w[0].task)], m.next + 1), local)
  {
    assert (pre + w)[|pre|] == w[0];
    PositionUnique(pre + w, |pre|, top);
    assert Erase(pre + w, |pre|) == pre + w[1..];
  }

  lemma {:induction false} DrainWakes(pre: seq<Node>, w: seq<Node>, o: ObjectId, m: Moved,
                                      local: set<ObjectId>, top: nat)
    requires w != [] && CanRun(w[0].task, local)
    requires m.waiting == pre + w && Ordered(pre + w, top)
    requires forall i :: 0 <= i < |w| && CanRun(w[i].task, local) ==> Occurrences(w[i].task.args, o) > 0
    ensures NamedOnce(w, o, local) ==>
      Drain(Index(w, o), m, local) == Some(ScanFrom(pre, w, m, local))
    ensures !NamedOnce(w, o, local) ==> Drain(Index(w, o), m, local) == None
    decreases |w|, 0
  {
    var n, rest := w[0], w[1..];
    var count := Occurrences(n.task.args, o);
    var deps := Index(w, o);
    var m' := Moved(pre + rest, m.dispatch + [Node(m.next, n.task)], m.next + 1);
    assert deps == Copies(n.addr, count) + Index(rest, o);
    assert deps[0] == n.addr && deps[1..] == Copies(n.addr, count - 1) + Index(rest, o);
    DrainOne(pre, w, deps, m, local, top);
    OrderedWithout(pre, w, top);
    NamedOnceSplits(w, o, local);
    if count > 1 {
      assert deps[1..][0] == n.addr;
    } else {
      assert deps[1..] == Index(rest, o);
      DrainFrom(pre, rest, o, m', local, top);
      ScanMoves(pre, w, m, pre + rest, local);
    }
  }

  /** The index-driven loop refines the full scan, and no iterator dangles if and only if no
      task that wakes up names the arrived object twice. */
  lemma DrainIsScan(waiting: seq<Node>, o: ObjectId, m: Moved, local: set<ObjectId>, next: nat)
    requires m.waiting == waiting && Ordered(waiting, next)
    requires All(waiting, Ready(local), false)
    ensures Drain(Index(waiting, o), m, local + {o}).Some? <==> NamedOnce(waiting, o, local + {o})
    ensures NamedOnce(waiting, o, local + {o}) ==>
      Drain(Index(waiting, o), m, local + {o}) == Some(Scan(m, local + {o}))
  {
    forall i | 0 <= i < |waiting| && CanRun(waiting[i].task, local + {o})
      ensures Occurrences(waiting[i].task.args, o) > 0
    {
      OnlyDependentsWakeUp(waiting[i].task, local, o);
    }
    assert [] + waiting == waiting;
    DrainFrom([], waiting, o, m, local + {o}, next);
    assert ScanFrom([], waiting, m, local + {o}) == Scan(m, local + {o}) by {
      assert [] + Select(waiting, Ready(local + {o}), false) == Select(waiting, Ready(local + {o}), false);
    }
  }

  /** A task that names its missing argument twice makes the loop dereference an erased node. */
  lemma RepeatedArgumentDangles()
    ensures exists waiting: seq<Node>, o: ObjectId ::
      && Ordered(waiting, 1) && All(waiting, Ready({}), false)
      && Drain(Index(waiting, o), Moved(waiting, [], 1), {} + {o}) == None
  {
    var t := Task(0, 0, [ByRef(7), ByRef(7)], 1.0, 0.0);
    var waiting := [Node(0, t)];
    assert t.args[..1] == [ByRef(7)];
    assert Occurrences(t.args, 7) == Occurrences([ByRef(7)], 7) + 1 == 2;
    assert t.args[0].ByRef? && t.args[0].id !in {};
    assert CanRun(waiting[0].task, {} + {7});
    DrainIsScan(waiting, 7, Moved(waiting, [], 1), {}, 1);
  }

  // ---- The index after each queue update ----

  /** Index entries of one more waiting node whose arguments have been recorded up to `done`. */
  ghost predicate Partial(table: FetchTable, waiting: seq<Node>, local: set<ObjectId>, n: Node, done: seq<Arg>) {
    forall o {:trigger o in table} {:trigger Index(waiting, o)} ::
      var listed := Index(waiting, o) + Copies(n.addr, Occurrences(done, o));
      && (o in table <==> o !in local && listed != [])
      && (o in table ==> table[o] == listed)
  }

  lemma PartialDone(table: FetchTable, waiting: seq<Node>, local: set<ObjectId>, n: Node)
    requires Partial(table, waiting, local, n, n.task.args)
    ensures Describes(table, waiting + [n], local)
  {
    forall o ensures Index(waiting + [n], o) == Index(waiting, o) + Copies(n.addr, Occurrences(n.task.args, o)) {
      IndexAppend(waiting, [n], o);
      assert [n][1..] == [];
      assert Index([n], o) == Copies(n.addr, Occurrences(n.task.args, o));
    }
  }

  /** Moving the runnable nodes out of the waiting queue leaves every other object's list alone. */
  lemma DescribesAfterArrival(table: FetchTable, waiting: seq<Node>, local: set<ObjectId>, o: ObjectId)
    requires Describes(table, waiting, local)
    ensures Describes(table - {o}, Select(waiting, Ready(local + {o}), false), local + {o})
  {
    var local' := local + {o};
    forall p | p !in local' ensures Index(Select(waiting, Ready(local'), false), p) == Index(waiting, p) {
      forall i | 0 <= i < |waiting| && Holds(Ready(local'), waiting[i].task)
        ensures Occurrences(waiting[i].task.args, p) == 0
      {
        RunnableHasNoMissing(waiting[i].task, local');
      }
      IndexIgnores(waiting, Ready(local'), false, p);
    }
  }

  /** Tasks pulled back from the dispatch queue miss only the removed object. */
  lemma DescribesAfterRemoval(table: FetchTable, waiting: seq<Node>, back: seq<Node>, local: set<ObjectId>, o: ObjectId)
    requires Describes(table, waiting, local) && o in local
    requires All(back, Ready(local), true)
    ensures
      var deps := Index(waiting + back, o);
      Describes(if deps == [] then table else table[o := deps], waiting + back, local - {o})
  {
    forall p | p !in local ensures Index(waiting + back, p) == Index(waiting, p) {
      IndexAppend(waiting, back, p);
      IndexNonEmpty(back, p);
      forall i | 0 <= i < |back| ensures !DependsOn(back[i].task, p) {
        assert Holds(Ready(local), back[i].task);
        RunnableHasNoMissing(back[i].task, local);
        OccurrencesPositive(back[i].task.args, p);
      }
    }
  }

  /** One object's list without the removed driver's tasks. */
  function Keep(addrs: seq<nat>, waiting: seq<Node>, d: DriverId): seq<nat>
    requires forall k :: 0 <= k < |addrs| ==> Live(waiting, addrs[k])
  {
    if addrs == [] then []
    else
      assert forall k :: 0 <= k < |addrs[1..]| ==> addrs[1..][k] == addrs[k + 1];
      (if waiting[Position(waiting, addrs[0])].task.driver == d then [] else [addrs[0]])
      + Keep(addrs[1..], waiting, d)
  }

  lemma AllLive(waiting: seq<Node>, o: ObjectId)
    ensures forall k :: 0 <= k < |Index(waiting, o)| ==> Live(waiting, Index(waiting, o)[k])
  {
    forall k | 0 <= k < |Index(waiting, o)| ensures Live(waiting, Index(waiting, o)[k]) {
      var i := IndexLive(waiting, o, k);
    }
  }

  lemma {:induction false} KeepCopies(addr: nat, n: nat, rest: seq<nat>, waiting: seq<Node>, d: DriverId)
    requires Live(waiting, addr)
    requires forall k :: 0 <= k < |rest| ==> Live(waiting, rest[k])
    ensures
      Keep(Copies(addr, n) + rest, waiting, d)
      == (if waiting[Position(waiting, addr)].task.driver == d then [] else Copies(addr, n)) + Keep(rest, waiting, d)
  {
    if n == 0 {
      assert Copies(addr, n) + rest == rest;
    } else {
      KeepCopies(addr, n - 1, rest, waiting, d);
      assert (Copies(addr, n) + rest)[1..] == Copies(addr, n - 1) + rest;
      assert Copies(addr, n) == [addr] + Copies(addr, n - 1);
    }
  }

  lemma {:induction false} KeepIsIndex(pre: seq<Node>, w: seq<Node>, waiting: seq<Node>, d: DriverId, o: ObjectId,
                                       next: nat)
    requires waiting == pre + w && Ordered(waiting, next)
    requires forall k :: 0 <= k < |Index(w, o)| ==> Live(waiting, Index(w, o)[k])
    ensures Keep(Index(w, o), waiting, d) == Index(Select(w, OwnedBy(d), false), o)
    decreases |w|
  {
    if w != [] {
      var n, rest := w[0], w[1..];
      var count := Occurrences(n.task.args, o);
      assert waiting[|pre|] == n;
      PositionUnique(waiting, |pre|, next);
      assert waiting == (pre + [n]) + rest;
      forall k | 0 <= k < |Index(rest, o)| ensures Live(waiting, Index(rest, o)[k]) {
        assert Index(w, o)[count + k] == Index(rest, o)[k];
      }
      KeepIsIndex(pre + [n], rest, waiting, d, o, next);
      KeepCopies(n.addr, count, Index(rest, o), waiting, d);
      if n.task.driver != d {
        assert Select(w, OwnedBy(d), false)[1..] == Select(rest, OwnedBy(d), false);
      } else {
        assert Select(w, OwnedBy(d), false) == Select(rest, OwnedBy(d), false);
      }
    }
  }
}
