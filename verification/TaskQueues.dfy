/**
 The waiting and dispatch queues. A queue entry is a list node: it has an address, handed
 out afresh at every insertion, so that a stored iterator can be told from a live one.
 */
module TaskQueues {
  import opened Tasks

  datatype Node = Node(addr: nat, task: Task)

  /** The tests by which the handlers split a queue. */
  datatype Test = Ready(local: set<ObjectId>) | Needs(object: ObjectId) | OwnedBy(driver: DriverId)

  predicate Holds(test: Test, t: Task) {
    match test
    case Ready(local) => CanRun(t, local)
    case Needs(o) => DependsOn(t, o)
    case OwnedBy(d) => t.driver == d
  }

  /** The nodes on which the test comes out as `want`, in queue order. */
  function Select(q: seq<Node>, test: Test, want: bool): seq<Node> {
    if q == [] then []
    else (if Holds(test, q[0].task) == want then [q[0]] else []) + Select(q[1..], test, want)
  }

  /** The tasks of `q` re-inserted at addresses next, next + 1, ... */
  function Renumber(q: seq<Node>, next: nat): (r: seq<Node>)
    ensures |r| == |q|
  {
    seq(|q|, i requires 0 <= i < |q| => Node(next + i, q[i].task))
  }

  function TasksOf(q: seq<Node>): (r: seq<Task>)
    ensures |r| == |q|
  {
    seq(|q|, i requires 0 <= i < |q| => q[i].task)
  }

  /** Addresses increase along the queue and are all below `next`. */
  predicate Ordered(q: seq<Node>, next: nat) {
    && (forall i, j :: 0 <= i < j < |q| ==> q[i].addr < q[j].addr)
    && (forall i :: 0 <= i < |q| ==> q[i].addr < next)
  }

  predicate All(q: seq<Node>, test: Test, want: bool) {
    forall i :: 0 <= i < |q| ==> Holds(test, q[i].task) == want
  }

  lemma {:induction false} SelectHolds(q: seq<Node>, test: Test, want: bool)
    ensures All(Select(q, test, want), test, want)
    ensures |Select(q, test, want)| <= |q|
    ensures forall n :: n in Select(q, test, want) <==> n in q && Holds(test, n.task) == want
  {
    if q != [] {
      SelectHolds(q[1..], test, want);
      assert q == [q[0]] + q[1..];
    }
  }

  /** A queue on which the test never comes out as `want` contributes nothing, and conversely all. */
  lemma {:induction false} SelectUniform(q: seq<Node>, test: Test, want: bool)
    requires All(q, test, want)
    ensures Select(q, test, want) == q && Select(q, test, !want) == []
  {
    if q != [] {
      SelectUniform(q[1..], test, want);
    }
  }

  lemma {:induction false} SelectOrdered(q: seq<Node>, test: Test, want: bool, next: nat)
    requires Ordered(q, next)
    ensures Ordered(Select(q, test, want), next)
  {
    if q != [] {
      var rest := Select(q[1..], test, want);
      SelectOrdered(q[1..], test, want, next);
      SelectHolds(q[1..], test, want);
      OrderedCons(q, rest, next);
      assert Select(q, test, want) == if Holds(test, q[0].task) == want then [q[0]] + rest else rest;
    }
  }

  lemma OrderedCons(q: seq<Node>, rest: seq<Node>, next: nat)
    requires q != [] && Ordered(q, next) && Ordered(rest, next)
    requires forall n :: n in rest ==> n in q[1..]
    ensures Ordered([q[0]] + rest, next)
  {
    forall i | 0 <= i < |rest| ensures q[0].addr < rest[i].addr {
      assert rest[i] in q[1..];
    }
  }

  lemma RenumberOrdered(a: seq<Node>, b: seq<Node>, next: nat)
    requires Ordered(a, next)
    ensures Ordered(a + Renumber(b, next), next + |b|)
  {
  }

  lemma TasksOfAppend(a: seq<Node>, b: seq<Node>)
    ensures TasksOf(a + b) == TasksOf(a) + TasksOf(b)
  {
  }

  lemma TasksOfOne(n: Node)
    ensures TasksOf([n]) == [n.task]
  {
  }

  lemma TasksOfRenumber(q: seq<Node>, next: nat)
    ensures TasksOf(Renumber(q, next)) == TasksOf(q)
  {
  }

  /** The first task goes where its test says. */
  lemma SelectFirst(q: seq<Node>, test: Test)
    requires q != []
    ensures
      var want, x := Holds(test, q[0].task), [q[0].task];
      && TasksOf(q) == x + TasksOf(q[1..])
      && TasksOf(Select(q, test, want)) == x + TasksOf(Select(q[1..], test, want))
      && TasksOf(Select(q, test, !want)) == TasksOf(Select(q[1..], test, !want))
  {
    hide Holds, TasksOf;
    var want := Holds(test, q[0].task);
    assert q == [q[0]] + q[1..];
    TasksOfOne(q[0]);
    TasksOfAppend([q[0]], q[1..]);
    TasksOfAppend([q[0]], Select(q[1..], test, want));
    assert [] + Select(q[1..], test, !want) == Select(q[1..], test, !want);
  }

  /** Splitting a queue by a test loses and invents no task. */
  lemma {:induction false} SelectPartitions(q: seq<Node>, test: Test)
    ensures multiset(TasksOf(q))
         == multiset(TasksOf(Select(q, test, true))) + multiset(TasksOf(Select(q, test, false)))
  {
    if q != [] {
      hide Holds, Select, TasksOf;
      var want, x := Holds(test, q[0].task), [q[0].task];
      var yes, no := TasksOf(Select(q[1..], test, want)), TasksOf(Select(q[1..], test, !want));
      SelectPartitions(q[1..], test);
      SelectFirst(q, test);
      assert multiset(x + TasksOf(q[1..])) == multiset(x) + multiset(TasksOf(q[1..]));
      assert multiset(x + yes) == multiset(x) + multiset(yes);
    }
  }
}
