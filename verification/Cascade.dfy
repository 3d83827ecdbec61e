/**
 One reconstruction cascade: the lookups and test-and-sets that follow from asking for one
 object. Replies come back in any order, and each successful test-and-set asks for every
 argument of the task it claimed.
 */
module Cascade {
  import opened IdLists

  type ObjectId = nat
  type TaskId = nat

  /** What the object table says: on some node, created and later evicted, or never created. */
  datatype Lookup = Present | Evicted | NeverCreated

  /** The part of a task's status that the test-and-set looks at. */
  datatype Status = Done | Lost | Other

  /** The lineage: which task creates an object, and which objects a task takes. It may share
      objects and may contain cycles. */
  datatype Lineage = Lineage(
    producer: map<ObjectId, TaskId>, args: map<TaskId, seq<ObjectId>>, lookup: map<ObjectId, Lookup>)

  /** The task that creates an object is in the task table, and an object that once existed has
      a creating task. */
  predicate WellFormed(g: Lineage, status: map<TaskId, Status>) {
    && g.args.Keys == status.Keys
    && (forall o :: o in g.producer ==> g.producer[o] in status)
    && (forall o :: o in g.lookup && g.lookup[o].Evicted? ==> o in g.producer)
  }

  /** An object without an entry in the object table was never created. */
  function LookUp(g: Lineage, o: ObjectId): Lookup {
    if o in g.lookup then g.lookup[o] else NeverCreated
  }

  /** Whether the reply for `o` makes the scheduler claim the task that creates it. */
  predicate Claims(g: Lineage, status: map<TaskId, Status>, o: ObjectId) {
    && o in g.producer && g.producer[o] in status
    && match LookUp(g, o)
       case Present => false
       case Evicted => status[g.producer[o]] != Other
       case NeverCreated => status[g.producer[o]] == Lost
  }

  /** A chain of tasks, the first creating `start`, each next one creating an argument of the one
      before, and each claimable by that object under the statuses at the beginning. */
  ghost predicate Chain(g: Lineage, status: map<TaskId, Status>, start: ObjectId, path: seq<TaskId>) {
    && path != []
    && Claims(g, status, start) && g.producer[start] == path[0]
    && (forall i :: 0 <= i < |path| - 1 ==> Link(g, status, path[i], path[i + 1]))
  }

  ghost predicate Link(g: Lineage, status: map<TaskId, Status>, t: TaskId, u: TaskId) {
    t in g.args && exists o :: o in g.args[t] && Claims(g, status, o) && g.producer[o] == u
  }

  ghost predicate Reached(g: Lineage, status: map<TaskId, Status>, start: ObjectId, t: TaskId) {
    exists path :: Chain(g, status, start, path) && path[|path| - 1] == t
  }

  /** The object is asked for: it is the first one, or an argument of a claimed task. */
  ghost predicate Asked(g: Lineage, start: ObjectId, claimed: seq<TaskId>, o: ObjectId) {
    o == start || exists t :: t in claimed && t in g.args && o in g.args[t]
  }

  /** Every asked object that has been answered has had its task claimed if it was claimable. */
  ghost predicate Closed(g: Lineage, status: map<TaskId, Status>, start: ObjectId,
                         claimed: seq<TaskId>, pending: seq<ObjectId>) {
    forall o :: Asked(g, start, claimed, o) && o !in pending && Claims(g, status, o) ==> g.producer[o] in claimed
  }

  ghost predicate Sound(g: Lineage, status: map<TaskId, Status>, start: ObjectId, claimed: seq<TaskId>) {
    forall t :: t in claimed ==> t in g.args && Reached(g, status, start, t)
  }

  /** The tasks that a test-and-set could still claim. */
  ghost function Claimable(status: map<TaskId, Status>): set<TaskId> {
    set t | t in status && status[t] != Other
  }

  lemma ChainExtends(g: Lineage, status: map<TaskId, Status>, start: ObjectId, t: TaskId, o: ObjectId)
    requires Reached(g, status, start, t) && t in g.args && o in g.args[t] && Claims(g, status, o)
    ensures Reached(g, status, start, g.producer[o])
  {
    var path :| Chain(g, status, start, path) && path[|path| - 1] == t;
    var longer := path + [g.producer[o]];
    forall i | 0 <= i < |longer| - 1 ensures Link(g, status, longer[i], longer[i + 1]) {
      if i < |path| - 1 {
        assert Link(g, status, path[i], path[i + 1]);
      }
    }
    assert Chain(g, status, start, longer) && longer[|longer| - 1] == g.producer[o];
  }

  lemma ClaimIsReached(g: Lineage, status: map<TaskId, Status>, start: ObjectId, claimed: seq<TaskId>, o: ObjectId)
    requires Asked(g, start, claimed, o) && Claims(g, status, o) && Sound(g, status, start, claimed)
    ensures Reached(g, status, start, g.producer[o])
  {
    if o == start {
      assert Chain(g, status, start, [g.producer[o]]);
    } else {
      var t :| t in claimed && t in g.args && o in g.args[t];
      ChainExtends(g, status, start, t, o);
    }
  }

  /** A closed set of claimed tasks contains every task on every chain. */
  lemma {:induction false} ClosedContainsChains(g: Lineage, status: map<TaskId, Status>, start: ObjectId,
                                                claimed: seq<TaskId>, path: seq<TaskId>)
    requires Closed(g, status, start, claimed, []) && Chain(g, status, start, path)
    ensures path[|path| - 1] in claimed
    decreases |path|
  {
    if |path| == 1 {
      assert Asked(g, start, claimed, start);
    } else {
      var shorter := path[..|path| - 1];
      forall i | 0 <= i < |shorter| - 1 ensures Link(g, status, shorter[i], shorter[i + 1]) {
        assert Link(g, status, path[i], path[i + 1]);
      }
      ClosedContainsChains(g, status, start, claimed, shorter);
      var t := shorter[|shorter| - 1];
      assert Link(g, status, path[|path| - 2], path[|path| - 1]);
      var o :| o in g.args[t] && Claims(g, status, o) && g.producer[o] == path[|path| - 1];
      assert Asked(g, start, claimed, o);
    }
  }

  /** Answering one more object keeps the claimed set closed over what has been answered. */
  lemma ClosedStep(g: Lineage, status0: map<TaskId, Status>, now: map<TaskId, Status>, start: ObjectId,
                   claimed: seq<TaskId>, pending: seq<ObjectId>, i: nat)
    requires Closed(g, status0, start, claimed, pending) && i < |pending|
    requires forall t :: t in now <==> t in status0
    requires forall t :: t in now ==> now[t] == if t in claimed then Other else status0[t]
    ensures
      var o := pending[i];
      var rest := pending[..i] + pending[i + 1..];
      if Claims(g, now, o)
      then g.producer[o] !in claimed
           && Closed(g, status0, start, claimed + [g.producer[o]], rest + Arguments(g, g.producer[o]))
      else Closed(g, status0, start, claimed, rest)
  {
    var o := pending[i];
    var rest := pending[..i] + pending[i + 1..];
    assert forall p :: p in pending ==> p == o || p in rest;
  }

  function Arguments(g: Lineage, t: TaskId): seq<ObjectId> {
    if t in g.args then g.args[t] else []
  }

  /** Statuses change only by claims. */
  ghost predicate Marked(status: map<TaskId, Status>, now: map<TaskId, Status>, claimed: seq<TaskId>) {
    && now.Keys == status.Keys
    && (forall t :: t in now ==> now[t] == if t in claimed then Other else status[t])
  }

  ghost predicate AllAsked(g: Lineage, start: ObjectId, claimed: seq<TaskId>, pending: seq<ObjectId>) {
    forall i :: 0 <= i < |pending| ==> Asked(g, start, claimed, pending[i])
  }

  ghost predicate Progress(g: Lineage, status: map<TaskId, Status>, start: ObjectId,
                           now: map<TaskId, Status>, claimed: seq<TaskId>, pending: seq<ObjectId>) {
    && Marked(status, now, claimed) && NoRepeat(claimed) && AllAsked(g, start, claimed, pending)
    && Sound(g, status, start, claimed) && Closed(g, status, start, claimed, pending)
  }

  lemma ClaimProgress(g: Lineage, status: map<TaskId, Status>, start: ObjectId,
                      now: map<TaskId, Status>, claimed: seq<TaskId>, pending: seq<ObjectId>, i: nat)
    requires WellFormed(g, status) && Progress(g, status, start, now, claimed, pending)
    requires i < |pending| && Claims(g, now, pending[i])
    ensures
      var t := g.producer[pending[i]];
      t in now && t in g.args && Claimable(now[t := Other]) < Claimable(now)
      && Progress(g, status, start, now[t := Other], claimed + [t], pending[..i] + pending[i + 1..] + g.args[t])
  {
    var o := pending[i];
    var t := g.producer[o];
    var rest := pending[..i] + pending[i + 1..];
    ClosedStep(g, status, now, start, claimed, pending, i);
    assert Asked(g, start, claimed, o);
    assert Claims(g, status, o);
    ClaimIsReached(g, status, start, claimed, o);
    AskedGrows(g, start, claimed, t, rest);
    assert t in Claimable(now) && t !in Claimable(now[t := Other]);
  }

  /** The cascade ends whatever the lineage and whatever the order of the replies; it claims, and
      resubmits, each task at most once; and the claimed tasks are exactly those at the end of a
      chain of claimable tasks from the first object. */
  method Reconstruct(g: Lineage, start: ObjectId, status: map<TaskId, Status>)
    returns (claimed: seq<TaskId>, after: map<TaskId, Status>)
    requires WellFormed(g, status)
    ensures NoRepeat(claimed)
    ensures forall t :: t in claimed <==> Reached(g, status, start, t)
    ensures after.Keys == status.Keys
    ensures forall t :: t in status ==> after[t] == if t in claimed then Other else status[t]
  {
    claimed := [];
    after := status;
    var pending := [start];
    while pending != []
      invariant Progress(g, status, start, after, claimed, pending)
      decreases Claimable(after), |pending|
    {
      var i: nat :| i < |pending|;
      var o := pending[i];
      if Claims(g, after, o) {
        ClaimProgress(g, status, start, after, claimed, pending, i);
        var t := g.producer[o];
        after := after[t := Other];
        claimed := claimed + [t];
        pending := pending[..i] + pending[i + 1..] + g.args[t];
      } else {
        ClosedStep(g, status, after, start, claimed, pending, i);
        pending := pending[..i] + pending[i + 1..];
      }
    }
    forall t | Reached(g, status, start, t) ensures t in claimed {
      var path :| Chain(g, status, start, path) && path[|path| - 1] == t;
      ClosedContainsChains(g, status, start, claimed, path);
    }
  }

  lemma AskedGrows(g: Lineage, start: ObjectId, claimed: seq<TaskId>, t: TaskId, pending: seq<ObjectId>)
    requires AllAsked(g, start, claimed, pending) && t in g.args
    ensures AllAsked(g, start, claimed + [t], pending + g.args[t])
  {
    var all := pending + g.args[t];
    forall i | 0 <= i < |all| ensures Asked(g, start, claimed + [t], all[i]) {
      if i < |pending| {
        assert Asked(g, start, claimed, pending[i]);
        if all[i] != start {
          var u :| u in claimed && u in g.args && all[i] in g.args[u];
          assert u in claimed + [t];
        }
      } else {
        assert t in claimed + [t] && all[i] in g.args[t];
      }
    }
  }
}
