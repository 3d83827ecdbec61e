/** Task specifications and the argument tests that the scheduler runs on them. */
module Tasks {

  type ObjectId = nat
  type DriverId = nat
  type WorkerId = nat

  /** A resource demand. The source keeps a `double`; the model keeps an exact real. */
  type Amount = r: real | 0.0 <= r witness 0.0

  datatype Option<+T> = None | Some(value: T)

  datatype Arg = ByValue(data: seq<nat>) | ByRef(id: ObjectId)

  datatype Task = Task(id: nat, driver: DriverId, args: seq<Arg>, cpus: Amount, gpus: Amount)

  /** How many by-reference arguments name `o`. */
  function Occurrences(args: seq<Arg>, o: ObjectId): (n: nat)
  {
    if args == [] then 0
    else Occurrences(args[..|args| - 1], o) + (if args[|args| - 1] == ByRef(o) then 1 else 0)
  }

  predicate DependsOn(t: Task, o: ObjectId) {
    ByRef(o) in t.args
  }

  predicate CanRun(t: Task, local: set<ObjectId>) {
    forall i :: 0 <= i < |t.args| && t.args[i].ByRef? ==> t.args[i].id in local
  }

  lemma {:induction false} OccurrencesPositive(args: seq<Arg>, o: ObjectId)
    ensures Occurrences(args, o) > 0 <==> ByRef(o) in args
  {
    if args != [] {
      var front := args[..|args| - 1];
      OccurrencesPositive(front, o);
      assert args == front + [args[|args| - 1]];
    }
  }

  /** A task is runnable exactly when every object it names is local. */
  lemma RunnableHasNoMissing(t: Task, local: set<ObjectId>)
    ensures CanRun(t, local) <==> forall o :: Occurrences(t.args, o) > 0 ==> o in local
  {
    forall o ensures Occurrences(t.args, o) > 0 <==> ByRef(o) in t.args {
      OccurrencesPositive(t.args, o);
    }
    if forall o :: Occurrences(t.args, o) > 0 ==> o in local {
      forall i | 0 <= i < |t.args| && t.args[i].ByRef? ensures t.args[i].id in local {
        assert t.args[i] == ByRef(t.args[i].id);
        assert Occurrences(t.args, t.args[i].id) > 0;
      }
    }
  }

  /** Only a task that depends on `o` can become runnable when `o` arrives. */
  lemma OnlyDependentsWakeUp(t: Task, local: set<ObjectId>, o: ObjectId)
    requires !CanRun(t, local) && CanRun(t, local + {o})
    ensures DependsOn(t, o) && Occurrences(t.args, o) > 0
  {
    OccurrencesPositive(t.args, o);
    var i :| 0 <= i < |t.args| && t.args[i].ByRef? && t.args[i].id !in local;
    assert t.args[i] == ByRef(o);
  }

  /** Removing `o` makes exactly the runnable tasks that depend on it unrunnable. */
  lemma RemovalStopsDependents(t: Task, local: set<ObjectId>, o: ObjectId)
    requires CanRun(t, local)
    ensures CanRun(t, local - {o}) <==> !DependsOn(t, o)
  {
    if DependsOn(t, o) {
      var i :| 0 <= i < |t.args| && t.args[i] == ByRef(o);
      assert t.args[i].ByRef? && t.args[i].id !in local - {o};
    }
  }
}
