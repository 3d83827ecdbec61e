/**
 The plasma store told from outside: in which order unused objects are deleted, and what is stored and
 sealed, read off the users of the objects along a run.
 */
module StoreHistory {
  import opened IdLists
  import opened Eviction
  import opened StoreSpec

  // ---- Order in a list ----

  predicate Before(l: seq<nat>, a: nat, b: nat) {
    exists i, j :: 0 <= i < j < |l| && l[i] == a && l[j] == b
  }

  /** The same order, with some ids gone. */
  ghost predicate Suborder(l: seq<nat>, l': seq<nat>) {
    && (forall a :: a in l' ==> a in l)
    && (forall a, b :: Before(l', a, b) ==> Before(l, a, b))
  }

  lemma SuborderTwice(a: seq<nat>, b: seq<nat>, c: seq<nat>)
    requires Suborder(a, b) && Suborder(b, c)
    ensures Suborder(a, c)
  {
  }

  lemma ErasedElement(l: seq<nat>, k: nat, i: nat)
    requires k < |l| && i < |l| - 1
    ensures (l[..k] + l[k + 1..])[i] == l[if i < k then i else i + 1]
  {
  }

  lemma ErasedSuborder(l: seq<nat>, k: nat, r: seq<nat>)
    requires k < |l| && r == l[..k] + l[k + 1..]
    ensures Suborder(l, r)
  {
    forall a | a in r ensures a in l {
      var i :| 0 <= i < |r| && r[i] == a;
      ErasedElement(l, k, i);
    }
    forall a, b | Before(r, a, b) ensures Before(l, a, b) {
      var i, j :| 0 <= i < j < |r| && r[i] == a && r[j] == b;
      ErasedElement(l, k, i);
      ErasedElement(l, k, j);
      assert l[if i < k then i else i + 1] == a && l[if j < k then j else j + 1] == b;
    }
  }

  lemma WithoutSuborder(l: seq<nat>, x: nat)
    ensures Suborder(l, Without(l, x))
  {
    if x in l {
      hide Suborder;
      ErasedSuborder(l, Find(l, x), Without(l, x));
    }
  }

  lemma SuffixSuborder(l: seq<nat>, n: nat)
    requires n <= |l|
    ensures Suborder(l, l[n..])
  {
    forall a, b | Before(l[n..], a, b) ensures Before(l, a, b) {
      var i, j :| 0 <= i < j < |l| - n && l[n..][i] == a && l[n..][j] == b;
      assert l[n + i] == a && l[n + j] == b;
    }
  }

  /** In a list of different ids one of two stands before the other. */
  lemma BeforeEither(l: seq<nat>, a: nat, b: nat)
    requires NoRepeat(l) && a in l && b in l && a != b
    ensures Before(l, a, b) <==> !Before(l, b, a)
  {
    var i :| 0 <= i < |l| && l[i] == a;
    var j :| 0 <= j < |l| && l[j] == b;
    if i < j {
      assert Before(l, a, b);
    } else {
      assert Before(l, b, a);
    }
  }

  lemma BeforeAppend(l: seq<nat>, more: seq<nat>, a: nat, b: nat)
    requires Before(l + more, a, b)
    ensures Before(l, a, b) || (a in l && b in more) || Before(more, a, b)
  {
    var i, j :| 0 <= i < j < |l + more| && (l + more)[i] == a && (l + more)[j] == b;
    if j < |l| {
      assert l[i] == a && l[j] == b;
    } else if i < |l| {
      assert l[i] == a && more[j - |l|] == b;
    } else {
      assert more[i - |l|] == a && more[j - |l|] == b;
    }
  }

  // ---- What each request does to the order of the unused objects ----

  predicate Unused(m: Memory, o: ObjectId) {
    o in m.objects && m.objects[o].clients == []
  }

  lemma UnusedIffListed(m: Memory, o: ObjectId)
    requires LruInv(m)
    ensures Unused(m, o) <==> o in m.lru
  {
  }

  lemma {:induction false} PinPresentOrder(m: Memory, ids: seq<ObjectId>, c: ClientId)
    ensures Suborder(m.lru, PinPresent(m, ids, c).lru)
    decreases |ids|
  {
    if ids != [] {
      var m1 := if Sealed(m, ids[0]) then AddClient(m, ids[0], c) else m;
      if Sealed(m, ids[0]) {
        WithoutSuborder(m.lru, ids[0]);
      }
      assert Suborder(m.lru, m1.lru);
      PinPresentOrder(m1, ids[1..], c);
      hide Suborder;
      SuborderTwice(m.lru, m1.lru, PinPresent(m, ids, c).lru);
    }
  }

  lemma {:induction false} PinWaitingOrder(m: Memory, rs: seq<Request>, o: ObjectId)
    requires o in m.objects
    ensures Suborder(m.lru, PinWaiting(m, rs, o).lru)
    decreases |rs|
  {
    if rs != [] {
      var m1 := if Waits(rs[0], o) then AddClient(m, o, rs[0].client) else m;
      WithoutSuborder(m.lru, o);
      assert Suborder(m.lru, m1.lru);
      PinWaitingOrder(m1, rs[1..], o);
      hide Suborder;
      SuborderTwice(m.lru, m1.lru, PinWaiting(m, rs, o).lru);
    }
  }

  /** The objects of which `c` is the only user, in the order of the walk. */
  function Emptied(m: Memory, order: seq<ObjectId>, c: ClientId): seq<ObjectId> {
    if order == [] then []
    else (if order[0] in m.objects && m.objects[order[0]].clients == [c] then [order[0]] else [])
         + Emptied(m, order[1..], c)
  }

  lemma EmptiedCons(m: Memory, order: seq<ObjectId>, c: ClientId)
    requires order != []
    ensures Emptied(m, order, c)
         == (if order[0] in m.objects && m.objects[order[0]].clients == [c] then [order[0]] else [])
            + Emptied(m, order[1..], c)
  {
  }

  lemma {:induction false} EmptiedSame(m: Memory, m': Memory, order: seq<ObjectId>, c: ClientId)
    requires m.objects.Keys == m'.objects.Keys
    requires forall o :: o in order && o in m.objects ==> m'.objects[o].clients == m.objects[o].clients
    ensures Emptied(m, order, c) == Emptied(m', order, c)
  {
    if order != [] {
      assert order[0] in order;
      EmptiedSame(m, m', order[1..], c);
    }
  }

  lemma RemoveOneList(m: Memory, o: ObjectId, c: ClientId)
    requires LruInv(m) && o in m.objects
    ensures RemoveClient(m, o, c).lru == m.lru + if m.objects[o].clients == [c] then [o] else []
    ensures forall p :: p in m.objects && p != o ==> RemoveClient(m, o, c).objects[p] == m.objects[p]
  {
    WithoutRemoves(m.objects[o].clients, c);
    OnlyUser(m.objects[o].clients, Without(m.objects[o].clients, c), c);
    assert c in [c];
  }

  lemma EmptiedAfter(m: Memory, order: seq<ObjectId>, c: ClientId)
    requires LruInv(m) && NoRepeat(order) && order != []
    ensures
      var m1 := if order[0] in m.objects then RemoveClient(m, order[0], c) else m;
      && LruInv(m1) && Emptied(m1, order[1..], c) == Emptied(m, order[1..], c)
      && m1.lru == m.lru + if order[0] in m.objects && m.objects[order[0]].clients == [c] then [order[0]] else []
  {
    hide LruInv, RemoveClient, Emptied;
    var p, rest := order[0], order[1..];
    var m1 := if p in m.objects then RemoveClient(m, p, c) else m;
    assert forall o :: o in rest ==> o != p;
    if p in m.objects {
      RemoveOneKeeps(m, p, c);
      RemoveOneList(m, p, c);
      EmptiedSame(m, m1, rest, c);
    } else {
      assert m.lru + [] == m.lru;
    }
  }

  /** A disconnection puts the objects that lose their only user at the end, in the order of the walk. */
  lemma {:induction false} LeaveList(m: Memory, order: seq<ObjectId>, c: ClientId)
    requires LruInv(m) && NoRepeat(order)
    ensures RemoveEverywhere(m, order, c).lru == m.lru + Emptied(m, order, c)
    decreases |order|
  {
    if order == [] {
      assert m.lru + [] == m.lru;
    } else {
      hide LruInv, RemoveClient, Emptied;
      var m1 := if order[0] in m.objects then RemoveClient(m, order[0], c) else m;
      EmptiedAfter(m, order, c);
      EmptiedCons(m, order, c);
      assert NoRepeat(order[1..]);
      LeaveList(m1, order[1..], c);
      hide RemoveEverywhere, NoRepeat;
      var first := if order[0] in m.objects && m.objects[order[0]].clients == [c] then [order[0]] else [];
      Regroup(m.lru, first, Emptied(m, order[1..], c));
    }
  }

  lemma {:induction false} EmptiedOrder(m: Memory, order: seq<ObjectId>, c: ClientId)
    requires NoRepeat(order)
    ensures Suborder(order, Emptied(m, order, c))
    ensures forall o :: o in Emptied(m, order, c) ==> o in m.objects && m.objects[o].clients == [c]
  {
    if order != [] {
      var rest := Emptied(m, order[1..], c);
      EmptiedOrder(m, order[1..], c);
      SuffixSuborder(order, 1);
      var all := Emptied(m, order, c);
      forall a, b | Before(all, a, b) ensures Before(order, a, b) {
        var i, j :| 0 <= i < j < |all| && all[i] == a && all[j] == b;
        if |all| == |rest| {
          assert all == rest && Before(rest, a, b);
        } else {
          assert all == [order[0]] + rest && all[j] == rest[j - 1];
          if i > 0 {
            assert all[i] == rest[i - 1];
            assert Before(rest, a, b);
          } else {
            assert b in rest && b in order[1..];
            var k :| 0 <= k < |order[1..]| && order[1..][k] == b;
            assert order[0] == a && order[k + 1] == b;
          }
        }
      }
    }
  }

  /** The list has lost its first `k` objects, and these are what has been deleted. */
  ghost predicate Shortened(m: Memory, m': Memory, k: nat) {
    && k <= |m.lru| && m'.lru == m.lru[k..]
    && (forall o :: o in m'.objects <==> o in m.objects && o !in m.lru[..k])
    && (forall o :: o in m'.objects ==> m'.objects[o] == m.objects[o])
  }

  lemma ShortenedTwice(m: Memory, m1: Memory, m2: Memory, j: nat, k: nat)
    requires Shortened(m, m1, j) && Shortened(m1, m2, k)
    ensures Shortened(m, m2, j + k)
  {
    assert m.lru[j..][k..] == m.lru[j + k..];
    assert m.lru[..j + k] == m.lru[..j] + m.lru[j..][..k];
  }

  lemma ShortenedNone(m: Memory, m': Memory)
    requires m'.lru == m.lru && m'.objects == m.objects
    ensures Shortened(m, m', 0)
  {
    assert m.lru[0..] == m.lru && m.lru[..0] == [];
  }

  lemma EvictShortens(m: Memory, required: int, m': Memory) returns (k: nat)
    requires LruInv(m) && m'.lru == Evict(m, required).lru && m'.objects == Evict(m, required).objects
    ensures Shortened(m, m', k)
  {
    hide LruInv, Evict, Bytes, Count;
    k := EvictsPrefix(m, required);
  }

  lemma RequireSpaceShortens(m: Memory, size: nat) returns (k: nat)
    requires LruInv(m)
    ensures Shortened(m, RequireSpace(m, size).memory, k)
  {
    assert forall o :: o in m.lru ==> o in m.objects;
    hide LruInv, Evict, Shortened;
    if m.used + size - m.capacity > 0 {
      k := EvictShortens(m, Max(size, m.capacity / 5), RequireSpace(m, size).memory);
    } else {
      k := 0;
      ShortenedNone(m, RequireSpace(m, size).memory);
    }
  }

  lemma AttemptMore(m: Memory, size: nat, n: nat)
    requires Eviction.Inv(m) && n > 0
    ensures
      var r := Attempts(m, size, n - 1);
      && LruInv(r.memory) && (forall o :: o in r.memory.lru ==> o in r.memory.objects)
      && Attempts(m, size, n) == if r.Enough? then RequireSpace(r.memory, size) else r
  {
    hide RequireSpace;
    var r := Attempts(m, size, n - 1);
    assert Eviction.Inv(r.memory);
  }

  /** Failed allocations delete a first part of the list and nothing else. */
  lemma {:induction false} AttemptsPrefix(m: Memory, size: nat, n: nat) returns (k: nat)
    requires Eviction.Inv(m)
    ensures Shortened(m, Attempts(m, size, n).memory, k)
  {
    if n == 0 {
      hide Shortened, Eviction.Inv;
      k := 0;
      assert Attempts(m, size, 0) == Enough(m);
      ShortenedNone(m, m);
    } else {
      hide RequireSpace, Eviction.Inv, LruInv, Shortened, Attempts;
      k := AttemptsPrefix(m, size, n - 1);
      var r := Attempts(m, size, n - 1);
      AttemptMore(m, size, n);
      if r.Enough? {
        var j := RequireSpaceShortens(r.memory, size);
        ShortenedTwice(m, r.memory, RequireSpace(r.memory, size).memory, k, j);
        k := k + j;
      }
    }
  }

  /** For every request: of two objects that are unused after it, the one that stands first was unused
      before and stood first then; or was unused before and the other was not; or both became unused in
      this request, a disconnection, and the first came first in the walk. */
  lemma StepOrder(s: State, e: Event, a: ObjectId, b: ObjectId)
    requires StoreSpec.Inv(s) && Enabled(s, e) && Before(Step(s, e).m.lru, a, b)
    ensures
      || (Unused(s.m, a) && Unused(s.m, b) && Before(s.m.lru, a, b))
      || (Unused(s.m, a) && !Unused(s.m, b))
      || (!Unused(s.m, a) && !Unused(s.m, b) && e.Left? && Before(e.order, a, b))
  {
    UnusedIffListed(s.m, a);
    UnusedIffListed(s.m, b);
    hide RequestsInv, AnsweredOnce, LruInv;
    match e
    case Created(c, o, size, n) =>
      if o !in s.m.objects {
        var k := AttemptsPrefix(s.m, size, n);
        SuffixSuborder(s.m.lru, k);
      }
      BeforeIn(s.m.lru, a, b);
    case Requested(c, ids, immediate) =>
      PinPresentOrder(s.m, ids, c);
      BeforeIn(s.m.lru, a, b);
    case TimedOut(id) => BeforeIn(s.m.lru, a, b);
    case Sealing(o) =>
      PinWaitingOrder(Seal(s.m, o), s.requests, o);
      BeforeIn(s.m.lru, a, b);
    case Released(c, o) =>
      RemoveOneList(s.m, o, c);
      UnusedIffListed(s.m, o);
      ReleasedOrder(s.m.lru, if s.m.objects[o].clients == [c] then [o] else [], a, b);
    case Left(c, order) =>
      LeaveList(s.m, order, c);
      EmptiedOrder(s.m, order, c);
      BeforeAppend(s.m.lru, Emptied(s.m, order, c), a, b);
      if Before(s.m.lru, a, b) {
        BeforeIn(s.m.lru, a, b);
      } else if Before(Emptied(s.m, order, c), a, b) {
        BeforeIn(Emptied(s.m, order, c), a, b);
      }
    case EvictRequested(bytes) =>
      var n := EvictsPrefix(s.m, bytes);
      SuffixSuborder(s.m.lru, n);
      BeforeIn(s.m.lru, a, b);
  }

  lemma BeforeIn(l: seq<nat>, a: nat, b: nat)
    ensures Before(l, a, b) ==> a in l && b in l
  {
  }

  lemma ReleasedOrder(l: seq<nat>, last: seq<nat>, a: nat, b: nat)
    requires Before(l + last, a, b) && |last| <= 1 && forall x :: x in last ==> x !in l
    ensures (a in l && b in l && Before(l, a, b)) || (a in l && b !in l)
  {
    BeforeAppend(l, last, a, b);
    BeforeIn(l, a, b);
  }

  // ---- Along a run ----

  lemma {:induction false} RunExtends(s: State, es: seq<Event>, e: Event)
    ensures Feasible(s, es + [e]) <==>
      Feasible(s, es) && Eviction.Inv(Run(s, es).m) && Enabled(Run(s, es), e)
    ensures Feasible(s, es + [e]) ==> Run(s, es + [e]) == Step(Run(s, es), e)
    decreases |es|
  {
    if es == [] {
      assert es + [e] == [e] && [e][1..] == [];
    } else {
      assert (es + [e])[0] == es[0] && (es + [e])[1..] == es[1..] + [e];
      if Eviction.Inv(s.m) && Enabled(s, es[0]) {
        RunExtends(Step(s, es[0]), es[1..], e);
      }
    }
  }

  /** The number of the last step in which the object's last user went away; zero if there is none. */
  ghost function ReleasedAt(s: State, es: seq<Event>, o: ObjectId): nat
    requires Feasible(s, es)
    decreases |es|
  {
    if es == [] then 0
    else
      var n := |es| - 1;
      assert es == es[..n] + [es[n]];
      RunExtends(s, es[..n], es[n]);
      if Unused(Run(s, es).m, o) && !Unused(Run(s, es[..n]).m, o) then |es| else ReleasedAt(s, es[..n], o)
  }

  lemma {:induction false} ReleasedAtBound(s: State, es: seq<Event>, o: ObjectId)
    requires Feasible(s, es)
    ensures ReleasedAt(s, es, o) <= |es|
    decreases |es|
  {
    if es != [] {
      var n := |es| - 1;
      assert es == es[..n] + [es[n]];
      RunExtends(s, es[..n], es[n]);
      ReleasedAtBound(s, es[..n], o);
    }
  }

  /** Why `a` is to be deleted before `b`: it was released in an earlier step; or both were unused from
      the start, in this order; or both lost their only user in the same disconnection, in the order of
      its walk. */
  ghost predicate Earlier(s: State, es: seq<Event>, a: ObjectId, b: ObjectId)
    requires Feasible(s, es)
  {
    var x, y := ReleasedAt(s, es, a), ReleasedAt(s, es, b);
    || x < y
    || (x == y == 0 && Before(s.m.lru, a, b))
    || (0 < x == y <= |es| && es[x - 1].Left? && Before(es[x - 1].order, a, b))
  }

  /** One more step. */
  lemma ReleasedAtMore(s: State, es: seq<Event>, e: Event, o: ObjectId)
    requires Feasible(s, es) && Feasible(s, es + [e]) && Unused(Run(s, es + [e]).m, o)
    ensures ReleasedAt(s, es + [e], o) == if Unused(Run(s, es).m, o) then ReleasedAt(s, es, o) else |es| + 1
    ensures ReleasedAt(s, es, o) <= |es|
  {
    assert (es + [e])[..|es|] == es && (es + [e])[|es|] == e;
    ReleasedAtBound(s, es, o);
    hide Feasible, Run;
  }

  lemma EarlierMore(s: State, es: seq<Event>, e: Event, a: ObjectId, b: ObjectId)
    requires Feasible(s, es) && Feasible(s, es + [e])
    requires Unused(Run(s, es + [e]).m, a) && Unused(Run(s, es + [e]).m, b)
    requires
      || (Unused(Run(s, es).m, a) && Unused(Run(s, es).m, b) && Earlier(s, es, a, b))
      || (Unused(Run(s, es).m, a) && !Unused(Run(s, es).m, b))
      || (!Unused(Run(s, es).m, a) && !Unused(Run(s, es).m, b) && e.Left? && Before(e.order, a, b))
    ensures Earlier(s, es + [e], a, b)
  {
    hide Feasible, Run, ReleasedAt, Unused, Before;
    ReleasedAtMore(s, es, e, a);
    ReleasedAtMore(s, es, e, b);
    var x := ReleasedAt(s, es, a);
    assert 0 < x <= |es| ==> (es + [e])[x - 1] == es[x - 1];
    assert (es + [e])[|es|] == e;
  }

  /** Over every run: the list holds the unused objects in the order in which they were released. */
  lemma {:induction false} ListIsReleaseOrder(s: State, es: seq<Event>, a: ObjectId, b: ObjectId)
    requires StoreSpec.Inv(s) && Feasible(s, es) && Before(Run(s, es).m.lru, a, b)
    ensures Unused(Run(s, es).m, a) && Unused(Run(s, es).m, b) && Earlier(s, es, a, b)
    decreases |es|
  {
    RunKeeps(s, es);
    UnusedIffListed(Run(s, es).m, a);
    UnusedIffListed(Run(s, es).m, b);
    BeforeIn(Run(s, es).m.lru, a, b);
    if es != [] {
      hide StoreSpec.Inv, Enabled, Step, Eviction.Inv, LruInv, Before, Earlier, Unused, ReleasedAt;
      var n := |es| - 1;
      var fs, e := es[..n], es[n];
      assert es == fs + [e];
      RunExtends(s, fs, e);
      RunKeeps(s, fs);
      StepOrder(Run(s, fs), e, a, b);
      if Unused(Run(s, fs).m, a) && Unused(Run(s, fs).m, b) {
        ListIsReleaseOrder(s, fs, a, b);
      }
      EarlierMore(s, fs, e, a, b);
    }
  }

  /** Of two unused objects released in different steps, the one released earlier stands first, and
      conversely. */
  lemma StandsFirstIff(s: State, es: seq<Event>, a: ObjectId, b: ObjectId)
    requires StoreSpec.Inv(s) && Feasible(s, es) && Unused(Run(s, es).m, a) && Unused(Run(s, es).m, b)
    requires ReleasedAt(s, es, a) != ReleasedAt(s, es, b)
    ensures Before(Run(s, es).m.lru, a, b) <==> ReleasedAt(s, es, a) < ReleasedAt(s, es, b)
  {
    var m := Run(s, es).m;
    RunKeeps(s, es);
    UnusedIffListed(m, a);
    UnusedIffListed(m, b);
    assert NoRepeat(m.lru);
    hide StoreSpec.Inv, Run, Feasible, ReleasedAt, Before;
    BeforeEither(m.lru, a, b);
    if Before(m.lru, a, b) {
      ListIsReleaseOrder(s, es, a, b);
    } else {
      ListIsReleaseOrder(s, es, b, a);
    }
  }

  // ---- What is deleted ----

  /** What a request deletes is a first part of the list. */
  lemma DeletesPrefix(s: State, e: Event) returns (n: nat)
    requires StoreSpec.Inv(s) && Enabled(s, e)
    ensures n <= |s.m.lru| && forall o :: o in s.m.objects && o !in Step(s, e).m.objects <==> o in s.m.lru[..n]
  {
    n := 0;
    assert forall o :: o in s.m.lru ==> o in s.m.objects;
    hide RequestsInv, AnsweredOnce, LruInv;
    match e
    case Created(c, o, size, k) =>
      if o !in s.m.objects {
        n := AttemptsPrefix(s.m, size, k);
        assert forall p :: p in s.m.lru[..n] ==> p in s.m.lru;
      }
    case Requested(c, ids, immediate) => PinPresentKeeps(s.m, ids, c);
    case TimedOut(id) =>
    case Sealing(o) =>
      SealedMemoryStays(s.m, o);
      PinWaitingKeeps(Seal(s.m, o), s.requests, o);
    case Released(c, o) =>
    case Left(c, order) => RemoveEverywhereKeeps(s.m, order, c);
    case EvictRequested(bytes) =>
      n := EvictsPrefix(s.m, bytes);
      assert forall p :: p in s.m.lru[..n] ==> p in s.m.lru;
  }

  lemma SealedMemoryStays(m: Memory, o: ObjectId)
    requires Eviction.Inv(m) && o in m.objects
    ensures Eviction.Inv(Seal(m, o)) && Sealed(Seal(m, o), o) && Seal(m, o).objects.Keys == m.objects.Keys
  {
  }

  /** Over every run: no request deletes an object and keeps one that was released in an earlier step. */
  lemma OldestGoFirst(s: State, es: seq<Event>, e: Event, a: ObjectId, b: ObjectId)
    requires StoreSpec.Inv(s) && Feasible(s, es) && Feasible(s, es + [e])
    requires Unused(Run(s, es).m, a) && b in Run(s, es).m.objects && b !in Run(s, es + [e]).m.objects
    requires ReleasedAt(s, es, a) < ReleasedAt(s, es, b)
    ensures a !in Run(s, es + [e]).m.objects
  {
    var m := Run(s, es);
    RunKeeps(s, es);
    RunExtends(s, es, e);
    var n := DeletesPrefix(m, e);
    assert NoRepeat(m.m.lru);
    UnusedIffListed(m.m, a);
    UnusedIffListed(m.m, b);
    assert b in m.m.lru[..n] && b in m.m.lru;
    StandsFirstIff(s, es, a, b);
    hide StoreSpec.Inv, Run, Feasible, ReleasedAt, Step, Enabled;
    var i, j :| 0 <= i < j < |m.m.lru| && m.m.lru[i] == a && m.m.lru[j] == b;
    var k :| 0 <= k < n && m.m.lru[..n][k] == b;
    assert k == j && m.m.lru[..n][i] == a;
  }

  /** An eviction request deletes just enough of the oldest unused objects, or all of them, and nothing
      else changes but the count of used memory, by their sizes. */
  lemma EvictRequestDeletes(s: State, bytes: int) returns (n: nat)
    requires StoreSpec.Inv(s)
    ensures
      var s', l := Step(s, EvictRequested(bytes)), s.m.lru;
      && n <= |l| && (forall o :: o in l[..n] ==> o in s.m.objects)
      && (forall o :: o in s'.m.objects <==> o in s.m.objects && o !in l[..n])
      && (Bytes(l[..n], s.m.objects) >= bytes || n == |l|)
      && (forall k: nat :: k < n ==>
            (forall o :: o in l[..k] ==> o in s.m.objects) && Bytes(l[..k], s.m.objects) < bytes)
      && s'.m.used == s.m.used - Bytes(l[..n], s.m.objects)
  {
    n := EvictsPrefix(s.m, bytes);
  }

  // ---- What is stored, and what is sealed ----

  /** A creation stores the object, unsealed, with its size and its creator as the only user, if and only
      if it is new and the failed allocations have not used up the evictable space. */
  lemma CreationStoresIff(s: State, c: ClientId, o: ObjectId, size: nat, n: nat)
    requires StoreSpec.Inv(s) && Enabled(s, Created(c, o, size, n)) && o !in s.m.objects
    ensures
      var s' := Step(s, Created(c, o, size, n));
      && (o in s'.m.objects <==> Attempts(s.m, size, n).Enough?)
      && (o in s'.m.objects ==> s'.m.objects[o] == Entry(size, false, [c]))
  {
    var k := AttemptsPrefix(s.m, size, n);
  }

  /** An object that is stored is sealed if and only if it was sealed before or this request seals it. */
  lemma StepSealedIff(s: State, e: Event, o: ObjectId)
    requires StoreSpec.Inv(s) && Enabled(s, e) && o in Step(s, e).m.objects
    ensures Sealed(Step(s, e).m, o) <==> e == Sealing(o) || Sealed(s.m, o)
  {
    hide RequestsInv, AnsweredOnce, LruInv;
    match e
    case Created(c, p, size, k) =>
      if p !in s.m.objects {
        var n := AttemptsPrefix(s.m, size, k);
      }
    case Requested(c, ids, immediate) => PinPresentKeeps(s.m, ids, c);
    case TimedOut(id) =>
    case Sealing(p) =>
      SealedMemoryStays(s.m, p);
      PinWaitingKeeps(Seal(s.m, p), s.requests, p);
    case Released(c, p) =>
    case Left(c, order) => RemoveEverywhereKeeps(s.m, order, c);
    case EvictRequested(bytes) =>
      var n := EvictsPrefix(s.m, bytes);
  }
}
