/**
 What one client can see of the plasma store: the objects that list it, its waiting requests and
 its answers. For every transition of the store: what it changes for each client.
 */
module StoreViews {
  import IdLists
  import Eviction
  import S = StoreSpec

  type ObjectId = Eviction.ObjectId
  type ClientId = Eviction.ClientId

  datatype Answer = CreateReply(ok: bool) | GetReply(found: set<ObjectId>)

  datatype View = View(pins: set<ObjectId>, open: set<ObjectId>, mine: seq<S.Request>, gone: bool)

  function Pins(m: Eviction.Memory, c: ClientId): set<ObjectId> {
    set o | o in m.objects && c in m.objects[o].clients
  }

  /** The objects that list the client and are not sealed. */
  function Open(m: Eviction.Memory, c: ClientId): set<ObjectId> {
    set o | o in m.objects && c in m.objects[o].clients && !m.objects[o].sealed
  }

  function Mine(rs: seq<S.Request>, c: ClientId): seq<S.Request> {
    if rs == [] then [] else (if rs[0].client == c then [rs[0]] else []) + Mine(rs[1..], c)
  }

  function ViewOf(s: S.State, c: ClientId): View {
    View(Pins(s.m, c), Open(s.m, c), Mine(s.requests, c), c in s.gone)
  }

  /** The answers among the store's replies that go to one client. */
  function Answers(rs: seq<S.Reply>, c: ClientId): seq<Answer> {
    if rs == [] then [] else (if rs[0].client == c then [GetReply(rs[0].found)] else []) + Answers(rs[1..], c)
  }

  function NewReplies(s: S.State, s': S.State): seq<S.Reply> {
    if |s.replies| <= |s'.replies| then s'.replies[|s.replies|..] else []
  }

  /** An unsealed object is used by its creator alone. */
  ghost predicate Sole(s: S.State) {
    forall c, d, o :: o in ViewOf(s, c).open && o in ViewOf(s, d).open ==> c == d
  }

  // ---- Filtering requests and replies ----

  lemma {:induction false} MineAppend(a: seq<S.Request>, b: seq<S.Request>, c: ClientId)
    ensures Mine(a + b, c) == Mine(a, c) + Mine(b, c)
  {
    if a == [] {
      assert a + b == b;
    } else {
      assert (a + b)[1..] == a[1..] + b;
      MineAppend(a[1..], b, c);
      var first := if a[0].client == c then [a[0]] else [];
      assert first + (Mine(a[1..], c) + Mine(b, c)) == (first + Mine(a[1..], c)) + Mine(b, c);
    }
  }

  lemma {:induction false} MineHas(rs: seq<S.Request>, i: nat)
    requires i < |rs|
    ensures rs[i] in Mine(rs, rs[i].client)
  {
    if i > 0 {
      MineHas(rs[1..], i - 1);
    }
  }

  lemma {:induction false} MineIs(rs: seq<S.Request>, c: ClientId, r: S.Request)
    requires r in Mine(rs, c)
    ensures r in rs && r.client == c
  {
    if !(rs[0].client == c && r == rs[0]) {
      MineIs(rs[1..], c, r);
    }
  }

  predicate Idle(s: S.State, c: ClientId) {
    forall i :: 0 <= i < |s.requests| ==> s.requests[i].client != c
  }

  /** A client without waiting requests is idle. */
  lemma IdleIff(s: S.State, c: ClientId)
    ensures Idle(s, c) <==> Mine(s.requests, c) == []
  {
    if Mine(s.requests, c) != [] {
      MineIs(s.requests, c, Mine(s.requests, c)[0]);
    } else {
      forall i | 0 <= i < |s.requests| ensures s.requests[i].client != c {
        MineHas(s.requests, i);
      }
    }
  }

  /** Answering a request takes it from its own client and no other. */
  lemma MineDrop(rs: seq<S.Request>, i: nat, c: ClientId)
    requires i < |rs|
    ensures rs[i].client != c ==> Mine(S.Drop(rs, i), c) == Mine(rs, c)
    ensures rs[i].client == c && |Mine(rs, c)| == 1 ==> Mine(rs, c) == [rs[i]] && Mine(S.Drop(rs, i), c) == []
  {
    var a, r, b := rs[..i], rs[i], rs[i + 1..];
    assert rs == a + ([r] + b);
    MineAppend(a, [r] + b, c);
    MineAppend([r], b, c);
    MineAppend(a, b, c);
    assert [r][1..] == [];
    assert Mine([r], c) == if r.client == c then [r] else [];
    if r.client != c {
      assert [] + Mine(b, c) == Mine(b, c);
    } else if |Mine(rs, c)| == 1 {
      var x, y := Mine(a, c), Mine(b, c);
      assert |x + ([r] + y)| == |x| + 1 + |y|;
      assert x == [] && y == [];
    }
  }

  /** Sealing treats the requests of each client as if there were no others. */
  lemma {:induction false} MineStillWaiting(rs: seq<S.Request>, o: ObjectId, c: ClientId)
    ensures Mine(S.StillWaiting(rs, o), c) == S.StillWaiting(Mine(rs, c), o)
  {
    if rs != [] {
      var r, rest := rs[0], rs[1..];
      MineStillWaiting(rest, o, c);
      hide S.Waits;
      assert Mine(rs, c) == (if r.client == c then [r] else []) + Mine(rest, c);
      if r.client == c {
        assert Mine(rs, c)[0] == r && Mine(rs, c)[1..] == Mine(rest, c);
        if S.CompletedBy(r, o) {
          S.StillWaitingLoses(rs, o);
          S.StillWaitingLoses(Mine(rs, c), o);
        } else {
          S.StillWaitingKeepsFirst(rs, o);
          S.StillWaitingKeepsFirst(Mine(rs, c), o);
          MineCons(S.Updated(r, o), S.StillWaiting(rest, o), c);
        }
      } else {
        assert Mine(rs, c) == Mine(rest, c);
        if S.CompletedBy(r, o) {
          S.StillWaitingLoses(rs, o);
        } else {
          S.StillWaitingKeepsFirst(rs, o);
          MineCons(S.Updated(r, o), S.StillWaiting(rest, o), c);
        }
      }
    }
  }

  lemma MineCons(r: S.Request, rest: seq<S.Request>, c: ClientId)
    ensures Mine([r] + rest, c) == (if r.client == c then [r] else []) + Mine(rest, c)
  {
    assert ([r] + rest)[1..] == rest;
  }

  lemma AnswersCons(r: S.Reply, rest: seq<S.Reply>, c: ClientId)
    ensures Answers([r] + rest, c) == (if r.client == c then [GetReply(r.found)] else []) + Answers(rest, c)
  {
    assert ([r] + rest)[1..] == rest;
  }

  lemma {:induction false} AnswersToMine(rs: seq<S.Request>, o: ObjectId, c: ClientId)
    ensures Answers(S.AnsweredBy(rs, o), c) == Answers(S.AnsweredBy(Mine(rs, c), o), c)
  {
    if rs != [] {
      var r, rest := rs[0], rs[1..];
      AnswersToMine(rest, o, c);
      hide S.Waits;
      assert Mine(rs, c) == (if r.client == c then [r] else []) + Mine(rest, c);
      if S.CompletedBy(r, o) {
        S.StillWaitingLoses(rs, o);
        AnswersCons(S.Answer(S.Serve(r, o)), S.AnsweredBy(rest, o), c);
      } else {
        S.StillWaitingKeepsFirst(rs, o);
      }
      if r.client == c {
        assert Mine(rs, c)[0] == r && Mine(rs, c)[1..] == Mine(rest, c);
        if S.CompletedBy(r, o) {
          S.StillWaitingLoses(Mine(rs, c), o);
          AnswersCons(S.Answer(S.Serve(r, o)), S.AnsweredBy(Mine(rest, c), o), c);
        } else {
          S.StillWaitingKeepsFirst(Mine(rs, c), o);
        }
      } else {
        assert Mine(rs, c) == Mine(rest, c);
      }
    }
  }

  predicate Wants(mine: seq<S.Request>, o: ObjectId) {
    exists i :: 0 <= i < |mine| && S.Waits(mine[i], o)
  }

  // ---- Clients of objects ----

  /** The same objects, with the same seals, and the same clients for all but `c`. */
  ghost predicate SameForOthers(m: Eviction.Memory, m': Eviction.Memory, c: ClientId) {
    && m'.objects.Keys == m.objects.Keys
    && (forall o :: o in m.objects ==> m'.objects[o].sealed == m.objects[o].sealed)
    && (forall o, d :: o in m.objects && d != c ==> (d in m'.objects[o].clients <==> d in m.objects[o].clients))
  }

  lemma {:induction false} PinPresentClients(m: Eviction.Memory, ids: seq<ObjectId>, c: ClientId)
    ensures SameForOthers(m, S.PinPresent(m, ids, c), c)
    ensures forall o :: o in m.objects ==>
      (c in S.PinPresent(m, ids, c).objects[o].clients <==> c in m.objects[o].clients || (o in ids && S.Sealed(m, o)))
    decreases |ids|
  {
    if ids != [] {
      var m1 := if S.Sealed(m, ids[0]) then Eviction.AddClient(m, ids[0], c) else m;
      assert SameForOthers(m, m1, c);
      PinPresentClients(m1, ids[1..], c);
      assert ids == [ids[0]] + ids[1..];
    }
  }

  lemma {:induction false} PinWaitingClients(m: Eviction.Memory, rs: seq<S.Request>, o: ObjectId, c: ClientId)
    requires o in m.objects
    ensures S.PinWaiting(m, rs, o).objects.Keys == m.objects.Keys
    ensures forall p :: p in m.objects ==> S.PinWaiting(m, rs, o).objects[p].sealed == m.objects[p].sealed
    ensures forall p :: p in m.objects ==>
      (c in S.PinWaiting(m, rs, o).objects[p].clients <==>
        c in m.objects[p].clients || (p == o && Wants(Mine(rs, c), o)))
    decreases |rs|
  {
    if rs != [] {
      var r := rs[0];
      var m1 := if S.Waits(r, o) then Eviction.AddClient(m, o, r.client) else m;
      PinWaitingClients(m1, rs[1..], o, c);
      WantsCons(rs, o, c);
    }
  }

  lemma WantsCons(rs: seq<S.Request>, o: ObjectId, c: ClientId)
    requires rs != []
    ensures Wants(Mine(rs, c), o) <==> (rs[0].client == c && S.Waits(rs[0], o)) || Wants(Mine(rs[1..], c), o)
  {
    var all, rest := Mine(rs, c), Mine(rs[1..], c);
    assert all == (if rs[0].client == c then [rs[0]] else []) + rest;
    var n := if rs[0].client == c then 1 else 0;
    assert forall i :: 0 <= i < |rest| ==> rest[i] == all[i + n];
    if Wants(all, o) && !(rs[0].client == c && S.Waits(rs[0], o)) {
      var i :| 0 <= i < |all| && S.Waits(all[i], o);
      assert rest[i - n] == all[i];
    }
    if rs[0].client == c && S.Waits(rs[0], o) {
      assert all[0] == rs[0];
    } else if Wants(rest, o) {
      var i :| 0 <= i < |rest| && S.Waits(rest[i], o);
      assert S.Waits(all[i + n], o);
    }
  }

  // ---- What each transition changes for each client ----

  /** A creation gives its client the new object, if there was space, and changes nothing else. */
  lemma CreatedView(s: S.State, c: ClientId, o: ObjectId, size: nat, n: nat, d: ClientId)
    requires S.Inv(s) && S.Enabled(s, S.Created(c, o, size, n))
    ensures
      var s' := S.Step(s, S.Created(c, o, size, n));
      var added := if d == c && o !in s.m.objects && o in s'.m.objects then {o} else {};
      var v := ViewOf(s, d);
      ViewOf(s', d) == v.(pins := v.pins + added, open := v.open + added) && NewReplies(s, s') == []
  {
    hide S.RequestsInv, S.AnsweredOnce, Eviction.Inv;
    var s' := S.Step(s, S.Created(c, o, size, n));
    if o !in s.m.objects {
      var r := Eviction.Attempts(s.m, size, n);
      forall p | p in r.memory.objects ensures p in s.m.objects && r.memory.objects[p] == s.m.objects[p] {
        Eviction.AttemptsOnlyRemove(s.m, size, n, p);
      }
      forall p | p in s.m.objects && s.m.objects[p].clients != []
        ensures p in r.memory.objects && r.memory.objects[p] == s.m.objects[p]
      {
        Eviction.AttemptsSpareUsedObjects(s.m, size, n, p);
      }
      hide Eviction.Attempts;
      var added := if d == c && o in s'.m.objects then {o} else {};
      assert Pins(s'.m, d) == Pins(s.m, d) + added;
      assert Open(s'.m, d) == Open(s.m, d) + added;
    } else {
      assert Pins(s.m, d) + {} == Pins(s.m, d);
    }
  }

  /** A get pins what is present for its client, and is answered at once or waits. */
  lemma RequestedView(s: S.State, c: ClientId, ids: seq<ObjectId>, immediate: bool, d: ClientId)
    requires S.Inv(s) && S.Enabled(s, S.Requested(c, ids, immediate))
    ensures
      var s' := S.Step(s, S.Requested(c, ids, immediate));
      var v, r := ViewOf(s, d), S.NewRequest(s, c, ids);
      if d != c then ViewOf(s', d) == v && Answers(NewReplies(s, s'), d) == []
      else if r.satisfied == r.target || immediate then
        ViewOf(s', d) == v.(pins := v.pins + r.found) && Answers(NewReplies(s, s'), d) == [GetReply(r.found)]
      else ViewOf(s', d) == v.(pins := v.pins + r.found, mine := v.mine + [r]) && Answers(NewReplies(s, s'), d) == []
  {
    hide S.RequestsInv, S.AnsweredOnce, Eviction.Inv, S.Hits;
    var s', r := S.Step(s, S.Requested(c, ids, immediate)), S.NewRequest(s, c, ids);
    PinPresentClients(s.m, ids, c);
    hide S.PinPresent;
    assert Pins(s'.m, d) == Pins(s.m, d) + if d == c then r.found else {};
    assert Open(s'.m, d) == Open(s.m, d);
    assert [r][1..] == [] && [S.Answer(r)][1..] == [];
    MineAppend(s.requests, [r], d);
    if r.satisfied == r.target || immediate {
      assert NewReplies(s, s') == [S.Answer(r)];
    } else {
      assert NewReplies(s, s') == [];
    }
  }

  /** A time-out answers its request with what has been found. */
  lemma TimedOutView(s: S.State, id: S.RequestId, d: ClientId)
    requires S.Inv(s) && S.Enabled(s, S.TimedOut(id))
    ensures
      var s', r := S.Step(s, S.TimedOut(id)), s.requests[S.Position(s.requests, id)];
      var v := ViewOf(s, d);
      && (d != r.client ==> ViewOf(s', d) == v && Answers(NewReplies(s, s'), d) == [])
      && (d == r.client && |v.mine| == 1 ==>
            v.mine == [r] && ViewOf(s', d) == v.(mine := []) && Answers(NewReplies(s, s'), d) == [GetReply(r.found)])
  {
    hide S.RequestsInv, S.AnsweredOnce, Eviction.Inv;
    var i := S.Position(s.requests, id);
    var s' := S.Step(s, S.TimedOut(id));
    MineDrop(s.requests, i, d);
    var a := S.Answer(s.requests[i]);
    assert NewReplies(s, s') == [a] && [a][1..] == [];
  }

  lemma SealedMemoryView(m: Eviction.Memory, rs: seq<S.Request>, o: ObjectId, d: ClientId)
    requires o in m.objects
    ensures
      var m' := S.PinWaiting(Eviction.Seal(m, o), rs, o);
      && Pins(m', d) == Pins(m, d) + (if Wants(Mine(rs, d), o) then {o} else {})
      && Open(m', d) == Open(m, d) - {o}
  {
    PinWaitingClients(Eviction.Seal(m, o), rs, o, d);
  }

  /** A seal pins the object for the clients that wait for it, and answers those that lack no other. */
  lemma SealingView(s: S.State, o: ObjectId, d: ClientId)
    requires S.Inv(s) && S.Enabled(s, S.Sealing(o))
    ensures
      var s' := S.Step(s, S.Sealing(o));
      var v := ViewOf(s, d);
      && ViewOf(s', d) == View(v.pins + (if Wants(v.mine, o) then {o} else {}), v.open - {o},
                               S.StillWaiting(v.mine, o), v.gone)
      && Answers(NewReplies(s, s'), d) == Answers(S.AnsweredBy(v.mine, o), d)
  {
    hide S.RequestsInv, S.AnsweredOnce, Eviction.Inv, S.PinWaiting, S.StillWaiting, S.AnsweredBy;
    hide Wants, Mine, Answers, Pins, Open, Eviction.Seal;
    var s' := S.Step(s, S.Sealing(o));
    SealedMemoryView(s.m, s.requests, o, d);
    MineStillWaiting(s.requests, o, d);
    AnswersToMine(s.requests, o, d);
    assert NewReplies(s, s') == S.AnsweredBy(s.requests, o);
  }

  /** A release takes the object from its client. */
  lemma ReleasedView(s: S.State, c: ClientId, o: ObjectId, d: ClientId)
    requires S.Inv(s) && S.Enabled(s, S.Released(c, o))
    ensures
      var s', v := S.Step(s, S.Released(c, o)), ViewOf(s, d);
      ViewOf(s', d) == (if d == c then v.(pins := v.pins - {o}, open := v.open - {o}) else v) && NewReplies(s, s') == []
  {
    assert IdLists.NoRepeat(s.m.objects[o].clients);
    hide S.RequestsInv, S.AnsweredOnce, Eviction.Inv, Pins, Open, Eviction.RemoveClient;
    ReleasedMemoryView(s.m, c, o, d);
  }

  lemma ReleasedMemoryView(m: Eviction.Memory, c: ClientId, o: ObjectId, d: ClientId)
    requires o in m.objects && IdLists.NoRepeat(m.objects[o].clients)
    ensures
      var m' := Eviction.RemoveClient(m, o, c);
      && Pins(m', d) == (if d == c then Pins(m, d) - {o} else Pins(m, d))
      && Open(m', d) == (if d == c then Open(m, d) - {o} else Open(m, d))
  {
    IdLists.WithoutRemoves(m.objects[o].clients, c);
  }

  /** A client that leaves is listed nowhere. */
  lemma LeftView(s: S.State, c: ClientId, order: seq<ObjectId>, d: ClientId)
    requires S.Inv(s) && S.Enabled(s, S.Left(c, order))
    ensures
      var s', v := S.Step(s, S.Left(c, order)), ViewOf(s, d);
      ViewOf(s', d) == (if d == c then View({}, {}, v.mine, true) else v) && NewReplies(s, s') == []
  {
    hide S.RequestsInv, S.AnsweredOnce;
    var s', v := S.Step(s, S.Left(c, order)), ViewOf(s, d);
    S.RemoveEverywhereKeeps(s.m, order, c);
    hide S.RemoveEverywhere, Eviction.Inv;
    assert Pins(s'.m, d) == if d == c then {} else v.pins;
    assert Open(s'.m, d) == if d == c then {} else v.open;
  }

  /** Eviction is invisible to clients. */
  lemma EvictView(s: S.State, bytes: int, d: ClientId)
    requires S.Inv(s)
    ensures
      var s' := S.Step(s, S.EvictRequested(bytes));
      ViewOf(s', d) == ViewOf(s, d) && NewReplies(s, s') == []
  {
    hide S.RequestsInv, S.AnsweredOnce;
    var s' := S.Step(s, S.EvictRequested(bytes));
    Eviction.EvictKeeps(s.m, bytes);
    assert forall o :: o in s'.m.objects ==> s'.m.objects[o] == s.m.objects[o];
    assert Pins(s'.m, d) == Pins(s.m, d) && Open(s'.m, d) == Open(s.m, d);
  }

  // ---- Requests of clients that have left ----

  /** The requests of a client that leaves stay, so a later seal makes it a user of the object again: if
      and only if one of its requests still waits for the object. No later event but one of the client
      itself takes the object from it, so that it is never evicted. */
  lemma SealPinsGoneIff(s: S.State, o: ObjectId, c: ClientId, es: seq<S.Event>)
    requires S.Inv(s) && S.Enabled(s, S.Sealing(o)) && c in s.gone && o !in Pins(s.m, c)
    requires S.Feasible(S.Step(s, S.Sealing(o)), es) && forall i :: 0 <= i < |es| ==> !S.GivesUp(es[i], c, o)
    ensures o in Pins(S.Step(s, S.Sealing(o)).m, c) <==> Wants(Mine(s.requests, c), o)
    ensures Wants(Mine(s.requests, c), o) ==> S.Pinned(S.Run(S.Step(s, S.Sealing(o)), es).m, o, c)
  {
    var s' := S.Step(s, S.Sealing(o));
    SealingView(s, o, c);
    S.StepKeeps(s, S.Sealing(o));
    assert S.Sealed(s'.m, o) by {
      PinWaitingClients(Eviction.Seal(s.m, o), s.requests, o, c);
    }
    hide S.Inv, S.Enabled, S.Step, Wants, Mine;
    if Wants(Mine(s.requests, c), o) {
      assert S.Pinned(s'.m, o, c);
      S.RunStaysPinned(s', es, o, c);
    }
  }

  /** A run in which client 2 leaves while it waits and is a user of the object in the end. */
  lemma GoneClientIsPinned()
    ensures
      var es := [S.Requested(2, [5], false), S.Left(2, [5, 6]), S.Sealing(5)];
      && S.Inv(S.UNSEALED) && S.Feasible(S.UNSEALED, es)
      && var s := S.Run(S.UNSEALED, es);
         2 in s.gone && S.Pinned(s.m, 5, 2)
  {
    hide S.AbandonsNone, S.Covers, S.CleanSeal, S.RequestsInv, S.AnsweredOnce, S.Leave, S.Get;
    var es := [S.Requested(2, [5], false), S.Left(2, [5, 6]), S.Sealing(5)];
    S.UnsealedInv();
    FiveIsAwaited();
    WaiterLeaves();
    FiveCanBeSealed();
    S.StepKeeps(S.UNSEALED, es[0]);
    S.StepKeeps(Awaiting({}), es[1]);
    assert es[1..] == [es[1], es[2]] && [es[1], es[2]][1..] == [es[2]] && [es[2]][1..] == [];
    SealPinsGoneIff(Awaiting({2}), 5, 2, []);
  }

  const FOR_FIVE := S.Request(0, 2, [5], {}, 0, 1)

  /** The store while client 2 waits, connected or gone, for object 5. */
  function Awaiting(gone: set<ClientId>): S.State {
    S.UNSEALED.(requests := [FOR_FIVE], next := 1, gone := gone)
  }

  lemma FiveIsAwaited()
    ensures S.Get(S.UNSEALED, 2, [5], false) == Awaiting({})
  {
    assert IdLists.AsSet([5]) == {5} && [5][1..] == [];
    S.GetWaits([5]);
    assert S.PinPresent(S.UNSEALED.m, [5], 2) == S.UNSEALED.m;
  }

  lemma WaiterLeaves()
    ensures S.Enabled(Awaiting({}), S.Left(2, [5, 6])) && S.Leave(Awaiting({}), 2, [5, 6]) == Awaiting({2})
  {
    S.UnsealedInv();
    assert [5, 6][1..] == [6] && [6][1..] == [];
    assert S.RemoveEverywhere(S.UNSEALED.m, [5, 6], 2) == S.UNSEALED.m;
  }

  lemma FiveCanBeSealed()
    ensures S.Enabled(Awaiting({2}), S.Sealing(5))
    ensures 5 !in Pins(Awaiting({2}).m, 2) && Wants(Mine(Awaiting({2}).requests, 2), 5)
  {
    assert multiset([5])[5] == 1;
    assert [FOR_FIVE][1..] == [] && Mine([FOR_FIVE], 2) == [FOR_FIVE];
    assert S.Waits(Mine([FOR_FIVE], 2)[0], 5);
  }
}
