/**
 Clients and store, told from outside: in every interleaving each client is the sequential client of
 its own calls, what it has sent is what the store has handled and what is on the way, and the store
 is the store of the events that it has handled.
 */
module ProtocolHistory {
  import IdLists
  import Eviction
  import S = StoreSpec
  import C = ClientSpec
  import H = ClientHistory
  import opened StoreViews
  import opened PlasmaProtocol

  // ---- What a client does is independent of what it has sent before ----

  function Prefixed(k: C.Client, h: seq<C.Message>): C.Client {
    k.(out := h + k.out)
  }

  lemma PerformReleasePrefixed(k: C.Client, h: seq<C.Message>, o: ObjectId)
    requires o in k.inUse && k.inUse[o].fd in k.maps
    ensures C.PerformRelease(Prefixed(k, h), o) == Prefixed(C.PerformRelease(k, o), h)
  {
    assert (h + k.out) + [C.ReleaseRequest(o)] == h + (k.out + [C.ReleaseRequest(o)]);
  }

  lemma {:induction false} DrainPrefixed(k: C.Client, h: seq<C.Message>)
    ensures C.Drain(Prefixed(k, h)) == Prefixed(C.Drain(k), h)
    decreases |k.history|
  {
    if C.Pressed(k) && C.CanDrain(k) {
      PerformReleasePrefixed(k, h, C.Oldest(k));
      assert C.DrainOne(Prefixed(k, h)) == Prefixed(C.DrainOne(k), h);
      DrainPrefixed(C.DrainOne(k), h);
    }
  }

  lemma ReleasePrefixed(k: C.Client, h: seq<C.Message>, o: ObjectId)
    ensures C.Release(Prefixed(k, h), o) == Prefixed(C.Release(k, o), h)
  {
    assert C.Push(Prefixed(k, h), o) == Prefixed(C.Push(k, o), h);
    DrainPrefixed(C.Push(k, o), h);
  }

  lemma SendPrefixed(k: C.Client, h: seq<C.Message>, m: C.Message)
    ensures C.Send(Prefixed(k, h), m) == Prefixed(C.Send(k, m), h)
  {
    assert (h + k.out) + [m] == h + (k.out + [m]);
  }

  lemma SealPrefixed(k: C.Client, h: seq<C.Message>, o: ObjectId)
    requires o in k.inUse
    ensures C.Seal(Prefixed(k, h), o) == Prefixed(C.Seal(k, o), h)
  {
    hide C.Release;
    var k1 := C.MarkSealed(k, o);
    var k2 := C.Take(k1, o, k.inUse[o].fd, k.inUse[o].size);
    assert C.Take(C.MarkSealed(Prefixed(k, h), o), o, k.inUse[o].fd, k.inUse[o].size) == Prefixed(k2, h);
    ReleasePrefixed(k2, h, o);
    SendPrefixed(C.Release(k2, o), h, C.SealRequest(o));
    ReleasePrefixed(C.Send(C.Release(k2, o), C.SealRequest(o)), h, o);
  }

  lemma {:induction false} TakeInUsePrefixed(k: C.Client, h: seq<C.Message>, ids: seq<ObjectId>)
    ensures C.TakeInUse(Prefixed(k, h), ids) == Prefixed(C.TakeInUse(k, ids), h)
    decreases |ids|
  {
    if ids != [] {
      var o := ids[0];
      var k1 := if o in k.inUse then C.Take(k, o, k.inUse[o].fd, k.inUse[o].size) else k;
      assert o in k.inUse ==> C.Take(Prefixed(k, h), o, k.inUse[o].fd, k.inUse[o].size) == Prefixed(k1, h);
      TakeInUsePrefixed(k1, h, ids[1..]);
    }
  }

  lemma StartGetPrefixed(k: C.Client, h: seq<C.Message>, ids: seq<ObjectId>, immediate: bool)
    ensures C.StartGet(Prefixed(k, h), ids, immediate) == Prefixed(C.StartGet(k, ids, immediate), h)
    ensures C.AllInUse(Prefixed(k, h), ids) <==> C.AllInUse(k, ids)
  {
    TakeInUsePrefixed(k, h, ids);
    SendPrefixed(C.TakeInUse(k, ids), h, C.GetRequest(ids, immediate));
  }

  lemma {:induction false} FinishGetPrefixed(k: C.Client, h: seq<C.Message>, ids: seq<ObjectId>,
                                             before: set<ObjectId>, found: map<ObjectId, C.Place>)
    ensures C.FinishGet(Prefixed(k, h), ids, before, found) == Prefixed(C.FinishGet(k, ids, before, found), h)
    decreases |ids|
  {
    if ids != [] {
      var o := ids[0];
      var k1 := if o !in before && o in found then C.Take(k, o, found[o].fd, found[o].size) else k;
      assert o !in before && o in found ==>
          C.Take(Prefixed(k, h), o, found[o].fd, found[o].size) == Prefixed(k1, h);
      FinishGetPrefixed(k1, h, ids[1..], before, found);
    }
  }

  lemma CreatedPrefixed(k: C.Client, h: seq<C.Message>, o: ObjectId, fd: C.Fd, size: nat)
    ensures C.Created(Prefixed(k, h), o, fd, size) == Prefixed(C.Created(k, o, fd, size), h)
  {
  }

  // ---- The sequential client ----

  /** The node is the sequential client `k` after the call that it waits for has begun; of what that
      client has sent, `h` has been handled. */
  ghost predicate Simulates(n: Node, k: C.Client, h: seq<C.Message>) {
    match n.mode
    case Ready => k == Prefixed(n.k, h)
    case Waiting(CreateRequest(o, size), _) => C.Send(k, n.mode.request) == Prefixed(n.k, h)
    case Waiting(GetRequest(ids, immediate), before) =>
      && C.StartGet(k, ids, immediate) == Prefixed(n.k, h) && before == k.inUse.Keys && !C.AllInUse(k, ids)
      && H.Enabled(k, H.CallGet(ids, immediate, map[]))
    case Waiting(_, _) => false
    case Closed => C.Send(k, C.Goodbye) == Prefixed(n.k, h)
  }

  /** The call of `c` that an action finishes, with its answer. */
  ghost function Finishes(s: System, a: Action, c: ClientId): seq<H.Call>
    requires c in s.nodes && Enabled(s, a)
  {
    var n := s.nodes[c];
    match a
    case CallGet(d, ids, immediate) =>
      if d == c && C.AllInUse(n.k, ids) then [H.CallGet(ids, immediate, map[])] else []
    case CallSeal(d, o) => if d == c then [H.CallSeal(o)] else []
    case CallRelease(d, o) => if d == c then [H.CallRelease(o)] else []
    case Receive(d, places) =>
      if d != c then []
      else if n.inbox[0].CreateReply? && n.mode.request.CreateRequest? then
        var o := n.mode.request.id;
        [H.CallCreate(o, n.mode.request.size, !n.inbox[0].ok, if o in places then places[o].fd else 0)]
      else if n.inbox[0].GetReply? && n.mode.request.GetRequest? then
        [H.CallGet(n.mode.request.ids, n.mode.request.immediate, places)]
      else []
    case _ => []
  }

  /** The message of `c` that an action lets the store handle. */
  ghost function Handles(s: System, a: Action, c: ClientId): seq<C.Message>
    requires c in s.nodes && Enabled(s, a)
  {
    if a.Handle? && a.client == c then [s.nodes[c].k.out[0]] else []
  }

  predicate OneCall(k: C.Client, calls: seq<H.Call>) {
    calls == [] || (|calls| == 1 && H.Enabled(k, calls[0]))
  }

  function After(k: C.Client, calls: seq<H.Call>): C.Client
    requires OneCall(k, calls)
  {
    if calls == [] then k else H.Step(k, calls[0])
  }

  ghost predicate StaysSimulated(s: System, a: Action, c: ClientId, k: C.Client, h: seq<C.Message>)
    requires Eviction.Inv(s.store.m) && c in s.nodes && Enabled(s, a)
  {
    && c in Step(s, a).nodes && OneCall(k, Finishes(s, a, c))
    && Simulates(Step(s, a).nodes[c], After(k, Finishes(s, a, c)), h + Handles(s, a, c))
  }

  lemma SealSimulates(n: Node, k: C.Client, h: seq<C.Message>, o: ObjectId)
    requires n.mode.Ready? && Simulates(n, k, h) && o in n.k.inUse && !n.k.inUse[o].sealed
    ensures H.Enabled(k, H.CallSeal(o)) && Simulates(n.(k := C.Seal(n.k, o)), H.Step(k, H.CallSeal(o)), h)
  {
    SealPrefixed(n.k, h, o);
  }

  lemma ReleaseSimulates(n: Node, k: C.Client, h: seq<C.Message>, o: ObjectId)
    requires n.mode.Ready? && Simulates(n, k, h) && n.k.held[o] > 0
    ensures H.Enabled(k, H.CallRelease(o)) && Simulates(n.(k := C.Release(n.k, o)), H.Step(k, H.CallRelease(o)), h)
  {
    ReleasePrefixed(n.k, h, o);
  }

  lemma CreateReceiveSimulates(n: Node, k: C.Client, h: seq<C.Message>, fd: C.Fd, ok: bool)
    requires n.mode.Waiting? && n.mode.request.CreateRequest? && Simulates(n, k, h)
    requires ok ==> n.mode.request.id !in n.k.inUse
    ensures
      var o, size := n.mode.request.id, n.mode.request.size;
      var call := H.CallCreate(o, size, !ok, fd);
      && H.Enabled(k, call)
      && Simulates(n.(mode := Ready, k := if ok then C.Created(n.k, o, fd, size) else n.k), H.Step(k, call), h)
  {
    CreatedPrefixed(n.k, h, n.mode.request.id, fd, n.mode.request.size);
  }

  lemma GetReceiveSimulates(n: Node, k: C.Client, h: seq<C.Message>, places: map<ObjectId, C.Place>)
    requires n.mode.Waiting? && n.mode.request.GetRequest? && Simulates(n, k, h)
    ensures
      var ids := n.mode.request.ids;
      var call := H.CallGet(ids, n.mode.request.immediate, places);
      && H.Enabled(k, call)
      && Simulates(n.(mode := Ready, k := C.FinishGet(n.k, ids, n.mode.before, places)), H.Step(k, call), h)
  {
    hide C.StartGet, C.FinishGet;
    FinishGetPrefixed(n.k, h, n.mode.request.ids, n.mode.before, places);
  }

  lemma GetCallSimulates(n: Node, k: C.Client, h: seq<C.Message>, ids: seq<ObjectId>, immediate: bool)
    requires n.mode.Ready? && Simulates(n, k, h)
    requires forall o :: o in ids && o in n.k.inUse ==> n.k.inUse[o].sealed
    ensures H.Enabled(k, H.CallGet(ids, immediate, map[]))
    ensures
      var k', call := C.StartGet(n.k, ids, immediate), H.CallGet(ids, immediate, map[]);
      if C.AllInUse(n.k, ids) then Simulates(n.(k := k'), H.Step(k, call), h)
      else Simulates(n.(k := k', mode := Waiting(C.GetRequest(ids, immediate), n.k.inUse.Keys)), k, h)
  {
    hide C.StartGet;
    StartGetPrefixed(n.k, h, ids, immediate);
  }

  /** Messages that are delivered to a node do not matter. */
  lemma InboxDoesNotMatter(n: Node, inbox: seq<Answer>, k: C.Client, h: seq<C.Message>)
    ensures Simulates(n.(inbox := inbox), k, h) <==> Simulates(n, k, h)
  {
  }

  lemma PopSimulates(n: Node, k: C.Client, h: seq<C.Message>)
    requires Simulates(n, k, h) && n.k.out != []
    ensures Simulates(Popped(n), k, h + [n.k.out[0]])
  {
    assert (h + [n.k.out[0]]) + n.k.out[1..] == h + n.k.out;
    assert Prefixed(Popped(n).k, h + [n.k.out[0]]) == Prefixed(n.k, h);
  }

  lemma SendSimulates(n: Node, k: C.Client, h: seq<C.Message>, m: C.Message, mode: Mode)
    requires n.mode.Ready? && Simulates(n, k, h)
    requires (m.CreateRequest? && mode == Waiting(m, {})) || (m.Goodbye? && mode.Closed?)
    ensures Simulates(n.(k := C.Send(n.k, m), mode := mode), k, h)
  {
    SendPrefixed(n.k, h, m);
  }

  /** What the store does to the nodes: it fills inboxes, and takes the message that it handles. */
  lemma HandleSimulates(s: System, a: Action, c: ClientId, k: C.Client, h: seq<C.Message>)
    requires Inv(s) && Eviction.Inv(s.store.m) && c in s.nodes && Enabled(s, a) && a.Handle?
    requires Simulates(s.nodes[c], k, h)
    ensures StaysSimulated(s, a, c, k, h)
  {
    StepKeeps(s, a);
    var d, n, s' := a.client, s.nodes[a.client], Step(s, a);
    var e := EventFor(d, n.k.out[0], a.failures, a.order);
    assert S.Enabled(s.store, e);
    var s1 := Put(s, d, Popped(n));
    DeliverAt(s1.nodes, NewReplies(s.store, S.Step(s.store, e)), c);
    var n' := s'.nodes[c];
    hide Simulates, Inv, S.Step, S.Enabled;
    if c == d {
      PopSimulates(n, k, h);
      assert n' == Popped(n).(inbox := n'.inbox);
      InboxDoesNotMatter(Popped(n), n'.inbox, k, h + [n.k.out[0]]);
    } else {
      assert n' == s.nodes[c].(inbox := n'.inbox);
      InboxDoesNotMatter(s.nodes[c], n'.inbox, k, h);
      assert h + [] == h;
    }
  }

  lemma StoreStepSimulates(s: System, a: Action, c: ClientId, k: C.Client, h: seq<C.Message>)
    requires Eviction.Inv(s.store.m) && c in s.nodes && Enabled(s, a) && (a.TimeOut? || a.EvictBytes?)
    requires Simulates(s.nodes[c], k, h)
    ensures StaysSimulated(s, a, c, k, h)
  {
    var s' := Step(s, a);
    DeliverAt(s.nodes, NewReplies(s.store, s'.store), c);
    hide S.Step, S.Enabled;
    InboxDoesNotMatter(s.nodes[c], s'.nodes[c].inbox, k, h);
    hide Simulates;
    assert s'.nodes[c] == s.nodes[c].(inbox := s'.nodes[c].inbox);
    assert h + [] == h;
  }

  /** An action of another client that is not the store's leaves the node alone. */
  lemma OthersSimulate(s: System, a: Action, c: ClientId, k: C.Client, h: seq<C.Message>)
    requires Eviction.Inv(s.store.m) && c in s.nodes && Enabled(s, a)
    requires !a.Handle? && !a.TimeOut? && !a.EvictBytes? && a.client != c
    requires Simulates(s.nodes[c], k, h)
    ensures StaysSimulated(s, a, c, k, h)
  {
    hide Simulates, C.Seal, C.Release, C.StartGet, C.Send, C.FinishGet, C.Created;
    assert h + [] == h;
    assert Step(s, a).nodes[c] == s.nodes[c];
  }

  lemma CreateReceived(s: System, a: Action, c: ClientId, k: C.Client, h: seq<C.Message>)
    requires Eviction.Inv(s.store.m) && c in s.nodes && Enabled(s, a) && a.Receive? && a.client == c
    requires !Step(s, a).crashed && s.nodes[c].inbox[0].CreateReply? && Simulates(s.nodes[c], k, h)
    ensures StaysSimulated(s, a, c, k, h)
  {
    hide Simulates, C.Created, H.Step, H.Enabled;
    assert h + [] == h;
    var n := s.nodes[c];
    var n', ok, o := Step(s, a).nodes[c], n.inbox[0].ok, n.mode.request.id;
    var fd := if o in a.places then a.places[o].fd else 0;
    CreateReceiveSimulates(n, k, h, fd, ok);
    var n1 := n.(mode := Ready, k := if ok then C.Created(n.k, o, fd, n.mode.request.size) else n.k);
    assert n' == n1.(inbox := n.inbox[1..]);
    InboxDoesNotMatter(n1, n.inbox[1..], H.Step(k, H.CallCreate(o, n.mode.request.size, !ok, fd)), h);
  }

  lemma GetReceived(s: System, a: Action, c: ClientId, k: C.Client, h: seq<C.Message>)
    requires Eviction.Inv(s.store.m) && c in s.nodes && Enabled(s, a) && a.Receive? && a.client == c
    requires !Step(s, a).crashed && s.nodes[c].inbox[0].GetReply? && Simulates(s.nodes[c], k, h)
    ensures StaysSimulated(s, a, c, k, h)
  {
    hide Simulates, C.FinishGet, H.Step, H.Enabled;
    assert h + [] == h;
    var n := s.nodes[c];
    var n', ids := Step(s, a).nodes[c], n.mode.request.ids;
    GetReceiveSimulates(n, k, h, a.places);
    var n1 := n.(mode := Ready, k := C.FinishGet(n.k, ids, n.mode.before, a.places));
    assert n' == n1.(inbox := n.inbox[1..]);
    InboxDoesNotMatter(n1, n.inbox[1..], H.Step(k, H.CallGet(ids, n.mode.request.immediate, a.places)), h);
  }

  lemma ReceiveSimulates(s: System, a: Action, c: ClientId, k: C.Client, h: seq<C.Message>)
    requires Inv(s) && Eviction.Inv(s.store.m) && c in s.nodes && Enabled(s, a) && a.Receive?
    requires Simulates(s.nodes[c], k, h)
    ensures StaysSimulated(s, a, c, k, h)
  {
    hide Inv, Simulates, Step, StaysSimulated;
    StepKeeps(s, a);
    NotCrashed(Step(s, a));
    if a.client != c {
      OthersSimulate(s, a, c, k, h);
    } else if s.nodes[c].inbox[0].CreateReply? {
      CreateReceived(s, a, c, k, h);
    } else {
      GetReceived(s, a, c, k, h);
    }
  }

  lemma NotCrashed(s: System)
    requires Inv(s)
    ensures !s.crashed
  {
  }

  lemma GetCalled(s: System, a: Action, c: ClientId, k: C.Client, h: seq<C.Message>)
    requires Eviction.Inv(s.store.m) && c in s.nodes && Enabled(s, a) && a.CallGet? && a.client == c
    requires Simulates(s.nodes[c], k, h)
    ensures StaysSimulated(s, a, c, k, h)
  {
    hide Simulates, C.StartGet, H.Step, H.Enabled;
    assert h + [] == h;
    GetCallSimulates(s.nodes[c], k, h, a.ids, a.immediate);
  }

  lemma PlainCalled(s: System, a: Action, c: ClientId, k: C.Client, h: seq<C.Message>)
    requires Eviction.Inv(s.store.m) && c in s.nodes && Enabled(s, a) && (a.CallSeal? || a.CallRelease?)
    requires a.client == c && Simulates(s.nodes[c], k, h)
    ensures StaysSimulated(s, a, c, k, h)
  {
    hide Simulates, C.Seal, C.Release, H.Step, H.Enabled;
    assert h + [] == h;
    if a.CallSeal? {
      SealSimulates(s.nodes[c], k, h, a.id);
    } else {
      ReleaseSimulates(s.nodes[c], k, h, a.id);
    }
  }

  lemma SendCalled(s: System, a: Action, c: ClientId, k: C.Client, h: seq<C.Message>)
    requires Eviction.Inv(s.store.m) && c in s.nodes && Enabled(s, a) && (a.CallCreate? || a.CallDisconnect?)
    requires a.client == c && Simulates(s.nodes[c], k, h)
    ensures StaysSimulated(s, a, c, k, h)
  {
    hide Simulates, C.Send, H.Step, H.Enabled;
    assert h + [] == h;
    if a.CallCreate? {
      var m := C.CreateRequest(a.id, a.size);
      SendSimulates(s.nodes[c], k, h, m, Waiting(m, {}));
    } else {
      SendSimulates(s.nodes[c], k, h, C.Goodbye, Closed);
    }
  }

  lemma CallSimulates(s: System, a: Action, c: ClientId, k: C.Client, h: seq<C.Message>)
    requires Eviction.Inv(s.store.m) && c in s.nodes && Enabled(s, a)
    requires a.Connect? || a.CallCreate? || a.CallGet? || a.CallSeal? || a.CallRelease? || a.CallDisconnect?
    requires Simulates(s.nodes[c], k, h)
    ensures StaysSimulated(s, a, c, k, h)
  {
    hide Simulates, Step, StaysSimulated;
    if a.client != c {
      OthersSimulate(s, a, c, k, h);
    } else {
      match a
      case CallCreate(_, _, _) => SendCalled(s, a, c, k, h);
      case CallGet(_, _, _) => GetCalled(s, a, c, k, h);
      case CallSeal(_, _) => PlainCalled(s, a, c, k, h);
      case CallRelease(_, _) => PlainCalled(s, a, c, k, h);
      case CallDisconnect(_) => SendCalled(s, a, c, k, h);
    }
  }

  lemma StepSimulates(s: System, a: Action, c: ClientId, k: C.Client, h: seq<C.Message>)
    requires Inv(s) && Eviction.Inv(s.store.m) && c in s.nodes && Enabled(s, a)
    requires Simulates(s.nodes[c], k, h)
    ensures StaysSimulated(s, a, c, k, h)
  {
    hide *;
    match a
    case Handle(_, _, _) => HandleSimulates(s, a, c, k, h);
    case TimeOut(_) => StoreStepSimulates(s, a, c, k, h);
    case EvictBytes(_) => StoreStepSimulates(s, a, c, k, h);
    case Receive(_, _) => ReceiveSimulates(s, a, c, k, h);
    case _ => CallSimulates(s, a, c, k, h);
  }

  // ---- Over a run ----

  ghost function CallsOf(s: System, run: seq<Action>, c: ClientId): seq<H.Call>
    requires Feasible(s, run)
    decreases |run|
  {
    if run == [] || c !in s.nodes then [] else Finishes(s, run[0], c) + CallsOf(Step(s, run[0]), run[1..], c)
  }

  ghost function HandledOf(s: System, run: seq<Action>, c: ClientId): seq<C.Message>
    requires Feasible(s, run)
    decreases |run|
  {
    if run == [] || c !in s.nodes then [] else Handles(s, run[0], c) + HandledOf(Step(s, run[0]), run[1..], c)
  }

  predicate IsCall(a: Action, c: ClientId) {
    (a.CallCreate? || a.CallGet? || a.CallSeal? || a.CallRelease? || a.CallDisconnect?) && a.client == c
  }

  /** What the user of `c` has called, in order. */
  function Called(run: seq<Action>, c: ClientId): seq<Action> {
    if run == [] then [] else (if IsCall(run[0], c) then [run[0]] else []) + Called(run[1..], c)
  }

  /** A finished call without its answer. */
  function Erase(call: H.Call, c: ClientId): Action {
    match call
    case CallCreate(o, size, _, _) => CallCreate(c, o, size)
    case CallGet(ids, immediate, _) => CallGet(c, ids, immediate)
    case CallSeal(o) => CallSeal(c, o)
    case CallRelease(o) => CallRelease(c, o)
  }

  function EraseAll(calls: seq<H.Call>, c: ClientId): seq<Action> {
    if calls == [] then [] else [Erase(calls[0], c)] + EraseAll(calls[1..], c)
  }

  /** The call that has begun and is not finished. */
  function Begun(mode: Mode, c: ClientId): seq<Action> {
    match mode
    case Ready => []
    case Waiting(CreateRequest(o, size), _) => [CallCreate(c, o, size)]
    case Waiting(GetRequest(ids, immediate), _) => [CallGet(c, ids, immediate)]
    case Waiting(_, _) => []
    case Closed => [CallDisconnect(c)]
  }

  lemma {:induction false} EraseMore(x: seq<H.Call>, y: seq<H.Call>, c: ClientId)
    requires |x| <= 1
    ensures EraseAll(x + y, c) == EraseAll(x, c) + EraseAll(y, c)
  {
    if x == [] {
      assert x + y == y;
    } else {
      assert (x + y)[0] == x[0] && (x + y)[1..] == y && x[1..] == [];
    }
  }

  /** An action begins a call, finishes the one that has begun, does both, or leaves the calls alone. */
  ghost predicate CallsAddUp(s: System, a: Action, c: ClientId)
    requires Eviction.Inv(s.store.m) && c in s.nodes && Enabled(s, a) && c in Step(s, a).nodes
  {
    && |Finishes(s, a, c)| <= 1
    && Begun(s.nodes[c].mode, c) + (if IsCall(a, c) then [a] else [])
       == EraseAll(Finishes(s, a, c), c) + Begun(Step(s, a).nodes[c].mode, c)
  }

  /** An action that is none of the client's own. */
  lemma OthersAddUp(s: System, a: Action, c: ClientId)
    requires Eviction.Inv(s.store.m) && c in s.nodes && Enabled(s, a) && c in Step(s, a).nodes
    requires !IsCall(a, c) && Finishes(s, a, c) == [] && Step(s, a).nodes[c].mode == s.nodes[c].mode
    ensures CallsAddUp(s, a, c)
  {
    hide Step, Enabled, Finishes, Begun;
    var b := Begun(s.nodes[c].mode, c);
    assert b + [] == [] + b;
  }

  lemma OwnCallAddsUp(s: System, a: Action, c: ClientId)
    requires Eviction.Inv(s.store.m) && c in s.nodes && Enabled(s, a) && c in Step(s, a).nodes && IsCall(a, c)
    ensures CallsAddUp(s, a, c)
  {
    hide C.Seal, C.Release, C.StartGet, C.Send;
    assert [] + [a] == [a] && [a] + [] == [a];
    var x := Finishes(s, a, c);
    if x == [] {
      assert Begun(Step(s, a).nodes[c].mode, c) == [a];
    } else {
      assert x == [x[0]] && x[1..] == [] && Erase(x[0], c) == a;
      assert EraseAll(x, c) == [a] + [];
    }
  }

  lemma ReceiveAddsUp(s: System, a: Action, c: ClientId)
    requires Eviction.Inv(s.store.m) && c in s.nodes && Enabled(s, a) && c in Step(s, a).nodes
    requires a.Receive? && a.client == c && !Step(s, a).crashed
    ensures CallsAddUp(s, a, c)
  {
    hide C.FinishGet, C.Created;
    var x, b := Finishes(s, a, c), Begun(s.nodes[c].mode, c);
    assert b + [] == b;
    assert |x| == 1 && x[1..] == [];
    assert EraseAll(x, c) == [Erase(x[0], c)] + [];
  }

  /** Messages and answers of others change neither the modes nor the calls of a client. */
  lemma NodesStay(s: System, a: Action, c: ClientId)
    requires Eviction.Inv(s.store.m) && c in s.nodes && Enabled(s, a) && c in Step(s, a).nodes
    requires !a.Handle? && !a.TimeOut? && !a.EvictBytes? && a.client != c
    ensures !IsCall(a, c) && Finishes(s, a, c) == [] && Step(s, a).nodes[c].mode == s.nodes[c].mode
  {
    hide C.Seal, C.Release, C.StartGet, C.Send, C.FinishGet, C.Created;
  }

  lemma StepCalls(s: System, a: Action, c: ClientId)
    requires Inv(s) && Eviction.Inv(s.store.m) && c in s.nodes && Enabled(s, a) && c in Step(s, a).nodes
    ensures CallsAddUp(s, a, c)
  {
    hide Inv, Step, CallsAddUp, Finishes;
    StepKeeps(s, a);
    NotCrashed(Step(s, a));
    if a.Handle? || a.TimeOut? || a.EvictBytes? {
      ModesStay(s, a, c);
      OthersAddUp(s, a, c);
    } else if a.client != c {
      NodesStay(s, a, c);
      OthersAddUp(s, a, c);
    } else if a.Receive? {
      ReceiveAddsUp(s, a, c);
    } else {
      OwnCallAddsUp(s, a, c);
    }
  }

  lemma ModesStay(s: System, a: Action, c: ClientId)
    requires Eviction.Inv(s.store.m) && c in s.nodes && Enabled(s, a) && c in Step(s, a).nodes
    requires a.Handle? || a.TimeOut? || a.EvictBytes?
    ensures !IsCall(a, c) && Finishes(s, a, c) == [] && Step(s, a).nodes[c].mode == s.nodes[c].mode
  {
    hide S.Step, S.Enabled;
  }

  lemma HRunMore(k: C.Client, x: seq<H.Call>, y: seq<H.Call>)
    requires OneCall(k, x) && H.Feasible(After(k, x), y)
    ensures H.Feasible(k, x + y) && H.Run(k, x + y) == H.Run(After(k, x), y)
  {
    if x == [] {
      assert x + y == y;
    } else {
      assert (x + y)[0] == x[0] && (x + y)[1..] == y;
    }
  }

  /** What the run of a system says about one client. */
  ghost predicate IsSequential(s: System, run: seq<Action>, c: ClientId, k: C.Client, h: seq<C.Message>)
    requires Feasible(s, run) && c in s.nodes
  {
    var s', calls := Run(s, run), CallsOf(s, run, c);
    && c in s'.nodes && H.Feasible(k, calls)
    && Simulates(s'.nodes[c], H.Run(k, calls), h + HandledOf(s, run, c))
    && Begun(s.nodes[c].mode, c) + Called(run, c) == EraseAll(calls, c) + Begun(s'.nodes[c].mode, c)
  }

  lemma {:induction false} RunSimulates(s: System, run: seq<Action>, c: ClientId, k: C.Client, h: seq<C.Message>)
    requires Inv(s) && Feasible(s, run) && c in s.nodes && Simulates(s.nodes[c], k, h)
    ensures IsSequential(s, run, c, k, h)
    decreases |run|
  {
    hide Inv, Simulates, Step, Enabled, Finishes, Handles, EraseAll, H.Run, H.Feasible, Begun;
    if run == [] {
      NoCalls(k, c);
      assert h + [] == h && Begun(s.nodes[c].mode, c) + [] == [] + Begun(s.nodes[c].mode, c);
    } else {
      var a, s1 := run[0], Step(s, run[0]);
      StepSimulates(s, a, c, k, h);
      StepKeeps(s, a);
      StepCalls(s, a, c);
      var x, m := Finishes(s, a, c), Handles(s, a, c);
      RunSimulates(s1, run[1..], c, After(k, x), h + m);
      var y, rest := CallsOf(s1, run[1..], c), HandledOf(s1, run[1..], c);
      HRunMore(k, x, y);
      EraseMore(x, y, c);
      assert (h + m) + rest == h + (m + rest);
      Regroup(Begun(s.nodes[c].mode, c), if IsCall(a, c) then [a] else [], Called(run[1..], c), EraseAll(x, c),
              Begun(s1.nodes[c].mode, c), EraseAll(y, c), Begun(Run(s, run).nodes[c].mode, c));
    }
  }

  lemma NoCalls(k: C.Client, c: ClientId)
    ensures H.Feasible(k, []) && H.Run(k, []) == k && EraseAll([], c) == []
  {
  }

  lemma Regroup(b: seq<Action>, a: seq<Action>, rest: seq<Action>, x: seq<Action>, b1: seq<Action>, y: seq<Action>,
                b2: seq<Action>)
    requires b + a == x + b1 && b1 + rest == y + b2
    ensures b + (a + rest) == (x + y) + b2
  {
    assert b + (a + rest) == (b + a) + rest == x + (b1 + rest) == x + (y + b2) == (x + y) + b2;
  }

  /** Over every run of any number of clients and the store, after a client has connected: the client is
      what its user's calls make of a fresh one, each with the answer that it got; what it has sent is
      what the store has handled, followed by what is on the way; and no call is lost or reordered. */
  lemma ClientsAreSequential(s: System, c: ClientId, delay: nat, run: seq<Action>)
    requires Inv(s) && c !in s.nodes && Eviction.Inv(s.store.m)
    requires Feasible(Step(s, Connect(c, delay)), run)
    ensures
      var s1, k := Step(s, Connect(c, delay)), C.Fresh(delay, s.store.m.capacity);
      var s', calls, sent := Run(s1, run), CallsOf(s1, run, c), HandledOf(s1, run, c);
      && c in s'.nodes && H.Feasible(k, calls)
      && Simulates(s'.nodes[c], H.Run(k, calls), sent)
      && Called(run, c) == EraseAll(calls, c) + Begun(s'.nodes[c].mode, c)
  {
    var k := C.Fresh(delay, s.store.m.capacity);
    StepKeeps(s, Connect(c, delay));
    hide Inv;
    var s1 := Step(s, Connect(c, delay));
    assert Prefixed(k, []) == k;
    assert Simulates(s1.nodes[c], k, []);
    hide Simulates;
    RunSimulates(s1, run, c, k, []);
    assert [] + HandledOf(s1, run, c) == HandledOf(s1, run, c);
    assert [] + Called(run, c) == Called(run, c);
  }

  // ---- The store ----

  /** The event that the store handles in an action. */
  ghost function EventOf(s: System, a: Action): seq<S.Event>
    requires Enabled(s, a)
  {
    match a
    case Handle(c, failures, order) => [EventFor(c, s.nodes[c].k.out[0], failures, order)]
    case TimeOut(id) => [S.TimedOut(id)]
    case EvictBytes(bytes) => [S.EvictRequested(bytes)]
    case _ => []
  }

  ghost function Events(s: System, run: seq<Action>): seq<S.Event>
    requires Feasible(s, run)
    decreases |run|
  {
    if run == [] then [] else EventOf(s, run[0]) + Events(Step(s, run[0]), run[1..])
  }

  lemma StepStore(s: System, a: Action)
    requires Inv(s) && Eviction.Inv(s.store.m) && Enabled(s, a)
    ensures
      var es := EventOf(s, a);
      if es == [] then Step(s, a).store == s.store
      else S.Enabled(s.store, es[0]) && Step(s, a).store == S.Step(s.store, es[0])
  {
    hide Inv, Step, S.Step, S.Enabled;
    StepKeeps(s, a);
    NotCrashed(Step(s, a));
    if a.Handle? {
      HandleStore(s, a);
    } else {
      OtherStore(s, a);
    }
  }

  lemma HandleStore(s: System, a: Action)
    requires Eviction.Inv(s.store.m) && Enabled(s, a) && a.Handle? && !Step(s, a).crashed
    ensures
      var e := EventFor(a.client, s.nodes[a.client].k.out[0], a.failures, a.order);
      S.Enabled(s.store, e) && Step(s, a).store == S.Step(s.store, e)
  {
    hide S.Step, S.Enabled, EventFor, Deliver;
  }

  lemma OtherStore(s: System, a: Action)
    requires Eviction.Inv(s.store.m) && Enabled(s, a) && !a.Handle?
    ensures
      var es := EventOf(s, a);
      if es == [] then Step(s, a).store == s.store
      else S.Enabled(s.store, es[0]) && Step(s, a).store == S.Step(s.store, es[0])
  {
    hide S.Step, Deliver, C.Seal, C.Release, C.StartGet, C.Send, C.FinishGet, C.Created;
  }

  lemma SRunMore(s: S.State, x: seq<S.Event>, y: seq<S.Event>, s1: S.State)
    requires Eviction.Inv(s.m) && |x| <= 1
    requires if x == [] then s1 == s else S.Enabled(s, x[0]) && s1 == S.Step(s, x[0])
    requires S.Feasible(s1, y)
    ensures S.Feasible(s, x + y) && S.Run(s, x + y) == S.Run(s1, y)
  {
    hide S.Step, S.Enabled;
    if x == [] {
      assert x + y == y;
    } else {
      assert (x + y)[0] == x[0] && (x + y)[1..] == y;
    }
  }

  /** Over every run: the store is the store after the events that it has handled, none of which its
      checks refuse, so that all that holds of every run of a store holds of this one. */
  lemma {:induction false} StoreIsItsEvents(s: System, run: seq<Action>)
    requires Inv(s) && Feasible(s, run)
    ensures S.Feasible(s.store, Events(s, run)) && Run(s, run).store == S.Run(s.store, Events(s, run))
    decreases |run|
  {
    if run != [] {
      StepStore(s, run[0]);
      StepKeeps(s, run[0]);
      hide Inv, Step, Enabled, EventOf, S.Feasible, S.Run, S.Step, S.Enabled;
      StoreIsItsEvents(Step(s, run[0]), run[1..]);
      OneEvent(s, run[0]);
      SRunMore(s.store, EventOf(s, run[0]), Events(Step(s, run[0]), run[1..]), Step(s, run[0]).store);
    }
  }

  lemma OneEvent(s: System, a: Action)
    requires Enabled(s, a)
    ensures |EventOf(s, a)| <= 1
  {
  }

  /** The message of `c` that an event comes from, unless it is a seal, which does not say whose it is. */
  function MessageIn(e: S.Event, c: ClientId): seq<C.Message> {
    match e
    case Created(d, o, size, _) => if d == c then [C.CreateRequest(o, size)] else []
    case Requested(d, ids, immediate) => if d == c then [C.GetRequest(ids, immediate)] else []
    case Released(d, o) => if d == c then [C.ReleaseRequest(o)] else []
    case Left(d, _) => if d == c then [C.Goodbye] else []
    case _ => []
  }

  function MessagesIn(es: seq<S.Event>, c: ClientId): seq<C.Message> {
    if es == [] then [] else MessageIn(es[0], c) + MessagesIn(es[1..], c)
  }

  function WithoutSeals(ms: seq<C.Message>): seq<C.Message> {
    if ms == [] then [] else (if ms[0].SealRequest? then [] else [ms[0]]) + WithoutSeals(ms[1..])
  }

  lemma StepMessages(s: System, a: Action, c: ClientId)
    requires c in s.nodes && Enabled(s, a)
    ensures |EventOf(s, a)| <= 1 && |Handles(s, a, c)| <= 1
    ensures MessagesIn(EventOf(s, a), c) == WithoutSeals(Handles(s, a, c))
  {
    hide MessagesIn, WithoutSeals, EventFor;
    NothingHandled(c);
    match a
    case Handle(d, failures, order) => EventTells(d, s.nodes[d].k.out[0], failures, order, c);
    case TimeOut(id) => OneMessage(S.TimedOut(id), c);
    case EvictBytes(bytes) => OneMessage(S.EvictRequested(bytes), c);
    case _ =>
  }

  lemma NothingHandled(c: ClientId)
    ensures MessagesIn([], c) == [] && WithoutSeals([]) == []
  {
  }

  lemma OneMessage(e: S.Event, c: ClientId)
    ensures MessagesIn([e], c) == MessageIn(e, c)
  {
    assert [e][1..] == [];
  }

  lemma EventTells(d: ClientId, m: C.Message, failures: nat, order: seq<ObjectId>, c: ClientId)
    ensures MessagesIn([EventFor(d, m, failures, order)], c) == WithoutSeals(if d == c then [m] else [])
  {
    OneMessage(EventFor(d, m, failures, order), c);
    assert [m][1..] == [];
  }

  lemma MessagesMore(x: seq<S.Event>, y: seq<S.Event>, c: ClientId)
    requires |x| <= 1
    ensures MessagesIn(x + y, c) == MessagesIn(x, c) + MessagesIn(y, c)
  {
    if x == [] {
      assert x + y == y;
    } else {
      assert (x + y)[0] == x[0] && (x + y)[1..] == y && x[1..] == [];
    }
  }

  lemma SealsMore(x: seq<C.Message>, y: seq<C.Message>)
    requires |x| <= 1
    ensures WithoutSeals(x + y) == WithoutSeals(x) + WithoutSeals(y)
  {
    if x == [] {
      assert x + y == y;
    } else {
      assert (x + y)[0] == x[0] && (x + y)[1..] == y && x[1..] == [];
    }
  }

  /** Over every run: the events of the store that name a client are the messages of that client that
      have been handled, in their order and with what they say, but for the seals. */
  lemma {:induction false} EventsAreMessages(s: System, run: seq<Action>, c: ClientId)
    requires Inv(s) && Feasible(s, run) && c in s.nodes
    ensures MessagesIn(Events(s, run), c) == WithoutSeals(HandledOf(s, run, c))
    decreases |run|
  {
    if run != [] {
      var a, s1 := run[0], Step(s, run[0]);
      StepKeeps(s, a);
      StepMessages(s, a, c);
      NodesLast(s, a, c);
      hide Inv, Step, Enabled, EventOf, Handles, MessagesIn, WithoutSeals;
      EventsAreMessages(s1, run[1..], c);
      MessagesMore(EventOf(s, a), Events(s1, run[1..]), c);
      SealsMore(Handles(s, a, c), HandledOf(s1, run[1..], c));
    }
  }

  lemma NodesLast(s: System, a: Action, c: ClientId)
    requires Eviction.Inv(s.store.m) && c in s.nodes && Enabled(s, a)
    ensures c in Step(s, a).nodes
  {
    hide S.Step, S.Enabled, C.Seal, C.Release, C.StartGet, C.Send, C.FinishGet, C.Created;
  }
}
