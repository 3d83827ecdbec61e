/**
 Any number of plasma clients and one store, connected by first-in first-out sockets. A client
 sends creations and gets and waits for the answer; it sends seals and releases and goes on. The
 store handles the messages of different clients in any order, but those of one client in the
 order in which they were sent.
 */
module PlasmaProtocol {
  import IdLists
  import Eviction
  import S = StoreSpec
  import C = ClientSpec
  import opened StoreViews

  /** `before` are the objects that a waiting get found in use. */
  datatype Mode = Ready | Waiting(request: C.Message, before: set<ObjectId>) | Closed

  datatype Node = Node(k: C.Client, mode: Mode, inbox: seq<Answer>)

  /** `crashed` is set when a check of the store, or one of a client about an answer, fails. */
  datatype System = System(store: S.State, nodes: map<ClientId, Node>, crashed: bool)

  datatype Action =
    | Connect(client: ClientId, delay: nat)
    | CallCreate(client: ClientId, id: ObjectId, size: nat)
    | CallGet(client: ClientId, ids: seq<ObjectId>, immediate: bool)
    | CallSeal(client: ClientId, id: ObjectId)
    | CallRelease(client: ClientId, id: ObjectId)
    | CallDisconnect(client: ClientId)
    | Handle(client: ClientId, failures: nat, order: seq<ObjectId>)
    | TimeOut(request: S.RequestId)
    | EvictBytes(bytes: int)
    | Receive(client: ClientId, places: map<ObjectId, C.Place>)

  // ---- Transitions ----

  function Deliver(nodes: map<ClientId, Node>, rs: seq<S.Reply>): map<ClientId, Node> {
    map c | c in nodes :: nodes[c].(inbox := nodes[c].inbox + Answers(rs, c))
  }

  function Put(s: System, c: ClientId, n: Node): System {
    s.(nodes := s.nodes[c := n])
  }

  ghost function StoreStep(s: System, e: S.Event): System
    requires Eviction.Inv(s.store.m) && S.Enabled(s.store, e)
  {
    var store' := S.Step(s.store, e);
    s.(store := store', nodes := Deliver(s.nodes, NewReplies(s.store, store')))
  }

  function EventFor(c: ClientId, m: C.Message, failures: nat, order: seq<ObjectId>): S.Event {
    match m
    case CreateRequest(o, size) => S.Created(c, o, size, failures)
    case GetRequest(ids, immediate) => S.Requested(c, ids, immediate)
    case SealRequest(o) => S.Sealing(o)
    case ReleaseRequest(o) => S.Released(c, o)
    case Goodbye => S.Left(c, order)
  }

  /** The store takes the next message of a client. */
  ghost function HandleNext(s: System, c: ClientId, failures: nat, order: seq<ObjectId>): System
    requires Eviction.Inv(s.store.m) && c in s.nodes && s.nodes[c].k.out != []
  {
    var n := s.nodes[c];
    var e := EventFor(c, n.k.out[0], failures, order);
    if !S.Enabled(s.store, e) then s.(crashed := true)
    else
      var s' := StoreStep(Put(s, c, Popped(n)), e);
      if e.Created? then
        var ok := e.id !in s.store.m.objects && e.id in s'.store.m.objects;
        Put(s', c, s'.nodes[c].(inbox := s'.nodes[c].inbox + [CreateReply(ok)]))
      else s'
  }

  function Popped(n: Node): Node
    requires n.k.out != []
  {
    n.(k := n.k.(out := n.k.out[1..]))
  }

  /** A waiting client reads its answer. */
  function ReceiveNext(s: System, c: ClientId, places: map<ObjectId, C.Place>): System
    requires c in s.nodes && s.nodes[c].inbox != [] && s.nodes[c].mode.Waiting?
  {
    var n := s.nodes[c];
    var n' := n.(mode := Ready, inbox := n.inbox[1..]);
    match n.inbox[0]
    case CreateReply(ok) =>
      if !n.mode.request.CreateRequest? || (ok && n.mode.request.id in n.k.inUse) then s.(crashed := true)
      else if !ok then Put(s, c, n')
      else
        var o := n.mode.request.id;
        Put(s, c, n'.(k := C.Created(n.k, o, if o in places then places[o].fd else 0, n.mode.request.size)))
    case GetReply(found) =>
      if !n.mode.request.GetRequest? ||
        !(n.mode.before * IdLists.AsSet(n.mode.request.ids) <= found) then s.(crashed := true)
      else Put(s, c, n'.(k := C.FinishGet(n.k, n.mode.request.ids, n.mode.before, places)))
  }

  ghost predicate Enabled(s: System, a: Action) {
    match a
    case Connect(c, _) => c !in s.nodes
    case CallCreate(c, o, size) => c in s.nodes && s.nodes[c].mode.Ready?
    case CallGet(c, ids, _) =>
      && c in s.nodes && s.nodes[c].mode.Ready? && IdLists.NoRepeat(ids)
      && (forall o :: o in ids && o in s.nodes[c].k.inUse ==> s.nodes[c].k.inUse[o].sealed)
    case CallSeal(c, o) =>
      && c in s.nodes && s.nodes[c].mode.Ready?
      && o in s.nodes[c].k.inUse && !s.nodes[c].k.inUse[o].sealed
    case CallRelease(c, o) => c in s.nodes && s.nodes[c].mode.Ready? && s.nodes[c].k.held[o] > 0
    case CallDisconnect(c) => c in s.nodes && s.nodes[c].mode.Ready? && C.Unsealed(s.nodes[c].k) == {}
    case Handle(c, _, order) =>
      && c in s.nodes && s.nodes[c].k.out != []
      && (s.nodes[c].k.out[0].Goodbye? ==>
            IdLists.NoRepeat(order) && (forall o :: o in order <==> o in s.store.m.objects))
    case TimeOut(id) => S.Live(s.store.requests, id)
    case EvictBytes(_) => true
    case Receive(c, places) =>
      && c in s.nodes && s.nodes[c].inbox != [] && s.nodes[c].mode.Waiting?
      && (s.nodes[c].inbox[0].GetReply? ==> places.Keys == s.nodes[c].inbox[0].found)
  }

  ghost function Step(s: System, a: Action): System
    requires Eviction.Inv(s.store.m) && Enabled(s, a)
  {
    match a
    case Connect(c, delay) =>
      Put(s, c, Node(C.Fresh(delay, s.store.m.capacity), Ready, []))
    case CallCreate(c, o, size) =>
      var n := s.nodes[c];
      Put(s, c, n.(k := C.Send(n.k, C.CreateRequest(o, size)), mode := Waiting(C.CreateRequest(o, size), {})))
    case CallGet(c, ids, immediate) =>
      var n := s.nodes[c];
      Put(s, c, n.(k := C.StartGet(n.k, ids, immediate),
                   mode := if C.AllInUse(n.k, ids) then Ready
                     else Waiting(C.GetRequest(ids, immediate), n.k.inUse.Keys)))
    case CallSeal(c, o) => Put(s, c, s.nodes[c].(k := C.Seal(s.nodes[c].k, o)))
    case CallRelease(c, o) => Put(s, c, s.nodes[c].(k := C.Release(s.nodes[c].k, o)))
    case CallDisconnect(c) => Put(s, c, s.nodes[c].(k := C.Send(s.nodes[c].k, C.Goodbye), mode := Closed))
    case Handle(c, failures, order) => HandleNext(s, c, failures, order)
    case TimeOut(id) => StoreStep(s, S.TimedOut(id))
    case EvictBytes(bytes) => StoreStep(s, S.EvictRequested(bytes))
    case Receive(c, places) => ReceiveNext(s, c, places)
  }

  // ---- The invariant ----

  /** The messages on the way are seals and releases, which the store can handle in this order, and
      after them `tail`. */
  predicate Ordered(n: Node, v: View, tail: seq<C.Message>) {
    && n.inbox == [] && v.mine == [] && !v.gone
    && |tail| <= |n.k.out| && n.k.out[|n.k.out| - |tail|..] == tail
    && C.Agrees(n.k.(out := n.k.out[..|n.k.out| - |tail|]), v.pins, v.open, {})
  }

  /** The store has created the object, or refused. */
  predicate CreateAnswered(n: Node, v: View, o: ObjectId) {
    && n.k.out == [] && v.mine == [] && !v.gone && |n.inbox| == 1 && n.inbox[0].CreateReply?
    && (n.inbox[0].ok ==> o !in n.k.inUse)
    && v.pins == n.k.inUse.Keys + (if n.inbox[0].ok then {o} else {})
    && v.open == C.Unsealed(n.k) + (if n.inbox[0].ok then {o} else {})
  }

  /** What the store has found for a get is pinned, and includes what was in use before. */
  predicate Granted(n: Node, v: View, ids: seq<ObjectId>, found: set<ObjectId>) {
    && n.k.out == [] && !v.gone && found <= IdLists.AsSet(ids) && n.k.inUse.Keys * IdLists.AsSet(ids) <= found
    && v.pins == n.k.inUse.Keys + found && v.open == C.Unsealed(n.k)
  }

  predicate GetQueued(n: Node, v: View, ids: seq<ObjectId>) {
    n.inbox == [] && |v.mine| == 1 && v.mine[0].ids == ids && Granted(n, v, ids, v.mine[0].found)
  }

  predicate GetAnswered(n: Node, v: View, ids: seq<ObjectId>) {
    v.mine == [] && |n.inbox| == 1 && n.inbox[0].GetReply? && Granted(n, v, ids, n.inbox[0].found)
  }

  predicate ModeOk(n: Node, v: View) {
    match n.mode
    case Ready => Ordered(n, v, [])
    case Waiting(CreateRequest(o, size), before) =>
      Ordered(n, v, [n.mode.request]) || CreateAnswered(n, v, o)
    case Waiting(GetRequest(ids, immediate), before) =>
      && before == n.k.inUse.Keys && IdLists.NoRepeat(ids)
      && (forall o :: o in ids && o in n.k.inUse ==> n.k.inUse[o].sealed)
      && (Ordered(n, v, [n.mode.request]) || GetQueued(n, v, ids) || GetAnswered(n, v, ids))
    case Waiting(_, _) => false
    case Closed =>
      && C.Unsealed(n.k) == {} && n.inbox == [] && v.mine == []
      && (Ordered(n, v, [C.Goodbye]) || (v.gone && n.k.out == [] && v.pins == {} && v.open == {}))
  }

  ghost predicate PlaceOk(s: System, c: ClientId) {
    if c in s.nodes then ModeOk(s.nodes[c], ViewOf(s.store, c)) else ViewOf(s.store, c) == View({}, {}, [], false)
  }

  /** Clients and store agree. */
  ghost predicate Agreed(s: System) {
    S.Inv(s.store) && !s.crashed && Sole(s.store) && forall c :: PlaceOk(s, c)
  }

  /** The reference counts of every client are exact. */
  ghost predicate Counted(s: System) {
    forall c :: c in s.nodes ==> C.Inv(s.nodes[c].k)
  }

  ghost predicate Inv(s: System) {
    Agreed(s) && Counted(s)
  }

  // ---- One client ----

  function Tail(mode: Mode): seq<C.Message> {
    match mode
    case Ready => []
    case Waiting(request, _) => [request]
    case Closed => [C.Goodbye]
  }

  lemma PoppedFront(out: seq<C.Message>, tail: seq<C.Message>)
    requires |tail| < |out| && out[|out| - |tail|..] == tail
    ensures out[1..][|out[1..]| - |tail|..] == tail
    ensures out[1..][..|out[1..]| - |tail|] == out[..|out| - |tail|][1..]
  {
  }

  /** A client has messages on the way only while they are in order. */
  lemma OutIsOrdered(n: Node, v: View)
    requires ModeOk(n, v) && n.k.out != []
    ensures Ordered(n, v, Tail(n.mode))
  {
  }

  /** The view of a client after the store has handled its first message, a seal or release. */
  function AfterPlain(v: View, m: C.Message): View
    requires m.ReleaseRequest? || m.SealRequest?
  {
    if m.ReleaseRequest? then v.(pins := v.pins - {m.id}) else v.(open := v.open - {m.id})
  }

  lemma PlainPop(n: Node, v: View, tail: seq<C.Message>)
    requires Ordered(n, v, tail) && |tail| < |n.k.out|
    ensures
      var m := n.k.out[0];
      && (m.ReleaseRequest? || m.SealRequest?)
      && m.id in v.pins && (m.SealRequest? <==> m.id in v.open)
      && Ordered(Popped(n), AfterPlain(v, m), tail)
  {
    var front := n.k.out[..|n.k.out| - |tail|];
    assert front[0] == n.k.out[0];
    C.FollowsFirst(front, v.pins, v.open);
    PoppedFront(n.k.out, tail);
    assert C.Unsealed(Popped(n).k) == C.Unsealed(n.k);
    hide C.Follows, C.PinsAfter, C.OpenAfter, C.Unsealed;
    assert C.Unsealed(n.k.(out := front)) == C.Unsealed(n.k);
  }

  lemma ModeAfterPlain(n: Node, v: View)
    requires ModeOk(n, v) && |Tail(n.mode)| < |n.k.out|
    ensures
      var m := n.k.out[0];
      && (m.ReleaseRequest? || m.SealRequest?)
      && m.id in v.pins && (m.SealRequest? <==> m.id in v.open) && v.mine == []
      && ModeOk(Popped(n), AfterPlain(v, m))
  {
    OutIsOrdered(n, v);
    PlainPop(n, v, Tail(n.mode));
    assert C.Unsealed(Popped(n).k) == C.Unsealed(n.k);
  }

  /** A request that is alone on the way: the store's view of the client is the client's own. */
  lemma TailAlone(n: Node, v: View)
    requires ModeOk(n, v) && n.k.out != [] && |n.k.out| <= |Tail(n.mode)|
    ensures n.k.out == Tail(n.mode) && n.inbox == [] && v.mine == [] && !v.gone
    ensures v.pins == n.k.inUse.Keys && v.open == C.Unsealed(n.k)
  {
    OutIsOrdered(n, v);
    assert n.k.out[..0] == [] && n.k.out[0..] == n.k.out;
    assert C.Unsealed(n.k.(out := [])) == C.Unsealed(n.k);
  }

  lemma PoppedTail(n: Node, v: View)
    requires ModeOk(n, v) && n.k.out != [] && |n.k.out| <= |Tail(n.mode)|
    ensures Popped(n).k.out == [] && C.Unsealed(Popped(n).k) == C.Unsealed(n.k)
  {
    TailAlone(n, v);
  }

  lemma CreateHandled(n: Node, v: View, ok: bool)
    requires ModeOk(n, v) && n.mode.Waiting? && n.mode.request.CreateRequest? && |n.k.out| == 1
    requires ok ==> n.mode.request.id !in v.pins
    ensures
      var added := if ok then {n.mode.request.id} else {};
      ModeOk(Popped(n).(inbox := [CreateReply(ok)]), v.(pins := v.pins + added, open := v.open + added))
  {
    TailAlone(n, v);
    PoppedTail(n, v);
  }

  /** Everything in use that a get names is sealed in the store when the get arrives there. */
  lemma InUseIsPresent(n: Node, s: S.State, c: ClientId, ids: seq<ObjectId>)
    requires ViewOf(s, c).pins == n.k.inUse.Keys && ViewOf(s, c).open == C.Unsealed(n.k)
    requires forall o :: o in ids && o in n.k.inUse ==> n.k.inUse[o].sealed
    ensures n.k.inUse.Keys * IdLists.AsSet(ids) <= S.Present(s.m, ids) <= IdLists.AsSet(ids)
  {
    forall o | o in n.k.inUse.Keys * IdLists.AsSet(ids) ensures S.Sealed(s.m, o) {
      assert o in Pins(s.m, c) && o !in C.Unsealed(n.k);
      assert o !in Open(s.m, c);
    }
  }

  lemma GetHandled(n: Node, v: View, v': View, found: set<ObjectId>)
    requires ModeOk(n, v) && n.mode.Waiting? && n.mode.request.GetRequest? && |n.k.out| == 1
    requires n.k.inUse.Keys * IdLists.AsSet(n.mode.request.ids) <= found <= IdLists.AsSet(n.mode.request.ids)
    requires v'.pins == v.pins + found && v'.open == v.open && v'.gone == v.gone
    ensures v'.mine == [] ==> ModeOk(Popped(n).(inbox := [GetReply(found)]), v')
    ensures |v'.mine| == 1 && v'.mine[0].ids == n.mode.request.ids && v'.mine[0].found == found ==>
      ModeOk(Popped(n), v')
  {
    TailAlone(n, v);
    PoppedTail(n, v);
  }

  lemma GoodbyeHandled(n: Node, v: View)
    requires ModeOk(n, v) && n.mode.Closed? && |n.k.out| == 1
    ensures ModeOk(Popped(n), View({}, {}, v.mine, true)) && v.open == {}
  {
    TailAlone(n, v);
    PoppedTail(n, v);
  }

  lemma NothingWanted(o: ObjectId, c: ClientId)
    ensures !Wants([], o) && S.StillWaiting([], o) == [] && Answers(S.AnsweredBy([], o), c) == []
  {
  }

  lemma OneWanted(r: S.Request, o: ObjectId, c: ClientId)
    ensures Wants([r], o) <==> S.Waits(r, o)
    ensures S.StillWaiting([r], o) == if S.CompletedBy(r, o) then [] else [S.Updated(r, o)]
    ensures S.CompletedBy(r, o) && r.client == c ==> Answers(S.AnsweredBy([r], o), c) == [GetReply(r.found + {o})]
    ensures !S.CompletedBy(r, o) ==> Answers(S.AnsweredBy([r], o), c) == []
  {
    assert [r][1..] == [] && [r][0] == r;
    assert S.AnsweredBy([], o) == [] && S.StillWaiting([], o) == [];
    if S.CompletedBy(r, o) {
      var a := S.Answer(S.Serve(r, o));
      assert S.AnsweredBy([r], o) == [a] + [] && [a][1..] == [];
    }
  }

  function Sealed(v: View, o: ObjectId): View {
    View(v.pins + (if Wants(v.mine, o) then {o} else {}), v.open - {o}, S.StillWaiting(v.mine, o), v.gone)
  }

  /** Another client seals an object. */
  lemma SealSeen(n: Node, v: View, o: ObjectId, c: ClientId)
    requires ModeOk(n, v) && o !in v.open
    requires forall r :: r in v.mine ==> r.client == c
    ensures ModeOk(n.(inbox := n.inbox + Answers(S.AnsweredBy(v.mine, o), c)), Sealed(v, o))
  {
    assert v.open - {o} == v.open && n.inbox + [] == n.inbox && v.pins + {} == v.pins;
    if v.mine == [] {
      NothingWanted(o, c);
      assert Sealed(v, o) == v;
    } else {
      assert v.mine == [v.mine[0]];
      SealAwaited(n, v, v.mine[0], o, c);
    }
  }

  lemma SealAwaited(n: Node, v: View, r: S.Request, o: ObjectId, c: ClientId)
    requires ModeOk(n, v) && o !in v.open && v.mine == [r] && r.client == c
    ensures ModeOk(n.(inbox := n.inbox + Answers(S.AnsweredBy(v.mine, o), c)), Sealed(v, o))
  {
    OneWanted(r, o, c);
    assert v.open - {o} == v.open && n.inbox + [] == n.inbox && v.pins + {} == v.pins;
    hide C.Unsealed, Wants, S.StillWaiting, S.AnsweredBy, Answers, Ordered, IdLists.NoRepeat;
    if S.Waits(r, o) {
      assert r.found + {o} <= IdLists.AsSet(r.ids);
      assert v.pins + {o} == n.k.inUse.Keys + (r.found + {o});
    }
  }

  // ---- The store handles a message ----

  lemma SoleShrinks(s: S.State, s': S.State)
    requires Sole(s) && forall d :: ViewOf(s', d).open <= ViewOf(s, d).open
    ensures Sole(s')
  {
  }

  lemma DeliverAt(nodes: map<ClientId, Node>, rs: seq<S.Reply>, d: ClientId)
    requires d in nodes
    ensures Deliver(nodes, rs)[d] == nodes[d].(inbox := nodes[d].inbox + Answers(rs, d))
    ensures Answers(rs, d) == [] ==> Deliver(nodes, rs)[d] == nodes[d]
  {
    assert nodes[d].inbox + [] == nodes[d].inbox;
  }

  /** A transition of the store that leaves the view of a client alone and sends it nothing. */
  lemma StepUntouched(s: System, c: ClientId, n': Node, e: S.Event, d: ClientId)
    requires Agreed(s) && S.Enabled(s.store, e) && d != c
    requires ViewOf(S.Step(s.store, e), d) == ViewOf(s.store, d)
    requires Answers(NewReplies(s.store, S.Step(s.store, e)), d) == []
    ensures PlaceOk(StoreStep(Put(s, c, n'), e), d)
  {
    assert PlaceOk(s, d);
    hide S.Inv, ModeOk, ViewOf, S.Step, S.Enabled;
    if d in s.nodes {
      DeliverAt(Put(s, c, n').nodes, NewReplies(s.store, S.Step(s.store, e)), d);
    }
  }

  /** A transition of the store as the client sees it that caused it or is answered. */
  lemma StepOwn(s: System, c: ClientId, n': Node, e: S.Event)
    requires Agreed(s) && S.Enabled(s.store, e)
    requires ModeOk(n'.(inbox := n'.inbox + Answers(NewReplies(s.store, S.Step(s.store, e)), c)),
      ViewOf(S.Step(s.store, e), c))
    ensures PlaceOk(StoreStep(Put(s, c, n'), e), c)
  {
    assert Eviction.Inv(s.store.m);
    hide S.Inv, ModeOk, ViewOf, S.Step, S.Enabled;
    DeliverAt(Put(s, c, n').nodes, NewReplies(s.store, S.Step(s.store, e)), c);
  }

  /** Clients name different ids in a get, so every walk of the store is sound. */
  lemma SealsAreClean(s: System, o: ObjectId)
    requires Agreed(s)
    ensures S.CleanSeal(s.store.requests, o)
  {
    hide S.Inv, S.Lack, Sole;
    forall i | 0 <= i < |s.store.requests| ensures IdLists.NoRepeat(s.store.requests[i].ids) {
      var r := s.store.requests[i];
      MineHas(s.store.requests, i);
      assert PlaceOk(s, r.client);
      WaitingGet(s, r.client, r);
    }
    S.DistinctSealsAreClean(s.store.requests, o);
  }

  lemma WaitingGet(s: System, c: ClientId, r: S.Request)
    requires PlaceOk(s, c) && r in ViewOf(s.store, c).mine
    ensures IdLists.NoRepeat(r.ids)
  {
    hide Pins, Open, Mine, C.Agrees, C.Unsealed;
  }

  /** A seal or release at the head of a channel passes the store's checks. */
  lemma PlainEnabled(s: System, c: ClientId, failures: nat, order: seq<ObjectId>)
    requires Agreed(s) && c in s.nodes && |Tail(s.nodes[c].mode)| < |s.nodes[c].k.out|
    ensures S.Enabled(s.store, EventFor(c, s.nodes[c].k.out[0], failures, order))
  {
    var n := s.nodes[c];
    assert PlaceOk(s, c);
    ModeAfterPlain(n, ViewOf(s.store, c));
    IdleIff(s.store, c);
    SealsAreClean(s, n.k.out[0].id);
    hide S.CleanSeal;
    assert n.k.out[0].id in Pins(s.store.m, c);
    assert n.k.out[0].SealRequest? <==> n.k.out[0].id in Open(s.store.m, c);
  }

  lemma HandleRelease(s: System, c: ClientId, failures: nat, order: seq<ObjectId>)
    requires Agreed(s) && c in s.nodes && |Tail(s.nodes[c].mode)| < |s.nodes[c].k.out| &&
      s.nodes[c].k.out[0].ReleaseRequest?
    ensures Agreed(HandleNext(s, c, failures, order))
  {
    var n, s' := s.nodes[c], HandleNext(s, c, failures, order);
    var o := n.k.out[0].id;
    PlainEnabled(s, c, failures, order);
    S.StepKeeps(s.store, S.Released(c, o));
    assert PlaceOk(s, c);
    ModeAfterPlain(n, ViewOf(s.store, c));
    assert ViewOf(s.store, c).open - {o} == ViewOf(s.store, c).open;
    hide S.Inv, ModeOk, ViewOf, S.Step, S.Enabled;
    forall d ensures PlaceOk(s', d) && ViewOf(s'.store, d).open <= ViewOf(s.store, d).open {
      ReleasedView(s.store, c, o, d);
      assert PlaceOk(s, d);
      if d in s.nodes {
        DeliverAt(Put(s, c, Popped(n)).nodes, NewReplies(s.store, s'.store), d);
      }
    }
    SoleShrinks(s.store, s'.store);
  }

  /** A seal as the other clients, and those that have not connected, see it. */
  lemma SealingPlace(s: System, c: ClientId, o: ObjectId, n': Node, d: ClientId)
    requires Agreed(s) && c in s.nodes && S.Enabled(s.store, S.Sealing(o)) && o in ViewOf(s.store, c).open && d != c
    ensures PlaceOk(StoreStep(Put(s, c, n'), S.Sealing(o)), d)
  {
    var s', v := StoreStep(Put(s, c, n'), S.Sealing(o)), ViewOf(s.store, d);
    SealingView(s.store, o, d);
    assert PlaceOk(s, d);
    assert o !in v.open;
    forall r | r in v.mine ensures r.client == d {
      MineIs(s.store.requests, d, r);
    }
    hide S.Inv, ModeOk, ViewOf, S.Step, S.Enabled, S.StillWaiting, S.AnsweredBy, Wants, Answers;
    if d in s.nodes {
      DeliverAt(Put(s, c, n').nodes, NewReplies(s.store, s'.store), d);
      SealSeen(s.nodes[d], v, o, d);
    } else {
      NothingWanted(o, d);
    }
  }

  lemma SealingOwn(s: System, c: ClientId, o: ObjectId, n': Node)
    requires Agreed(s) && c in s.nodes && S.Enabled(s.store, S.Sealing(o)) && ViewOf(s.store, c).mine == []
    requires ModeOk(n', ViewOf(s.store, c).(open := ViewOf(s.store, c).open - {o}))
    ensures PlaceOk(StoreStep(Put(s, c, n'), S.Sealing(o)), c)
  {
    var s', v := StoreStep(Put(s, c, n'), S.Sealing(o)), ViewOf(s.store, c);
    SealingView(s.store, o, c);
    NothingWanted(o, c);
    assert v.pins + {} == v.pins;
    hide S.Inv, ModeOk, ViewOf, S.Step, S.Enabled, S.StillWaiting, S.AnsweredBy, Wants, Answers;
    DeliverAt(Put(s, c, n').nodes, NewReplies(s.store, s'.store), c);
  }

  lemma HandleSeal(s: System, c: ClientId, failures: nat, order: seq<ObjectId>)
    requires Agreed(s) && c in s.nodes && |Tail(s.nodes[c].mode)| < |s.nodes[c].k.out| &&
      s.nodes[c].k.out[0].SealRequest?
    ensures Agreed(HandleNext(s, c, failures, order))
  {
    var n, s' := s.nodes[c], HandleNext(s, c, failures, order);
    var o := n.k.out[0].id;
    PlainEnabled(s, c, failures, order);
    S.StepKeeps(s.store, S.Sealing(o));
    assert PlaceOk(s, c);
    ModeAfterPlain(n, ViewOf(s.store, c));
    assert s' == StoreStep(Put(s, c, Popped(n)), S.Sealing(o));
    hide S.Inv, ModeOk, ViewOf, S.Step, S.Enabled, PlaceOk, Popped, Wants, S.StillWaiting, S.AnsweredBy;
    forall d ensures PlaceOk(s', d) {
      if d == c {
        SealingOwn(s, c, o, Popped(n));
      } else {
        SealingPlace(s, c, o, Popped(n), d);
      }
    }
    forall d ensures ViewOf(s'.store, d).open <= ViewOf(s.store, d).open {
      SealingView(s.store, o, d);
    }
    SoleShrinks(s.store, s'.store);
  }

  /** Clients whose view and node a step leaves alone. */
  lemma Untouched(s: System, s': System, d: ClientId)
    requires PlaceOk(s, d) && ViewOf(s'.store, d) == ViewOf(s.store, d)
    requires d in s.nodes <==> d in s'.nodes
    requires d in s.nodes ==> s'.nodes[d] == s.nodes[d]
    ensures PlaceOk(s', d)
  {
  }

  lemma CreateEnabled(s: System, c: ClientId)
    requires Agreed(s) && c in s.nodes && s.nodes[c].mode.Waiting? && |s.nodes[c].k.out| == 1
    requires s.nodes[c].k.out[0].CreateRequest?
    ensures s.nodes[c].mode.request == s.nodes[c].k.out[0] && c !in s.store.gone && s.nodes[c].inbox == []
  {
    assert PlaceOk(s, c);
    TailAlone(s.nodes[c], ViewOf(s.store, c));
  }

  lemma HandleCreate(s: System, c: ClientId, failures: nat, order: seq<ObjectId>)
    requires Agreed(s) && c in s.nodes && s.nodes[c].mode.Waiting? && |s.nodes[c].k.out| == 1
    requires s.nodes[c].k.out[0].CreateRequest?
    ensures Agreed(HandleNext(s, c, failures, order))
  {
    CreateEnabled(s, c);
    var n := s.nodes[c];
    var o, size := n.mode.request.id, n.mode.request.size;
    var e := S.Created(c, o, size, failures);
    assert S.Enabled(s.store, e);
    S.StepKeeps(s.store, e);
    CreatedSole(s.store, c, o, size, failures);
    var s' := HandleNext(s, c, failures, order);
    var ok := o !in s.store.m.objects && o in s'.store.m.objects;
    assert ok ==> o !in ViewOf(s.store, c).pins;
    hide S.Inv, ModeOk, ViewOf, S.Step, S.Enabled, PlaceOk, Tail;
    forall d ensures PlaceOk(s', d) {
      CreatedView(s.store, c, o, size, failures, d);
      if d in s.nodes {
        DeliverAt(Put(s, c, Popped(n)).nodes, [], d);
      }
      if d == c {
        CreateOwn(s, s', c, o, ok);
      } else {
        assert ViewOf(s.store, d).pins + {} == ViewOf(s.store, d).pins;
        assert ViewOf(s.store, d).open + {} == ViewOf(s.store, d).open;
        Untouched(s, s', d);
      }
    }
  }

  lemma CreatedSole(s: S.State, c: ClientId, o: ObjectId, size: nat, n: nat)
    requires S.Inv(s) && S.Enabled(s, S.Created(c, o, size, n)) && Sole(s)
    ensures Sole(S.Step(s, S.Created(c, o, size, n)))
  {
    var s' := S.Step(s, S.Created(c, o, size, n));
    var ok := o !in s.m.objects && o in s'.m.objects;
    assert ok ==> forall d :: o !in ViewOf(s, d).open;
    hide S.Inv, ViewOf, S.Step, S.Enabled;
    forall d ensures ViewOf(s', d).open <= ViewOf(s, d).open + (if d == c && ok then {o} else {}) {
      CreatedView(s, c, o, size, n, d);
    }
    SoleGrows(s, s', c, o, ok);
  }

  lemma SoleGrows(s: S.State, s': S.State, c: ClientId, o: ObjectId, ok: bool)
    requires Sole(s) && (ok ==> forall d :: o !in ViewOf(s, d).open)
    requires forall d :: ViewOf(s', d).open <= ViewOf(s, d).open + (if d == c && ok then {o} else {})
    ensures Sole(s')
  {
  }

  lemma CreateOwn(s: System, s': System, c: ClientId, o: ObjectId, ok: bool)
    requires Agreed(s) && c in s.nodes && s.nodes[c].mode.Waiting? && |s.nodes[c].k.out| == 1
    requires s.nodes[c].mode.request.CreateRequest? && s.nodes[c].mode.request.id == o
    requires ok ==> o !in ViewOf(s.store, c).pins
    requires c in s'.nodes && s'.nodes[c] == Popped(s.nodes[c]).(inbox := [CreateReply(ok)])
    requires
      var v, added := ViewOf(s.store, c), if ok then {o} else {};
      ViewOf(s'.store, c) == v.(pins := v.pins + added, open := v.open + added)
    ensures PlaceOk(s', c)
  {
    assert PlaceOk(s, c);
    CreateHandled(s.nodes[c], ViewOf(s.store, c), ok);
  }

  lemma GetEnabled(s: System, c: ClientId)
    requires Agreed(s) && c in s.nodes && s.nodes[c].mode.Waiting? && |s.nodes[c].k.out| == 1
    requires s.nodes[c].k.out[0].GetRequest?
    ensures
      var n := s.nodes[c];
      n.mode.request == n.k.out[0] && S.Enabled(s.store, S.Requested(c, n.mode.request.ids, n.mode.request.immediate))
  {
    assert PlaceOk(s, c);
    TailAlone(s.nodes[c], ViewOf(s.store, c));
  }

  lemma HandleGet(s: System, c: ClientId, failures: nat, order: seq<ObjectId>)
    requires Agreed(s) && c in s.nodes && s.nodes[c].mode.Waiting? && |s.nodes[c].k.out| == 1
    requires s.nodes[c].k.out[0].GetRequest?
    ensures Agreed(HandleNext(s, c, failures, order))
  {
    assert Eviction.Inv(s.store.m);
    hide S.Inv, ModeOk, ViewOf, S.Step, S.Enabled, PlaceOk, Tail, S.NewRequest;
    var n := s.nodes[c];
    GetEnabled(s, c);
    var ids, immediate := n.mode.request.ids, n.mode.request.immediate;
    S.StepKeeps(s.store, S.Requested(c, ids, immediate));
    var s' := HandleNext(s, c, failures, order);
    forall d ensures ViewOf(s'.store, d).open <= ViewOf(s.store, d).open {
      RequestedView(s.store, c, ids, immediate, d);
    }
    SoleShrinks(s.store, s'.store);
    forall d ensures PlaceOk(s', d) {
      if d == c {
        GetOwn(s, c, failures, order);
      } else {
        RequestedView(s.store, c, ids, immediate, d);
        if d in s.nodes {
          DeliverAt(Put(s, c, Popped(n)).nodes, NewReplies(s.store, s'.store), d);
        }
        Untouched(s, s', d);
      }
    }
  }

  lemma GetOwn(s: System, c: ClientId, failures: nat, order: seq<ObjectId>)
    requires Agreed(s) && c in s.nodes && s.nodes[c].mode.Waiting? && |s.nodes[c].k.out| == 1
    requires s.nodes[c].k.out[0].GetRequest?
    ensures PlaceOk(HandleNext(s, c, failures, order), c)
  {
    var n, v := s.nodes[c], ViewOf(s.store, c);
    assert PlaceOk(s, c);
    TailAlone(n, v);
    var ids, immediate := n.mode.request.ids, n.mode.request.immediate;
    assert S.Enabled(s.store, S.Requested(c, ids, immediate));
    var s', r := HandleNext(s, c, failures, order), S.NewRequest(s.store, c, ids);
    InUseIsPresent(n, s.store, c, ids);
    RequestedView(s.store, c, ids, immediate, c);
    assert r.ids == ids && r.found == S.Present(s.store.m, ids);
    GetHandled(n, v, ViewOf(s'.store, c), r.found);
    hide S.Inv, ModeOk, ViewOf, S.Step, S.Enabled, Tail, S.NewRequest, S.Present;
    DeliverAt(Put(s, c, Popped(n)).nodes, NewReplies(s.store, s'.store), c);
    assert [] + [GetReply(r.found)] == [GetReply(r.found)];
  }

  lemma GoodbyeOwn(s: System, c: ClientId)
    requires Agreed(s) && c in s.nodes && s.nodes[c].mode.Closed? && |s.nodes[c].k.out| == 1
    ensures Open(s.store.m, c) == {}
    ensures ModeOk(Popped(s.nodes[c]), View({}, {}, ViewOf(s.store, c).mine, true))
  {
    assert PlaceOk(s, c);
    hide S.Inv, Pins, Open, Mine, Sole;
    GoodbyeHandled(s.nodes[c], ViewOf(s.store, c));
  }

  lemma LeftEnabled(s: S.State, c: ClientId, order: seq<ObjectId>)
    requires Open(s.m, c) == {} && IdLists.NoRepeat(order) && (forall o :: o in order <==> o in s.m.objects)
    ensures S.Enabled(s, S.Left(c, order))
  {
    forall o | o in s.m.objects && !s.m.objects[o].sealed ensures s.m.objects[o].clients != [c] {
      assert o !in Open(s.m, c);
    }
  }

  lemma HandleGoodbye(s: System, c: ClientId, failures: nat, order: seq<ObjectId>)
    requires Agreed(s) && c in s.nodes && s.nodes[c].mode.Closed? && |s.nodes[c].k.out| == 1
    requires s.nodes[c].k.out[0].Goodbye? && S.Enabled(s.store, S.Left(c, order))
    ensures Agreed(HandleNext(s, c, failures, order))
  {
    hide S.AbandonsNone, S.Covers, S.Leave;
    var n, e := Popped(s.nodes[c]), S.Left(c, order);
    var s' := StoreStep(Put(s, c, n), e);
    GoodbyeOwn(s, c);
    S.StepKeeps(s.store, e);
    assert s' == HandleNext(s, c, failures, order) && s'.store == S.Step(s.store, e) && !s'.crashed;
    assert n.inbox + [] == n.inbox;
    hide S.Inv, ModeOk, ViewOf, S.Step, S.Enabled, PlaceOk, Open, Popped, StoreStep, HandleNext;
    forall d ensures PlaceOk(s', d) && ViewOf(s'.store, d).open <= ViewOf(s.store, d).open {
      LeftView(s.store, c, order, d);
      if d == c {
        StepOwn(s, c, n, e);
      } else {
        StepUntouched(s, c, n, e, d);
      }
    }
    SoleShrinks(s.store, s'.store);
  }

  lemma GoodbyeChecked(s: System, c: ClientId, failures: nat, order: seq<ObjectId>)
    requires Agreed(s) && Enabled(s, Handle(c, failures, order)) && s.nodes[c].mode.Closed? && |s.nodes[c].k.out| == 1
    requires s.nodes[c].k.out[0].Goodbye?
    ensures S.Enabled(s.store, S.Left(c, order))
  {
    hide Agreed, Open, ModeOk, ViewOf, Popped, S.Enabled, IdLists.NoRepeat;
    GoodbyeOwn(s, c);
    LeftEnabled(s.store, c, order);
  }

  /** What can be at the head of a channel. */
  lemma HeadOf(s: System, c: ClientId)
    requires Agreed(s) && c in s.nodes && s.nodes[c].k.out != []
    ensures
      var n := s.nodes[c];
      if |Tail(n.mode)| < |n.k.out| then n.k.out[0].SealRequest? || n.k.out[0].ReleaseRequest?
      else |n.k.out| == 1 && !n.mode.Ready? && n.k.out[0] == Tail(n.mode)[0]
           && (n.mode.Waiting? ==> n.k.out[0].CreateRequest? || n.k.out[0].GetRequest?)
  {
    var n, v := s.nodes[c], ViewOf(s.store, c);
    assert PlaceOk(s, c);
    hide S.Inv, ViewOf;
    if |Tail(n.mode)| < |n.k.out| {
      ModeAfterPlain(n, v);
    } else {
      TailAlone(n, v);
    }
  }

  /** Whatever the store finds at the head of a channel, its checks hold. */
  lemma HandleKeeps(s: System, c: ClientId, failures: nat, order: seq<ObjectId>)
    requires Agreed(s) && Enabled(s, Handle(c, failures, order))
    ensures Agreed(HandleNext(s, c, failures, order))
  {
    HeadOf(s, c);
    var n := s.nodes[c];
    if n.mode.Closed? && n.k.out[0].Goodbye? && |n.k.out| == 1 {
      GoodbyeChecked(s, c, failures, order);
    }
    hide Agreed, HandleNext, Enabled, S.Enabled;
    if |Tail(n.mode)| < |n.k.out| {
      if n.k.out[0].SealRequest? {
        HandleSeal(s, c, failures, order);
      } else {
        HandleRelease(s, c, failures, order);
      }
    } else if n.mode.Closed? {
      HandleGoodbye(s, c, failures, order);
    } else if n.k.out[0].CreateRequest? {
      HandleCreate(s, c, failures, order);
    } else {
      HandleGet(s, c, failures, order);
    }
  }

  // ---- Time-outs and eviction ----

  lemma TimedOutSeen(n: Node, v: View, r: S.Request)
    requires ModeOk(n, v) && v.mine == [r]
    ensures ModeOk(n.(inbox := n.inbox + [GetReply(r.found)]), v.(mine := []))
  {
    assert [] + [GetReply(r.found)] == [GetReply(r.found)];
  }

  lemma MineIsOne(n: Node, v: View)
    requires ModeOk(n, v) && v.mine != []
    ensures |v.mine| == 1
  {
  }

  lemma TimeOutKeeps(s: System, id: S.RequestId)
    requires Agreed(s) && Enabled(s, TimeOut(id))
    ensures Agreed(Step(s, TimeOut(id)))
  {
    var i := S.Position(s.store.requests, id);
    var r, e := s.store.requests[i], S.TimedOut(id);
    var c := r.client;
    MineHas(s.store.requests, i);
    assert r in ViewOf(s.store, c).mine;
    assert PlaceOk(s, c);
    var n, s' := s.nodes[c], StoreStep(s, e);
    MineIsOne(n, ViewOf(s.store, c));
    S.StepKeeps(s.store, e);
    assert Put(s, c, n) == s && s'.store == S.Step(s.store, e) && !s'.crashed;
    hide S.Inv, ModeOk, ViewOf, S.Step, S.Enabled, PlaceOk, StoreStep, Put;
    forall d ensures PlaceOk(s', d) && ViewOf(s'.store, d).open <= ViewOf(s.store, d).open {
      TimedOutView(s.store, id, d);
      if d == c {
        TimedOutSeen(n, ViewOf(s.store, c), r);
        StepOwn(s, c, n, e);
      } else {
        StepUntouched(s, c, n, e, d);
      }
    }
    SoleShrinks(s.store, s'.store);
  }

  lemma EvictKeeps(s: System, bytes: int)
    requires Agreed(s)
    ensures Agreed(Step(s, EvictBytes(bytes)))
  {
    S.StepKeeps(s.store, S.EvictRequested(bytes));
    var s' := Step(s, EvictBytes(bytes));
    hide S.Inv, ModeOk, ViewOf, S.Step, S.Enabled;
    forall d ensures PlaceOk(s', d) && ViewOf(s'.store, d).open <= ViewOf(s.store, d).open {
      EvictView(s.store, bytes, d);
      assert PlaceOk(s, d);
      if d in s.nodes {
        DeliverAt(s.nodes, [], d);
      }
    }
    SoleShrinks(s.store, s'.store);
  }

  // ---- The calls of a client ----

  /** A step of one client changes only its own node. */
  lemma PutKeeps(s: System, c: ClientId, n: Node)
    requires Agreed(s) && ModeOk(n, ViewOf(s.store, c))
    ensures Agreed(Put(s, c, n))
  {
    hide S.Inv, ModeOk, ViewOf;
    forall d ensures PlaceOk(Put(s, c, n), d) {
      assert PlaceOk(s, d);
    }
  }

  lemma ReadyMeans(n: Node, v: View)
    requires n.mode.Ready?
    ensures ModeOk(n, v) <==> n.inbox == [] && v.mine == [] && !v.gone && C.Agrees(n.k, v.pins, v.open, {})
  {
    assert n.k.out[..|n.k.out|] == n.k.out && n.k.out[|n.k.out|..] == [];
    assert n.k.(out := n.k.out) == n.k;
  }

  /** A request put behind messages in order. */
  lemma SendOrdered(n: Node, v: View, m: C.Message)
    requires n.inbox == [] && v.mine == [] && !v.gone && C.Agrees(n.k, v.pins, v.open, {})
    ensures Ordered(n.(k := C.Send(n.k, m)), v, [m])
  {
    var out := n.k.out + [m];
    assert out[|out| - 1..] == [m] && out[..|out| - 1] == n.k.out;
    assert C.Send(n.k, m).(out := n.k.out) == n.k;
  }

  lemma CallCreateKeeps(s: System, c: ClientId, o: ObjectId, size: nat)
    requires Agreed(s) && Enabled(s, CallCreate(c, o, size))
    ensures Agreed(Step(s, CallCreate(c, o, size)))
  {
    var n, v, m := s.nodes[c], ViewOf(s.store, c), C.CreateRequest(o, size);
    assert PlaceOk(s, c);
    ReadyMeans(n, v);
    var n' := n.(k := C.Send(n.k, m), mode := Waiting(m, {}));
    SendOrdered(n.(mode := n'.mode), v, m);
    hide S.Inv, Ordered, ViewOf;
    PutKeeps(s, c, n');
  }

  lemma CallDisconnectKeeps(s: System, c: ClientId)
    requires Agreed(s) && Enabled(s, CallDisconnect(c))
    ensures Agreed(Step(s, CallDisconnect(c)))
  {
    var n, v := s.nodes[c], ViewOf(s.store, c);
    assert PlaceOk(s, c);
    ReadyMeans(n, v);
    var n' := n.(k := C.Send(n.k, C.Goodbye), mode := Closed);
    assert C.Unsealed(n'.k) == C.Unsealed(n.k);
    SendOrdered(n.(mode := Closed), v, C.Goodbye);
    hide S.Inv, Ordered, ViewOf;
    PutKeeps(s, c, n');
  }

  lemma CallSealKeeps(s: System, c: ClientId, o: ObjectId)
    requires Agreed(s) && Enabled(s, CallSeal(c, o)) && C.Inv(s.nodes[c].k)
    ensures Agreed(Step(s, CallSeal(c, o)))
  {
    var n, v := s.nodes[c], ViewOf(s.store, c);
    assert PlaceOk(s, c);
    ReadyMeans(n, v);
    C.SealAgrees(n.k, o, v.pins, v.open);
    hide S.Inv, C.Inv, C.Seal, C.Agrees, ViewOf, ModeOk;
    var n' := n.(k := C.Seal(n.k, o));
    ReadyMeans(n', v);
    PutKeeps(s, c, n');
  }

  lemma CallReleaseKeeps(s: System, c: ClientId, o: ObjectId)
    requires Agreed(s) && Enabled(s, CallRelease(c, o)) && C.Inv(s.nodes[c].k)
    ensures Agreed(Step(s, CallRelease(c, o)))
  {
    var n, v := s.nodes[c], ViewOf(s.store, c);
    assert PlaceOk(s, c);
    ReadyMeans(n, v);
    C.ReleaseAgrees(n.k, o, v.pins, v.open, {});
    hide S.Inv, C.Inv, C.Release, C.Agrees, ViewOf, ModeOk;
    var n' := n.(k := C.Release(n.k, o));
    ReadyMeans(n', v);
    PutKeeps(s, c, n');
  }

  lemma TakeInUseAgrees(k: C.Client, ids: seq<ObjectId>, pins: set<ObjectId>, open: set<ObjectId>)
    requires C.Inv(k) && C.Agrees(k, pins, open, {})
    ensures C.Agrees(C.TakeInUse(k, ids), pins, open, {})
    ensures C.TakeInUse(k, ids).inUse.Keys == k.inUse.Keys
    ensures C.Unsealed(C.TakeInUse(k, ids)) == C.Unsealed(k)
  {
    hide C.Inv, C.TakeInUse, C.Unsealed, C.Follows;
    C.TakeInUseKeeps(k, ids);
  }

  lemma CallGetKeeps(s: System, c: ClientId, ids: seq<ObjectId>, immediate: bool)
    requires Agreed(s) && Enabled(s, CallGet(c, ids, immediate)) && C.Inv(s.nodes[c].k)
    ensures Agreed(Step(s, CallGet(c, ids, immediate)))
  {
    var n, v, m := s.nodes[c], ViewOf(s.store, c), C.GetRequest(ids, immediate);
    assert PlaceOk(s, c);
    ReadyMeans(n, v);
    TakeInUseAgrees(n.k, ids, v.pins, v.open);
    var k := C.TakeInUse(n.k, ids);
    forall o | o in ids && o in k.inUse ensures k.inUse[o].sealed {
      assert o in n.k.inUse && o !in C.Unsealed(n.k);
    }
    hide S.Inv, C.Inv, C.TakeInUse, C.Agrees, ViewOf, C.Unsealed;
    if C.AllInUse(n.k, ids) {
      var n' := n.(k := k);
      ReadyMeans(n', v);
      PutKeeps(s, c, n');
    } else {
      var w := n.(k := k, mode := Waiting(m, n.k.inUse.Keys));
      SendOrdered(w, v, m);
      hide Ordered;
      PutKeeps(s, c, w.(k := C.Send(k, m)));
    }
  }

  lemma ConnectKeeps(s: System, c: ClientId, delay: nat)
    requires Agreed(s) && Enabled(s, Connect(c, delay))
    ensures Agreed(Step(s, Connect(c, delay)))
  {
    assert PlaceOk(s, c);
    FreshNode(delay, s.store.m.capacity);
    hide ViewOf, S.Inv, ModeOk;
    PutKeeps(s, c, Step(s, Connect(c, delay)).nodes[c]);
  }

  lemma FreshNode(delay: nat, capacity: nat)
    ensures ModeOk(Node(C.Fresh(delay, capacity), Ready, []), View({}, {}, [], false))
  {
    C.FreshInv(delay, capacity);
    hide C.Inv, C.Unsealed;
    ReadyMeans(Node(C.Fresh(delay, capacity), Ready, []), View({}, {}, [], false));
  }

  // ---- A client reads its answer ----

  lemma CreatedAgrees(k: C.Client, o: ObjectId, fd: C.Fd, size: nat, pins: set<ObjectId>, open: set<ObjectId>)
    requires o !in k.inUse && k.out == []
    requires pins == k.inUse.Keys + {o} && open == C.Unsealed(k) + {o}
    ensures C.Agrees(C.Created(k, o, fd, size), pins, open, {})
  {
    var k' := C.Created(k, o, fd, size);
    assert k'.inUse.Keys == pins && C.Unsealed(k') == open;
  }

  lemma FinishAgrees(k: C.Client, ids: seq<ObjectId>, found: map<ObjectId, C.Place>, pins: set<ObjectId>,
                     open: set<ObjectId>)
    requires C.Inv(k) && k.out == [] && found.Keys <= IdLists.AsSet(ids)
    requires pins == k.inUse.Keys + found.Keys && open == C.Unsealed(k)
    ensures
      var k' := C.FinishGet(k, ids, k.inUse.Keys, found);
      C.Agrees(k', pins, open, {})
  {
    hide C.Inv, C.FinishGet, C.New, C.Unsealed;
    C.FinishGetKeeps(k, ids, k.inUse.Keys, found);
    NewIsFound(ids, k.inUse.Keys, found);
  }

  lemma NewIsFound(ids: seq<ObjectId>, before: set<ObjectId>, found: map<ObjectId, C.Place>)
    requires found.Keys <= IdLists.AsSet(ids)
    ensures before + C.New(ids, before, found) == before + found.Keys
  {
    assert C.New(ids, before, found) == found.Keys - before;
  }

  lemma CreateReceived(n: Node, v: View, fd: C.Fd)
    requires ModeOk(n, v) && n.mode.Waiting? && n.mode.request.CreateRequest? && n.inbox != []
    ensures |n.inbox| == 1 && n.inbox[0].CreateReply? && (n.inbox[0].ok ==> n.mode.request.id !in n.k.inUse)
    ensures
      var n' := n.(mode := Ready, inbox := []);
      ModeOk(if n.inbox[0].ok then n'.(k := C.Created(n.k, n.mode.request.id, fd, n.mode.request.size)) else n', v)
  {
    var o, size := n.mode.request.id, n.mode.request.size;
    var n' := n.(mode := Ready, inbox := []);
    if n.inbox[0].ok {
      CreatedAgrees(n.k, o, fd, size, v.pins, v.open);
      hide C.Agrees, C.Created;
      ReadyMeans(n'.(k := C.Created(n.k, o, fd, size)), v);
    } else {
      hide C.Unsealed;
      ReadyMeans(n', v);
    }
  }

  lemma GetReceived(n: Node, v: View, places: map<ObjectId, C.Place>)
    requires ModeOk(n, v) && n.mode.Waiting? && n.mode.request.GetRequest? && n.inbox != [] && C.Inv(n.k)
    requires n.inbox[0].GetReply? ==> places.Keys == n.inbox[0].found
    ensures |n.inbox| == 1 && n.inbox[0].GetReply? &&
      n.mode.before * IdLists.AsSet(n.mode.request.ids) <= n.inbox[0].found
    ensures ModeOk(n.(mode := Ready, inbox := [], k := C.FinishGet(n.k, n.mode.request.ids, n.mode.before, places)), v)
  {
    FinishAgrees(n.k, n.mode.request.ids, places, v.pins, v.open);
    hide C.Inv, C.Agrees, C.FinishGet;
    ReadyMeans(n.(mode := Ready, inbox := [], k := C.FinishGet(n.k, n.mode.request.ids, n.mode.before, places)), v);
  }

  lemma WaitsForSomething(n: Node, v: View)
    requires ModeOk(n, v) && n.mode.Waiting?
    ensures n.mode.request.CreateRequest? || n.mode.request.GetRequest?
  {
  }

  /** The checks of a client about its answer hold: what was in use is still there, and what it
      creates is new. */
  lemma ReceiveKeeps(s: System, c: ClientId, places: map<ObjectId, C.Place>)
    requires Agreed(s) && Enabled(s, Receive(c, places)) && C.Inv(s.nodes[c].k)
    ensures Agreed(Step(s, Receive(c, places)))
  {
    var n, v := s.nodes[c], ViewOf(s.store, c);
    assert PlaceOk(s, c);
    hide S.Inv, C.Inv, ModeOk, ViewOf, C.Created, C.FinishGet, IdLists.AsSet;
    assert |n.inbox| == 1 ==> n.inbox[1..] == [];
    WaitsForSomething(n, v);
    if n.mode.request.CreateRequest? {
      var o := n.mode.request.id;
      CreateReceived(n, v, if o in places then places[o].fd else 0);
      PutKeeps(s, c, Step(s, Receive(c, places)).nodes[c]);
    } else {
      GetReceived(n, v, places);
      PutKeeps(s, c, Step(s, Receive(c, places)).nodes[c]);
    }
  }

  // ---- Reference counts ----

  lemma PutCounts(s: System, c: ClientId, n: Node)
    requires Counted(s) && C.Inv(n.k)
    ensures Counted(Put(s, c, n))
  {
    hide C.Inv;
  }

  /** What the store does leaves the clients' own tables alone. */
  lemma StoreStepCounts(s: System, e: S.Event)
    requires Counted(s) && Eviction.Inv(s.store.m) && S.Enabled(s.store, e)
    ensures Counted(StoreStep(s, e))
  {
    hide C.Inv, S.Step, S.Enabled, Eviction.Inv;
  }

  lemma HandleCounts(s: System, c: ClientId, failures: nat, order: seq<ObjectId>)
    requires Counted(s) && Eviction.Inv(s.store.m) && c in s.nodes && s.nodes[c].k.out != []
    ensures Counted(HandleNext(s, c, failures, order))
  {
    var n := s.nodes[c];
    C.OutKeeps(n.k, n.k.out[1..]);
    hide C.Inv, S.Step, S.Enabled, Eviction.Inv;
    PutCounts(s, c, Popped(n));
    var e := EventFor(c, n.k.out[0], failures, order);
    if S.Enabled(s.store, e) {
      var s1 := StoreStep(Put(s, c, Popped(n)), e);
      StoreStepCounts(Put(s, c, Popped(n)), e);
      PutCounts(s1, c, s1.nodes[c]);
    }
  }

  lemma ReceiveCounts(s: System, c: ClientId, places: map<ObjectId, C.Place>)
    requires Counted(s) && c in s.nodes && s.nodes[c].inbox != [] && s.nodes[c].mode.Waiting?
    ensures Counted(ReceiveNext(s, c, places))
  {
    var n := s.nodes[c];
    match n.inbox[0]
    case CreateReply(ok) =>
      if n.mode.request.CreateRequest? && n.mode.request.id !in n.k.inUse {
        var o := n.mode.request.id;
        C.CreatedKeeps(n.k, o, if o in places then places[o].fd else 0, n.mode.request.size);
      }
    case GetReply(found) =>
      if n.mode.request.GetRequest? {
        C.FinishGetKeeps(n.k, n.mode.request.ids, n.mode.before, places);
      }
  }

  lemma StepCounts(s: System, a: Action)
    requires Counted(s) && Eviction.Inv(s.store.m) && Enabled(s, a)
    ensures Counted(Step(s, a))
  {
    hide C.Inv, C.Seal, C.Release, C.TakeInUse, Eviction.Inv;
    match a
    case Connect(c, delay) =>
      C.FreshInv(delay, s.store.m.capacity);
    case CallCreate(c, o, size) =>
      C.SendKeeps(s.nodes[c].k, C.CreateRequest(o, size));
    case CallGet(c, ids, immediate) =>
      C.TakeInUseKeeps(s.nodes[c].k, ids);
      C.SendKeeps(C.TakeInUse(s.nodes[c].k, ids), C.GetRequest(ids, immediate));
    case CallSeal(c, o) =>
      C.SealKeeps(s.nodes[c].k, o);
    case CallRelease(c, o) =>
      C.ReleaseKeeps(s.nodes[c].k, o);
    case CallDisconnect(c) =>
      C.SendKeeps(s.nodes[c].k, C.Goodbye);
    case Handle(c, failures, order) => HandleCounts(s, c, failures, order);
    case TimeOut(id) => StoreStepCounts(s, S.TimedOut(id));
    case EvictBytes(bytes) => StoreStepCounts(s, S.EvictRequested(bytes));
    case Receive(c, places) => ReceiveCounts(s, c, places);
  }

  // ---- Runs ----

  lemma StepAgrees(s: System, a: Action)
    requires Agreed(s) && Counted(s) && Enabled(s, a)
    ensures Agreed(Step(s, a))
  {
    hide Agreed, C.Inv;
    match a
    case Connect(c, delay) => ConnectKeeps(s, c, delay);
    case CallCreate(c, o, size) => CallCreateKeeps(s, c, o, size);
    case CallGet(c, ids, immediate) => CallGetKeeps(s, c, ids, immediate);
    case CallSeal(c, o) => CallSealKeeps(s, c, o);
    case CallRelease(c, o) => CallReleaseKeeps(s, c, o);
    case CallDisconnect(c) => CallDisconnectKeeps(s, c);
    case Handle(c, failures, order) => HandleKeeps(s, c, failures, order);
    case TimeOut(id) => TimeOutKeeps(s, id);
    case EvictBytes(bytes) => EvictKeeps(s, bytes);
    case Receive(c, places) => ReceiveKeeps(s, c, places);
  }

  lemma StepKeeps(s: System, a: Action)
    requires Inv(s) && Enabled(s, a)
    ensures Inv(Step(s, a))
  {
    assert Eviction.Inv(s.store.m);
    hide Agreed, Counted, Enabled, Step, Eviction.Inv;
    StepAgrees(s, a);
    StepCounts(s, a);
  }

  ghost predicate Feasible(s: System, actions: seq<Action>)
    decreases |actions|
  {
    actions == [] || (Eviction.Inv(s.store.m) && Enabled(s, actions[0]) && Feasible(Step(s, actions[0]), actions[1..]))
  }

  ghost function Run(s: System, actions: seq<Action>): System
    requires Feasible(s, actions)
    decreases |actions|
  {
    if actions == [] then s else Run(Step(s, actions[0]), actions[1..])
  }

  /** Over every run no check fails, clients and store agree, and reference counts are exact. */
  lemma {:induction false} RunKeeps(s: System, actions: seq<Action>)
    requires Inv(s) && Feasible(s, actions)
    ensures Inv(Run(s, actions)) && !Run(s, actions).crashed
    decreases |actions|
  {
    if actions != [] {
      StepKeeps(s, actions[0]);
      RunKeeps(Step(s, actions[0]), actions[1..]);
    }
  }

  lemma InitialInv(capacity: nat)
    ensures
      var m := Eviction.Memory(map[], [], {}, 0, capacity);
      Inv(System(S.State(m, [], 0, {}, []), map[], false))
  {
    var store := S.State(Eviction.Memory(map[], [], {}, 0, capacity), [], 0, {}, []);
    assert S.RequestIds([]) == [] && S.ReplyIds([]) == [] && S.UpTo(0) == [];
    assert S.Inv(store);
    hide S.Inv;
    forall c ensures ViewOf(store, c) == View({}, {}, [], false) {}
  }

  /** The store handles a seal or release of a client that is not waiting. */
  lemma HandleReady(s: System, c: ClientId)
    requires Agreed(s) && c in s.nodes && s.nodes[c].mode.Ready? && s.nodes[c].k.out != []
    ensures Eviction.Inv(s.store.m) && Enabled(s, Handle(c, 0, []))
    ensures
      var s' := Step(s, Handle(c, 0, []));
      && Agreed(s') && c in s'.nodes && s'.nodes[c].mode.Ready?
      && s'.nodes[c].k == s.nodes[c].k.(out := s.nodes[c].k.out[1..])
  {
    HeadOf(s, c);
    PlainEnabled(s, c, 0, []);
    HandleKeeps(s, c, 0, []);
    hide S.Inv, S.Enabled, S.Step, PlaceOk;
    var s', n := Step(s, Handle(c, 0, [])), s.nodes[c];
    DeliverAt(Put(s, c, Popped(n)).nodes, NewReplies(s.store, s'.store), c);
  }

  lemma NothingOnTheWay(s: System, c: ClientId)
    requires Agreed(s) && c in s.nodes && s.nodes[c].mode.Ready? && s.nodes[c].k.out == []
    ensures Pins(s.store.m, c) == s.nodes[c].k.inUse.Keys && Open(s.store.m, c) == C.Unsealed(s.nodes[c].k)
  {
    assert PlaceOk(s, c);
    ReadyMeans(s.nodes[c], ViewOf(s.store, c));
  }

  /** Whenever a client is not waiting: once the store has handled its messages, the objects that
      list the client are exactly those it has in use, and the unsealed ones those it has to seal. */
  lemma {:induction false} DrainingMatches(s: System, c: ClientId) returns (actions: seq<Action>)
    requires Agreed(s) && c in s.nodes && s.nodes[c].mode.Ready?
    ensures Feasible(s, actions) && |actions| == |s.nodes[c].k.out|
    ensures
      var s' := Run(s, actions);
      && c in s'.nodes && s'.nodes[c].k == s.nodes[c].k.(out := [])
      && Pins(s'.store.m, c) == s.nodes[c].k.inUse.Keys
      && Open(s'.store.m, c) == C.Unsealed(s.nodes[c].k)
    decreases |s.nodes[c].k.out|
  {
    hide Agreed, Enabled, Step, Pins, Open, Eviction.Inv;
    var n := s.nodes[c];
    if n.k.out == [] {
      actions := [];
      NothingOnTheWay(s, c);
    } else {
      var a := Handle(c, 0, []);
      HandleReady(s, c);
      var rest := DrainingMatches(Step(s, a), c);
      actions := [a] + rest;
      assert actions[1..] == rest && actions[0] == a;
      assert C.Unsealed(n.k.(out := n.k.out[1..])) == C.Unsealed(n.k);
    }
  }
}
