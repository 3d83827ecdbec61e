/**
 The plasma store as a value: the memory of `Eviction`, the get requests that wait for objects,
 and the replies sent. A request is answered when its last object is sealed or when it times out.
 */
module StoreSpec {
  import opened IdLists
  import opened Eviction

  type RequestId = nat

  /** A get request: the objects found so far are pinned for its client. `satisfied` counts the
      positions of `ids` whose object is found; the store compares it with `target`, the number of
      different ids. */
  datatype Request = Request(
    id: RequestId, client: ClientId, ids: seq<ObjectId>, found: set<ObjectId>, satisfied: nat, target: nat)

  datatype Reply = Reply(id: RequestId, client: ClientId, ids: seq<ObjectId>, found: set<ObjectId>)

  /** `requests` holds the unanswered requests in order of arrival; `gone` the clients that left. */
  datatype State = State(
    m: Memory, requests: seq<Request>, next: RequestId, gone: set<ClientId>, replies: seq<Reply>)

  predicate Sealed(m: Memory, o: ObjectId) {
    o in m.objects && m.objects[o].sealed
  }

  predicate Pinned(m: Memory, o: ObjectId, c: ClientId) {
    Sealed(m, o) && c in m.objects[o].clients
  }

  /** How many entries the request has in the vector of `o`: one per position that names it. */
  function Lack(r: Request, o: ObjectId): nat {
    if o in r.found then 0 else multiset(r.ids)[o]
  }

  predicate Waits(r: Request, o: ObjectId) {
    Lack(r, o) > 0
  }

  function Answer(r: Request): Reply {
    Reply(r.id, r.client, r.ids, r.found)
  }

  // ---- A get request arrives ----

  /** Pin, in order, every requested object that is already sealed. */
  function PinPresent(m: Memory, ids: seq<ObjectId>, c: ClientId): Memory
    decreases |ids|
  {
    if ids == [] then m
    else PinPresent(if Sealed(m, ids[0]) then AddClient(m, ids[0], c) else m, ids[1..], c)
  }

  function Present(m: Memory, ids: seq<ObjectId>): set<ObjectId> {
    set o | o in ids && Sealed(m, o)
  }

  /** How many positions of the request name a sealed object. */
  function Hits(m: Memory, ids: seq<ObjectId>): nat {
    if ids == [] then 0
    else Hits(m, ids[..|ids| - 1]) + (if Sealed(m, ids[|ids| - 1]) then 1 else 0)
  }

  function NewRequest(s: State, c: ClientId, ids: seq<ObjectId>): Request {
    Request(s.next, c, ids, Present(s.m, ids), Hits(s.m, ids), |AsSet(ids)|)
  }

  function Get(s: State, c: ClientId, ids: seq<ObjectId>, immediate: bool): State {
    var r := NewRequest(s, c, ids);
    var s' := s.(m := PinPresent(s.m, ids, c), next := s.next + 1);
    if r.satisfied == r.target || immediate then s'.(replies := s.replies + [Answer(r)])
    else s'.(requests := s.requests + [r])
  }

  // ---- An object is sealed ----

  /** Every entry of the request in the vector of `o` raises its counter by one. */
  function Serve(r: Request, o: ObjectId): Request {
    r.(found := r.found + {o}, satisfied := r.satisfied + Lack(r, o))
  }

  /** The counter meets the target at one of the request's entries. */
  predicate CompletedBy(r: Request, o: ObjectId) {
    r.satisfied < r.target <= r.satisfied + Lack(r, o)
  }

  /** A request answered while the vector of `o` is walked had one entry there, so that the walk
      goes on at the right place. */
  predicate Clean(r: Request, o: ObjectId) {
    CompletedBy(r, o) ==> Lack(r, o) == 1
  }

  predicate CleanSeal(rs: seq<Request>, o: ObjectId) {
    forall i :: 0 <= i < |rs| ==> Clean(rs[i], o)
  }

  function StillWaiting(rs: seq<Request>, o: ObjectId): seq<Request> {
    if rs == [] then []
    else (if CompletedBy(rs[0], o) then [] else [if Waits(rs[0], o) then Serve(rs[0], o) else rs[0]])
         + StillWaiting(rs[1..], o)
  }

  function AnsweredBy(rs: seq<Request>, o: ObjectId): seq<Reply> {
    if rs == [] then []
    else (if CompletedBy(rs[0], o) then [Answer(Serve(rs[0], o))] else []) + AnsweredBy(rs[1..], o)
  }

  /** Pin the object for the client of every request that waits for it, in order. */
  function PinWaiting(m: Memory, rs: seq<Request>, o: ObjectId): Memory
    requires o in m.objects
    decreases |rs|
  {
    if rs == [] then m
    else PinWaiting(if Waits(rs[0], o) then AddClient(m, o, rs[0].client) else m, rs[1..], o)
  }

  function SealObject(s: State, o: ObjectId): State
    requires o in s.m.objects
  {
    s.(m := PinWaiting(Seal(s.m, o), s.requests, o),
       requests := StillWaiting(s.requests, o),
       replies := s.replies + AnsweredBy(s.requests, o))
  }

  // ---- Time-out, release, disconnection ----

  function Position(rs: seq<Request>, id: RequestId): (i: nat)
    requires exists k :: 0 <= k < |rs| && rs[k].id == id
    ensures i < |rs| && rs[i].id == id
  {
    if rs[0].id == id then 0
    else
      assert exists k :: 0 <= k < |rs[1..]| && rs[1..][k].id == id by {
        var k :| 0 <= k < |rs| && rs[k].id == id;
        assert rs[1..][k - 1].id == id;
      }
      1 + Position(rs[1..], id)
  }

  predicate Live(rs: seq<Request>, id: RequestId) {
    exists k :: 0 <= k < |rs| && rs[k].id == id
  }

  function Drop(rs: seq<Request>, i: nat): seq<Request>
    requires i < |rs|
  {
    rs[..i] + rs[i + 1..]
  }

  /** Take the client off every object, in the order in which the object table is walked. */
  function RemoveEverywhere(m: Memory, order: seq<ObjectId>, c: ClientId): Memory
    decreases |order|
  {
    if order == [] then m
    else RemoveEverywhere(if order[0] in m.objects then RemoveClient(m, order[0], c) else m, order[1..], c)
  }

  function Release(s: State, c: ClientId, o: ObjectId): State
    requires o in s.m.objects
  {
    s.(m := RemoveClient(s.m, o, c))
  }

  /** A client disconnects; its waiting requests stay. */
  function Leave(s: State, c: ClientId, order: seq<ObjectId>): State {
    s.(m := RemoveEverywhere(s.m, order, c), gone := s.gone + {c})
  }

  // ---- Transitions ----

  datatype Event =
    | Created(client: ClientId, id: ObjectId, size: nat, failures: nat)
    | Requested(client: ClientId, ids: seq<ObjectId>, immediate: bool)
    | TimedOut(request: RequestId)
    | Sealing(id: ObjectId)
    | Released(client: ClientId, id: ObjectId)
    | Left(client: ClientId, order: seq<ObjectId>)
    | EvictRequested(bytes: int)

  /** No unsealed object has the client as its only user. */
  predicate AbandonsNone(m: Memory, c: ClientId) {
    forall o :: o in m.objects && !m.objects[o].sealed ==> m.objects[o].clients != [c]
  }

  /** The object is sealed or has another user, and no waiting request of the client, unless it has
      left, counts on the object. */
  predicate Spares(s: State, c: ClientId, o: ObjectId)
    requires o in s.m.objects
  {
    && (s.m.objects[o].sealed || s.m.objects[o].clients != [c])
    && (c in s.gone || forall i :: 0 <= i < |s.requests| && s.requests[i].client == c ==> o !in s.requests[i].found)
  }

  ghost predicate Covers(order: seq<ObjectId>, m: Memory) {
    NoRepeat(order) && (forall o :: o in order <==> o in m.objects)
  }

  /** The store's checks, and what clients keep to: a client does not release an object, and does not
      leave, as the only user of an unsealed one, and does not release an object that a get of its own
      that is still waiting has found. A seal has a sound walk. */
  ghost predicate Enabled(s: State, e: Event) {
    match e
    case Created(c, o, size, n) => c !in s.gone
    case Requested(c, ids, _) => c !in s.gone
    case TimedOut(id) => Live(s.requests, id)
    case Sealing(o) => o in s.m.objects && !s.m.objects[o].sealed && CleanSeal(s.requests, o)
    case Released(c, o) => o in s.m.objects && c in s.m.objects[o].clients && Spares(s, c, o)
    case Left(c, order) => Covers(order, s.m) && AbandonsNone(s.m, c)
    case EvictRequested(_) => true
  }

  ghost predicate Inv(s: State) {
    Eviction.Inv(s.m) && RequestsInv(s) && AnsweredOnce(s)
  }

  function Step(s: State, e: Event): State
    requires Eviction.Inv(s.m) && Enabled(s, e)
  {
    match e
    case Created(c, o, size, n) =>
      if o in s.m.objects then s
      else
        var r := Attempts(s.m, size, n);
        s.(m := if r.Enough? then Create(r.memory, o, size, c) else r.memory)
    case Requested(c, ids, immediate) => Get(s, c, ids, immediate)
    case TimedOut(id) =>
      var i := Position(s.requests, id);
      s.(requests := Drop(s.requests, i), replies := s.replies + [Answer(s.requests[i])])
    case Sealing(o) => SealObject(s, o)
    case Released(c, o) => Release(s, c, o)
    case Left(c, order) => Leave(s, c, order)
    case EvictRequested(bytes) => s.(m := Evict(s.m, bytes))
  }

  // ---- The invariant of the requests ----

  /** The counter is the number of positions found, and differs from the number of different ids. */
  predicate Pending(r: Request) {
    && r.found <= AsSet(r.ids) && r.satisfied == Covered(r.ids, r.found)
    && r.target == |AsSet(r.ids)| && r.satisfied != r.target
  }

  predicate Ascending(rs: seq<Request>, next: RequestId) {
    && (forall i, j :: 0 <= i < j < |rs| ==> rs[i].id < rs[j].id)
    && (forall i :: 0 <= i < |rs| ==> rs[i].id < next)
  }

  /** What was found for a request is still stored, sealed and pinned for its client, unless the
      client has left; and nothing that a request still lacks is sealed. */
  predicate Justified(m: Memory, gone: set<ClientId>, r: Request) {
    && (forall o :: o in r.found ==> r.client in gone || Pinned(m, o, r.client))
    && (forall o :: o in r.ids && o !in r.found ==> !Sealed(m, o))
  }

  predicate RequestsInv(s: State) {
    && Ascending(s.requests, s.next)
    && (forall i :: 0 <= i < |s.requests| ==> Pending(s.requests[i]) && Justified(s.m, s.gone, s.requests[i]))
  }

  function RequestIds(rs: seq<Request>): (r: seq<RequestId>)
    ensures |r| == |rs|
  {
    seq(|rs|, i requires 0 <= i < |rs| => rs[i].id)
  }

  function ReplyIds(rs: seq<Reply>): (r: seq<RequestId>)
    ensures |r| == |rs|
  {
    seq(|rs|, i requires 0 <= i < |rs| => rs[i].id)
  }

  function UpTo(n: nat): seq<nat> {
    seq(n, i => i)
  }

  /** Every request ever made is either waiting or has been answered, once. */
  predicate AnsweredOnce(s: State) {
    multiset(RequestIds(s.requests)) + multiset(ReplyIds(s.replies)) == multiset(UpTo(s.next))
  }

  // ---- Memory changes that requests do not notice ----

  /** The same objects with the same seals; clients are only added. */
  ghost predicate Grown(m: Memory, m': Memory) {
    && m'.objects.Keys == m.objects.Keys
    && (forall o :: o in m.objects ==>
          && m'.objects[o].sealed == m.objects[o].sealed && m'.objects[o].size == m.objects[o].size
          && (forall c :: c in m.objects[o].clients ==> c in m'.objects[o].clients))
  }

  lemma {:induction false} PinPresentKeeps(m: Memory, ids: seq<ObjectId>, c: ClientId)
    requires Eviction.Inv(m)
    ensures Eviction.Inv(PinPresent(m, ids, c)) && Grown(m, PinPresent(m, ids, c))
    ensures forall o :: o in ids && Sealed(m, o) ==> Pinned(PinPresent(m, ids, c), o, c)
    decreases |ids|
  {
    if ids != [] {
      var m' := if Sealed(m, ids[0]) then AddClient(m, ids[0], c) else m;
      if Sealed(m, ids[0]) {
        AddClientKeeps(m, ids[0], c);
      }
      assert Grown(m, m');
      PinPresentKeeps(m', ids[1..], c);
      assert ids == [ids[0]] + ids[1..];
    }
  }

  lemma {:induction false} PinWaitingKeeps(m: Memory, rs: seq<Request>, o: ObjectId)
    requires Eviction.Inv(m) && Sealed(m, o)
    ensures Eviction.Inv(PinWaiting(m, rs, o)) && Grown(m, PinWaiting(m, rs, o))
    ensures forall i :: 0 <= i < |rs| && Waits(rs[i], o) ==> Pinned(PinWaiting(m, rs, o), o, rs[i].client)
    decreases |rs|
  {
    if rs != [] {
      var m' := if Waits(rs[0], o) then AddClient(m, o, rs[0].client) else m;
      if Waits(rs[0], o) {
        AddClientKeeps(m, o, rs[0].client);
      }
      assert Grown(m, m');
      PinWaitingKeeps(m', rs[1..], o);
      forall i | 0 <= i < |rs| && Waits(rs[i], o) ensures Pinned(PinWaiting(m, rs, o), o, rs[i].client) {
        if i > 0 {
          assert rs[i] == rs[1..][i - 1];
        }
      }
    }
  }

  /** A request stays justified when objects are pinned, or removed while nobody uses them. */
  lemma JustifiedFrame(m: Memory, m': Memory, gone: set<ClientId>, r: Request)
    requires Justified(m, gone, r)
    requires forall o :: o in m'.objects && m'.objects[o].sealed ==> o in m.objects && m.objects[o].sealed
    requires forall o, c :: Pinned(m, o, c) ==> c in gone || Pinned(m', o, c) || c != r.client
    ensures Justified(m', gone, r)
  {
  }

  // ---- Counting positions ----

  /** How many positions name an object of `found`. */
  function Covered(ids: seq<ObjectId>, found: set<ObjectId>): nat {
    if ids == [] then 0
    else Covered(ids[..|ids| - 1], found) + (if ids[|ids| - 1] in found then 1 else 0)
  }

  lemma {:induction false} HitsAreCovered(m: Memory, ids: seq<ObjectId>, found: set<ObjectId>)
    requires forall o :: o in ids ==> (o in found <==> Sealed(m, o))
    ensures Hits(m, ids) == Covered(ids, found)
  {
    if ids != [] {
      HitsAreCovered(m, ids[..|ids| - 1], found);
    }
  }

  /** One more object covers as many positions as name it. */
  lemma {:induction false} CoveredGrows(ids: seq<ObjectId>, found: set<ObjectId>, o: ObjectId)
    requires o !in found
    ensures Covered(ids, found + {o}) == Covered(ids, found) + multiset(ids)[o]
  {
    if ids != [] {
      assert ids == ids[..|ids| - 1] + [ids[|ids| - 1]];
      CoveredGrows(ids[..|ids| - 1], found, o);
    }
  }

  /** All positions are covered exactly when all objects are found. */
  lemma {:induction false} CoveredAll(ids: seq<ObjectId>, found: set<ObjectId>)
    ensures Covered(ids, found) <= |ids|
    ensures Covered(ids, found) == |ids| <==> AsSet(ids) <= found
  {
    if ids != [] {
      var front, x := ids[..|ids| - 1], ids[|ids| - 1];
      assert ids == front + [x];
      CoveredAll(front, found);
      assert AsSet(ids) == AsSet(front) + {x};
    }
  }

  /** The counter that a get request starts with is the number of different present objects if
      and only if no present object is named twice. */
  lemma {:induction false} HitsCountDistinct(m: Memory, ids: seq<ObjectId>)
    ensures |Present(m, ids)| <= Hits(m, ids)
    ensures Hits(m, ids) == |Present(m, ids)|
       <==> forall i, j :: 0 <= i < j < |ids| && Sealed(m, ids[i]) ==> ids[i] != ids[j]
  {
    if ids == [] {
      assert Present(m, ids) == {};
    } else {
      var front, x := ids[..|ids| - 1], ids[|ids| - 1];
      assert ids == front + [x];
      HitsCountDistinct(m, front);
      assert forall i :: 0 <= i < |front| ==> front[i] == ids[i];
      hide Sealed;
      if Sealed(m, x) {
        assert Present(m, ids) == Present(m, front) + {x};
        if x in front {
          var i :| 0 <= i < |front| && front[i] == x;
          assert ids[i] == ids[|ids| - 1] && Sealed(m, ids[i]);
        }
      } else {
        assert Present(m, ids) == Present(m, front);
      }
    }
  }

  // ---- Each transition keeps the invariant ----

  lemma NewRequestIsPending(s: State, c: ClientId, ids: seq<ObjectId>)
    requires Eviction.Inv(s.m)
    ensures
      var r := NewRequest(s, c, ids);
      && Justified(PinPresent(s.m, ids, c), s.gone, r)
      && (r.satisfied != r.target ==> Pending(r))
  {
    PinPresentKeeps(s.m, ids, c);
    HitsAreCovered(s.m, ids, Present(s.m, ids));
  }

  lemma GetKeeps(s: State, c: ClientId, ids: seq<ObjectId>, immediate: bool)
    requires Inv(s) && Enabled(s, Requested(c, ids, immediate))
    ensures Inv(Get(s, c, ids, immediate))
  {
    var r, m' := NewRequest(s, c, ids), PinPresent(s.m, ids, c);
    PinPresentKeeps(s.m, ids, c);
    NewRequestIsPending(s, c, ids);
    GetAnswersOnce(s, c, ids, immediate);
    hide PinPresent, Hits, Eviction.Inv, Pending, AnsweredOnce;
    forall i | 0 <= i < |s.requests| ensures Justified(m', s.gone, s.requests[i]) {
      JustifiedFrame(s.m, m', s.gone, s.requests[i]);
    }
  }

  lemma GetAnswersOnce(s: State, c: ClientId, ids: seq<ObjectId>, immediate: bool)
    requires AnsweredOnce(s)
    ensures AnsweredOnce(Get(s, c, ids, immediate))
  {
    hide PinPresent, Hits;
    var r := NewRequest(s, c, ids);
    assert UpTo(s.next + 1) == UpTo(s.next) + [s.next];
    if r.satisfied == r.target || immediate {
      assert ReplyIds(s.replies + [Answer(r)]) == ReplyIds(s.replies) + [s.next];
    } else {
      assert RequestIds(s.requests + [r]) == RequestIds(s.requests) + [s.next];
    }
  }

  lemma DropIds(rs: seq<Request>, i: nat)
    requires i < |rs|
    ensures multiset(RequestIds(rs)) == multiset(RequestIds(Drop(rs, i))) + multiset{rs[i].id}
  {
    var a, b := RequestIds(rs[..i]), RequestIds(rs[i + 1..]);
    assert RequestIds(rs) == a + ([rs[i].id] + b);
    assert RequestIds(Drop(rs, i)) == a + b;
  }

  lemma TimeOutKeeps(s: State, id: RequestId)
    requires Inv(s) && Enabled(s, TimedOut(id))
    ensures Inv(Step(s, TimedOut(id)))
  {
    var i := Position(s.requests, id);
    var rs := Drop(s.requests, i);
    TimeOutAnswersOnce(s, i);
    hide Pending, Justified, AnsweredOnce;
    forall k | 0 <= k < |rs| ensures rs[k] == s.requests[if k < i then k else k + 1] {}
  }

  lemma TimeOutAnswersOnce(s: State, i: nat)
    requires AnsweredOnce(s) && i < |s.requests|
    ensures AnsweredOnce(s.(requests := Drop(s.requests, i), replies := s.replies + [Answer(s.requests[i])]))
  {
    var id := s.requests[i].id;
    DropIds(s.requests, i);
    assert ReplyIds(s.replies + [Answer(s.requests[i])]) == ReplyIds(s.replies) + [id];
  }

  lemma ServeKeeps(r: Request, o: ObjectId)
    requires Pending(r) && Waits(r, o)
    ensures !CompletedBy(r, o) ==> Pending(Serve(r, o))
    ensures CompletedBy(r, o) && NoRepeat(r.ids) ==> Serve(r, o).found == AsSet(r.ids)
  {
    CoveredGrows(r.ids, r.found, o);
    assert o in r.ids;
    if CompletedBy(r, o) && NoRepeat(r.ids) {
      DistinctIff(r.ids);
      DistinctOccursOnce(r.ids, o);
      CoveredAll(r.ids, Serve(r, o).found);
    }
  }

  function Updated(r: Request, o: ObjectId): (u: Request)
    ensures u.id == r.id
  {
    if Waits(r, o) then Serve(r, o) else r
  }

  /** One request after the object is sealed and pinned for those who wait for it. */
  lemma UpdatedIsJustified(r: Request, o: ObjectId, m: Memory, m': Memory, gone: set<ClientId>)
    requires Pending(r) && Justified(m, gone, r)
    requires o in m.objects && Grown(Seal(m, o), m')
    requires Waits(r, o) ==> Pinned(m', o, r.client)
    ensures Justified(m', gone, Updated(r, o))
    ensures !CompletedBy(r, o) ==> Pending(Updated(r, o))
    ensures CompletedBy(r, o) && NoRepeat(r.ids) ==> Updated(r, o).found == AsSet(r.ids)
  {
    if Waits(r, o) {
      ServeKeeps(r, o);
    }
    var r' := Updated(r, o);
    forall p | p in r'.found ensures r.client in gone || Pinned(m', p, r.client) {
      assert p != o ==> p in r.found;
    }
    forall p | p in r'.ids && p !in r'.found ensures !Sealed(m', p) {
      assert p in r.ids && p !in r.found;
      assert p == o ==> Lack(r, o) > 0;
    }
  }

  lemma StillWaitingLoses(rs: seq<Request>, o: ObjectId)
    requires rs != [] && CompletedBy(rs[0], o)
    ensures StillWaiting(rs, o) == StillWaiting(rs[1..], o)
    ensures AnsweredBy(rs, o) == [Answer(Serve(rs[0], o))] + AnsweredBy(rs[1..], o)
  {
  }

  lemma StillWaitingKeepsFirst(rs: seq<Request>, o: ObjectId)
    requires rs != [] && !CompletedBy(rs[0], o)
    ensures StillWaiting(rs, o) == [Updated(rs[0], o)] + StillWaiting(rs[1..], o)
    ensures AnsweredBy(rs, o) == AnsweredBy(rs[1..], o)
  {
  }

  predicate Above(rs: seq<Request>, low: RequestId) {
    forall i :: 0 <= i < |rs| ==> low < rs[i].id
  }

  lemma AscendingCons(r: Request, rest: seq<Request>, next: nat)
    requires Ascending(rest, next) && r.id < next && Above(rest, r.id)
    ensures Ascending([r] + rest, next)
  {
  }

  lemma AscendingTail(rs: seq<Request>, next: nat)
    requires Ascending(rs, next) && rs != []
    ensures Ascending(rs[1..], next) && Above(rs[1..], rs[0].id) && rs[0].id < next
  {
  }

  lemma AboveCons(r: Request, rest: seq<Request>, low: RequestId)
    requires Above(rest, low) && low < r.id
    ensures Above([r] + rest, low)
  {
  }

  lemma AboveTail(rs: seq<Request>, low: RequestId)
    requires Above(rs, low) && rs != []
    ensures Above(rs[1..], low) && low < rs[0].id
  {
  }

  lemma {:induction false} StillWaitingAbove(rs: seq<Request>, o: ObjectId, low: RequestId)
    requires Above(rs, low)
    ensures Above(StillWaiting(rs, o), low)
  {
    if rs != [] {
      hide StillWaiting, Updated, CompletedBy, Above;
      AboveTail(rs, low);
      StillWaitingAbove(rs[1..], o, low);
      if CompletedBy(rs[0], o) {
        StillWaitingLoses(rs, o);
      } else {
        StillWaitingKeepsFirst(rs, o);
        AboveCons(Updated(rs[0], o), StillWaiting(rs[1..], o), low);
      }
    }
  }

  lemma {:induction false} StillWaitingAscends(rs: seq<Request>, o: ObjectId, next: nat)
    requires Ascending(rs, next)
    ensures Ascending(StillWaiting(rs, o), next)
  {
    if rs != [] {
      hide StillWaiting, Updated, CompletedBy, Ascending, Above;
      AscendingTail(rs, next);
      StillWaitingAscends(rs[1..], o, next);
      if CompletedBy(rs[0], o) {
        StillWaitingLoses(rs, o);
      } else {
        StillWaitingKeepsFirst(rs, o);
        StillWaitingAbove(rs[1..], o, rs[0].id);
        AscendingCons(Updated(rs[0], o), StillWaiting(rs[1..], o), next);
      }
    }
  }

  lemma {:induction false} StillWaitingKeeps(rs: seq<Request>, o: ObjectId, m: Memory, m': Memory, gone: set<ClientId>)
    requires forall i :: 0 <= i < |rs| ==> Pending(rs[i]) && Justified(m, gone, rs[i])
    requires o in m.objects && Grown(Seal(m, o), m')
    requires forall i :: 0 <= i < |rs| && Waits(rs[i], o) ==> Pinned(m', o, rs[i].client)
    ensures forall i :: 0 <= i < |StillWaiting(rs, o)| ==>
              Pending(StillWaiting(rs, o)[i]) && Justified(m', gone, StillWaiting(rs, o)[i])
  {
    hide Pending, Justified, Grown, Pinned, Updated;
    if rs != [] {
      var r, rest := rs[0], StillWaiting(rs[1..], o);
      assert forall i :: 0 <= i < |rs[1..]| ==> rs[1..][i] == rs[i + 1];
      StillWaitingKeeps(rs[1..], o, m, m', gone);
      UpdatedIsJustified(r, o, m, m', gone);
      if CompletedBy(r, o) {
        StillWaitingLoses(rs, o);
      } else {
        StillWaitingKeepsFirst(rs, o);
      }
    }
  }

  lemma {:induction false} SealAnswersOnce(rs: seq<Request>, o: ObjectId)
    ensures multiset(RequestIds(rs))
         == multiset(RequestIds(StillWaiting(rs, o))) + multiset(ReplyIds(AnsweredBy(rs, o)))
  {
    if rs != [] {
      var r, rest, replies := rs[0], StillWaiting(rs[1..], o), AnsweredBy(rs[1..], o);
      SealAnswersOnce(rs[1..], o);
      hide StillWaiting, AnsweredBy, CompletedBy, Updated, RequestIds, ReplyIds;
      assert rs == [r] + rs[1..];
      ConsRequest(r, rs[1..]);
      if CompletedBy(r, o) {
        StillWaitingLoses(rs, o);
        ConsReply(Answer(Serve(r, o)), replies);
      } else {
        StillWaitingKeepsFirst(rs, o);
        ConsRequest(Updated(r, o), rest);
      }
    }
  }

  lemma ConsRequest(r: Request, rs: seq<Request>)
    ensures multiset(RequestIds([r] + rs)) == multiset{r.id} + multiset(RequestIds(rs))
  {
    assert RequestIds([r] + rs) == [r.id] + RequestIds(rs);
  }

  lemma ConsReply(r: Reply, rs: seq<Reply>)
    ensures multiset(ReplyIds([r] + rs)) == multiset{r.id} + multiset(ReplyIds(rs))
  {
    assert ReplyIds([r] + rs) == [r.id] + ReplyIds(rs);
  }

  lemma SealKeeps(s: State, o: ObjectId)
    requires Inv(s) && Enabled(s, Sealing(o))
    ensures Inv(SealObject(s, o))
  {
    var m1 := Seal(s.m, o);
    assert Eviction.Inv(m1);
    PinWaitingKeeps(m1, s.requests, o);
    StillWaitingAscends(s.requests, o, s.next);
    StillWaitingKeeps(s.requests, o, s.m, PinWaiting(m1, s.requests, o), s.gone);
    SealAnswersOnce(s.requests, o);
    var added := AnsweredBy(s.requests, o);
    assert ReplyIds(s.replies + added) == ReplyIds(s.replies) + ReplyIds(added);
  }

  lemma ReleasedSealedIff(m: Memory, o: ObjectId, c: ClientId)
    requires Eviction.Inv(m) && o in m.objects && c in m.objects[o].clients
    ensures LruInv(RemoveClient(m, o, c))
    ensures ReleasedIsSealed(RemoveClient(m, o, c)) <==> m.objects[o].sealed || m.objects[o].clients != [c]
  {
    RemoveClientKeeps(m, o, c);
    WithoutRemoves(m.objects[o].clients, c);
    var m', left := RemoveClient(m, o, c), Without(m.objects[o].clients, c);
    OnlyUser(m.objects[o].clients, left, c);
    hide LruInv, Without;
    assert m'.objects[o] == m.objects[o].(clients := left);
    assert forall p :: p in m.objects && p != o ==> m'.objects[p] == m.objects[p];
  }

  lemma ReleaseJustifiedIff(s: State, c: ClientId, o: ObjectId, r: Request)
    requires o in s.m.objects && NoRepeat(s.m.objects[o].clients) && Justified(s.m, s.gone, r)
    ensures Justified(RemoveClient(s.m, o, c), s.gone, r) <==> c in s.gone || r.client != c || o !in r.found
  {
    WithoutRemoves(s.m.objects[o].clients, c);
    var m' := RemoveClient(s.m, o, c);
    hide Without;
    if r.client == c && o in r.found && c !in s.gone {
      assert !Pinned(m', o, c);
    } else {
      forall p | p in r.found ensures r.client in s.gone || Pinned(m', p, r.client) {
        assert r.client in s.gone || Pinned(s.m, p, r.client);
      }
    }
  }

  /** A release keeps the invariant if and only if the object is sealed or has another user, and no
      waiting request of the client counts on it; and the deletion checks of every possible eviction
      after it pass if and only if the object is sealed or has another user. */
  lemma ReleaseKeepsIff(s: State, c: ClientId, o: ObjectId)
    requires Inv(s) && o in s.m.objects && c in s.m.objects[o].clients
    ensures LruInv(Release(s, c, o).m)
    ensures Inv(Release(s, c, o)) <==> Spares(s, c, o)
    ensures (forall required: int :: ChecksPass(Release(s, c, o).m, required)) <==>
      s.m.objects[o].sealed || s.m.objects[o].clients != [c]
  {
    var m' := RemoveClient(s.m, o, c);
    ReleasedSealedIff(s.m, o, c);
    EveryEvictionPassesIff(m');
    hide LruInv, ReleasedIsSealed, Justified, RemoveClient, ChecksPass;
    forall i | 0 <= i < |s.requests|
      ensures Justified(m', s.gone, s.requests[i]) <==>
        c in s.gone || s.requests[i].client != c || o !in s.requests[i].found
    {
      assert NoRepeat(s.m.objects[o].clients) by { UsersDiffer(s.m, o); }
      ReleaseJustifiedIff(s, c, o, s.requests[i]);
    }
    assert m'.used == s.m.used && m'.capacity == s.m.capacity by { RemoveKeepsSize(s.m, o, c); }
  }

  lemma UsersDiffer(m: Memory, o: ObjectId)
    requires LruInv(m) && o in m.objects
    ensures NoRepeat(m.objects[o].clients)
  {
  }

  lemma RemoveKeepsSize(m: Memory, o: ObjectId, c: ClientId)
    requires o in m.objects
    ensures RemoveClient(m, o, c).used == m.used && RemoveClient(m, o, c).capacity == m.capacity
  {
  }

  /** A creator that releases an object before sealing it makes a later eviction fail its check. */
  lemma EarlyReleaseFailsCheck()
    ensures Inv(UNSEALED) && 5 in UNSEALED.m.objects && LruInv(Release(UNSEALED, 1, 5).m)
    ensures exists required: int :: !ChecksPass(Release(UNSEALED, 1, 5).m, required)
  {
    UnsealedInv();
    assert UNSEALED.m.objects[5].clients == [1] && !UNSEALED.m.objects[5].sealed;
    hide Inv, LruInv, ChecksPass;
    ReleaseKeepsIff(UNSEALED, 1, 5);
  }

  lemma ReleaseKeeps(s: State, c: ClientId, o: ObjectId)
    requires Inv(s) && Enabled(s, Released(c, o))
    ensures Inv(Step(s, Released(c, o)))
  {
    ReleaseKeepsIff(s, c, o);
  }

  /** The same objects with the same seals, and the same clients but for `c`, who is left with `kept`. */
  ghost predicate LeftWith(m: Memory, m': Memory, c: ClientId, kept: set<ObjectId>) {
    && m'.objects.Keys == m.objects.Keys && m'.used == m.used && m'.capacity == m.capacity
    && (forall o :: o in m.objects ==> m'.objects[o].sealed == m.objects[o].sealed)
    && (forall o, d :: o in m.objects && d != c ==> (d in m'.objects[o].clients <==> d in m.objects[o].clients))
    && (forall o :: o in m.objects ==> (c in m'.objects[o].clients <==> o in kept && c in m.objects[o].clients))
  }

  lemma RemoveOneKeeps(m: Memory, o: ObjectId, c: ClientId)
    requires LruInv(m) && o in m.objects
    ensures LruInv(RemoveClient(m, o, c)) && LeftWith(m, RemoveClient(m, o, c), c, m.objects.Keys - {o})
  {
    RemoveClientKeeps(m, o, c);
    WithoutRemoves(m.objects[o].clients, c);
  }

  lemma LeftWithTwice(m: Memory, m1: Memory, m2: Memory, c: ClientId, a: set<ObjectId>, b: set<ObjectId>)
    requires LeftWith(m, m1, c, a) && LeftWith(m1, m2, c, b)
    ensures LeftWith(m, m2, c, a * b) && m1.objects.Keys == m.objects.Keys
  {
  }

  lemma {:induction false} RemoveEverywhereKeeps(m: Memory, order: seq<ObjectId>, c: ClientId)
    requires LruInv(m)
    ensures
      var m' := RemoveEverywhere(m, order, c);
      LruInv(m') && LeftWith(m, m', c, m.objects.Keys - AsSet(order))
    decreases |order|
  {
    if order != [] {
      var p, all := order[0], m.objects.Keys;
      var m1 := if p in m.objects then RemoveClient(m, p, c) else m;
      hide LruInv, RemoveClient;
      assert p !in m.objects ==> LeftWith(m, m1, c, all - {p});
      hide LeftWith;
      if p in m.objects {
        RemoveOneKeeps(m, p, c);
      }
      RemoveEverywhereKeeps(m1, order[1..], c);
      LeftWithTwice(m, m1, RemoveEverywhere(m1, order[1..], c), c, all - {p}, m1.objects.Keys - AsSet(order[1..]));
      assert AsSet(order) == {p} + AsSet(order[1..]);
      assert (all - {p}) * (all - AsSet(order[1..])) == all - AsSet(order);
    }
  }

  lemma OnlyUser(clients: seq<ClientId>, left: seq<ClientId>, c: ClientId)
    requires NoRepeat(clients) && forall d :: d in left <==> d in clients && d != c
    ensures left == [] <==> clients == [] || clients == [c]
  {
    assert |clients| >= 2 ==> clients[0] != clients[1];
    if left == [] && clients != [] {
      forall i | 0 <= i < |clients| ensures clients[i] == c {
        assert clients[i] in clients && clients[i] !in left;
      }
    }
    if left != [] {
      assert left[0] in left;
    }
  }

  /** Every unused object is still sealed after a disconnection, if and only if the client was not
      the only user of an unsealed one. */
  lemma AbandonedIff(m: Memory, order: seq<ObjectId>, c: ClientId)
    requires Eviction.Inv(m) && Covers(order, m)
    ensures ReleasedIsSealed(RemoveEverywhere(m, order, c)) <==> AbandonsNone(m, c)
  {
    RemoveEverywhereKeeps(m, order, c);
    var m' := RemoveEverywhere(m, order, c);
    forall o | o in m.objects
      ensures m'.objects[o].clients == [] <==> m.objects[o].clients == [] || m.objects[o].clients == [c]
    {
      OnlyUser(m.objects[o].clients, m'.objects[o].clients, c);
    }
    hide RemoveEverywhere, LruInv;
    if ReleasedIsSealed(m') {
      forall o | o in m.objects && !m.objects[o].sealed ensures m.objects[o].clients != [c] {
        assert o in m'.objects && !m'.objects[o].sealed;
      }
    } else {
      var o :| o in m'.objects && m'.objects[o].clients == [] && !m'.objects[o].sealed;
      assert m.objects[o].clients == [c];
    }
  }

  /** A disconnection keeps the invariant, and the deletion checks of every possible eviction after
      it pass, if and only if no unsealed object has the client as its only user. */
  lemma LeaveKeepsIff(s: State, c: ClientId, order: seq<ObjectId>)
    requires Inv(s) && Covers(order, s.m)
    ensures LruInv(Leave(s, c, order).m)
    ensures Inv(Leave(s, c, order)) <==> AbandonsNone(s.m, c)
    ensures (forall required: int :: ChecksPass(Leave(s, c, order).m, required)) <==> AbandonsNone(s.m, c)
  {
    AbandonedIff(s.m, order, c);
    RemoveEverywhereKeeps(s.m, order, c);
    var m' := Leave(s, c, order).m;
    EveryEvictionPassesIff(m');
    forall i | 0 <= i < |s.requests| ensures Justified(m', s.gone + {c}, s.requests[i]) {
      assert Justified(s.m, s.gone, s.requests[i]);
    }
  }

  lemma LeaveKeeps(s: State, c: ClientId, order: seq<ObjectId>)
    requires Inv(s) && Enabled(s, Left(c, order))
    ensures Inv(Step(s, Left(c, order)))
  {
    LeaveKeepsIff(s, c, order);
  }

  /** A creator that leaves before sealing makes the next eviction fail its check. */
  lemma UnsealedReleaseFailsCheck()
    ensures exists s: State, c, order ::
      && Inv(s) && Covers(order, s.m) && LruInv(Leave(s, c, order).m)
      && exists required: int :: !ChecksPass(Leave(s, c, order).m, required)
  {
    UnsealedInv();
    hide Inv, Covers, AbandonsNone, LruInv;
    LeaveKeepsIff(UNSEALED, 1, [5, 6]);
  }

  lemma CreateKeepsAll(s: State, c: ClientId, o: ObjectId, size: nat, n: nat)
    requires Inv(s) && Enabled(s, Created(c, o, size, n))
    ensures Inv(Step(s, Created(c, o, size, n)))
  {
    if o !in s.m.objects {
      var r := Attempts(s.m, size, n);
      forall p | p in r.memory.objects ensures p in s.m.objects && r.memory.objects[p] == s.m.objects[p] {
        AttemptsOnlyRemove(s.m, size, n, p);
      }
      forall p | p in s.m.objects && s.m.objects[p].clients != []
        ensures p in r.memory.objects && r.memory.objects[p] == s.m.objects[p]
      {
        AttemptsSpareUsedObjects(s.m, size, n, p);
      }
      CreateKeeps(r.memory, o, size, c);
      var m' := Step(s, Created(c, o, size, n)).m;
      forall i | 0 <= i < |s.requests| ensures Justified(m', s.gone, s.requests[i]) {
        JustifiedFrame(s.m, m', s.gone, s.requests[i]);
      }
    }
  }

  lemma EvictKeepsAll(s: State, bytes: int)
    requires Inv(s)
    ensures Inv(Step(s, EvictRequested(bytes)))
  {
    EvictKeeps(s.m, bytes);
    var m' := Evict(s.m, bytes);
    forall i | 0 <= i < |s.requests| ensures Justified(m', s.gone, s.requests[i]) {
      JustifiedFrame(s.m, m', s.gone, s.requests[i]);
    }
  }

  lemma StepKeeps(s: State, e: Event)
    requires Inv(s) && Enabled(s, e)
    ensures Inv(Step(s, e))
  {
    hide Inv, Enabled;
    match e
    case Created(c, o, size, n) => CreateKeepsAll(s, c, o, size, n);
    case Requested(c, ids, immediate) => GetKeeps(s, c, ids, immediate);
    case TimedOut(id) => TimeOutKeeps(s, id);
    case Sealing(o) => SealKeeps(s, o);
    case Released(c, o) => ReleaseKeeps(s, c, o);
    case Left(c, order) => LeaveKeeps(s, c, order);
    case EvictRequested(bytes) => EvictKeepsAll(s, bytes);
  }

  // ---- Runs ----

  ghost predicate Feasible(s: State, es: seq<Event>)
    decreases |es|
  {
    es == [] || (Eviction.Inv(s.m) && Enabled(s, es[0]) && Feasible(Step(s, es[0]), es[1..]))
  }

  ghost function Run(s: State, es: seq<Event>): State
    requires Feasible(s, es)
    decreases |es|
  {
    if es == [] then s else Run(Step(s, es[0]), es[1..])
  }

  /** Over every run: released objects are exactly the list, the count of used memory stays within
      the capacity, every request is answered once, and what was found for a waiting request is
      still there. */
  lemma {:induction false} RunKeeps(s: State, es: seq<Event>)
    requires Inv(s) && Feasible(s, es)
    ensures Inv(Run(s, es))
    decreases |es|
  {
    if es != [] {
      StepKeeps(s, es[0]);
      RunKeeps(Step(s, es[0]), es[1..]);
    }
  }

  // ---- What a reply says ----

  predicate Complete(r: Reply) {
    r.found == AsSet(r.ids)
  }

  /** Everything a reply reports as present is stored, sealed and pinned for its client when the
      reply is sent, unless that client has left. */
  predicate Truthful(s: State, r: Reply) {
    r.client in s.gone || forall o :: o in r.found ==> Pinned(s.m, o, r.client)
  }

  lemma {:induction false} SealReplies(rs: seq<Request>, o: ObjectId, m: Memory, m': Memory, gone: set<ClientId>,
                                       k: nat)
    requires forall i :: 0 <= i < |rs| ==> Pending(rs[i]) && Justified(m, gone, rs[i])
    requires o in m.objects && Grown(Seal(m, o), m')
    requires forall i :: 0 <= i < |rs| && Waits(rs[i], o) ==> Pinned(m', o, rs[i].client)
    requires k < |AnsweredBy(rs, o)|
    ensures
      var r := AnsweredBy(rs, o)[k];
      && (NoRepeat(r.ids) ==> Complete(r))
      && (r.client in gone || forall p :: p in r.found ==> Pinned(m', p, r.client))
  {
    assert forall i :: 0 <= i < |rs[1..]| ==> rs[1..][i] == rs[i + 1];
    var first := CompletedBy(rs[0], o);
    if first && k == 0 {
      ServeKeeps(rs[0], o);
    } else {
      SealReplies(rs[1..], o, m, m', gone, if first then k - 1 else k);
    }
  }

  /** Every new reply is truthful; and a reply to a get of different ids that is not due to a
      time-out (of the request, or of a get that does not wait) reports every requested object. */
  lemma RepliesAreTruthful(s: State, e: Event, k: nat)
    requires Inv(s) && Enabled(s, e) && |s.replies| <= k < |Step(s, e).replies|
    ensures Truthful(Step(s, e), Step(s, e).replies[k])
    ensures !e.TimedOut? && !(e.Requested? && e.immediate) && NoRepeat(Step(s, e).replies[k].ids) ==>
      Complete(Step(s, e).replies[k])
  {
    match e
    case Requested(c, ids, immediate) =>
      PinPresentKeeps(s.m, ids, c);
      HitsAreCovered(s.m, ids, Present(s.m, ids));
      CoveredAll(ids, Present(s.m, ids));
      DistinctIff(ids);
    case TimedOut(id) =>
      assert Justified(s.m, s.gone, s.requests[Position(s.requests, id)]);
    case Sealing(o) =>
      var m1 := Seal(s.m, o);
      assert Eviction.Inv(m1);
      PinWaitingKeeps(m1, s.requests, o);
      SealReplies(s.requests, o, s.m, PinWaiting(m1, s.requests, o), s.gone, k - |s.replies|);
    case _ =>
  }

  // ---- A found object stays ----

  /** The two events after which a client may no longer rely on an object. */
  predicate GivesUp(e: Event, c: ClientId, o: ObjectId) {
    e == Released(c, o) || (e.Left? && e.client == c)
  }

  lemma GrownStaysPinned(m: Memory, m': Memory, o: ObjectId, c: ClientId)
    requires Pinned(m, o, c) && Grown(m, m')
    ensures Pinned(m', o, c)
  {
  }

  lemma StepStaysPinned(s: State, e: Event, o: ObjectId, c: ClientId)
    requires Inv(s) && Enabled(s, e) && Pinned(s.m, o, c) && !GivesUp(e, c, o)
    ensures Pinned(Step(s, e).m, o, c)
  {
    hide RequestsInv, AnsweredOnce;
    match e
    case Created(d, p, size, n) =>
      if p !in s.m.objects {
        AttemptsSpareUsedObjects(s.m, size, n, o);
      }
    case Requested(d, ids, immediate) =>
      PinPresentKeeps(s.m, ids, d);
      GrownStaysPinned(s.m, PinPresent(s.m, ids, d), o, c);
    case TimedOut(id) =>
    case Sealing(p) =>
      var m1 := Seal(s.m, p);
      assert Eviction.Inv(m1) && Pinned(m1, o, c);
      PinWaitingKeeps(m1, s.requests, p);
      GrownStaysPinned(m1, PinWaiting(m1, s.requests, p), o, c);
    case Released(d, p) => WithoutRemoves(s.m.objects[p].clients, d);
    case Left(d, order) => RemoveEverywhereKeeps(s.m, order, d);
    case EvictRequested(bytes) => EvictKeeps(s.m, bytes);
  }

  /** Over every run: an object pinned for a client stays stored, sealed and pinned until that client
      releases it or leaves. */
  lemma {:induction false} RunStaysPinned(s: State, es: seq<Event>, o: ObjectId, c: ClientId)
    requires Inv(s) && Feasible(s, es) && Pinned(s.m, o, c)
    requires forall i :: 0 <= i < |es| ==> !GivesUp(es[i], c, o)
    ensures Pinned(Run(s, es).m, o, c)
    decreases |es|
  {
    if es != [] {
      assert es[0] in es;
      StepKeeps(s, es[0]);
      StepStaysPinned(s, es[0], o, c);
      assert forall i :: 0 <= i < |es[1..]| ==> es[1..][i] == es[i + 1];
      hide Inv, Enabled, Pinned, Step;
      RunStaysPinned(Step(s, es[0]), es[1..], o, c);
    }
  }

  /** Over every run: what a reply reported stays stored, sealed and pinned for its client until
      that client releases it or leaves. */
  lemma ReportedStaysPinned(s: State, e: Event, k: nat, es: seq<Event>, o: ObjectId)
    requires Inv(s) && Enabled(s, e) && |s.replies| <= k < |Step(s, e).replies|
    requires Feasible(Step(s, e), es)
    requires
      var r := Step(s, e).replies[k];
      o in r.found && r.client !in Step(s, e).gone && forall i :: 0 <= i < |es| ==> !GivesUp(es[i], r.client, o)
    ensures Pinned(Run(Step(s, e), es).m, o, Step(s, e).replies[k].client)
  {
    assert Eviction.Inv(s.m);
    hide Inv, Enabled, Step, Eviction.Inv;
    StepKeeps(s, e);
    RepliesAreTruthful(s, e, k);
    RunStaysPinned(Step(s, e), es, o, Step(s, e).replies[k].client);
  }

  // ---- Requests that name an id more than once ----

  /** Sealing `os` in turn answers request `id` with the last of them and not before, and none of
      these seals is led astray by the request. */
  predicate AnsweredInTime(rs: seq<Request>, os: seq<ObjectId>, id: RequestId)
    decreases |os|
  {
    if os == [] then !Live(rs, id)
    else
      && Live(rs, id) && Clean(rs[Position(rs, id)], os[0])
      && AnsweredInTime(StillWaiting(rs, os[0]), os[1..], id)
  }

  lemma PositionIs(rs: seq<Request>, i: nat, next: RequestId)
    requires Ascending(rs, next) && i < |rs|
    ensures Live(rs, rs[i].id) && Position(rs, rs[i].id) == i
  {
    assert rs[Position(rs, rs[i].id)].id == rs[i].id;
  }

  /** A request completed by a seal is answered. */
  lemma {:induction false} CompletedIsAnswered(rs: seq<Request>, o: ObjectId, next: RequestId, i: nat)
    requires Ascending(rs, next) && i < |rs| && CompletedBy(rs[i], o)
    ensures !Live(StillWaiting(rs, o), rs[i].id) && Answer(Serve(rs[i], o)) in AnsweredBy(rs, o)
  {
    hide StillWaiting, AnsweredBy, CompletedBy, Updated, Answer, Serve, Lack;
    assert forall k :: 0 <= k < |rs[1..]| ==> rs[1..][k] == rs[k + 1];
    var r, rest := rs[0], StillWaiting(rs[1..], o);
    if i > 0 {
      CompletedIsAnswered(rs[1..], o, next, i - 1);
      assert r.id < rs[i].id;
    } else {
      AscendingTail(rs, next);
      StillWaitingAbove(rs[1..], o, r.id);
    }
    hide Ascending;
    if CompletedBy(r, o) {
      StillWaitingLoses(rs, o);
    } else {
      StillWaitingKeepsFirst(rs, o);
      var u := Updated(r, o);
      forall k | 0 <= k < |[u] + rest| ensures ([u] + rest)[k].id != rs[i].id {
        assert k > 0 ==> ([u] + rest)[k] == rest[k - 1];
      }
    }
  }

  /** A request that a seal does not complete waits on, with the object found if it lacked it. */
  lemma {:induction false} OtherwiseWaitsOn(rs: seq<Request>, o: ObjectId, i: nat)
    requires i < |rs| && !CompletedBy(rs[i], o)
    ensures Updated(rs[i], o) in StillWaiting(rs, o)
  {
    if i > 0 {
      OtherwiseWaitsOn(rs[1..], o, i - 1);
    }
    hide StillWaiting, AnsweredBy, CompletedBy, Updated;
    if CompletedBy(rs[0], o) {
      StillWaitingLoses(rs, o);
    } else {
      StillWaitingKeepsFirst(rs, o);
    }
  }

  lemma {:induction false} WaitingIsAnsweredInTimeIff(rs: seq<Request>, os: seq<ObjectId>, next: RequestId, i: nat)
    requires Ascending(rs, next) && i < |rs| && Pending(rs[i])
    requires NoRepeat(os) && forall o :: o in os <==> o in rs[i].ids && o !in rs[i].found
    ensures AnsweredInTime(rs, os, rs[i].id) <==> NoRepeat(rs[i].ids)
    decreases |os|
  {
    var r := rs[i];
    PositionIs(rs, i, next);
    CoveredAll(r.ids, r.found);
    DistinctIff(r.ids);
    if os != [] {
      var o, rest := os[0], StillWaiting(rs, os[0]);
      assert o in os && Waits(r, o) && os == [o] + os[1..];
      StillWaitingAscends(rs, o, next);
      SealedNext(r, o, os);
      if CompletedBy(r, o) {
        CompletedIsAnswered(rs, o, next, i);
      } else {
        OtherwiseWaitsOn(rs, o, i);
        var j :| 0 <= j < |rest| && rest[j] == Updated(r, o);
        WaitingIsAnsweredInTimeIff(rest, os[1..], next, j);
      }
    } else {
      assert AsSet(r.ids) <= r.found;
    }
  }

  /** One seal of the sequence, seen from one request. */
  lemma SealedNext(r: Request, o: ObjectId, os: seq<ObjectId>)
    requires Pending(r) && NoRepeat(os) && os != [] && os[0] == o
    requires forall p :: p in os <==> p in r.ids && p !in r.found
    ensures Waits(r, o) && Updated(r, o) == Serve(r, o)
    ensures forall p :: p in os[1..] <==> p in r.ids && p !in Serve(r, o).found
    ensures NoRepeat(os[1..])
    ensures CompletedBy(r, o) ==> (NoRepeat(r.ids) <==> Clean(r, o) && os[1..] == [])
    ensures !CompletedBy(r, o) ==> Pending(Serve(r, o)) && Clean(r, o)
  {
    assert o in os && os == [o] + os[1..];
    assert Waits(r, o);
    ServeKeeps(r, o);
    DistinctIff(r.ids);
    CoveredGrows(r.ids, r.found, o);
    CoveredAll(r.ids, r.found + {o});
    if NoRepeat(r.ids) {
      DistinctOccursOnce(r.ids, o);
      if CompletedBy(r, o) && os[1..] != [] {
        assert os[1..][0] in os[1..];
      }
    }
  }

  /** For every state and every get that may wait: it is answered exactly when the last of its missing
      objects is sealed, in whatever order they are, and no seal is led astray by it, if and only if
      its ids are all different. */
  lemma GetIsAnsweredInTimeIff(s: State, c: ClientId, ids: seq<ObjectId>, os: seq<ObjectId>)
    requires Inv(s) && NoRepeat(os) && forall o :: o in os <==> o in ids && !Sealed(s.m, o)
    ensures AnsweredInTime(Get(s, c, ids, false).requests, os, s.next) <==> NoRepeat(ids)
  {
    var r, s' := NewRequest(s, c, ids), Get(s, c, ids, false);
    NewRequestIsPending(s, c, ids);
    HitsAreCovered(s.m, ids, r.found);
    CoveredAll(ids, r.found);
    DistinctIff(ids);
    hide PinPresent, Hits, Covered, Justified, Eviction.Inv, AnsweredOnce;
    if r.satisfied == r.target {
      assert !Live(s'.requests, s.next);
      if os != [] {
        assert os[0] in os;
        assert !(AsSet(ids) <= r.found) by { assert os[0] in AsSet(ids); }
      } else {
        assert AsSet(ids) <= r.found;
      }
    } else {
      assert s'.requests == s.requests + [r];
      assert s'.requests[|s.requests|] == r;
      WaitingIsAnsweredInTimeIff(s'.requests, os, s.next + 1, |s.requests|);
    }
  }

  /** When every waiting request has different ids, every seal has a sound walk. */
  lemma DistinctSealsAreClean(rs: seq<Request>, o: ObjectId)
    requires forall i :: 0 <= i < |rs| ==> NoRepeat(rs[i].ids)
    ensures CleanSeal(rs, o)
  {
    forall i | 0 <= i < |rs| ensures Clean(rs[i], o) {
      DistinctOccursOnce(rs[i].ids, o);
    }
  }

  const UNSEALED := State(
    Memory(map[5 := Entry(8, false, [1]), 6 := Entry(8, false, [1])], [], {}, 0, 16), [], 0, {}, [])

  lemma UnsealedInv()
    ensures Inv(UNSEALED) && Covers([5, 6], UNSEALED.m) && !AbandonsNone(UNSEALED.m, 1)
  {
    assert RequestIds([]) == [] && ReplyIds([]) == [] && UpTo(0) == [];
    assert UNSEALED.m.objects[5].clients == [1] && UNSEALED.m.objects[6].clients == [1];
  }

  lemma NothingPresent(ids: seq<ObjectId>)
    ensures Present(UNSEALED.m, ids) == {} && Hits(UNSEALED.m, ids) == 0
  {
    forall o ensures !Sealed(UNSEALED.m, o) {}
    if ids != [] {
      NothingPresent(ids[..|ids| - 1]);
    }
  }

  /** A get that finds nothing waits. */
  lemma GetWaits(ids: seq<ObjectId>)
    requires AsSet(ids) != {}
    ensures
      var s := Get(UNSEALED, 2, ids, false);
      && s.requests == [Request(0, 2, ids, {}, 0, |AsSet(ids)|)] && s.replies == []
      && 5 in s.m.objects && !Sealed(s.m, 5) && !Sealed(s.m, 6)
  {
    UnsealedInv();
    NothingPresent(ids);
    PinPresentKeeps(UNSEALED.m, ids, 2);
    hide PinPresent, Hits, Present, Inv, AsSet;
    var r := Request(0, 2, ids, {}, 0, |AsSet(ids)|);
    assert [] + [r] == [r];
  }

  /** Naming a missing object twice makes the store answer a get before everything is there: the
      seal of the one counts twice while the other is missing. */
  lemma RepeatedIdsAnswerEarly()
    ensures Inv(UNSEALED)
    ensures
      var s := Get(UNSEALED, 2, [5, 5, 6], false);
      && 5 in s.m.objects && !Sealed(s.m, 5) && !Sealed(s.m, 6)
      && SealObject(s, 5).replies == [Reply(0, 2, [5, 5, 6], {5})] && !CleanSeal(s.requests, 5)
  {
    var ids := [5, 5, 6];
    var r := Request(0, 2, ids, {}, 0, 2);
    UnsealedInv();
    assert AsSet(ids) == {5, 6};
    hide *;
    GetWaits(ids);
    EarlyAnswer(r);
    FirstReplies(Get(UNSEALED, 2, ids, false), 5);
  }

  lemma EarlyAnswer(r: Request)
    requires r == Request(0, 2, [5, 5, 6], {}, 0, 2)
    ensures !CleanSeal([r], 5) && AnsweredBy([r], 5) == [Reply(0, 2, [5, 5, 6], {5})]
  {
    assert multiset(r.ids)[5] == 2;
    assert Answer(Serve(r, 5)) == Reply(0, 2, [5, 5, 6], {5});
    assert [r][1..] == [];
    assert !Clean([r][0], 5);
  }

  lemma FirstReplies(s: State, o: ObjectId)
    requires o in s.m.objects && s.replies == []
    ensures SealObject(s, o).replies == AnsweredBy(s.requests, o)
  {
    assert [] + AnsweredBy(s.requests, o) == AnsweredBy(s.requests, o);
  }

  /** Naming the only missing object twice: the first of its two turns answers the request and
      empties the vector that the second turn reads. */
  lemma RepeatedIdEmptiesVector()
    ensures Inv(UNSEALED)
    ensures
      var s := Get(UNSEALED, 2, [5, 5], false);
      && |s.requests| == 1 && Lack(s.requests[0], 5) == 2 && s.requests[0].satisfied + 1 == s.requests[0].target
      && !CleanSeal(s.requests, 5)
  {
    var ids := [5, 5];
    UnsealedInv();
    assert AsSet(ids) == {5};
    GetWaits(ids);
    hide Inv, Get, AsSet;
    var s := Get(UNSEALED, 2, ids, false);
    assert multiset(ids)[5] == 2;
    assert !Clean(s.requests[0], 5);
  }
}
