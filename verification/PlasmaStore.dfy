/**
 The plasma store as the running program keeps it: the object table, the released-object list
 and its hash index, and for every object a vector of the get requests that wait for it. Every
 handler is proved to make the transition of `StoreSpec`, which has no such vectors.
 */
module PlasmaStore {
  import opened IdLists
  import opened Eviction
  import opened StoreSpec

  // ---- The vectors of waiting requests, as a function of the requests ----

  type Waiters = map<ObjectId, seq<RequestId>>

  function ListOf(waiters: Waiters, o: ObjectId): seq<RequestId> {
    if o in waiters then waiters[o] else []
  }

  /** The requests that still lack `o`, in order of arrival, each once per position that names it. */
  function WaitersOf(rs: seq<Request>, o: ObjectId): seq<RequestId> {
    if rs == [] then [] else Copies(rs[0].id, Lack(rs[0], o)) + WaitersOf(rs[1..], o)
  }

  /** Each object's vector has an entry for each position of a request that still lacks it, and no
      other. */
  ghost predicate Lists(waiters: Waiters, rs: seq<Request>) {
    forall o :: ListOf(waiters, o) == WaitersOf(rs, o)
  }

  lemma {:induction false} WaitersAppend(a: seq<Request>, b: seq<Request>, o: ObjectId)
    ensures WaitersOf(a + b, o) == WaitersOf(a, o) + WaitersOf(b, o)
  {
    if a == [] {
      assert a + b == b;
    } else {
      hide Lack, Copies, WaitersOf;
      WaitersAppend(a[1..], b, o);
      assert (a + b)[1..] == a[1..] + b && (a + b)[0] == a[0];
      WaitersCons(a, o);
      WaitersCons(a + b, o);
      Regroup(Copies(a[0].id, Lack(a[0], o)), WaitersOf(a[1..], o), WaitersOf(b, o));
    }
  }

  lemma WaitersCons(rs: seq<Request>, o: ObjectId)
    requires rs != []
    ensures WaitersOf(rs, o) == Copies(rs[0].id, Lack(rs[0], o)) + WaitersOf(rs[1..], o)
  {
  }

  lemma WaitersOne(r: Request, o: ObjectId)
    ensures WaitersOf([r], o) == Copies(r.id, Lack(r, o))
  {
    assert [r][1..] == [];
    assert Copies(r.id, Lack(r, o)) + [] == Copies(r.id, Lack(r, o));
  }

  /** Listed ids belong to requests that lack the object. */
  lemma {:induction false} WaiterIsLive(rs: seq<Request>, o: ObjectId, k: nat) returns (i: nat)
    requires k < |WaitersOf(rs, o)|
    ensures i < |rs| && rs[i].id == WaitersOf(rs, o)[k] && Waits(rs[i], o)
  {
    var n := Lack(rs[0], o);
    if k < n {
      i := 0;
    } else {
      var j := WaiterIsLive(rs[1..], o, k - n);
      i := j + 1;
    }
  }

  lemma WaitersBelow(rs: seq<Request>, next: RequestId, o: ObjectId)
    requires Ascending(rs, next)
    ensures next !in WaitersOf(rs, o)
  {
    if next in WaitersOf(rs, o) {
      var k :| 0 <= k < |WaitersOf(rs, o)| && WaitersOf(rs, o)[k] == next;
      var i := WaiterIsLive(rs, o, k);
      assert false;
    }
  }

  /** Answering a request takes it off every vector: one entry per position that names the object. */
  lemma WaitersDrop(rs: seq<Request>, i: nat, o: ObjectId, next: RequestId)
    requires Ascending(rs, next) && i < |rs|
    ensures WaitersOf(Drop(rs, i), o) == Strip(WaitersOf(rs, o), rs[i].id, multiset(rs[i].ids)[o])
  {
    hide WaitersOf, Ascending, Above, Strip, Copies;
    var a, r, b := rs[..i], rs[i], rs[i + 1..];
    assert rs == a + ([r] + b);
    WaitersSplit(a, r, b, o);
    AscendingSplit(rs, i, next);
    WaitersBelow(a, r.id, o);
    WaitersAbove(b, r.id, o);
    assert Lack(r, o) <= multiset(r.ids)[o];
    StripMiddle(WaitersOf(a, o), r.id, Lack(r, o), WaitersOf(b, o), multiset(r.ids)[o]);
    assert Copies(r.id, 0) + WaitersOf(b, o) == WaitersOf(b, o);
  }

  lemma WaitersSplit(a: seq<Request>, r: Request, b: seq<Request>, o: ObjectId)
    ensures WaitersOf(a + b, o) == WaitersOf(a, o) + WaitersOf(b, o)
    ensures WaitersOf(a + ([r] + b), o) == WaitersOf(a, o) + (Copies(r.id, Lack(r, o)) + WaitersOf(b, o))
  {
    hide Lack, WaitersOf, Copies;
    WaitersAppend(a, b, o);
    WaitersAppend(a, [r] + b, o);
    WaitersAppend([r], b, o);
    WaitersOne(r, o);
  }

  predicate Above(rs: seq<Request>, low: RequestId) {
    forall k :: 0 <= k < |rs| ==> low < rs[k].id
  }

  lemma AscendingSplit(rs: seq<Request>, i: nat, next: RequestId)
    requires Ascending(rs, next) && i < |rs|
    ensures Ascending(rs[..i], rs[i].id)
    ensures Above(rs[i + 1..], rs[i].id)
  {
  }

  lemma WaitersAbove(rs: seq<Request>, low: RequestId, o: ObjectId)
    requires Above(rs, low)
    ensures low !in WaitersOf(rs, o)
  {
    if low in WaitersOf(rs, o) {
      var k :| 0 <= k < |WaitersOf(rs, o)| && WaitersOf(rs, o)[k] == low;
      var i := WaiterIsLive(rs, o, k);
      assert false;
    }
  }

  /** The vectors after `ids` have been taken off: the request is gone from all of them. */
  lemma ListsAfterDrop(waiters: Waiters, waiters': Waiters, rs: seq<Request>, i: nat, next: RequestId)
    requires Lists(waiters, rs) && Ascending(rs, next) && i < |rs|
    requires forall o :: ListOf(waiters', o) == Strip(ListOf(waiters, o), rs[i].id, multiset(rs[i].ids)[o])
    ensures Lists(waiters', Drop(rs, i))
  {
    forall o ensures ListOf(waiters', o) == WaitersOf(Drop(rs, i), o) {
      WaitersDrop(rs, i, o, next);
    }
  }

  // ---- Walking the vector of a sealed object ----

  datatype Work = Work(m: Memory, requests: seq<Request>, replies: seq<Reply>)

  /** `Astray` stands for a read past the end of the vector or of a request that is gone, and for
      the check after the walk that fails. */
  datatype Walked = Done(work: Work) | Astray

  /** One entry of the vector counts once. */
  function Bump(r: Request, o: ObjectId): Request {
    r.(found := r.found + {o}, satisfied := r.satisfied + 1)
  }

  /** `n` more turns of the walk over the vector of `o`. A turn pins the object for the client of the
      entry at `index`, and either answers that request and takes all its entries off the vector, or
      goes on to the next index. After the last turn the index must be the length of the vector. */
  function Turns(vec: seq<RequestId>, index: nat, n: nat, w: Work, o: ObjectId): Walked
    decreases n
  {
    if n == 0 then (if index == |vec| then Done(w) else Astray)
    else if index >= |vec| || !Live(w.requests, vec[index]) || o !in w.m.objects then Astray
    else
      var i := Position(w.requests, vec[index]);
      var r := Bump(w.requests[i], o);
      var m := AddClient(w.m, o, r.client);
      if r.satisfied == r.target then
        Turns(Strip(vec, r.id, multiset(r.ids)[o]), index, n - 1,
          Work(m, Drop(w.requests, i), w.replies + [Answer(r)]), o)
      else Turns(vec, index + 1, n - 1, Work(m, w.requests[i := r], w.replies), o)
  }

  /** The requests listed in the vector name the object. */
  predicate Named(vec: seq<RequestId>, rs: seq<Request>, o: ObjectId) {
    forall i :: 0 <= i < |rs| && rs[i].id in vec ==> o in rs[i].ids
  }

  lemma NamedAfter(vec: seq<RequestId>, rs: seq<Request>, o: ObjectId, i: nat, n: nat)
    requires Named(vec, rs, o) && i < |rs| && rs[i].id in vec
    ensures o in rs[i].ids && Named(vec, rs[i := Bump(rs[i], o)], o)
    ensures Named(Strip(vec, rs[i].id, n), Drop(rs, i), o)
  {
    StripShrinks(vec, rs[i].id, n);
    var d := Drop(rs, i);
    forall k | 0 <= k < |d| ensures d[k] == rs[if k < i then k else k + 1] {}
  }

  /** There are never more turns left than entries: an answer takes at least one entry off. */
  lemma {:induction false} TurnsFit(vec: seq<RequestId>, index: nat, n: nat, w: Work, o: ObjectId)
    requires Named(vec, w.requests, o) && Turns(vec, index, n, w, o).Done?
    ensures index + n <= |vec|
    decreases n
  {
    hide Turns, AddClient, Position, Strip, Live, Named, Drop;
    if n == 0 {
      WalkOver(vec, index, w, o);
    } else {
      WalkMeets(vec, index, n, w, o);
      WalkStep(vec, index, n, w, o);
      var i := Position(w.requests, vec[index]);
      var r := Bump(w.requests[i], o);
      var m := AddClient(w.m, o, r.client);
      NamedAfter(vec, w.requests, o, i, multiset(r.ids)[o]);
      if r.satisfied == r.target {
        StripShrinks(vec, r.id, multiset(r.ids)[o]);
        TurnsFit(Strip(vec, r.id, multiset(r.ids)[o]), index, n - 1,
          Work(m, Drop(w.requests, i), w.replies + [Answer(r)]), o);
      } else {
        TurnsFit(vec, index + 1, n - 1, Work(m, w.requests[i := r], w.replies), o);
      }
    }
  }

  /** The request as it is after `k` of its entries. */
  function Bumped(r: Request, o: ObjectId, k: nat): Request {
    r.(found := r.found + {o}, satisfied := r.satisfied + k)
  }

  lemma BumpedOnce(r: Request, o: ObjectId, k: nat)
    requires k > 0
    ensures Bump(r, o) == Bumped(r, o, 1) && Bumped(Bump(r, o), o, k - 1) == Bumped(r, o, k)
  {
    assert (r.found + {o}) + {o} == r.found + {o};
  }

  lemma AscendingMoves(pre: seq<Request>, rs: seq<Request>, u: Request, next: RequestId)
    requires rs != [] && Ascending(pre + rs, next) && u.id == rs[0].id
    ensures Ascending((pre + [u]) + rs[1..], next) && Ascending(pre + rs[1..], next)
    ensures (pre + [u]) + rs[1..] == pre + ([u] + rs[1..])
  {
    var q := pre + rs;
    var moved := (pre + [u]) + rs[1..];
    forall i | 0 <= i < |moved| ensures moved[i].id == q[i].id {}
    var dropped := pre + rs[1..];
    forall i | 0 <= i < |dropped| ensures dropped[i] == q[if i < |pre| then i else i + 1] {}
  }

  lemma FirstAt(pre: seq<Request>, rs: seq<Request>, u: Request, next: RequestId)
    requires rs != [] && Ascending(pre + rs, next)
    ensures Live(pre + rs, rs[0].id) && Position(pre + rs, rs[0].id) == |pre| && (pre + rs)[|pre|] == rs[0]
    ensures Drop(pre + rs, |pre|) == pre + rs[1..] && (pre + rs)[|pre| := u] == pre + ([u] + rs[1..])
  {
    var q := pre + rs;
    assert q[|pre|] == rs[0];
    PositionIs(q, |pre|, next);
    hide Ascending, Position, Live;
    assert q[..|pre|] == pre && q[|pre| + 1..] == rs[1..];
  }

  /** A turn that does not answer its request. */
  lemma TurnServes(pre: seq<Request>, rs: seq<Request>, o: ObjectId, vec: seq<RequestId>, index: nat, n: nat,
                   m: Memory, replies: seq<Reply>, next: RequestId)
    requires rs != [] && Ascending(pre + rs, next) && o in m.objects
    requires index < |vec| && vec[index] == rs[0].id && n > 0 && rs[0].satisfied + 1 != rs[0].target
    ensures Turns(vec, index, n, Work(m, pre + rs, replies), o)
         == Turns(vec, index + 1, n - 1,
           Work(AddClient(m, o, rs[0].client), pre + ([Bump(rs[0], o)] + rs[1..]), replies), o)
  {
    hide AddClient, Ascending, Position, Strip, Drop, Live;
    FirstAt(pre, rs, Bump(rs[0], o), next);
  }

  /** A turn that answers its request. */
  lemma TurnAnswers(pre: seq<Request>, rs: seq<Request>, o: ObjectId, vec: seq<RequestId>, index: nat, n: nat,
                    m: Memory, replies: seq<Reply>, next: RequestId)
    requires rs != [] && Ascending(pre + rs, next) && o in m.objects
    requires index < |vec| && vec[index] == rs[0].id && n > 0 && rs[0].satisfied + 1 == rs[0].target
    ensures
      var r := rs[0];
      Turns(vec, index, n, Work(m, pre + rs, replies), o)
        == Turns(Strip(vec, r.id, multiset(r.ids)[o]), index, n - 1,
                 Work(AddClient(m, o, r.client), pre + rs[1..], replies + [Answer(Bump(r, o))]), o)
  {
    hide AddClient, Ascending, Position, Strip, Drop, Live;
    FirstAt(pre, rs, Bump(rs[0], o), next);
  }

  /** Adding a client twice is adding it once. */
  lemma AddClientTwice(m: Memory, o: ObjectId, c: ClientId)
    requires o in m.objects
    ensures o in AddClient(m, o, c).objects && AddClient(AddClient(m, o, c), o, c) == AddClient(m, o, c)
  {
  }

  /** `k` turns in a row for one request that none of them answers. */
  lemma {:induction false} BlockServes(pre: seq<Request>, rs: seq<Request>, o: ObjectId, k: nat, vec: seq<RequestId>,
                                       index: nat, n: nat, m: Memory, replies: seq<Reply>, next: RequestId)
    requires rs != [] && Ascending(pre + rs, next) && o in m.objects
    requires 0 < k <= n && index + k <= |vec| && forall i :: index <= i < index + k ==> vec[i] == rs[0].id
    requires rs[0].satisfied >= rs[0].target || rs[0].satisfied + k < rs[0].target
    ensures Turns(vec, index, n, Work(m, pre + rs, replies), o)
         == Turns(vec, index + k, n - k,
                  Work(AddClient(m, o, rs[0].client), pre + ([Bumped(rs[0], o, k)] + rs[1..]), replies), o)
    decreases k
  {
    hide Turns, AddClient, Ascending;
    var r, m' := rs[0], AddClient(m, o, rs[0].client);
    TurnServes(pre, rs, o, vec, index, n, m, replies, next);
    BumpedOnce(r, o, k);
    if k > 1 {
      var rs' := [Bump(r, o)] + rs[1..];
      AscendingMoves(pre, rs, Bump(r, o), next);
      AddClientTwice(m, o, r.client);
      assert rs'[1..] == rs[1..];
      BlockServes(pre, rs', o, k - 1, vec, index + 1, n - 1, m', replies, next);
    }
  }

  /** What the walk of the vector must come to. */
  function Pass(pre: seq<Request>, rs: seq<Request>, o: ObjectId, m: Memory, replies: seq<Reply>): Walked
    requires o in m.objects
  {
    if CleanSeal(rs, o) then
      Done(Work(PinWaiting(m, rs, o), pre + StillWaiting(rs, o), replies + AnsweredBy(rs, o)))
    else Astray
  }

  /** The state of the walk when `rs` is still to come: `done` is the part of the vector behind the
      index, and belongs to the requests before. */
  predicate Underway(pre: seq<Request>, rs: seq<Request>, done: seq<RequestId>, o: ObjectId, next: RequestId) {
    && Ascending(pre + rs, next) && Named(done, pre, o)
    && (forall i :: 0 <= i < |rs| ==> rs[i].id !in done)
  }

  lemma UnderwaySkips(pre: seq<Request>, rs: seq<Request>, done: seq<RequestId>, o: ObjectId, u: Request, k: nat,
                      next: RequestId)
    requires Underway(pre, rs, done, o, next) && rs != [] && u.id == rs[0].id && u.ids == rs[0].ids &&
      (k > 0 ==> o in u.ids)
    ensures Underway(pre + [u], rs[1..], done + Copies(u.id, k), o, next)
    ensures Underway(pre, rs[1..], done, o, next)
  {
    AscendingMoves(pre, rs, u, next);
    assert forall i :: 0 <= i < |rs| ==> (pre + rs)[|pre| + i] == rs[i];
    assert forall i :: 0 <= i < |pre| ==> (pre + rs)[i] == pre[i];
    forall i | 0 <= i < |rs[1..]| ensures rs[1..][i].id !in done + Copies(u.id, k) {
      assert rs[1..][i] == rs[i + 1];
    }
    forall i | 0 <= i < |pre + [u]| && (pre + [u])[i].id in done + Copies(u.id, k) ensures o in (pre + [u])[i].ids {
      if i < |pre| {
        assert pre[i].id != u.id;
      } else {
        assert u.id !in done;
      }
    }
  }

  /** Walking the vector serves each waiting request once and amounts to one pass over all requests,
      if and only if each request it answers has a single entry; otherwise it goes astray. */
  lemma {:induction false} TurnsArePass(pre: seq<Request>, rs: seq<Request>, done: seq<RequestId>, o: ObjectId,
                                        m: Memory, replies: seq<Reply>, next: RequestId)
    requires Underway(pre, rs, done, o, next) && o in m.objects
    ensures Turns(done + WaitersOf(rs, o), |done|, |WaitersOf(rs, o)|, Work(m, pre + rs, replies), o)
         == Pass(pre, rs, o, m, replies)
    decreases |rs|
  {
    if rs == [] {
      assert done + [] == done && pre + rs == pre + [] && replies + [] == replies;
    } else if !CompletedBy(rs[0], o) {
      PassGoesOn(pre, rs, done, o, m, replies, next);
    } else if Lack(rs[0], o) == 1 {
      PassAnswers(pre, rs, done, o, m, replies, next);
    } else {
      PassGoesAstray(pre, rs, done, o, m, replies, next);
    }
  }

  lemma CleanCons(rs: seq<Request>, o: ObjectId)
    requires rs != []
    ensures CleanSeal(rs, o) <==> Clean(rs[0], o) && CleanSeal(rs[1..], o)
  {
    assert rs == [rs[0]] + rs[1..];
    if Clean(rs[0], o) && CleanSeal(rs[1..], o) {
      forall i | 0 <= i < |rs| ensures Clean(rs[i], o) {
        assert i > 0 ==> rs[i] == rs[1..][i - 1];
      }
    }
    if CleanSeal(rs, o) {
      forall i | 0 <= i < |rs[1..]| ensures Clean(rs[1..][i], o) {
        assert rs[1..][i] == rs[i + 1];
      }
    }
  }

  /** The entries of the first request stand together at the index. */
  lemma BlockAt(rs: seq<Request>, done: seq<RequestId>, o: ObjectId)
    requires rs != []
    ensures
      var k, w := Lack(rs[0], o), WaitersOf(rs[1..], o);
      && |WaitersOf(rs, o)| == k + |w|
      && done + WaitersOf(rs, o) == done + (Copies(rs[0].id, k) + w) == (done + Copies(rs[0].id, k)) + w
      && forall i :: |done| <= i < |done| + k ==> (done + WaitersOf(rs, o))[i] == rs[0].id
  {
  }

  lemma PinsFirst(rs: seq<Request>, o: ObjectId, m: Memory)
    requires rs != [] && o in m.objects
    ensures o in AddClient(m, o, rs[0].client).objects
    ensures PinWaiting(m, rs, o)
         == PinWaiting(if Waits(rs[0], o) then AddClient(m, o, rs[0].client) else m, rs[1..], o)
  {
  }

  /** A request that the seal does not complete: all its turns, and what the pass makes of it. */
  lemma BlockGoesOn(pre: seq<Request>, rs: seq<Request>, done: seq<RequestId>, o: ObjectId,
                    m: Memory, replies: seq<Reply>, next: RequestId)
    requires Ascending(pre + rs, next) && o in m.objects && rs != [] && !CompletedBy(rs[0], o)
    ensures
      var m' := if Waits(rs[0], o) then AddClient(m, o, rs[0].client) else m;
      var done' := done + Copies(rs[0].id, Lack(rs[0], o));
      Turns(done + WaitersOf(rs, o), |done|, |WaitersOf(rs, o)|, Work(m, pre + rs, replies), o)
        == Turns(done' + WaitersOf(rs[1..], o), |done'|, |WaitersOf(rs[1..], o)|,
                 Work(m', (pre + [Updated(rs[0], o)]) + rs[1..], replies), o)
  {
    hide *;
    var r, k, u := rs[0], Lack(rs[0], o), Updated(rs[0], o);
    NotCompleted(r, o);
    BlockAt(rs, done, o);
    assert |done + Copies(r.id, k)| == |done| + k;
    assert pre + ([u] + rs[1..]) == (pre + [u]) + rs[1..];
    if k > 0 {
      BlockServes(pre, rs, o, k, done + WaitersOf(rs, o), |done|, |WaitersOf(rs, o)|, m, replies, next);
    } else {
      assert rs == [r] + rs[1..];
    }
  }

  lemma NotCompleted(r: Request, o: ObjectId)
    requires !CompletedBy(r, o)
    ensures
      var k := Lack(r, o);
      && Updated(r, o) == (if k > 0 then Bumped(r, o, k) else r) && (Waits(r, o) <==> k > 0)
      && (k > 0 ==> r.satisfied >= r.target || r.satisfied + k < r.target)
  {
  }

  lemma PassOn(pre: seq<Request>, rs: seq<Request>, o: ObjectId, m: Memory, replies: seq<Reply>)
    requires rs != [] && o in m.objects && !CompletedBy(rs[0], o)
    ensures
      var m' := if Waits(rs[0], o) then AddClient(m, o, rs[0].client) else m;
      o in m'.objects && Pass(pre, rs, o, m, replies) == Pass(pre + [Updated(rs[0], o)], rs[1..], o, m', replies)
  {
    var u, rest := Updated(rs[0], o), rs[1..];
    assert Clean(rs[0], o);
    hide StillWaiting, AnsweredBy, PinWaiting, AddClient, CompletedBy, Clean, CleanSeal, Updated, Waits;
    PinsFirst(rs, o, m);
    StillWaitingKeepsFirst(rs, o);
    CleanCons(rs, o);
    assert pre + ([u] + StillWaiting(rest, o)) == (pre + [u]) + StillWaiting(rest, o);
  }

  lemma {:induction false} PassGoesOn(pre: seq<Request>, rs: seq<Request>, done: seq<RequestId>, o: ObjectId,
                                      m: Memory, replies: seq<Reply>, next: RequestId)
    requires Underway(pre, rs, done, o, next) && o in m.objects && rs != [] && !CompletedBy(rs[0], o)
    ensures Turns(done + WaitersOf(rs, o), |done|, |WaitersOf(rs, o)|, Work(m, pre + rs, replies), o)
         == Pass(pre, rs, o, m, replies)
    decreases |rs|, 0
  {
    var r, k, u := rs[0], Lack(rs[0], o), Updated(rs[0], o);
    assert u.id == r.id && u.ids == r.ids && (k > 0 ==> o in u.ids) && Ascending(pre + rs, next);
    hide *;
    var m' := if Waits(r, o) then AddClient(m, o, r.client) else m;
    BlockGoesOn(pre, rs, done, o, m, replies, next);
    PassOn(pre, rs, o, m, replies);
    UnderwaySkips(pre, rs, done, o, u, k, next);
    TurnsArePass(pre + [u], rs[1..], done + Copies(r.id, k), o, m', replies, next);
  }

  lemma {:induction false} PassAnswers(pre: seq<Request>, rs: seq<Request>, done: seq<RequestId>, o: ObjectId,
                                       m: Memory, replies: seq<Reply>, next: RequestId)
    requires Underway(pre, rs, done, o, next) && o in m.objects
    requires rs != [] && CompletedBy(rs[0], o) && Lack(rs[0], o) == 1
    ensures Turns(done + WaitersOf(rs, o), |done|, |WaitersOf(rs, o)|, Work(m, pre + rs, replies), o)
         == Pass(pre, rs, o, m, replies)
    decreases |rs|, 0
  {
    var r, rest, w := rs[0], rs[1..], WaitersOf(rs[1..], o);
    var a, vec, n := Answer(Serve(r, o)), done + WaitersOf(rs, o), |WaitersOf(rs, o)|;
    var m' := AddClient(m, o, r.client);
    assert Serve(r, o) == Bump(r, o) && multiset(r.ids)[o] == 1 && Waits(r, o) && r.satisfied + 1 == r.target;
    assert Clean(r, o) && Ascending(pre + rs, next) && r.id !in done;
    AboveRest(pre, rs, next);
    WaitersAbove(rest, r.id, o);
    hide *;
    BlockAt(rs, done, o);
    PinsFirst(rs, o, m);
    StillWaitingLoses(rs, o);
    CleanCons(rs, o);
    UnderwaySkips(pre, rs, done, o, r, 0, next);
    TurnAnswers(pre, rs, o, vec, |done|, n, m, replies, next);
    StripMiddle(done, r.id, 1, w, 1);
    assert Copies(r.id, 0) + w == w;
    TurnsArePass(pre, rest, done, o, m', replies + [a], next);
    PassAfter(pre, rs, o, m, replies);
  }

  lemma PassAfter(pre: seq<Request>, rs: seq<Request>, o: ObjectId, m: Memory, replies: seq<Reply>)
    requires rs != [] && o in m.objects && CompletedBy(rs[0], o) && Clean(rs[0], o)
    ensures
      var m' := AddClient(m, o, rs[0].client);
      o in m'.objects && Pass(pre, rs, o, m, replies) == Pass(pre, rs[1..], o, m', replies + [Answer(Serve(rs[0], o))])
  {
    var a, rest := Answer(Serve(rs[0], o)), rs[1..];
    assert Waits(rs[0], o);
    hide StillWaiting, AnsweredBy, PinWaiting, AddClient, CompletedBy, Clean, CleanSeal, Answer, Serve, Waits;
    PinsFirst(rs, o, m);
    StillWaitingLoses(rs, o);
    CleanCons(rs, o);
    assert (replies + [a]) + AnsweredBy(rest, o) == replies + ([a] + AnsweredBy(rest, o));
  }

  lemma AboveRest(pre: seq<Request>, rs: seq<Request>, next: RequestId)
    requires rs != [] && Ascending(pre + rs, next)
    ensures Above(rs[1..], rs[0].id)
  {
    assert forall i :: 0 <= i < |rs| ==> (pre + rs)[|pre| + i] == rs[i];
    forall i | 0 <= i < |rs[1..]| ensures rs[0].id < rs[1..][i].id {
      assert rs[1..][i] == (pre + rs)[|pre| + i + 1];
    }
  }

  /** The turns of a request up to the one that answers it, which takes all its entries off. */
  lemma BlockAnswers(pre: seq<Request>, rs: seq<Request>, o: ObjectId, j: nat, vec: seq<RequestId>, index: nat, n: nat,
                     m: Memory, replies: seq<Reply>, next: RequestId) returns (a: Reply)
    requires rs != [] && Ascending(pre + rs, next) && o in m.objects
    requires j < n && index + j < |vec| && forall i :: index <= i <= index + j ==> vec[i] == rs[0].id
    requires rs[0].satisfied + j + 1 == rs[0].target
    ensures
      var r := rs[0];
      Turns(vec, index, n, Work(m, pre + rs, replies), o)
        == Turns(Strip(vec, r.id, multiset(r.ids)[o]), index + j, n - j - 1,
                 Work(AddClient(m, o, r.client), pre + rs[1..], replies + [a]), o)
  {
    hide Turns, Ascending, AddClient, Strip;
    var r, rest := rs[0], rs[1..];
    if j == 0 {
      TurnAnswers(pre, rs, o, vec, index, n, m, replies, next);
      a := Answer(Bump(r, o));
    } else {
      var u := Bumped(r, o, j);
      var q := [u] + rest;
      BlockServes(pre, rs, o, j, vec, index, n, m, replies, next);
      AscendingMoves(pre, rs, u, next);
      AddClientTwice(m, o, r.client);
      assert q[1..] == rest;
      TurnAnswers(pre, q, o, vec, index + j, n - j, AddClient(m, o, r.client), replies, next);
      a := Answer(Bump(u, o));
    }
  }

  lemma SeveralEntries(pre: seq<Request>, rs: seq<Request>, done: seq<RequestId>, o: ObjectId,
                       m: Memory, replies: seq<Reply>, next: RequestId)
    requires Underway(pre, rs, done, o, next) && o in m.objects
    requires rs != [] && CompletedBy(rs[0], o) && Lack(rs[0], o) > 1
    ensures Pass(pre, rs, o, m, replies).Astray? && Ascending(pre + rs, next)
    ensures
      var r, k, w := rs[0], Lack(rs[0], o), WaitersOf(rs[1..], o);
      && multiset(r.ids)[o] == k && 0 <= r.target - r.satisfied - 1 < k
      && Strip(done + (Copies(r.id, k) + w), r.id, k) == done + w
  {
    var r, k, w := rs[0], Lack(rs[0], o), WaitersOf(rs[1..], o);
    assert !Clean(rs[0], o) && r.id !in done;
    AboveRest(pre, rs, next);
    WaitersAbove(rs[1..], r.id, o);
    hide WaitersOf, Strip, Ascending, Above;
    StripMiddle(done, r.id, k, w, k);
    assert Copies(r.id, 0) + w == w;
  }

  /** A request with several entries that is answered at one of them takes all of them off, and then
      there are more turns left than entries. */
  lemma PassGoesAstray(pre: seq<Request>, rs: seq<Request>, done: seq<RequestId>, o: ObjectId,
                       m: Memory, replies: seq<Reply>, next: RequestId)
    requires Underway(pre, rs, done, o, next) && o in m.objects
    requires rs != [] && CompletedBy(rs[0], o) && Lack(rs[0], o) > 1
    ensures Turns(done + WaitersOf(rs, o), |done|, |WaitersOf(rs, o)|, Work(m, pre + rs, replies), o).Astray?
    ensures Pass(pre, rs, o, m, replies).Astray?
  {
    hide *;
    var r, rest, w, k := rs[0], rs[1..], WaitersOf(rs[1..], o), Lack(rs[0], o);
    var vec, n, j := done + WaitersOf(rs, o), |WaitersOf(rs, o)|, r.target - r.satisfied - 1;
    SeveralEntries(pre, rs, done, o, m, replies, next);
    NamedRest(pre, rs, done, o, next);
    BlockAt(rs, done, o);
    var a := BlockAnswers(pre, rs, o, j, vec, |done|, n, m, replies, next);
    var after := Work(AddClient(m, o, r.client), pre + rest, replies + [a]);
    if Turns(done + w, |done| + j, n - j - 1, after, o).Done? {
      TurnsFit(done + w, |done| + j, n - j - 1, after, o);
    }
  }

  lemma NamedRest(pre: seq<Request>, rs: seq<Request>, done: seq<RequestId>, o: ObjectId, next: RequestId)
    requires Underway(pre, rs, done, o, next) && rs != []
    ensures Named(done + WaitersOf(rs[1..], o), pre + rs[1..], o)
  {
    var q, rest, w := pre + rs, rs[1..], WaitersOf(rs[1..], o);
    var all := pre + rest;
    forall i | 0 <= i < |all| && all[i].id in done + w ensures o in all[i].ids {
      assert all[i] == q[if i < |pre| then i else i + 1];
      if all[i].id in w {
        var k :| 0 <= k < |w| && w[k] == all[i].id;
        var j := WaiterIsLive(rest, o, k);
        assert rest[j] == q[|pre| + j + 1];
        assert rest[j] == all[i];
      }
    }
  }

  /** Entries for other objects do not change when `o` is found. */
  lemma {:induction false} WaitersBumped(rs: seq<Request>, i: nat, o: ObjectId, x: ObjectId)
    requires i < |rs| && x != o
    ensures WaitersOf(rs[i := Bump(rs[i], o)], x) == WaitersOf(rs, x)
  {
    var rs' := rs[i := Bump(rs[i], o)];
    assert Lack(rs'[0], x) == Lack(rs[0], x);
    if i > 0 {
      WaitersBumped(rs[1..], i - 1, o, x);
      assert rs'[1..] == rs[1..][i - 1 := Bump(rs[1..][i - 1], o)];
    } else {
      assert rs'[1..] == rs[1..];
    }
  }

  lemma {:induction false} NobodyWaitsAnymore(rs: seq<Request>, o: ObjectId)
    ensures WaitersOf(StillWaiting(rs, o), o) == []
  {
    if rs != [] {
      NobodyWaitsAnymore(rs[1..], o);
      var u, rest := Updated(rs[0], o), StillWaiting(rs[1..], o);
      assert Lack(u, o) == 0;
      hide StillWaiting, Lack, Updated, CompletedBy;
      if CompletedBy(rs[0], o) {
        StillWaitingLoses(rs, o);
      } else {
        StillWaitingKeepsFirst(rs, o);
        assert ([u] + rest)[0] == u && ([u] + rest)[1..] == rest;
        assert WaitersOf([u] + rest, o) == [] + WaitersOf(rest, o);
      }
    }
  }

  // ---- What the methods of the store rely on ----

  lemma RequestsAscend(s: State)
    requires RequestsInv(s)
    ensures Ascending(s.requests, s.next)
  {
  }

  /** A request that is answered at once leaves no trace in the vectors. */
  lemma NewRequestLeaves(w0: Waiters, w1: Waiters, w2: Waiters, rs: seq<Request>, r: Request)
    requires Lists(w0, rs) && Ascending(rs, r.id)
    requires forall o :: ListOf(w1, o) == ListOf(w0, o) + Copies(r.id, Lack(r, o))
    requires forall o :: ListOf(w2, o) == Strip(ListOf(w1, o), r.id, multiset(r.ids)[o])
    ensures Lists(w2, rs)
  {
    hide Ascending, WaitersOf, ListOf, Copies, Lack, Strip;
    forall o ensures ListOf(w2, o) == WaitersOf(rs, o) {
      WaitersBelow(rs, r.id, o);
      StripEnd(WaitersOf(rs, o), r, o);
    }
  }

  lemma StripEnd(a: seq<RequestId>, r: Request, o: ObjectId)
    requires r.id !in a
    ensures Strip(a + Copies(r.id, Lack(r, o)), r.id, multiset(r.ids)[o]) == a
  {
    assert Lack(r, o) <= multiset(r.ids)[o];
    hide Strip, Lack;
    assert Copies(r.id, Lack(r, o)) + [] == Copies(r.id, Lack(r, o));
    StripMiddle(a, r.id, Lack(r, o), [], multiset(r.ids)[o]);
    assert a + (Copies(r.id, 0) + []) == a;
  }

  lemma NewRequestListed(w0: Waiters, w1: Waiters, rs: seq<Request>, r: Request)
    requires Lists(w0, rs)
    requires forall o :: ListOf(w1, o) == ListOf(w0, o) + Copies(r.id, Lack(r, o))
    ensures Lists(w1, rs + [r])
  {
    forall o ensures ListOf(w1, o) == WaitersOf(rs + [r], o) {
      WaitersAppend(rs, [r], o);
      WaitersOne(r, o);
    }
  }

  lemma StripNone(w: Waiters, id: RequestId)
    ensures forall o :: ListOf(w, o) == Strip(ListOf(w, o), id, multiset([])[o])
  {
  }

  lemma StripOneMore(w0: Waiters, w: Waiters, w': Waiters, ids: seq<ObjectId>, o: ObjectId, id: RequestId)
    requires forall p :: ListOf(w, p) == Strip(ListOf(w0, p), id, multiset(ids)[p])
    requires forall p :: ListOf(w', p) == if p == o then Without(ListOf(w, o), id) else ListOf(w, p)
    ensures forall p :: ListOf(w', p) == Strip(ListOf(w0, p), id, multiset(ids + [o])[p])
  {
    hide ListOf, Without;
    forall p ensures ListOf(w', p) == Strip(ListOf(w0, p), id, multiset(ids + [o])[p]) {
      assert multiset(ids + [o])[p] == multiset(ids)[p] + if p == o then 1 else 0;
    }
  }

  lemma AttemptsNext(m0: Memory, size: nat, k: nat, m: Memory)
    requires Eviction.Inv(m0) && Eviction.Inv(m) && Attempts(m0, size, k) == Enough(m)
    ensures Attempts(m0, size, k + 1) == Eviction.RequireSpace(m, size)
    ensures Eviction.Inv(Eviction.RequireSpace(m, size).memory) && m.used <= m.capacity
    ensures
      var r := Eviction.RequireSpace(m, size);
      r.Enough? ==> |r.memory.lru| < |m.lru| || (r.memory.lru == m.lru && r.memory.used == m.used + size)
  {
    RequireSpaceKeeps(m, size);
    if Eviction.RequireSpace(m, size).Enough? {
      RetryMakesProgress(m, size);
    }
  }

  lemma PinOne(m0: Memory, m: Memory, o: ObjectId, c: ClientId)
    requires Eviction.Inv(m) && Sealed(m, o) && Grown(m0, m)
    ensures Eviction.Inv(AddClient(m, o, c)) && Grown(m0, AddClient(m, o, c)) && Sealed(AddClient(m, o, c), o)
  {
    AddClientKeeps(m, o, c);
    assert Grown(m, AddClient(m, o, c));
  }

  /** One more id of a get request: it is present now exactly if it was when the request arrived. */
  lemma CollectStep(m0: Memory, m: Memory, ids: seq<ObjectId>, i: nat, c: ClientId)
    requires i < |ids| && Grown(m0, m)
    ensures Sealed(m, ids[i]) == Sealed(m0, ids[i])
    ensures Present(m0, ids[..i + 1]) == Present(m0, ids[..i]) + if Sealed(m, ids[i]) then {ids[i]} else {}
    ensures Hits(m0, ids[..i + 1]) == Hits(m0, ids[..i]) + if Sealed(m, ids[i]) then 1 else 0
    ensures PinPresent(m, ids[i..], c)
         == PinPresent(if Sealed(m, ids[i]) then AddClient(m, ids[i], c) else m, ids[i + 1..], c)
  {
    assert ids[i..][0] == ids[i] && ids[i..][1..] == ids[i + 1..];
    assert ids[..i + 1] == ids[..i] + [ids[i]];
    assert ids[..i + 1][..i] == ids[..i];
  }

  /** How many entries the new request has in the vector of `o` after `ids`. */
  function Entered(m: Memory, ids: seq<ObjectId>, o: ObjectId): nat {
    if Sealed(m, o) then 0 else multiset(ids)[o]
  }

  /** The vectors with request `id` entered under those of `ids` that are not present. */
  ghost predicate Listed(w0: Waiters, w: Waiters, m: Memory, ids: seq<ObjectId>, id: RequestId) {
    forall o :: ListOf(w, o) == ListOf(w0, o) + Copies(id, Entered(m, ids, o))
  }

  lemma CollectStarts(m: Memory, w: Waiters, id: RequestId)
    ensures Grown(m, m) && Present(m, []) == {} && Hits(m, []) == 0 && Listed(w, w, m, [], id)
  {
    forall o ensures ListOf(w, o) == ListOf(w, o) + Copies(id, Entered(m, [], o)) {}
  }

  lemma CollectEnds(m0: Memory, m: Memory, w0: Waiters, w: Waiters, c: ClientId, r: Request)
    requires Listed(w0, w, m0, r.ids, r.id) && r.found == Present(m0, r.ids)
    ensures PinPresent(m, [], c) == m
    ensures forall o :: ListOf(w, o) == ListOf(w0, o) + Copies(r.id, Lack(r, o))
  {
    hide Sealed, Copies;
    forall o ensures ListOf(w, o) == ListOf(w0, o) + Copies(r.id, Lack(r, o)) {
      assert Lack(r, o) == Entered(m0, r.ids, o);
    }
  }

  lemma ListedPresent(w0: Waiters, w: Waiters, m: Memory, ids: seq<ObjectId>, o: ObjectId, id: RequestId)
    requires Listed(w0, w, m, ids, id) && Sealed(m, o)
    ensures Listed(w0, w, m, ids + [o], id)
  {
    hide Sealed, Copies;
    forall x ensures Entered(m, ids + [o], x) == Entered(m, ids, x) {}
  }

  lemma ListedMissing(w0: Waiters, w: Waiters, m: Memory, ids: seq<ObjectId>, o: ObjectId, id: RequestId)
    requires Listed(w0, w, m, ids, id) && !Sealed(m, o)
    ensures Listed(w0, w[o := ListOf(w, o) + [id]], m, ids + [o], id)
  {
    var w' := w[o := ListOf(w, o) + [id]];
    EnteredMore(m, ids, o, id);
    Regroup(ListOf(w0, o), Copies(id, Entered(m, ids, o)), [id]);
    hide Entered, Copies;
    forall x ensures ListOf(w', x) == ListOf(w0, x) + Copies(id, Entered(m, ids + [o], x)) {
      if x != o {
        assert ListOf(w', x) == ListOf(w, x);
      }
    }
  }

  lemma EnteredMore(m: Memory, ids: seq<ObjectId>, o: ObjectId, id: RequestId)
    requires !Sealed(m, o)
    ensures Copies(id, Entered(m, ids + [o], o)) == Copies(id, Entered(m, ids, o)) + [id]
    ensures forall x :: x != o ==> Entered(m, ids + [o], x) == Entered(m, ids, x)
  {
    assert Entered(m, ids + [o], o) == Entered(m, ids, o) + 1;
  }

  lemma {:induction false} RemoveOneMore(m: Memory, order: seq<ObjectId>, c: ClientId, o: ObjectId)
    requires o in RemoveEverywhere(m, order, c).objects
    ensures RemoveEverywhere(m, order + [o], c) == RemoveClient(RemoveEverywhere(m, order, c), o, c)
    decreases |order|
  {
    if order == [] {
      assert [o][1..] == [];
      assert order + [o] == [o];
    } else {
      assert (order + [o])[1..] == order[1..] + [o];
      RemoveOneMore(if order[0] in m.objects then RemoveClient(m, order[0], c) else m, order[1..], c, o);
    }
  }

  lemma SealedIsServed(w: Work, o: ObjectId, c: ClientId)
    requires Eviction.Inv(w.m) && Sealed(w.m, o)
    ensures LruInv(w.m) && o in w.m.objects
    ensures Eviction.Inv(AddClient(w.m, o, c)) && Sealed(AddClient(w.m, o, c), o)
  {
    PinOne(w.m, w.m, o, c);
  }

  lemma SealedMemory(m: Memory, o: ObjectId)
    requires Eviction.Inv(m) && o in m.objects
    ensures Eviction.Inv(Seal(m, o)) && Sealed(Seal(m, o), o)
  {
  }

  /** The vectors of all objects but `o` during the walk. */
  ghost predicate OthersListed(waiters: Waiters, rs: seq<Request>, o: ObjectId) {
    forall x :: x != o ==> ListOf(waiters, x) == WaitersOf(rs, x)
  }

  /** The walk over the vector of a sealed object is sound, and is then one pass over all requests, if
      and only if every request it answers has a single entry. */
  lemma WalkSoundIff(waiters: Waiters, rs: seq<Request>, o: ObjectId, m: Memory, replies: seq<Reply>, next: RequestId)
    requires Lists(waiters, rs) && Ascending(rs, next) && o in m.objects
    ensures
      var list := ListOf(waiters, o);
      Turns(list, 0, |list|, Work(m, rs, replies), o) ==
        if CleanSeal(rs, o) then Done(Work(PinWaiting(m, rs, o), StillWaiting(rs, o), replies + AnsweredBy(rs, o)))
        else Astray
  {
    var w := WaitersOf(rs, o);
    assert ListOf(waiters, o) == w;
    assert [] + rs == rs && [] + w == w && [] + StillWaiting(rs, o) == StillWaiting(rs, o);
    assert Underway([], rs, [], o, next);
    TurnsArePass([], rs, [], o, m, replies, next);
  }

  lemma WalkOver(vec: seq<RequestId>, index: nat, w: Work, o: ObjectId)
    requires Turns(vec, index, 0, w, o).Done?
    ensures index == |vec| && Turns(vec, index, 0, w, o) == Done(w)
  {
  }

  /** Each turn reads an entry of the vector that belongs to a waiting request. */
  lemma WalkMeets(vec: seq<RequestId>, index: nat, n: nat, w: Work, o: ObjectId)
    requires Turns(vec, index, n, w, o).Done? && n > 0
    ensures index < |vec| && Live(w.requests, vec[index]) && o in w.m.objects
  {
  }

  lemma WalkStep(vec: seq<RequestId>, index: nat, n: nat, w: Work, o: ObjectId)
    requires Turns(vec, index, n, w, o).Done? && n > 0
    requires index < |vec| && Live(w.requests, vec[index]) && o in w.m.objects
    ensures
      var i := Position(w.requests, vec[index]);
      var r := Bump(w.requests[i], o);
      var m := AddClient(w.m, o, r.client);
      Turns(vec, index, n, w, o) ==
        if r.satisfied == r.target then
          Turns(Strip(vec, r.id, multiset(r.ids)[o]), index, n - 1,
            Work(m, Drop(w.requests, i), w.replies + [Answer(r)]), o)
        else Turns(vec, index + 1, n - 1, Work(m, w.requests[i := r], w.replies), o)
  {
  }

  lemma WalkAnswers(waiters: Waiters, waiters': Waiters, rs: seq<Request>, o: ObjectId, i: nat, next: RequestId)
    requires OthersListed(waiters, rs, o) && Ascending(rs, next) && i < |rs|
    requires forall x :: ListOf(waiters', x) == Strip(ListOf(waiters, x), rs[i].id, multiset(rs[i].ids)[x])
    ensures OthersListed(waiters', Drop(rs, i), o) && Ascending(Drop(rs, i), next)
  {
    forall x | x != o ensures ListOf(waiters', x) == WaitersOf(Drop(rs, i), x) {
      WaitersDrop(rs, i, x, next);
    }
    var d := Drop(rs, i);
    forall k | 0 <= k < |d| ensures d[k] == rs[if k < i then k else k + 1] {}
  }

  lemma WalkServes(waiters: Waiters, rs: seq<Request>, o: ObjectId, i: nat, next: RequestId)
    requires OthersListed(waiters, rs, o) && Ascending(rs, next) && i < |rs|
    ensures OthersListed(waiters, rs[i := Bump(rs[i], o)], o) && Ascending(rs[i := Bump(rs[i], o)], next)
  {
    forall x | x != o ensures ListOf(waiters, x) == WaitersOf(rs[i := Bump(rs[i], o)], x) {
      WaitersBumped(rs, i, o, x);
    }
  }

  /** When the walk is over, the index is the length of the vector, and the vectors of the other
      objects describe the requests that still wait. */
  lemma WalkEnds(waiters: Waiters, index: nat, w: Work, o: ObjectId, all: seq<Request>)
    requires OthersListed(waiters, w.requests, o) && w.requests == StillWaiting(all, o)
    requires Turns(ListOf(waiters, o), index, 0, w, o).Done?
    ensures index == |ListOf(waiters, o)| && Lists(waiters - {o}, w.requests)
    ensures Turns(ListOf(waiters, o), index, 0, w, o) == Done(w)
  {
    forall x ensures ListOf(waiters - {o}, x) == WaitersOf(w.requests, x) {
      if x == o {
        NobodyWaitsAnymore(all, o);
      }
    }
  }

  /** Walk the released objects from the least recently released one until enough bytes are found. */
  method CountToEvict(lru: seq<ObjectId>, objects: map<ObjectId, Entry>, required: int) returns (n: nat, bytes: nat)
    requires forall o :: o in lru ==> o in objects
    ensures n == Count(lru, objects, required)
    ensures (forall o :: o in lru[..n] ==> o in objects) && bytes == Bytes(lru[..n], objects)
  {
    n, bytes := 0, 0;
    while n < |lru| && bytes < required
      invariant 0 <= n <= |lru| && (forall o :: o in lru[..n] ==> o in objects)
      invariant bytes == Bytes(lru[..n], objects)
      invariant n + Count(lru[n..], objects, required - bytes) == Count(lru, objects, required)
    {
      CountNext(lru, objects, required - bytes, n);
      bytes := bytes + objects[lru[n]].size;
      n := n + 1;
    }
  }

  lemma CountNext(lru: seq<ObjectId>, objects: map<ObjectId, Entry>, missing: int, n: nat)
    requires (forall o :: o in lru ==> o in objects) && n < |lru| && missing > 0
    requires forall o :: o in lru[..n] ==> o in objects
    ensures lru[n] in objects && (forall o :: o in lru[..n + 1] ==> o in objects)
    ensures Bytes(lru[..n + 1], objects) == Bytes(lru[..n], objects) + objects[lru[n]].size
    ensures Count(lru[n..], objects, missing) == 1 + Count(lru[n + 1..], objects, missing - objects[lru[n]].size)
  {
    var o := lru[n];
    assert o in lru;
    assert lru[n..][0] == o && lru[n..][1..] == lru[n + 1..];
    assert lru[..n + 1] == lru[..n] + [o];
    BytesAppend(lru[..n], [o], objects);
    assert [o][1..] == [];
    assert Bytes([o], objects) == objects[o].size;
  }

  // ---- The store ----

  datatype Error = Ok | ObjectExists | OutOfSpace

  class Store {
    var objects: map<ObjectId, Entry>
    var lru: seq<ObjectId>
    var index: set<ObjectId>
    var used: int
    const capacity: nat
    var requests: seq<Request>
    var waiters: Waiters
    var next: RequestId
    var replies: seq<Reply>
    ghost var gone: set<ClientId>

    ghost function TheMemory(): Memory
      reads this
    {
      Memory(objects, lru, index, used, capacity)
    }

    ghost function TheState(): State
      reads this
    {
      State(TheMemory(), requests, next, gone, replies)
    }

    ghost predicate Valid()
      reads this
    {
      StoreSpec.Inv(TheState()) && Lists(waiters, requests)
    }

    constructor (capacity: nat)
      ensures Valid() && TheState() == State(Memory(map[], [], {}, 0, capacity), [], 0, {}, [])
    {
      this.capacity := capacity;
      objects, lru, index, used := map[], [], {}, 0;
      requests, waiters, next, replies, gone := [], map[], 0, [], {};
      new;
      assert RequestIds([]) == [] && ReplyIds([]) == [] && UpTo(0) == [];
    }

    // -- Eviction policy --

    method AddToLru(o: ObjectId)
      requires o !in index
      modifies `lru, `index
      ensures lru == old(lru) + [o] && index == old(index) + {o}
    {
      lru := lru + [o];
      index := index + {o};
    }

    method RemoveFromLru(o: ObjectId)
      requires o in index && (forall p :: p in lru <==> p in index)
      modifies `lru, `index
      ensures lru == Without(old(lru), o) && index == old(index) - {o}
    {
      var i := Find(lru, o);
      lru := lru[..i] + lru[i + 1..];
      index := index - {o};
    }

    /** Count how many released objects give `required` bytes, then take that many off the list. */
    method ChooseObjectsToEvict(required: int) returns (bytes: nat, chosen: seq<ObjectId>)
      requires LruInv(TheMemory())
      modifies `lru, `index, `used
      ensures
        var n := Count(old(lru), objects, required);
        && chosen == old(lru)[..n] && lru == old(lru)[n..]
        && index == old(index) - (set o | o in chosen)
        && (forall o :: o in chosen ==> o in objects) && bytes == Bytes(chosen, objects)
        && used == old(used) - bytes
    {
      var n;
      n, bytes := CountToEvict(lru, objects, required);
      PrefixKnown(lru, objects, n);
      hide Count, Bytes;
      chosen := TakeFromLru(n);
      used := used - bytes;
    }

    method TakeFromLru(n: nat) returns (chosen: seq<ObjectId>)
      requires n <= |lru| && NoRepeat(lru) && (forall p :: p in lru <==> p in index)
      modifies `lru, `index
      ensures chosen == old(lru)[..n] && lru == old(lru)[n..]
      ensures index == old(index) - (set o | o in chosen)
    {
      chosen := [];
      while |chosen| < n
        invariant 0 <= |chosen| <= n
        invariant chosen == old(lru)[..|chosen|] && lru == old(lru)[|chosen|..]
        invariant index == old(index) - (set o | o in chosen)
        invariant forall p :: p in lru <==> p in index
        invariant NoRepeat(lru)
      {
        var o := lru[0];
        assert Find(lru, o) == 0;
        WithoutRemoves(lru, o);
        RemoveFromLru(o);
        ghost var before := chosen;
        chosen := chosen + [o];
        assert (set p | p in chosen) == (set p | p in before) + {o};
      }
    }

    /** Delete evicted objects; each must be stored, sealed and unused. */
    method RemoveObjects(chosen: seq<ObjectId>)
      requires NoRepeat(chosen)
      requires forall o :: o in chosen ==> o in objects && objects[o].sealed && objects[o].clients == []
      modifies `objects
      ensures objects == old(objects) - (set o | o in chosen)
    {
      for i := 0 to |chosen|
        invariant objects == old(objects) - (set o | o in chosen[..i])
      {
        assert chosen[i] !in chosen[..i];
        assert chosen[i] in objects && objects[chosen[i]].sealed && objects[chosen[i]].clients == [];
        objects := objects - {chosen[i]};
        assert chosen[..i + 1] == chosen[..i] + [chosen[i]];
      }
      assert chosen[..|chosen|] == chosen;
    }

    method EvictBytes(required: int) returns (bytes: nat)
      requires Eviction.Inv(TheMemory())
      modifies `objects, `lru, `index, `used
      ensures TheMemory() == Evict(old(TheMemory()), required) && bytes == old(used) - used
    {
      ghost var m := TheMemory();
      ChosenAreDeletable(m, required);
      var b, chosen := ChooseObjectsToEvict(required);
      bytes := b;
      forall o | o in chosen ensures Deletable(m, o) {
        var i :| 0 <= i < |chosen| && chosen[i] == o;
        assert m.lru[i] == o;
      }
      RemoveObjects(chosen);
    }

    /** Try to allow `size` more bytes. */
    method RequireSpace(size: nat) returns (enough: bool)
      requires Eviction.Inv(TheMemory())
      modifies `objects, `lru, `index, `used
      ensures Eviction.RequireSpace(old(TheMemory()), size)
           == if enough then Enough(TheMemory()) else OutOfMemory(TheMemory())
    {
      var required := used + size - capacity;
      var evicted := 0;
      if required > 0 {
        evicted := EvictBytes(if size > capacity / 5 then size else capacity / 5);
      }
      enough := evicted >= required;
      if enough {
        used := used + size;
      }
    }

    // -- Objects --

    /** The outcome of each allocation attempt is `alloc`; an empty object needs one that succeeds. */
    method CreateObject(c: ClientId, o: ObjectId, size: nat, alloc: nat -> bool, ghost last: nat)
      returns (error: Error, ghost failures: nat)
      requires Valid() && Enabled(TheState(), Created(c, o, size, 0))
      requires size == 0 ==> alloc(last)
      modifies `objects, `lru, `index, `used
      ensures Valid() && TheState() == Step(old(TheState()), Created(c, o, size, failures))
      ensures error == ObjectExists <==> o in old(objects)
      ensures error != ObjectExists ==> (error == Ok <==> Attempts(old(TheMemory()), size, failures).Enough?)
      ensures error == Ok ==> alloc(failures)
      ensures forall k: nat :: k < failures ==> !alloc(k)
    {
      hide RequestsInv, AnsweredOnce, Eviction.Inv, Attempts;
      failures := 0;
      if o in objects {
        return ObjectExists, 0;
      }
      var space;
      space, failures := Allocate(size, alloc, last);
      CreateKeepsAll(old(TheState()), c, o, size, failures);
      if space {
        if o in objects {
          AttemptsOnlyRemove(old(TheMemory()), size, failures, o);
        }
        AddObject(o, size, c);
        error := Ok;
      } else {
        error := OutOfSpace;
      }
    }

    /** Retry the allocation until it succeeds or no space can be made. */
    method Allocate(size: nat, alloc: nat -> bool, ghost last: nat) returns (ok: bool, ghost failures: nat)
      requires Eviction.Inv(TheMemory())
      requires size == 0 ==> alloc(last)
      modifies `objects, `lru, `index, `used
      ensures Eviction.Inv(TheMemory())
      ensures Attempts(old(TheMemory()), size, failures)
           == if ok then Enough(TheMemory()) else OutOfMemory(TheMemory())
      ensures ok ==> alloc(failures)
      ensures forall k: nat :: k < failures ==> !alloc(k)
    {
      assert Attempts(TheMemory(), size, 0) == Enough(TheMemory());
      hide Attempts, Eviction.Inv, Eviction.RequireSpace;
      failures := 0;
      var k := 0;
      ok := alloc(k);
      while !ok
        invariant Eviction.Inv(TheMemory()) && failures == k
        invariant Attempts(old(TheMemory()), size, k) == Enough(TheMemory())
        invariant ok == alloc(k) && forall j: nat :: j < k ==> !alloc(j)
        invariant size == 0 ==> k <= last
        decreases |lru|, capacity - used, last - k
      {
        assert size == 0 ==> k < last;
        ok, failures := TryAgain(size, k, alloc, old(TheMemory()));
        k := k + 1;
        if !ok {
          return;
        }
        ok := alloc(k);
      }
    }

    /** After a failed allocation: ask the policy for space. */
    method TryAgain(size: nat, ghost k: nat, alloc: nat -> bool, ghost m0: Memory) returns (ok: bool, ghost n: nat)
      requires Eviction.Inv(m0) && Eviction.Inv(TheMemory()) && Attempts(m0, size, k) == Enough(TheMemory())
      requires forall j: nat :: j <= k ==> !alloc(j)
      modifies `objects, `lru, `index, `used
      ensures n == k + 1 && forall j: nat :: j < n ==> !alloc(j)
      ensures Eviction.Inv(TheMemory())
      ensures Attempts(m0, size, n) == if ok then Enough(TheMemory()) else OutOfMemory(TheMemory())
      ensures old(used) <= capacity
      ensures ok ==> |lru| < old(|lru|) || (lru == old(lru) && used == old(used) + size)
    {
      hide Attempts, Eviction.Inv, Eviction.RequireSpace;
      AttemptsNext(m0, size, k, TheMemory());
      ok := RequireSpace(size);
      n := k + 1;
    }

    method AddObject(o: ObjectId, size: nat, c: ClientId)
      requires Eviction.Inv(TheMemory()) && o !in objects
      modifies `objects, `lru, `index
      ensures TheMemory() == Create(old(TheMemory()), o, size, c)
    {
      WithoutLast(lru, o);
      objects := objects[o := Entry(size, false, [])];
      AddToLru(o);
      assert LruInv(TheMemory());
      assert [] + [c] == [c];
      AddClientToObject(o, c);
      assert objects == old(objects)[o := Entry(size, false, [c])];
    }

    method AddClientToObject(o: ObjectId, c: ClientId)
      requires o in objects && LruInv(TheMemory())
      modifies `objects, `lru, `index
      ensures TheMemory() == AddClient(old(TheMemory()), o, c)
    {
      var e := objects[o];
      for i := 0 to |e.clients|
        invariant c !in e.clients[..i]
      {
        if e.clients[i] == c {
          return;
        }
      }
      assert e.clients[..|e.clients|] == e.clients;
      if |e.clients| == 0 {
        RemoveFromLru(o);
      }
      objects := objects[o := e.(clients := e.clients + [c])];
    }

    method RemoveClientFromObject(o: ObjectId, c: ClientId) returns (removed: bool)
      requires o in objects && LruInv(TheMemory())
      modifies `objects, `lru, `index
      ensures TheMemory() == RemoveClient(old(TheMemory()), o, c)
      ensures removed == (c in old(objects)[o].clients)
    {
      var e := objects[o];
      for i := 0 to |e.clients|
        invariant c !in e.clients[..i]
      {
        if e.clients[i] == c {
          FindFirst(e.clients, c, i);
          var left := e.clients[..i] + e.clients[i + 1..];
          objects := objects[o := e.(clients := left)];
          if |left| == 0 {
            AddToLru(o);
          }
          return true;
        }
      }
      assert e.clients[..|e.clients|] == e.clients;
      return false;
    }

    /** A client gives up an object. The store stays in order if and only if the object is sealed or has
        another user, and no waiting request of the client counts on it. */
    method ReleaseObject(c: ClientId, o: ObjectId)
      requires Valid() && o in objects && c in objects[o].clients
      modifies `objects, `lru, `index
      ensures TheState() == Release(old(TheState()), c, o)
      ensures Valid() <==> Spares(old(TheState()), c, o)
    {
      ReleaseKeepsIff(TheState(), c, o);
      assert LruInv(TheMemory());
      hide RequestsInv, AnsweredOnce, Lists, Eviction.Inv, LruInv, Spares;
      var removed := RemoveClientFromObject(o, c);
      assert removed;
    }

    method HandleEvictRequest(required: int) returns (bytes: nat)
      requires Valid()
      modifies `objects, `lru, `index, `used
      ensures Valid() && TheState() == Step(old(TheState()), EvictRequested(required))
      ensures bytes == old(used) - used
    {
      hide RequestsInv, AnsweredOnce, Eviction.Inv, Lists, Evict;
      EvictKeepsAll(TheState(), required);
      bytes := EvictBytes(required);
    }

    /** A client leaves: take it off every object. The store stays in order if and only if the client
        was not the only user of an unsealed object. */
    method Disconnect(c: ClientId) returns (ghost order: seq<ObjectId>)
      requires Valid()
      modifies `objects, `lru, `index, `gone
      ensures Covers(order, old(TheMemory())) && TheState() == Leave(old(TheState()), c, order)
      ensures Valid() <==> AbandonsNone(old(TheMemory()), c)
    {
      assert LruInv(TheMemory());
      hide RequestsInv, AnsweredOnce, Eviction.Inv, Lists, RemoveEverywhere, AbandonsNone, LruInv;
      order := RemoveFromAll(c);
      gone := gone + {c};
      LeaveKeepsIff(old(TheState()), c, order);
    }

    /** Walk the object table in whatever order. */
    method RemoveFromAll(c: ClientId) returns (ghost order: seq<ObjectId>)
      requires LruInv(TheMemory())
      modifies `objects, `lru, `index
      ensures Covers(order, old(TheMemory()))
      ensures TheMemory() == RemoveEverywhere(old(TheMemory()), order, c)
    {
      order := [];
      ghost var m := TheMemory();
      var todo := objects.Keys;
      assert RemoveEverywhere(m, [], c) == m;
      hide RemoveEverywhere, RemoveClient, LruInv;
      while todo != {}
        invariant todo <= objects.Keys && objects.Keys == m.objects.Keys
        invariant NoRepeat(order) && forall o :: o in order <==> o in m.objects && o !in todo
        invariant LruInv(TheMemory())
        invariant TheMemory() == RemoveEverywhere(m, order, c)
        decreases |todo|
      {
        var o :| o in todo;
        todo := todo - {o};
        RemoveOneMore(m, order, c, o);
        RemoveEverywhereKeeps(m, order + [o], c);
        order := order + [o];
        var _ := RemoveClientFromObject(o, c);
      }
    }

    // -- Get requests --

    method RemoveGetRequestForObject(o: ObjectId, id: RequestId)
      modifies `waiters
      ensures forall p :: ListOf(waiters, p) == if p == o then Without(ListOf(old(waiters), o), id)
        else ListOf(old(waiters), p)
    {
      var list := ListOf(waiters, o);
      for i := 0 to |list|
        invariant waiters == old(waiters)
        invariant id !in list[..i]
      {
        if list[i] == id {
          FindFirst(list, id, i);
          waiters := waiters[o := list[..i] + list[i + 1..]];
          return;
        }
      }
      assert list[..|list|] == list;
    }

    /** Send the reply and, for each position of the request, take one entry off that object's vector. */
    method ReturnFromGet(r: Request)
      modifies `waiters, `replies
      ensures replies == old(replies) + [Answer(r)]
      ensures forall o :: ListOf(waiters, o) == Strip(ListOf(old(waiters), o), r.id, multiset(r.ids)[o])
    {
      hide ListOf, Without, Strip;
      replies := replies + [Answer(r)];
      StripNone(waiters, r.id);
      assert r.ids[..0] == [];
      for i := 0 to |r.ids|
        invariant replies == old(replies) + [Answer(r)]
        invariant forall o :: ListOf(waiters, o) == Strip(ListOf(old(waiters), o), r.id, multiset(r.ids[..i])[o])
      {
        ghost var before := waiters;
        RemoveGetRequestForObject(r.ids[i], r.id);
        assert r.ids[..i + 1] == r.ids[..i] + [r.ids[i]];
        StripOneMore(old(waiters), before, waiters, r.ids[..i], r.ids[i], r.id);
      }
      assert r.ids[..|r.ids|] == r.ids;
    }

    method HandleTimeout(id: RequestId)
      requires Valid() && Enabled(TheState(), TimedOut(id))
      modifies `waiters, `replies, `requests
      ensures Valid() && TheState() == Step(old(TheState()), TimedOut(id))
    {
      hide RequestsInv, AnsweredOnce, Eviction.Inv, Lists;
      TimeOutKeeps(TheState(), id);
      RequestsAscend(TheState());
      var i := Position(requests, id);
      ghost var before := waiters;
      ReturnFromGet(requests[i]);
      ListsAfterDrop(before, waiters, requests, i, next);
      requests := Drop(requests, i);
    }

    method ProcessGetRequest(c: ClientId, ids: seq<ObjectId>, immediate: bool)
      requires Valid() && Enabled(TheState(), Requested(c, ids, immediate))
      modifies this
      ensures Valid() && TheState() == Step(old(TheState()), Requested(c, ids, immediate))
    {
      hide RequestsInv, AnsweredOnce, Eviction.Inv, Lists, ListOf, Ascending, Copies, Strip, Lack, PinPresent, Hits;
      hide Present;
      ghost var s := TheState();
      GetKeeps(s, c, ids, immediate);
      RequestsAscend(s);
      var r := CollectPresent(c, ids);
      assert r == NewRequest(s, c, ids);
      next := next + 1;
      if r.satisfied == r.target || immediate {
        ghost var before := waiters;
        ReturnFromGet(r);
        NewRequestLeaves(old(waiters), before, waiters, requests, r);
      } else {
        requests := requests + [r];
        NewRequestListed(old(waiters), waiters, old(requests), r);
      }
    }

    /** Pin the objects that are present and list the request under the others. */
    method CollectPresent(c: ClientId, ids: seq<ObjectId>) returns (r: Request)
      requires Eviction.Inv(TheMemory())
      modifies `objects, `lru, `index, `waiters
      ensures TheMemory() == PinPresent(old(TheMemory()), ids, c)
      ensures r == NewRequest(old(TheState()), c, ids)
      ensures forall o :: ListOf(waiters, o) == ListOf(old(waiters), o) + Copies(r.id, Lack(r, o))
    {
      hide Hits, PinPresent, Present, Grown, Listed, Eviction.Inv, Lack, Sealed, ListOf, Copies;
      ghost var m := TheMemory();
      var found: set<ObjectId> := {};
      var satisfied := 0;
      CollectStarts(m, waiters, next);
      assert ids[..0] == [] && ids[0..] == ids;
      for i := 0 to |ids|
        invariant Eviction.Inv(TheMemory()) && Grown(m, TheMemory())
        invariant PinPresent(TheMemory(), ids[i..], c) == PinPresent(m, ids, c)
        invariant found == Present(m, ids[..i]) && satisfied == Hits(m, ids[..i])
        invariant Listed(old(waiters), waiters, m, ids[..i], next)
      {
        CollectStep(m, TheMemory(), ids, i, c);
        assert ids[..i + 1] == ids[..i] + [ids[i]];
        var present := CollectOne(ids[i], c, m, ids[..i], old(waiters));
        if present {
          found := found + {ids[i]};
          satisfied := satisfied + 1;
        }
      }
      assert ids[..|ids|] == ids && ids[|ids|..] == [];
      r := Request(next, c, ids, found, satisfied, |AsSet(ids)|);
      CollectEnds(m, TheMemory(), old(waiters), waiters, c, r);
    }

    /** Pin one object if it is present, otherwise list the new request under it. */
    method CollectOne(o: ObjectId, c: ClientId, ghost m: Memory, ghost ids: seq<ObjectId>, ghost w0: Waiters)
      returns (present: bool)
      requires Eviction.Inv(TheMemory()) && Grown(m, TheMemory()) && Sealed(m, o) == Sealed(TheMemory(), o)
      requires Listed(w0, waiters, m, ids, next)
      modifies `objects, `lru, `index, `waiters
      ensures present == old(Sealed(TheMemory(), o))
      ensures TheMemory() == old(if present then AddClient(TheMemory(), o, c) else TheMemory())
      ensures Eviction.Inv(TheMemory()) && Grown(m, TheMemory())
      ensures Listed(w0, waiters, m, ids + [o], next)
    {
      present := o in objects && objects[o].sealed;
      if present {
        ListedPresent(w0, waiters, m, ids, o, next);
        PinOne(m, TheMemory(), o, c);
        hide Grown, Listed;
        AddClientToObject(o, c);
      } else {
        ListedMissing(w0, waiters, m, ids, o, next);
        waiters := waiters[o := ListOf(waiters, o) + [next]];
      }
    }

    method SealObject(o: ObjectId)
      requires Valid() && Enabled(TheState(), Sealing(o))
      modifies this
      ensures Valid() && TheState() == Step(old(TheState()), Sealing(o))
    {
      hide RequestsInv, AnsweredOnce, Eviction.Inv;
      ghost var s := TheState();
      SealKeeps(s, o);
      RequestsAscend(s);
      SealedMemory(s.m, o);
      objects := objects[o := objects[o].(sealed := true)];
      UpdateGetRequests(o);
    }

    /** Take as many turns as the object's vector has entries. Answering a request takes its entries
        off the vector while the walk goes on, so the index advances only past those that stay. */
    method UpdateGetRequests(o: ObjectId)
      requires Sealed(TheMemory(), o) && Eviction.Inv(TheMemory())
      requires Lists(waiters, requests) && Ascending(requests, next) && CleanSeal(requests, o)
      modifies `objects, `lru, `index, `waiters, `requests, `replies
      ensures TheMemory() == PinWaiting(old(TheMemory()), old(requests), o)
      ensures requests == StillWaiting(old(requests), o)
      ensures replies == old(replies) + AnsweredBy(old(requests), o)
      ensures Lists(waiters, requests)
    {
      WalkSoundIff(waiters, requests, o, TheMemory(), replies, next);
      hide Eviction.Inv, Sealed, Lists, Ascending, OthersListed, ListOf, Turns;
      hide StillWaiting, AnsweredBy, PinWaiting, CleanSeal;
      ghost var result := Turns(ListOf(waiters, o), 0, |ListOf(waiters, o)|, Work(TheMemory(), requests, replies), o);
      var count := |ListOf(waiters, o)|;
      var position := 0;
      for i := 0 to count
        invariant Sealed(TheMemory(), o) && Eviction.Inv(TheMemory())
        invariant OthersListed(waiters, requests, o) && Ascending(requests, next)
        invariant Turns(ListOf(waiters, o), position, count - i, Work(TheMemory(), requests, replies), o) == result
      {
        position := ServeNext(o, position, count - i);
      }
      WalkEnds(waiters, position, Work(TheMemory(), requests, replies), o, old(requests));
      // The check after the walk.
      assert position == |ListOf(waiters, o)|;
      waiters := waiters - {o};
    }

    /** One turn of the walk. */
    method ServeNext(o: ObjectId, position: nat, ghost n: nat) returns (position': nat)
      requires Sealed(TheMemory(), o) && Eviction.Inv(TheMemory()) && n > 0
      requires OthersListed(waiters, requests, o) && Ascending(requests, next)
      requires Turns(ListOf(waiters, o), position, n, Work(TheMemory(), requests, replies), o).Done?
      modifies `objects, `lru, `index, `waiters, `requests, `replies
      ensures Sealed(TheMemory(), o) && Eviction.Inv(TheMemory())
      ensures OthersListed(waiters, requests, o) && Ascending(requests, next)
      ensures Turns(ListOf(waiters, o), position', n - 1, Work(TheMemory(), requests, replies), o)
           == old(Turns(ListOf(waiters, o), position, n, Work(TheMemory(), requests, replies), o))
    {
      hide Eviction.Inv, Sealed, OthersListed, Ascending, ListOf, Live, AddClient, Turns, Strip, LruInv;
      ghost var w, before := Work(TheMemory(), requests, replies), waiters;
      ghost var list := ListOf(waiters, o);
      WalkMeets(list, position, n, w, o);
      WalkStep(list, position, n, w, o);
      ghost var p := Position(requests, list[position]);
      SealedIsServed(w, o, requests[p].client);
      var answered := ServeRequest(o, ListOf(waiters, o)[position]);
      if answered {
        WalkAnswers(before, waiters, w.requests, o, p, next);
        position' := position;
      } else {
        WalkServes(waiters, w.requests, o, p, next);
        position' := position + 1;
      }
    }

    /** Serve one waiting request. */
    method ServeRequest(o: ObjectId, id: RequestId) returns (answered: bool)
      requires o in objects && LruInv(TheMemory()) && Live(requests, id)
      modifies `objects, `lru, `index, `waiters, `requests, `replies
      ensures
        var i := Position(old(requests), id);
        var r := Bump(old(requests)[i], o);
        && answered == (r.satisfied == r.target)
        && TheMemory() == AddClient(old(TheMemory()), o, r.client)
        && requests == (if answered then Drop(old(requests), i) else old(requests)[i := r])
        && replies == (if answered then old(replies) + [Answer(r)] else old(replies))
        && (if answered then
              forall p :: ListOf(waiters, p) == Strip(ListOf(old(waiters), p), id, multiset(r.ids)[p])
            else waiters == old(waiters))
    {
      var i := Position(requests, id);
      var r := Bump(requests[i], o);
      AddClientToObject(o, r.client);
      answered := r.satisfied == r.target;
      if answered {
        ReturnFromGet(r);
        requests := Drop(requests, i);
      } else {
        requests := requests[i := r];
      }
    }
  }
}
