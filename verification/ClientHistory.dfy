/**
 The plasma client told from outside: how many references its user has, which messages it has sent and
 which releases it delays, counted from the calls.
 */
module ClientHistory {
  import opened IdLists
  import opened ClientSpec

  /** A call with what the store answers: an error, or the place of the created object; and the places
      of the objects that a get finds. */
  datatype Call =
    | CallCreate(id: ObjectId, size: nat, error: bool, fd: Fd)
    | CallGet(ids: seq<ObjectId>, immediate: bool, found: map<ObjectId, Place>)
    | CallSeal(id: ObjectId)
    | CallRelease(id: ObjectId)

  predicate Enabled(k: Client, a: Call) {
    match a
    case CallCreate(o, size, error, fd) => !error ==> o !in k.inUse
    case CallGet(ids, immediate, found) => forall o :: o in ids && o in k.inUse ==> k.inUse[o].sealed
    case CallSeal(o) => o in k.inUse && !k.inUse[o].sealed
    case CallRelease(o) => k.held[o] > 0
  }

  function Get(k: Client, ids: seq<ObjectId>, immediate: bool, found: map<ObjectId, Place>): Client {
    var k1 := StartGet(k, ids, immediate);
    if AllInUse(k, ids) then k1 else FinishGet(k1, ids, k.inUse.Keys, found)
  }

  function Step(k: Client, a: Call): Client
    requires Enabled(k, a)
  {
    match a
    case CallCreate(o, size, error, fd) =>
      var k1 := Send(k, CreateRequest(o, size));
      if error then k1 else Created(k1, o, fd, size)
    case CallGet(ids, immediate, found) => Get(k, ids, immediate, found)
    case CallSeal(o) => Seal(k, o)
    case CallRelease(o) => Release(k, o)
  }

  predicate Feasible(k: Client, calls: seq<Call>)
    decreases |calls|
  {
    calls == [] || (Enabled(k, calls[0]) && Feasible(Step(k, calls[0]), calls[1..]))
  }

  function Run(k: Client, calls: seq<Call>): Client
    requires Feasible(k, calls)
    decreases |calls|
  {
    if calls == [] then k else Run(Step(k, calls[0]), calls[1..])
  }

  // ---- What a get gives ----

  /** How many references to `o` a get returns: one for each place that names it, if it was in use or has
      been found. */
  function Returned(k: Client, ids: seq<ObjectId>, found: map<ObjectId, Place>, o: ObjectId): nat {
    if o in k.inUse || o in found then multiset(ids)[o] else 0
  }

  /** The same client but for the references to the objects that `ids` names. */
  ghost predicate SameRest(k: Client, k': Client) {
    k'.history == k.history && k'.out == k.out && k'.delay == k.delay && k'.capacity == k.capacity
  }

  lemma CountCons(ids: seq<ObjectId>, o: ObjectId)
    requires ids != []
    ensures multiset(ids)[o] == multiset(ids[1..])[o] + if ids[0] == o then 1 else 0
  {
    assert ids == [ids[0]] + ids[1..];
  }

  lemma {:induction false} TakeInUseGives(k: Client, ids: seq<ObjectId>, o: ObjectId)
    ensures
      var k' := TakeInUse(k, ids);
      && SameRest(k, k') && k'.inUse.Keys == k.inUse.Keys
      && (if o in k.inUse
          then k'.held[o] == k.held[o] + multiset(ids)[o]
            && k'.inUse[o] == k.inUse[o].(count := k.inUse[o].count + multiset(ids)[o])
          else k'.held[o] == k.held[o])
    decreases |ids|
  {
    if ids != [] {
      CountCons(ids, o);
      var p := ids[0];
      var k1 := if p in k.inUse then Take(k, p, k.inUse[p].fd, k.inUse[p].size) else k;
      assert k1.held[o] == k.held[o] + if p == o && o in k.inUse then 1 else 0;
      assert k1.inUse.Keys == k.inUse.Keys;
      TakeInUseGives(k1, ids[1..], o);
    }
  }

  lemma {:induction false} FinishGetGives(k: Client, ids: seq<ObjectId>, before: set<ObjectId>,
                                          found: map<ObjectId, Place>, o: ObjectId)
    ensures
      var k' := FinishGet(k, ids, before, found);
      var n := if o !in before && o in found then multiset(ids)[o] else 0;
      && SameRest(k, k') && k'.held[o] == k.held[o] + n
      && (o in k'.inUse <==> o in k.inUse || n > 0)
      && (o in k.inUse ==> k'.inUse[o] == k.inUse[o].(count := k.inUse[o].count + n))
      && (o !in k.inUse && n > 0 ==> k'.inUse[o] == Use(n, found[o].fd, found[o].size, true))
    decreases |ids|
  {
    if ids != [] {
      CountCons(ids, o);
      var p := ids[0];
      var k1 := if p !in before && p in found then Take(k, p, found[p].fd, found[p].size) else k;
      assert k1.held[o] == k.held[o] + if p == o && o !in before && o in found then 1 else 0;
      FinishGetGives(k1, ids[1..], before, found, o);
    }
  }

  /** A get gives its user, for each place that names an object in use or found, exactly one reference,
      and each count grows by just that. What was in use keeps its place and seal; what is new is
      recorded where the store says it is. A request is sent unless everything was in use. */
  lemma GetGives(k: Client, ids: seq<ObjectId>, immediate: bool, found: map<ObjectId, Place>, o: ObjectId)
    ensures
      var k', n := Get(k, ids, immediate, found), Returned(k, ids, found, o);
      && k'.held[o] == k.held[o] + n
      && (o in k'.inUse <==> o in k.inUse || n > 0)
      && (o in k.inUse ==> k'.inUse[o] == k.inUse[o].(count := k.inUse[o].count + n))
      && (o !in k.inUse && n > 0 ==> k'.inUse[o] == Use(n, found[o].fd, found[o].size, true))
      && k'.history == k.history
      && k'.out == k.out + if forall p :: p in ids ==> p in k.inUse then [] else [GetRequest(ids, immediate)]
  {
    TakeInUseGives(k, ids, o);
    var k1 := StartGet(k, ids, immediate);
    FinishGetGives(k1, ids, k.inUse.Keys, found, o);
    hide TakeInUse, FinishGet;
    assert k.out + [] == k.out;
    assert AllInUse(k, ids) <==> forall p :: p in ids ==> p in k.inUse;
    assert o !in ids ==> multiset(ids)[o] == 0;
    assert AllInUse(k, ids) && o in ids ==> o in k.inUse;
  }

  /** A get of different ids gives one reference to each that was in use or found, and no other. */
  lemma DistinctGetGivesOne(k: Client, ids: seq<ObjectId>, immediate: bool, found: map<ObjectId, Place>, o: ObjectId)
    requires NoRepeat(ids)
    ensures
      var k', n := Get(k, ids, immediate, found), if o in ids && (o in k.inUse || o in found) then 1 else 0;
      && k'.held[o] == k.held[o] + n
      && (o in k.inUse ==> o in k'.inUse && k'.inUse[o].count == k.inUse[o].count + n)
  {
    DistinctOccursOnce(ids, o);
    GetGives(k, ids, immediate, found, o);
  }

  // ---- References, counted from the calls ----

  /** The references to `o` that a call gives its user. */
  function Gains(k: Client, a: Call, o: ObjectId): nat {
    match a
    case CallCreate(p, size, error, fd) => if p == o && !error then 1 else 0
    case CallGet(ids, immediate, found) => Returned(k, ids, found, o)
    case _ => 0
  }

  function Gives(k: Client, a: Call, o: ObjectId): nat {
    if a == CallRelease(o) then 1 else 0
  }

  lemma StepHeld(k: Client, a: Call, o: ObjectId)
    requires Inv(k) && Enabled(k, a)
    ensures Inv(Step(k, a)) && Step(k, a).held[o] + Gives(k, a, o) == k.held[o] + Gains(k, a, o)
  {
    hide Inv, Get, Seal, Release;
    match a
    case CallCreate(p, size, error, fd) =>
      SendKeeps(k, CreateRequest(p, size));
      if !error {
        CreatedKeeps(Send(k, CreateRequest(p, size)), p, fd, size);
      }
    case CallGet(ids, immediate, found) =>
      GetGives(k, ids, immediate, found, o);
      GetKeeps(k, ids, immediate, found);
    case CallSeal(p) => SealKeeps(k, p);
    case CallRelease(p) => ReleaseKeeps(k, p);
  }

  lemma GetKeeps(k: Client, ids: seq<ObjectId>, immediate: bool, found: map<ObjectId, Place>)
    requires Inv(k)
    ensures Inv(Get(k, ids, immediate, found))
  {
    hide Inv, TakeInUse, FinishGet;
    TakeInUseKeeps(k, ids);
    var k1 := TakeInUse(k, ids);
    SendKeeps(k1, GetRequest(ids, immediate));
    FinishGetKeeps(Send(k1, GetRequest(ids, immediate)), ids, k.inUse.Keys, found);
  }

  function AllGains(k: Client, calls: seq<Call>, o: ObjectId): nat
    requires Feasible(k, calls)
    decreases |calls|
  {
    if calls == [] then 0 else Gains(k, calls[0], o) + AllGains(Step(k, calls[0]), calls[1..], o)
  }

  function Releases(calls: seq<Call>, o: ObjectId): nat {
    if calls == [] then 0 else (if calls[0] == CallRelease(o) then 1 else 0) + Releases(calls[1..], o)
  }

  /** Over every sequence of calls: the references that the user has are those that creations and gets
      returned, less those released; and an object's count is that, the delayed releases, and one while
      its seal is owed. */
  lemma {:induction false} RunHeld(k: Client, calls: seq<Call>, o: ObjectId)
    requires Inv(k) && Feasible(k, calls)
    ensures Inv(Run(k, calls))
    ensures Run(k, calls).held[o] + Releases(calls, o) == k.held[o] + AllGains(k, calls, o)
    decreases |calls|
  {
    if calls != [] {
      StepHeld(k, calls[0], o);
      hide Inv, Step, Enabled, Gains;
      RunHeld(Step(k, calls[0]), calls[1..], o);
    }
  }

  // ---- Messages, counted from the calls ----

  function Sent(out: seq<Message>, m: Message): nat {
    if out == [] then 0 else Sent(out[..|out| - 1], m) + if out[|out| - 1] == m then 1 else 0
  }

  lemma SentMore(out: seq<Message>, x: Message, m: Message)
    ensures Sent(out + [x], m) == Sent(out, m) + if x == m then 1 else 0
  {
    assert (out + [x])[..|out|] == out;
  }

  lemma SentOne(x: Message, m: Message)
    ensures Sent([x], m) == if x == m then 1 else 0
  {
    assert [] + [x] == [x];
    SentMore([], x, m);
  }

  function InUse(k: Client, o: ObjectId): nat {
    if o in k.inUse then 1 else 0
  }

  /** Performed releases send a release for an object exactly when they end its use, and nothing else. */
  lemma {:induction false} DrainSends(k: Client, o: ObjectId, m: Message)
    requires m == ReleaseRequest(o) || !m.ReleaseRequest?
    ensures Sent(Drain(k).out, m) + (if m.ReleaseRequest? then InUse(Drain(k), o) else 0)
         == Sent(k.out, m) + (if m.ReleaseRequest? then InUse(k, o) else 0)
    decreases |k.history|
  {
    if Pressed(k) && CanDrain(k) {
      SentMore(k.out, ReleaseRequest(Oldest(k)), m);
      DrainSends(DrainOne(k), o, m);
    }
  }

  lemma ReleaseSends(k: Client, p: ObjectId, o: ObjectId, m: Message)
    requires m == ReleaseRequest(o) || !m.ReleaseRequest?
    ensures Sent(Release(k, p).out, m) + (if m.ReleaseRequest? then InUse(Release(k, p), o) else 0)
         == Sent(k.out, m) + (if m.ReleaseRequest? then InUse(k, o) else 0)
  {
    DrainSends(Push(k, p), o, m);
  }

  /** The uses of `o` that a call begins. */
  function Begins(k: Client, a: Call, o: ObjectId): nat {
    if o !in k.inUse && Gains(k, a, o) > 0 then 1 else 0
  }

  /** What a call sends, apart from releases. */
  function Sends(k: Client, a: Call): seq<Message> {
    match a
    case CallCreate(o, size, error, fd) => [CreateRequest(o, size)]
    case CallGet(ids, immediate, found) =>
      if forall i :: 0 <= i < |ids| ==> ids[i] in k.inUse then [] else [GetRequest(ids, immediate)]
    case CallSeal(o) => [SealRequest(o)]
    case CallRelease(o) => []
  }

  lemma SealSends(k: Client, p: ObjectId, o: ObjectId, m: Message)
    requires p in k.inUse && (m == ReleaseRequest(o) || !m.ReleaseRequest?)
    ensures Sent(Seal(k, p).out, m) + (if m.ReleaseRequest? then InUse(Seal(k, p), o) else 0)
         == Sent(k.out, m) + (if m.ReleaseRequest? then InUse(k, o) else 0) + if m == SealRequest(p) then 1 else 0
  {
    var k1 := Take(MarkSealed(k, p), p, k.inUse[p].fd, k.inUse[p].size);
    assert k1.out == k.out && k1.inUse.Keys == k.inUse.Keys;
    var k2 := Release(k1, p);
    hide Release;
    ReleaseSends(k1, p, o, m);
    SentMore(k2.out, SealRequest(p), m);
    ReleaseSends(Send(k2, SealRequest(p)), p, o, m);
  }

  lemma CreateSends(k: Client, p: ObjectId, size: nat, error: bool, fd: Fd, o: ObjectId, m: Message)
    requires Enabled(k, CallCreate(p, size, error, fd)) && (m == ReleaseRequest(o) || !m.ReleaseRequest?)
    ensures
      var k', a := Step(k, CallCreate(p, size, error, fd)), CallCreate(p, size, error, fd);
      && k'.out == k.out + [CreateRequest(p, size)]
      && InUse(k', o) == InUse(k, o) + Begins(k, a, o)
  {
  }

  lemma GetSends(k: Client, ids: seq<ObjectId>, immediate: bool, found: map<ObjectId, Place>, o: ObjectId)
    ensures
      var k', a := Get(k, ids, immediate, found), CallGet(ids, immediate, found);
      && k'.out == k.out + Sends(k, a)
      && InUse(k', o) == InUse(k, o) + Begins(k, a, o)
  {
    GetGives(k, ids, immediate, found, o);
    hide Get;
    assert (forall i :: 0 <= i < |ids| ==> ids[i] in k.inUse) <==> forall p :: p in ids ==> p in k.inUse;
  }

  lemma StepSends(k: Client, a: Call, o: ObjectId, m: Message)
    requires Enabled(k, a) && (m == ReleaseRequest(o) || !m.ReleaseRequest?)
    ensures Sent(Step(k, a).out, m) + (if m.ReleaseRequest? then InUse(Step(k, a), o) else 0)
         == Sent(k.out, m) + (if m.ReleaseRequest? then InUse(k, o) + Begins(k, a, o) else Sent(Sends(k, a), m))
  {
    hide Sent, InUse, Get, Seal, Release, Created;
    match a
    case CallCreate(p, size, error, fd) =>
      CreateSends(k, p, size, error, fd, o, m);
      SentMore(k.out, CreateRequest(p, size), m);
      SentOne(CreateRequest(p, size), m);
    case CallGet(ids, immediate, found) =>
      GetSends(k, ids, immediate, found, o);
      SentMore(k.out, GetRequest(ids, immediate), m);
      SentOne(GetRequest(ids, immediate), m);
      SentNone(m);
      assert k.out + [] == k.out;
    case CallSeal(p) =>
      SealSends(k, p, o, m);
      SentOne(SealRequest(p), m);
    case CallRelease(p) =>
      ReleaseSends(k, p, o, m);
      SentNone(m);
  }

  lemma SentNone(m: Message)
    ensures Sent([], m) == 0
  {
  }

  function AllBegins(k: Client, calls: seq<Call>, o: ObjectId): nat
    requires Feasible(k, calls)
    decreases |calls|
  {
    if calls == [] then 0 else Begins(k, calls[0], o) + AllBegins(Step(k, calls[0]), calls[1..], o)
  }

  /** Over every sequence of calls: as many releases of an object have been sent as uses of it have begun,
      less the one that goes on. */
  lemma {:induction false} RunReleases(k: Client, calls: seq<Call>, o: ObjectId)
    requires Feasible(k, calls)
    ensures Sent(Run(k, calls).out, ReleaseRequest(o)) + InUse(Run(k, calls), o)
         == Sent(k.out, ReleaseRequest(o)) + InUse(k, o) + AllBegins(k, calls, o)
    decreases |calls|
  {
    if calls != [] {
      StepSends(k, calls[0], o, ReleaseRequest(o));
      hide Step, Enabled, Sent, Begins;
      RunReleases(Step(k, calls[0]), calls[1..], o);
    }
  }

  function Seals(calls: seq<Call>, o: ObjectId): nat {
    if calls == [] then 0 else (if calls[0] == CallSeal(o) then 1 else 0) + Seals(calls[1..], o)
  }

  function Creates(calls: seq<Call>, o: ObjectId, size: nat): nat {
    if calls == [] then 0
    else (if calls[0].CallCreate? && calls[0].id == o && calls[0].size == size then 1 else 0)
         + Creates(calls[1..], o, size)
  }

  /** Over every sequence of calls: one seal is sent for each call that seals, and one creation for each
      call that creates. */
  lemma {:induction false} RunSealsAndCreates(k: Client, calls: seq<Call>, o: ObjectId, size: nat)
    requires Feasible(k, calls)
    ensures Sent(Run(k, calls).out, SealRequest(o)) == Sent(k.out, SealRequest(o)) + Seals(calls, o)
    ensures Sent(Run(k, calls).out, CreateRequest(o, size))
         == Sent(k.out, CreateRequest(o, size)) + Creates(calls, o, size)
    decreases |calls|
  {
    if calls != [] {
      StepSends(k, calls[0], o, SealRequest(o));
      StepSends(k, calls[0], o, CreateRequest(o, size));
      OneSent(k, calls[0], o, size);
      hide Step, Enabled, Sent, Sends;
      RunSealsAndCreates(Step(k, calls[0]), calls[1..], o, size);
    }
  }

  lemma OneSent(k: Client, a: Call, o: ObjectId, size: nat)
    ensures Sent(Sends(k, a), SealRequest(o)) == if a == CallSeal(o) then 1 else 0
    ensures Sent(Sends(k, a), CreateRequest(o, size))
         == if a.CallCreate? && a.id == o && a.size == size then 1 else 0
  {
    hide Sent;
    SentNone(SealRequest(o));
    SentNone(CreateRequest(o, size));
    if Sends(k, a) != [] {
      var x := Sends(k, a)[0];
      assert Sends(k, a) == [x];
      SentOne(x, SealRequest(o));
      SentOne(x, CreateRequest(o, size));
    }
  }

  // ---- Delayed releases ----

  /** The releases that a call puts off, the newest first. */
  function Pushed(a: Call): seq<ObjectId> {
    match a
    case CallSeal(o) => [o, o]
    case CallRelease(o) => [o]
    case _ => []
  }

  function AllPushed(calls: seq<Call>): seq<ObjectId> {
    if calls == [] then [] else AllPushed(calls[1..]) + Pushed(calls[0])
  }

  lemma StepHistory(k: Client, a: Call)
    requires Inv(k) && Enabled(k, a)
    ensures Step(k, a).history <= Pushed(a) + k.history
  {
    match a
    case CallCreate(p, size, error, fd) => assert [] + k.history == k.history;
    case CallGet(ids, immediate, found) =>
      GetGives(k, ids, immediate, found, 0);
      assert [] + k.history == k.history;
    case CallSeal(p) => SealHistory(k, p);
    case CallRelease(p) =>
      PushKeeps(k, p);
      DrainKeeps(Push(k, p));
  }

  lemma SealHistory(k: Client, o: ObjectId)
    requires Inv(k) && o in k.inUse && !k.inUse[o].sealed
    ensures Seal(k, o).history <= [o, o] + k.history
  {
    var k1 := Take(MarkSealed(k, o), o, k.inUse[o].fd, k.inUse[o].size);
    MarkSealedKeeps(k, o);
    TakeKeeps(MarkSealed(k, o), o, k.inUse[o].fd, k.inUse[o].size);
    assert k1.history == k.history && k1.held[o] > 1;
    hide Inv, Take, MarkSealed, Drain;
    PushKeeps(k1, o);
    DrainKeeps(Push(k1, o));
    var k2 := Release(k1, o);
    SendKeeps(k2, SealRequest(o));
    PushKeeps(Send(k2, SealRequest(o)), o);
    DrainKeeps(Push(Send(k2, SealRequest(o)), o));
    assert [o] + ([o] + k.history) == [o, o] + k.history;
  }

  /** Over every sequence of calls: releases are performed in the order in which they were put off, so
      that the delayed ones are the last. */
  lemma {:induction false} RunDelaysTheLast(k: Client, calls: seq<Call>)
    requires Inv(k) && Feasible(k, calls)
    ensures Run(k, calls).history <= AllPushed(calls) + k.history
    decreases |calls|
  {
    if calls == [] {
      assert [] + k.history == k.history;
    } else {
      var k1 := Step(k, calls[0]);
      StepHeld(k, calls[0], 0);
      StepHistory(k, calls[0]);
      hide Inv, Step, Enabled, Pushed;
      RunDelaysTheLast(k1, calls[1..]);
      var p, rest := Pushed(calls[0]), AllPushed(calls[1..]);
      assert (rest + p) + k.history == rest + (p + k.history);
      PrefixOfPrefix(Run(k, calls).history, rest, k1.history, p + k.history);
    }
  }

  lemma PrefixOfPrefix(h: seq<ObjectId>, a: seq<ObjectId>, b: seq<ObjectId>, c: seq<ObjectId>)
    requires h <= a + b && b <= c
    ensures h <= a + c
  {
    assert forall i :: 0 <= i < |a + b| ==> (a + b)[i] == (a + c)[i];
  }

  /** Nothing is released early: while the bytes in use are within their limit, just so many releases
      are performed that no more are delayed than may be. */
  lemma {:induction false} DrainsNoMore(k: Client)
    requires Inv(k) && k.bytes <= Limit(k.capacity)
    ensures |Drain(k).history| == if |k.history| < k.delay then |k.history| else k.delay
    decreases |k.history|
  {
    if Pressed(k) {
      DrainOneKeeps(k);
      DrainOneBytes(k);
      hide Inv;
      DrainsNoMore(DrainOne(k));
    }
  }

  /** The limit is the cache size or one per cent of the capacity, whichever is smaller. */
  lemma LimitIsSmaller(capacity: nat)
    ensures
      var r := Limit(capacity);
      && r <= L3_CACHE_SIZE_BYTES && 100 * r <= capacity
      && (r == L3_CACHE_SIZE_BYTES || capacity < 100 * (r + 1))
  {
  }

  lemma DrainOneBytes(k: Client)
    requires CanDrain(k)
    ensures DrainOne(k).bytes <= k.bytes && DrainOne(k).capacity == k.capacity && DrainOne(k).delay == k.delay
  {
  }
}
