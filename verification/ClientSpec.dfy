/**
 One plasma client as a value: the objects it uses with their reference counts, the files it has
 mapped, the buffer of delayed releases, and the messages it has sent to the store.
 */
module ClientSpec {
  import Eviction

  type ObjectId = Eviction.ObjectId
  type Fd = nat

  datatype Message =
    | CreateRequest(id: ObjectId, size: nat)
    | GetRequest(ids: seq<ObjectId>, immediate: bool)
    | SealRequest(id: ObjectId)
    | ReleaseRequest(id: ObjectId)
    | Goodbye

  /** `size` is data plus metadata. */
  datatype Use = Use(count: int, fd: Fd, size: nat, sealed: bool)

  /** `history` holds the delayed releases, the newest first. `held` counts the references that the
      user of the client has and has not released; the program does not store it. */
  datatype Client = Client(
    inUse: map<ObjectId, Use>, maps: map<Fd, int>, history: seq<ObjectId>, bytes: int,
    delay: nat, capacity: nat, held: multiset<ObjectId>, out: seq<Message>)

  const L3_CACHE_SIZE_BYTES := 100000000

  function Limit(capacity: nat): nat {
    if L3_CACHE_SIZE_BYTES < capacity / 100 then L3_CACHE_SIZE_BYTES else capacity / 100
  }

  /** A client that has just connected. */
  function Fresh(delay: nat, capacity: nat): Client {
    Client(map[], map[], [], 0, delay, capacity, multiset{}, [])
  }

  // ---- Operations ----

  /** One more reference to an object whose file is mapped, or will be now. */
  function Adopt(k: Client, o: ObjectId, fd: Fd, size: nat, sealed: bool): Client {
    if o in k.inUse then k.(inUse := k.inUse[o := k.inUse[o].(count := k.inUse[o].count + 1)])
    else
      k.(inUse := k.inUse[o := Use(1, fd, size, sealed)],
         maps := k.maps[fd := (if fd in k.maps then k.maps[fd] else 0) + 1],
         bytes := k.bytes + size)
  }

  /** Give one reference back, and the object with the last one. */
  function PerformRelease(k: Client, o: ObjectId): Client
    requires o in k.inUse && k.inUse[o].fd in k.maps
  {
    var u := k.inUse[o];
    if u.count - 1 != 0 then k.(inUse := k.inUse[o := u.(count := u.count - 1)])
    else
      k.(inUse := k.inUse - {o},
         maps := if k.maps[u.fd] - 1 == 0 then k.maps - {u.fd} else k.maps[u.fd := k.maps[u.fd] - 1],
         bytes := k.bytes - u.size,
         out := k.out + [ReleaseRequest(o)])
  }

  predicate Pressed(k: Client) {
    (k.bytes > Limit(k.capacity) || |k.history| > k.delay) && |k.history| > 0
  }

  function Oldest(k: Client): ObjectId
    requires k.history != []
  {
    k.history[|k.history| - 1]
  }

  predicate CanDrain(k: Client) {
    k.history != [] && Oldest(k) in k.inUse && k.inUse[Oldest(k)].fd in k.maps
  }

  function DrainOne(k: Client): Client
    requires CanDrain(k)
  {
    PerformRelease(k, Oldest(k)).(history := k.history[..|k.history| - 1])
  }

  /** Perform delayed releases, the oldest first, while there are too many or too many bytes in use. */
  function Drain(k: Client): Client
    decreases |k.history|
  {
    if Pressed(k) && CanDrain(k) then Drain(DrainOne(k)) else k
  }

  function Push(k: Client, o: ObjectId): Client {
    k.(history := [o] + k.history, held := k.held - multiset{o})
  }

  /** The user releases one reference. */
  function Release(k: Client, o: ObjectId): Client {
    Drain(Push(k, o))
  }

  /** The user gets a reference to an object that is in use. */
  function Take(k: Client, o: ObjectId, fd: Fd, size: nat): Client {
    Adopt(k, o, fd, size, true).(held := k.held + multiset{o})
  }

  function Send(k: Client, m: Message): Client {
    k.(out := k.out + [m])
  }

  /** The object counts as sealed from now on; the reference kept for the seal becomes one to give
      back like those of the user. */
  function MarkSealed(k: Client, o: ObjectId): Client
    requires o in k.inUse
  {
    k.(inUse := k.inUse[o := k.inUse[o].(sealed := true)], held := k.held + multiset{o})
  }

  /** Take and release a reference to hash the object, send the seal, and release the reference
      that was kept for it. */
  function Seal(k: Client, o: ObjectId): Client
    requires o in k.inUse
  {
    var k1 := MarkSealed(k, o);
    var k2 := Release(Take(k1, o, k.inUse[o].fd, k.inUse[o].size), o);
    Release(Send(k2, SealRequest(o)), o)
  }

  /** The store has created the object: one reference for the user, one until the seal. */
  function Created(k: Client, o: ObjectId, fd: Fd, size: nat): Client {
    Adopt(Adopt(k, o, fd, size, false), o, fd, size, false).(held := k.held + multiset{o})
  }

  /** First part of a get: references to the objects that are already in use. */
  function TakeInUse(k: Client, ids: seq<ObjectId>): Client
    decreases |ids|
  {
    if ids == [] then k
    else TakeInUse(if ids[0] in k.inUse then Take(k, ids[0], k.inUse[ids[0]].fd, k.inUse[ids[0]].size) else k, ids[1..])
  }

  predicate AllInUse(k: Client, ids: seq<ObjectId>) {
    forall i :: 0 <= i < |ids| ==> ids[i] in k.inUse
  }

  /** A get that is answered without the store sends nothing. */
  function StartGet(k: Client, ids: seq<ObjectId>, immediate: bool): Client {
    var k' := TakeInUse(k, ids);
    if AllInUse(k, ids) then k' else Send(k', GetRequest(ids, immediate))
  }

  /** Where the store says an object is. */
  datatype Place = Place(fd: Fd, size: nat)

  /** Second part of a get: references to what the store found, except those counted before. */
  function FinishGet(k: Client, ids: seq<ObjectId>, before: set<ObjectId>, found: map<ObjectId, Place>): Client
    decreases |ids|
  {
    if ids == [] then k
    else
      var o := ids[0];
      var k' := if o !in before && o in found then Take(k, o, found[o].fd, found[o].size) else k;
      FinishGet(k', ids[1..], before, found)
  }

  // ---- The invariant ----

  function Owed(u: Use): nat {
    if u.sealed then 0 else 1
  }

  /** A count is the references of the user, the delayed releases, and one while the seal is owed. */
  predicate CountedAt(k: Client, o: ObjectId) {
    if o in k.inUse then
      k.inUse[o].count == k.held[o] + multiset(k.history)[o] + Owed(k.inUse[o]) && k.inUse[o].count > 0
    else k.held[o] == 0 && multiset(k.history)[o] == 0
  }

  ghost predicate Counted(k: Client) {
    forall o :: CountedAt(k, o)
  }

  function Using(inUse: map<ObjectId, Use>, fd: Fd): set<ObjectId> {
    set o | o in inUse && inUse[o].fd == fd
  }

  /** A file is mapped exactly while objects in it are used, and its count is their number. */
  ghost predicate Mapped(k: Client) {
    forall fd :: if fd in k.maps then k.maps[fd] == |Using(k.inUse, fd)| && k.maps[fd] > 0 else Using(k.inUse, fd) == {}
  }

  ghost function Total(keys: set<ObjectId>, inUse: map<ObjectId, Use>): nat
    requires keys <= inUse.Keys
  {
    if keys == {} then 0
    else
      var o :| o in keys;
      inUse[o].size + Total(keys - {o}, inUse)
  }

  ghost predicate Inv(k: Client) {
    Counted(k) && Mapped(k) && k.bytes == Total(k.inUse.Keys, k.inUse)
  }

  // ---- Totals ----

  lemma {:induction false} TotalRemove(keys: set<ObjectId>, inUse: map<ObjectId, Use>, o: ObjectId)
    requires keys <= inUse.Keys && o in keys
    ensures Total(keys, inUse) == inUse[o].size + Total(keys - {o}, inUse)
  {
    var p :| p in keys && Total(keys, inUse) == inUse[p].size + Total(keys - {p}, inUse);
    if p != o {
      TotalRemove(keys - {p}, inUse, o);
      TotalRemove(keys - {o}, inUse, p);
      assert keys - {p} - {o} == keys - {o} - {p};
    }
  }

  lemma {:induction false} TotalFrame(keys: set<ObjectId>, a: map<ObjectId, Use>, b: map<ObjectId, Use>)
    requires keys <= a.Keys && keys <= b.Keys
    requires forall o :: o in keys ==> a[o].size == b[o].size
    ensures Total(keys, a) == Total(keys, b)
  {
    if keys != {} {
      var o :| o in keys;
      TotalFrame(keys - {o}, a, b);
      TotalRemove(keys, a, o);
      TotalRemove(keys, b, o);
    }
  }

  lemma UsingAdd(inUse: map<ObjectId, Use>, o: ObjectId, u: Use, fd: Fd)
    requires o !in inUse
    ensures Using(inUse[o := u], fd) == Using(inUse, fd) + (if fd == u.fd then {o} else {})
    ensures |Using(inUse[o := u], fd)| == |Using(inUse, fd)| + (if fd == u.fd then 1 else 0)
  {
  }

  lemma UsingRemove(inUse: map<ObjectId, Use>, o: ObjectId, fd: Fd)
    requires o in inUse
    ensures Using(inUse - {o}, fd) == Using(inUse, fd) - {o}
    ensures |Using(inUse - {o}, fd)| == |Using(inUse, fd)| - (if fd == inUse[o].fd then 1 else 0)
  {
    assert o in Using(inUse, fd) <==> fd == inUse[o].fd;
  }

  lemma UsingUpdate(inUse: map<ObjectId, Use>, o: ObjectId, u: Use, fd: Fd)
    requires o in inUse && u.fd == inUse[o].fd
    ensures Using(inUse[o := u], fd) == Using(inUse, fd)
  {
  }

  // ---- One object changes its count ----

  /** Changing a count or a seal changes neither files nor bytes. */
  lemma UpdateKeeps(k: Client, o: ObjectId, u: Use)
    requires o in k.inUse && u.fd == k.inUse[o].fd && u.size == k.inUse[o].size
    requires Mapped(k) && k.bytes == Total(k.inUse.Keys, k.inUse)
    ensures Mapped(k.(inUse := k.inUse[o := u]))
    ensures var m := k.inUse[o := u]; k.bytes == Total(m.Keys, m)
  {
    var m := k.inUse[o := u];
    assert m.Keys == k.inUse.Keys;
    TotalFrame(m.Keys, k.inUse, m);
    forall fd ensures Using(m, fd) == Using(k.inUse, fd) {
      UsingUpdate(k.inUse, o, u, fd);
    }
  }

  lemma AddKeeps(k: Client, o: ObjectId, fd: Fd, size: nat, sealed: bool)
    requires o !in k.inUse
    requires Mapped(k) && k.bytes == Total(k.inUse.Keys, k.inUse)
    ensures Mapped(Adopt(k, o, fd, size, sealed))
    ensures var k' := Adopt(k, o, fd, size, sealed); k'.bytes == Total(k'.inUse.Keys, k'.inUse)
  {
    var m := k.inUse[o := Use(1, fd, size, sealed)];
    TotalRemove(m.Keys, m, o);
    assert m.Keys - {o} == k.inUse.Keys;
    TotalFrame(k.inUse.Keys, k.inUse, m);
    hide Total;
    MappedAdd(k, o, fd, size, sealed);
  }

  lemma MappedAdd(k: Client, o: ObjectId, fd: Fd, size: nat, sealed: bool)
    requires o !in k.inUse && Mapped(k)
    ensures Mapped(Adopt(k, o, fd, size, sealed))
  {
    var k' := Adopt(k, o, fd, size, sealed);
    forall f
      ensures if f in k'.maps then k'.maps[f] == |Using(k'.inUse, f)| && k'.maps[f] > 0 else Using(k'.inUse, f) == {}
    {
      UsingAdd(k.inUse, o, Use(1, fd, size, sealed), f);
    }
  }

  lemma RemoveKeeps(k: Client, o: ObjectId)
    requires o in k.inUse && k.inUse[o].count == 1
    requires Mapped(k) && k.bytes == Total(k.inUse.Keys, k.inUse)
    ensures k.inUse[o].fd in k.maps && Mapped(PerformRelease(k, o))
    ensures var k' := PerformRelease(k, o); k'.bytes == Total(k'.inUse.Keys, k'.inUse)
  {
    var m := k.inUse - {o};
    TotalRemove(k.inUse.Keys, k.inUse, o);
    assert m.Keys == k.inUse.Keys - {o};
    TotalFrame(m.Keys, k.inUse, m);
    hide Total;
    MappedRemove(k, o);
  }

  lemma MappedRemove(k: Client, o: ObjectId)
    requires o in k.inUse && k.inUse[o].count == 1 && Mapped(k)
    ensures k.inUse[o].fd in k.maps && Mapped(PerformRelease(k, o))
  {
    assert o in Using(k.inUse, k.inUse[o].fd);
    var k' := PerformRelease(k, o);
    forall f
      ensures if f in k'.maps then k'.maps[f] == |Using(k'.inUse, f)| && k'.maps[f] > 0 else Using(k'.inUse, f) == {}
    {
      UsingRemove(k.inUse, o, f);
      hide Using;
      if |Using(k'.inUse, f)| == 0 {
        assert Using(k'.inUse, f) == {};
      }
    }
  }

  // ---- Every operation keeps the invariant ----

  lemma FreshInv(delay: nat, capacity: nat)
    ensures Inv(Fresh(delay, capacity)) && Unsealed(Fresh(delay, capacity)) == {}
  {
    var k := Fresh(delay, capacity);
    forall o ensures CountedAt(k, o) {}
    forall fd ensures Using(k.inUse, fd) == {} {}
  }

  lemma TakeKeeps(k: Client, o: ObjectId, fd: Fd, size: nat)
    requires Inv(k)
    ensures Inv(Take(k, o, fd, size)) && Take(k, o, fd, size).inUse.Keys == k.inUse.Keys + {o}
    ensures Unsealed(Take(k, o, fd, size)) == Unsealed(k)
    ensures Take(k, o, fd, size).out == k.out && Take(k, o, fd, size).held == k.held + multiset{o}
  {
    TakeShape(k, o, fd, size);
    TakeCounted(k, o, fd, size);
    hide Unsealed, Counted;
    if o in k.inUse {
      UpdateKeeps(k, o, k.inUse[o].(count := k.inUse[o].count + 1));
    } else {
      AddKeeps(k, o, fd, size, true);
    }
  }

  lemma TakeShape(k: Client, o: ObjectId, fd: Fd, size: nat)
    ensures Take(k, o, fd, size).inUse.Keys == k.inUse.Keys + {o}
    ensures Unsealed(Take(k, o, fd, size)) == Unsealed(k)
  {
  }

  lemma TakeCounted(k: Client, o: ObjectId, fd: Fd, size: nat)
    requires Counted(k)
    ensures Counted(Take(k, o, fd, size))
  {
    var k' := Take(k, o, fd, size);
    forall p ensures CountedAt(k', p) {
      assert CountedAt(k, p);
      assert k'.held[p] == k.held[p] + if p == o then 1 else 0;
    }
  }

  lemma CreatedKeeps(k: Client, o: ObjectId, fd: Fd, size: nat)
    requires Inv(k) && o !in k.inUse
    ensures Inv(Created(k, o, fd, size))
  {
    AddKeeps(k, o, fd, size, false);
    var k1 := Adopt(k, o, fd, size, false);
    UpdateKeeps(k1, o, k1.inUse[o].(count := 2));
    hide Mapped, Total;
    forall p ensures CountedAt(Created(k, o, fd, size), p) {
      assert CountedAt(k, p);
    }
  }

  lemma MarkSealedKeeps(k: Client, o: ObjectId)
    requires Inv(k) && o in k.inUse && !k.inUse[o].sealed
    ensures Inv(MarkSealed(k, o))
  {
    UpdateKeeps(k, o, k.inUse[o].(sealed := true));
    hide Mapped, Total;
    forall p ensures CountedAt(MarkSealed(k, o), p) {
      assert CountedAt(k, p);
    }
  }

  lemma OldestCounted(k: Client)
    requires k.history != []
    ensures multiset(k.history) == multiset(k.history[..|k.history| - 1]) + multiset{Oldest(k)}
  {
    assert k.history == k.history[..|k.history| - 1] + [Oldest(k)];
  }

  /** The checks of a performed release hold, and it keeps the invariant. */
  lemma DrainOneKeeps(k: Client)
    requires Inv(k) && k.history != []
    ensures CanDrain(k) && Inv(DrainOne(k))
    ensures DrainOne(k).bytes >= 0
  {
    var o := Oldest(k);
    DrainOneCounted(k);
    hide Counted, Using;
    if k.inUse[o].count == 1 {
      RemoveKeeps(k, o);
    } else {
      UpdateKeeps(k, o, k.inUse[o].(count := k.inUse[o].count - 1));
    }
  }

  lemma DrainOneCounted(k: Client)
    requires Counted(k) && Mapped(k) && k.history != []
    ensures CanDrain(k) && k.inUse[Oldest(k)].count > 0 && Counted(DrainOne(k))
  {
    var o := Oldest(k);
    OldestCounted(k);
    assert multiset(k.history)[o] > 0 && CountedAt(k, o);
    assert o in Using(k.inUse, k.inUse[o].fd);
    hide Mapped, Using, Total;
    var k' := DrainOne(k);
    var h, h' := multiset(k.history), multiset(k'.history);
    forall p ensures CountedAt(k', p) {
      assert CountedAt(k, p);
      assert h[p] == h'[p] + if p == o then 1 else 0;
    }
  }

  /** After the delayed releases the buffer is empty, or it and the bytes in use are within their
      limits. Only delayed releases have been performed. */
  lemma {:induction false} DrainKeeps(k: Client)
    requires Inv(k)
    ensures Inv(Drain(k)) && !Pressed(Drain(k))
    ensures Drain(k).held == k.held && Drain(k).history <= k.history
    decreases |k.history|
  {
    if Pressed(k) {
      DrainOneKeeps(k);
      DrainKeeps(DrainOne(k));
    }
  }

  lemma PushKeeps(k: Client, o: ObjectId)
    requires Inv(k) && k.held[o] > 0
    ensures Inv(Push(k, o))
  {
    var k' := Push(k, o);
    assert multiset(k'.history) == multiset{o} + multiset(k.history);
    forall p ensures CountedAt(k', p) {
      assert CountedAt(k, p);
    }
  }

  lemma ReleaseKeeps(k: Client, o: ObjectId)
    requires Inv(k) && k.held[o] > 0
    ensures Inv(Release(k, o)) && !Pressed(Release(k, o)) && Release(k, o).held == k.held - multiset{o}
  {
    PushKeeps(k, o);
    DrainKeeps(Push(k, o));
  }

  lemma HeldIsUsed(k: Client, o: ObjectId)
    requires Inv(k) && k.held[o] > 0
    ensures o in k.inUse && k.inUse[o].count >= k.held[o] + Owed(k.inUse[o])
  {
    assert CountedAt(k, o);
  }

  /** The invariant is not about messages. */
  lemma OutKeeps(k: Client, out: seq<Message>)
    requires Inv(k)
    ensures Inv(k.(out := out))
  {
    forall p ensures CountedAt(k.(out := out), p) {
      assert CountedAt(k, p);
    }
  }

  lemma SendKeeps(k: Client, m: Message)
    requires Inv(k)
    ensures Inv(Send(k, m))
  {
    OutKeeps(k, k.out + [m]);
  }

  /** Sealing gives back every reference it takes, and the one kept since the creation. */
  lemma SealKeeps(k: Client, o: ObjectId)
    requires Inv(k) && o in k.inUse && !k.inUse[o].sealed
    ensures Inv(Seal(k, o)) && !Pressed(Seal(k, o)) && Seal(k, o).held == k.held
  {
    var fd, size := k.inUse[o].fd, k.inUse[o].size;
    var k1 := MarkSealed(k, o);
    var k2 := Take(k1, o, fd, size);
    var k3 := Release(k2, o);
    MarkSealedKeeps(k, o);
    TakeKeeps(k1, o, fd, size);
    assert k2.held == k1.held + multiset{o};
    hide Inv, Drain, Release, Pressed;
    ReleaseKeeps(k2, o);
    SendKeeps(k3, SealRequest(o));
    ReleaseKeeps(Send(k3, SealRequest(o)), o);
  }

  lemma {:induction false} TakeInUseKeeps(k: Client, ids: seq<ObjectId>)
    requires Inv(k)
    ensures Inv(TakeInUse(k, ids))
    ensures TakeInUse(k, ids).inUse.Keys == k.inUse.Keys && TakeInUse(k, ids).out == k.out
    ensures Unsealed(TakeInUse(k, ids)) == Unsealed(k)
    decreases |ids|
  {
    hide Inv, Take, Unsealed;
    if ids != [] {
      if ids[0] in k.inUse {
        TakeKeeps(k, ids[0], k.inUse[ids[0]].fd, k.inUse[ids[0]].size);
        TakeInUseKeeps(Take(k, ids[0], k.inUse[ids[0]].fd, k.inUse[ids[0]].size), ids[1..]);
      } else {
        TakeInUseKeeps(k, ids[1..]);
      }
    }
  }

  lemma {:induction false} FinishGetKeeps(k: Client, ids: seq<ObjectId>, before: set<ObjectId>,
                                          found: map<ObjectId, Place>)
    requires Inv(k)
    ensures Inv(FinishGet(k, ids, before, found)) && FinishGet(k, ids, before, found).out == k.out
    ensures FinishGet(k, ids, before, found).inUse.Keys == k.inUse.Keys + New(ids, before, found)
    ensures Unsealed(FinishGet(k, ids, before, found)) == Unsealed(k)
    decreases |ids|
  {
    hide Inv, Take, Unsealed, New;
    if ids == [] {
      NewNothing(before, found);
    } else {
      var o := ids[0];
      NewCons(ids, before, found);
      if o !in before && o in found {
        TakeKeeps(k, o, found[o].fd, found[o].size);
        FinishGetKeeps(Take(k, o, found[o].fd, found[o].size), ids[1..], before, found);
      } else {
        FinishGetKeeps(k, ids[1..], before, found);
      }
    }
  }

  lemma NewNothing(before: set<ObjectId>, found: map<ObjectId, Place>)
    ensures New([], before, found) == {}
  {
  }

  lemma NewCons(ids: seq<ObjectId>, before: set<ObjectId>, found: map<ObjectId, Place>)
    requires ids != []
    ensures New(ids, before, found)
         == New(ids[1..], before, found) + if ids[0] !in before && ids[0] in found then {ids[0]} else {}
  {
    assert ids == [ids[0]] + ids[1..];
  }

  /** The objects that a reply adds to those in use. */
  function New(ids: seq<ObjectId>, before: set<ObjectId>, found: map<ObjectId, Place>): set<ObjectId> {
    set o | o in ids && o !in before && o in found
  }

  // ---- What the store will think of the messages ----

  function Unsealed(k: Client): set<ObjectId> {
    set o | o in k.inUse && !k.inUse[o].sealed
  }

  /** With `pins` the objects that list the client and `open` those of them that are not sealed,
      every seal and release in `out` finds what the store's checks ask for. */
  predicate Follows(out: seq<Message>, pins: set<ObjectId>, open: set<ObjectId>)
    decreases |out|
  {
    out == [] ||
    match out[0]
    case ReleaseRequest(o) => o in pins && o !in open && Follows(out[1..], pins - {o}, open)
    case SealRequest(o) => o in pins && o in open && Follows(out[1..], pins, open - {o})
    case _ => false
  }

  function PinsAfter(out: seq<Message>, pins: set<ObjectId>): set<ObjectId>
    decreases |out|
  {
    if out == [] then pins
    else PinsAfter(out[1..], if out[0].ReleaseRequest? then pins - {out[0].id} else pins)
  }

  function OpenAfter(out: seq<Message>, open: set<ObjectId>): set<ObjectId>
    decreases |out|
  {
    if out == [] then open
    else OpenAfter(out[1..], if out[0].SealRequest? then open - {out[0].id} else open)
  }

  lemma {:induction false} FollowsOneMore(out: seq<Message>, m: Message, pins: set<ObjectId>, open: set<ObjectId>)
    requires Follows(out, pins, open)
    ensures Follows(out + [m], pins, open) <==> Follows([m], PinsAfter(out, pins), OpenAfter(out, open))
    ensures PinsAfter(out + [m], pins) == PinsAfter([m], PinsAfter(out, pins))
    ensures OpenAfter(out + [m], open) == OpenAfter([m], OpenAfter(out, open))
    decreases |out|
  {
    if out == [] {
      assert out + [m] == [m];
    } else {
      assert (out + [m])[1..] == out[1..] + [m] && (out + [m])[0] == out[0];
      var pins' := if out[0].ReleaseRequest? then pins - {out[0].id} else pins;
      var open' := if out[0].SealRequest? then open - {out[0].id} else open;
      FollowsOneMore(out[1..], m, pins', open');
    }
  }

  /** A release is never sent before the seal of the same object, and nothing is released twice. */
  lemma {:induction false} NothingAfterRelease(out: seq<Message>, pins: set<ObjectId>, open: set<ObjectId>, i: nat,
                                               j: nat)
    requires Follows(out, pins, open) && i < j < |out| && out[i].ReleaseRequest?
    ensures out[j] != SealRequest(out[i].id) && out[j] != ReleaseRequest(out[i].id)
    decreases |out|
  {
    if i == 0 {
      ReleasedStaysGone(out[1..], pins - {out[0].id}, open, out[0].id, j - 1);
    } else if out[0].ReleaseRequest? {
      NothingAfterRelease(out[1..], pins - {out[0].id}, open, i - 1, j - 1);
    } else {
      NothingAfterRelease(out[1..], pins, open - {out[0].id}, i - 1, j - 1);
    }
  }

  lemma {:induction false} ReleasedStaysGone(out: seq<Message>, pins: set<ObjectId>, open: set<ObjectId>, o: ObjectId,
                                             j: nat)
    requires Follows(out, pins, open) && o !in pins && j < |out|
    ensures out[j] != SealRequest(o) && out[j] != ReleaseRequest(o)
    decreases |out|
  {
    if j > 0 {
      if out[0].ReleaseRequest? {
        ReleasedStaysGone(out[1..], pins - {out[0].id}, open, o, j - 1);
      } else {
        ReleasedStaysGone(out[1..], pins, open - {out[0].id}, o, j - 1);
      }
    }
  }

  /** The first of several messages in order. */
  lemma FollowsFirst(out: seq<Message>, pins: set<ObjectId>, open: set<ObjectId>)
    requires Follows(out, pins, open) && out != []
    ensures out[0].ReleaseRequest? || out[0].SealRequest?
    ensures out[0].id in pins && (out[0].SealRequest? <==> out[0].id in open)
    ensures out[0].ReleaseRequest? ==>
      && Follows(out[1..], pins - {out[0].id}, open)
      && PinsAfter(out, pins) == PinsAfter(out[1..], pins - {out[0].id})
      && OpenAfter(out, open) == OpenAfter(out[1..], open)
    ensures out[0].SealRequest? ==>
      && Follows(out[1..], pins, open - {out[0].id})
      && PinsAfter(out, pins) == PinsAfter(out[1..], pins)
      && OpenAfter(out, open) == OpenAfter(out[1..], open - {out[0].id})
  {
  }

  lemma FollowsOne(m: Message, pins: set<ObjectId>, open: set<ObjectId>)
    ensures m.ReleaseRequest? ==>
      && (Follows([m], pins, open) <==> m.id in pins && m.id !in open)
      && PinsAfter([m], pins) == pins - {m.id} && OpenAfter([m], open) == open
    ensures m.SealRequest? ==>
      && (Follows([m], pins, open) <==> m.id in pins && m.id in open)
      && PinsAfter([m], pins) == pins && OpenAfter([m], open) == open - {m.id}
  {
    assert [m][1..] == [];
  }

  /** Once the messages on the way have been handled, the objects that list the client are those it
      has in use, and the unsealed ones are those it still has to seal and those in `late`. */
  predicate Agrees(k: Client, pins: set<ObjectId>, open: set<ObjectId>, late: set<ObjectId>) {
    && Follows(k.out, pins, open)
    && PinsAfter(k.out, pins) == k.inUse.Keys
    && OpenAfter(k.out, open) == Unsealed(k) + late
  }

  /** `late` objects count as sealed here, but their seal has not been sent: somebody holds them. */
  predicate LateIsHeld(k: Client, late: set<ObjectId>) {
    forall o :: o in late ==> k.held[o] > 0
  }

  lemma DrainOneAgrees(k: Client, pins: set<ObjectId>, open: set<ObjectId>, late: set<ObjectId>)
    requires Inv(k) && CanDrain(k) && Agrees(k, pins, open, late) && LateIsHeld(k, late)
    ensures Agrees(DrainOne(k), pins, open, late)
  {
    var o, k' := Oldest(k), DrainOne(k);
    OldestCounted(k);
    assert CountedAt(k, o);
    assert k.inUse[o].count == 1 ==> k.held[o] == 0 && k.inUse[o].sealed;
    hide Inv, Follows, PinsAfter, OpenAfter;
    assert Unsealed(k') == Unsealed(k);
    if k.inUse[o].count == 1 {
      FollowsOneMore(k.out, ReleaseRequest(o), pins, open);
      FollowsOne(ReleaseRequest(o), PinsAfter(k.out, pins), OpenAfter(k.out, open));
    } else {
      assert k'.inUse.Keys == k.inUse.Keys;
    }
  }

  lemma {:induction false} DrainAgrees(k: Client, pins: set<ObjectId>, open: set<ObjectId>, late: set<ObjectId>)
    requires Inv(k) && Agrees(k, pins, open, late) && LateIsHeld(k, late)
    ensures Agrees(Drain(k), pins, open, late)
    decreases |k.history|
  {
    if Pressed(k) {
      DrainOneKeeps(k);
      DrainOneAgrees(k, pins, open, late);
      assert DrainOne(k).held == k.held;
      DrainAgrees(DrainOne(k), pins, open, late);
    }
  }

  lemma ReleaseAgrees(k: Client, o: ObjectId, pins: set<ObjectId>, open: set<ObjectId>, late: set<ObjectId>)
    requires Inv(k) && k.held[o] > 0 && Agrees(k, pins, open, late)
    requires LateIsHeld(Push(k, o), late)
    ensures Agrees(Release(k, o), pins, open, late)
  {
    PushKeeps(k, o);
    assert Unsealed(Push(k, o)) == Unsealed(k);
    DrainAgrees(Push(k, o), pins, open, late);
  }

  lemma SealSentAgrees(k: Client, o: ObjectId, pins: set<ObjectId>, open: set<ObjectId>)
    requires Agrees(k, pins, open, {o}) && o in k.inUse && k.inUse[o].sealed
    ensures Agrees(Send(k, SealRequest(o)), pins, open, {})
  {
    FollowsOneMore(k.out, SealRequest(o), pins, open);
    FollowsOne(SealRequest(o), PinsAfter(k.out, pins), OpenAfter(k.out, open));
    assert Unsealed(k) + {o} - {o} == Unsealed(k) + {};
    assert Unsealed(Send(k, SealRequest(o))) == Unsealed(k);
  }

  /** Sealing keeps the agreement: although delayed releases are sent before the seal, none of them
      is for the object that is being sealed. */
  lemma SealAgrees(k: Client, o: ObjectId, pins: set<ObjectId>, open: set<ObjectId>)
    requires Inv(k) && o in k.inUse && !k.inUse[o].sealed && Agrees(k, pins, open, {})
    ensures Agrees(Seal(k, o), pins, open, {})
  {
    var fd, size := k.inUse[o].fd, k.inUse[o].size;
    var k1 := MarkSealed(k, o);
    var k2 := Take(k1, o, fd, size);
    var k3 := Release(k2, o);
    MarkSealedAgrees(k, o, pins, open);
    MarkSealedKeeps(k, o);
    TakeKeeps(k1, o, fd, size);
    TakeAgrees(k1, o, fd, size, pins, open, {o});
    assert k2.held[o] >= 2 && k2.inUse[o].sealed;
    hide Inv, Drain, Release, Pressed, Agrees, Take, MarkSealed;
    ReleaseAgrees(k2, o, pins, open, {o});
    ReleaseKeeps(k2, o);
    SealedStays(k2, o);
    SealSentAgrees(k3, o, pins, open);
    SendKeeps(k3, SealRequest(o));
    ReleaseAgrees(Send(k3, SealRequest(o)), o, pins, open, {});
  }

  lemma MarkSealedAgrees(k: Client, o: ObjectId, pins: set<ObjectId>, open: set<ObjectId>)
    requires o in k.inUse && !k.inUse[o].sealed && Agrees(k, pins, open, {})
    ensures Agrees(MarkSealed(k, o), pins, open, {o})
  {
    assert Unsealed(MarkSealed(k, o)) == Unsealed(k) - {o};
  }

  lemma TakeAgrees(k: Client, o: ObjectId, fd: Fd, size: nat, pins: set<ObjectId>, open: set<ObjectId>,
                   late: set<ObjectId>)
    requires Inv(k) && o in k.inUse && Agrees(k, pins, open, late)
    ensures Agrees(Take(k, o, fd, size), pins, open, late)
  {
    hide Inv, Take, Unsealed;
    TakeKeeps(k, o, fd, size);
  }

  lemma {:induction false} DrainSpares(k: Client, o: ObjectId)
    requires Inv(k) && k.held[o] > 0
    ensures o in k.inUse && o in Drain(k).inUse && Drain(k).inUse[o].sealed == k.inUse[o].sealed
    decreases |k.history|
  {
    HeldIsUsed(k, o);
    if Pressed(k) {
      DrainOneKeeps(k);
      OldestCounted(k);
      DrainSpares(DrainOne(k), o);
    }
  }

  /** An object that the user holds twice is still in use after one release. */
  lemma SealedStays(k: Client, o: ObjectId)
    requires Inv(k) && k.held[o] > 1
    ensures o in k.inUse && o in Release(k, o).inUse && Release(k, o).inUse[o].sealed == k.inUse[o].sealed
  {
    PushKeeps(k, o);
    DrainSpares(Push(k, o), o);
  }
}
