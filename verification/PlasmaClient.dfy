/**
 The plasma client as the running program keeps it. Every call is proved to make the transition
 of `ClientSpec`; what the store answers is a parameter.
 */
module PlasmaClient {
  import opened ClientSpec

  class PlasmaConnection {
    var inUse: map<ObjectId, Use>
    var maps: map<Fd, int>
    var history: seq<ObjectId>
    var bytes: int
    const delay: nat
    const capacity: nat
    var out: seq<Message>
    ghost var held: multiset<ObjectId>

    ghost function TheClient(): Client
      reads this
    {
      Client(inUse, maps, history, bytes, delay, capacity, held, out)
    }

    ghost predicate Valid()
      reads this
    {
      Inv(TheClient())
    }

    constructor (delay: nat, capacity: nat)
      ensures Valid() && TheClient() == Fresh(delay, capacity)
    {
      this.delay, this.capacity := delay, capacity;
      inUse, maps, history, bytes, out, held := map[], map[], [], 0, [], multiset{};
      new;
      FreshInv(delay, capacity);
    }

    method LookupOrMap(fd: Fd)
      modifies `maps
      ensures maps == if fd in old(maps) then old(maps) else old(maps)[fd := 0]
    {
      if fd !in maps {
        maps := maps[fd := 0];
      }
    }

    method IncrementObjectCount(o: ObjectId, fd: Fd, size: nat, sealed: bool)
      requires o in inUse || fd in maps
      modifies `inUse, `maps, `bytes
      ensures TheClient() == ClientSpec.Adopt(old(TheClient()), o, fd, size, sealed)
    {
      if o !in inUse {
        inUse := inUse[o := Use(0, fd, size, sealed)];
        bytes := bytes + size;
        maps := maps[fd := maps[fd] + 1];
      }
      inUse := inUse[o := inUse[o].(count := inUse[o].count + 1)];
      assert o in old(inUse) || inUse == old(inUse)[o := Use(1, fd, size, sealed)];
    }

    /** A reference to an object that the store has sent the place of. */
    method Adopt(o: ObjectId, fd: Fd, size: nat, sealed: bool)
      requires o in inUse ==> fd in maps
      modifies `inUse, `maps, `bytes
      ensures TheClient() == ClientSpec.Adopt(old(TheClient()), o, fd, size, sealed)
    {
      LookupOrMap(fd);
      IncrementObjectCount(o, fd, size, sealed);
      assert o in old(inUse) || maps == old(maps)[fd := (if fd in old(maps) then old(maps)[fd] else 0) + 1];
    }

    method PerformRelease(o: ObjectId)
      requires o in inUse && inUse[o].fd in maps
      modifies `inUse, `maps, `bytes, `out
      ensures TheClient() == ClientSpec.PerformRelease(old(TheClient()), o)
    {
      var u := inUse[o].(count := inUse[o].count - 1);
      inUse := inUse[o := u];
      if u.count == 0 {
        maps := maps[u.fd := maps[u.fd] - 1];
        if maps[u.fd] == 0 {
          maps := maps - {u.fd};
        }
        out := out + [ReleaseRequest(o)];
        bytes := bytes - u.size;
        inUse := inUse - {o};
      }
      assert u.count == 0 ==> inUse == old(inUse) - {o} && (old(maps)[u.fd] == 1 ==> maps == old(maps) - {u.fd});
    }

    /** The reference is put into the buffer, and old releases are performed until it and the bytes
        in use are within their limits. */
    method Release(o: ObjectId)
      requires Valid() && held[o] > 0
      modifies this
      ensures Valid() && TheClient() == ClientSpec.Release(old(TheClient()), o)
      ensures history == [] || (bytes <= Limit(capacity) && |history| <= delay)
    {
      ghost var k := TheClient();
      ReleaseKeeps(k, o);
      PushKeeps(k, o);
      history := [o] + history;
      held := held - multiset{o};
      hide Inv, Limit, ClientSpec.PerformRelease;
      while (bytes > Limit(capacity) || |history| > delay) && |history| > 0
        invariant Inv(TheClient()) && Drain(TheClient()) == Drain(Push(k, o))
        decreases |history|
      {
        DrainOneKeeps(TheClient());
        PerformRelease(history[|history| - 1]);
        history := history[..|history| - 1];
      }
    }

    /** A call whose request the store answers with an error or with the place of the new object. */
    method Create(o: ObjectId, size: nat, error: bool, fd: Fd)
      requires Valid() && (!error ==> o !in inUse)
      modifies this
      ensures Valid()
      ensures TheClient() ==
        var k := Send(old(TheClient()), CreateRequest(o, size));
        if error then k else Created(k, o, fd, size)
    {
      ghost var k := TheClient();
      SendKeeps(k, CreateRequest(o, size));
      hide Inv;
      out := out + [CreateRequest(o, size)];
      if !error {
        CreatedKeeps(Send(k, CreateRequest(o, size)), o, fd, size);
        Adopt(o, fd, size, false);
        IncrementObjectCount(o, fd, size, false);
        held := held + multiset{o};
      }
    }

    /** A get: `reply` says what the store would find. */
    method Get(ids: seq<ObjectId>, immediate: bool, reply: map<ObjectId, Place>)
      requires Valid() && forall o :: o in ids && o in inUse ==> inUse[o].sealed
      modifies this
      ensures Valid()
      ensures TheClient() ==
        var k := StartGet(old(TheClient()), ids, immediate);
        if AllInUse(old(TheClient()), ids) then k else FinishGet(k, ids, old(inUse).Keys, reply)
    {
      hide Inv;
      var present := CountInUse(ids);
      assert AllInUse(old(TheClient()), ids) <==> forall i :: 0 <= i < |ids| ==> present[i];
      if exists i :: 0 <= i < |ids| && !present[i] {
        SendKeeps(TheClient(), GetRequest(ids, immediate));
        out := out + [GetRequest(ids, immediate)];
        CountReply(ids, present, reply, old(inUse).Keys);
      }
    }

    /** First loop of a get. */
    method CountInUse(ids: seq<ObjectId>) returns (present: seq<bool>)
      requires Valid()
      modifies `inUse, `maps, `bytes, `held
      ensures Valid() && TheClient() == TakeInUse(old(TheClient()), ids)
      ensures |present| == |ids| && inUse.Keys == old(inUse).Keys
      ensures forall i :: 0 <= i < |ids| ==> present[i] == (ids[i] in old(inUse))
    {
      hide Inv;
      present := [];
      assert ids[0..] == ids;
      for i := 0 to |ids|
        invariant Inv(TheClient()) && inUse.Keys == old(inUse).Keys
        invariant TakeInUse(TheClient(), ids[i..]) == TakeInUse(old(TheClient()), ids)
        invariant |present| == i && forall j :: 0 <= j < i ==> present[j] == (ids[j] in old(inUse))
      {
        var o := ids[i];
        assert ids[i..][0] == o && ids[i..][1..] == ids[i + 1..];
        present := present + [o in inUse];
        if o in inUse {
          var u := inUse[o];
          TakeKeeps(TheClient(), o, u.fd, u.size);
          IncrementObjectCount(o, u.fd, u.size, true);
          held := held + multiset{o};
        }
      }
      assert ids[|ids|..] == [];
    }

    /** Second loop of a get: what was in use before has been counted already. */
    method CountReply(ids: seq<ObjectId>, present: seq<bool>, reply: map<ObjectId, Place>, ghost before: set<ObjectId>)
      requires Valid() && inUse.Keys == before && |present| == |ids|
      requires forall i :: 0 <= i < |ids| ==> present[i] == (ids[i] in before)
      modifies `inUse, `maps, `bytes, `held
      ensures Valid() && TheClient() == FinishGet(old(TheClient()), ids, before, reply)
    {
      hide Inv;
      assert ids[0..] == ids;
      for i := 0 to |ids|
        invariant Inv(TheClient())
        invariant FinishGet(TheClient(), ids[i..], before, reply) == FinishGet(old(TheClient()), ids, before, reply)
        invariant forall o :: o in inUse && o !in before ==> o in reply && inUse[o].fd == reply[o].fd
      {
        var o := ids[i];
        assert ids[i..][0] == o && ids[i..][1..] == ids[i + 1..];
        if !present[i] && o in reply {
          TakeKeeps(TheClient(), o, reply[o].fd, reply[o].size);
          UsedIsMapped(TheClient(), o);
          Adopt(o, reply[o].fd, reply[o].size, true);
          held := held + multiset{o};
        }
      }
      assert ids[|ids|..] == [];
    }

    method Seal(o: ObjectId)
      requires Valid() && o in inUse && !inUse[o].sealed
      modifies this
      ensures Valid() && TheClient() == ClientSpec.Seal(old(TheClient()), o) && held == old(held)
      ensures history == [] || (bytes <= Limit(capacity) && |history| <= delay)
    {
      hide Inv, ClientSpec.Release, Take, Limit, Pressed, MarkSealed;
      SealKeeps(TheClient(), o);
      MarkAndHash(o);
      SendKeeps(TheClient(), SealRequest(o));
      out := out + [SealRequest(o)];
      Release(o);
    }

    method MarkAndHash(o: ObjectId)
      requires Valid() && o in inUse && !inUse[o].sealed
      modifies this
      ensures Valid() && held[o] > 0
      ensures TheClient() ==
        var k := old(TheClient());
        ClientSpec.Release(Take(MarkSealed(k, o), o, k.inUse[o].fd, k.inUse[o].size), o)
    {
      hide Inv, ClientSpec.Release, Take;
      ghost var k := TheClient();
      MarkSealedKeeps(k, o);
      inUse := inUse[o := inUse[o].(sealed := true)];
      held := held + multiset{o};
      assert TheClient() == MarkSealed(k, o);
      HashObject(o);
    }

    /** Get the object, which is in use, and release it again. */
    method HashObject(o: ObjectId)
      requires Valid() && o in inUse && inUse[o].sealed
      modifies this
      ensures Valid() && held == old(held)
      ensures TheClient() ==
        var k := old(TheClient());
        ClientSpec.Release(Take(k, o, k.inUse[o].fd, k.inUse[o].size), o)
    {
      hide Inv;
      ghost var k := TheClient();
      Get([o], true, map[]);
      assert [o][1..] == [];
      assert TakeInUse(k, [o]) == Take(k, o, k.inUse[o].fd, k.inUse[o].size);
      ReleaseKeeps(TheClient(), o);
      Release(o);
    }
  }

  lemma UsedIsMapped(k: Client, o: ObjectId)
    requires Inv(k)
    ensures o in k.inUse ==> k.inUse[o].fd in k.maps
  {
    if o in k.inUse {
      assert o in Using(k.inUse, k.inUse[o].fd);
    }
  }
}
