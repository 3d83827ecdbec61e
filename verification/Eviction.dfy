/**
 The object table of the plasma store together with its eviction policy: objects, the clients
 that use them, the list of released objects from least to most recently released, the hash
 index of that list, and the policy's own count of used memory.
 */
module Eviction {
  import opened IdLists

  type ObjectId = nat
  type ClientId = nat

  /** `size` is data plus metadata. */
  datatype Entry = Entry(size: nat, sealed: bool, clients: seq<ClientId>)

  datatype Memory = Memory(
    objects: map<ObjectId, Entry>, lru: seq<ObjectId>, index: set<ObjectId>, used: int, capacity: nat)

  // ---- Which objects to evict ----

  /** The total size of the listed objects. */
  function Bytes(list: seq<ObjectId>, objects: map<ObjectId, Entry>): nat
    requires forall o :: o in list ==> o in objects
  {
    if list == [] then 0 else objects[list[0]].size + Bytes(list[1..], objects)
  }

  /** How many objects from the front of the list the policy takes to free `required` bytes. */
  function Count(list: seq<ObjectId>, objects: map<ObjectId, Entry>, required: int): (n: nat)
    requires forall o :: o in list ==> o in objects
    ensures n <= |list|
  {
    if required <= 0 || list == [] then 0
    else 1 + Count(list[1..], objects, required - objects[list[0]].size)
  }

  lemma {:induction false} BytesAppend(a: seq<ObjectId>, b: seq<ObjectId>, objects: map<ObjectId, Entry>)
    requires forall o :: o in a + b ==> o in objects
    ensures (forall o :: o in a ==> o in objects) && (forall o :: o in b ==> o in objects)
    ensures Bytes(a + b, objects) == Bytes(a, objects) + Bytes(b, objects)
  {
    assert forall o :: o in a || o in b ==> o in a + b;
    if a == [] {
      assert a + b == b;
    } else {
      assert (a + b)[1..] == a[1..] + b;
      assert forall o :: o in a[1..] + b ==> o in a + b;
      BytesAppend(a[1..], b, objects);
    }
  }

  lemma PrefixKnown(list: seq<ObjectId>, objects: map<ObjectId, Entry>, k: nat)
    requires k <= |list| && forall o :: o in list ==> o in objects
    ensures forall o :: o in list[..k] ==> o in objects
  {
  }

  /** The policy takes the shortest least-recently-released prefix that reaches the requested
      bytes, or the whole list. */
  lemma {:induction false} CountIsShortest(list: seq<ObjectId>, objects: map<ObjectId, Entry>, required: int, k: nat)
    requires k <= |list| && forall o :: o in list ==> o in objects
    requires forall o :: o in list[..k] ==> o in objects
    ensures k < Count(list, objects, required) ==> Bytes(list[..k], objects) < required
    ensures k == Count(list, objects, required) ==> Bytes(list[..k], objects) >= required || k == |list|
  {
    if required > 0 && k > 0 {
      var rest := list[1..];
      assert list[..k][1..] == rest[..k - 1] && list[..k][0] == list[0];
      CountIsShortest(rest, objects, required - objects[list[0]].size, k - 1);
    }
  }

  // ---- Operations ----

  function Evict(m: Memory, required: int): Memory
    requires forall o :: o in m.lru ==> o in m.objects
  {
    var n := Count(m.lru, m.objects, required);
    var chosen := set o | o in m.lru[..n];
    PrefixKnown(m.lru, m.objects, n);
    m.(objects := m.objects - chosen, lru := m.lru[n..], index := m.index - chosen,
       used := m.used - Bytes(m.lru[..n], m.objects))
  }

  function Max(a: int, b: int): int {
    if a > b then a else b
  }

  datatype Outcome = Enough(memory: Memory) | OutOfMemory(memory: Memory)

  /** The policy's answer when an allocation of `size` bytes has failed. */
  function RequireSpace(m: Memory, size: nat): Outcome
    requires forall o :: o in m.lru ==> o in m.objects
  {
    var required := m.used + size - m.capacity;
    var m' := if required > 0 then Evict(m, Max(size, m.capacity / 5)) else m;
    if m.used - m'.used >= required then Enough(m'.(used := m'.used + size)) else OutOfMemory(m')
  }

  function AddClient(m: Memory, o: ObjectId, c: ClientId): Memory
    requires o in m.objects
  {
    var e := m.objects[o];
    if c in e.clients then m
    else
      var m' := m.(objects := m.objects[o := e.(clients := e.clients + [c])]);
      if e.clients == [] then m'.(lru := Without(m.lru, o), index := m.index - {o}) else m'
  }

  function RemoveClient(m: Memory, o: ObjectId, c: ClientId): Memory
    requires o in m.objects
  {
    var e := m.objects[o];
    if c !in e.clients then m
    else
      var left := Without(e.clients, c);
      var m' := m.(objects := m.objects[o := e.(clients := left)]);
      if left == [] then m'.(lru := m.lru + [o], index := m.index + {o}) else m'
  }

  /** A new object is first released and at once used by its creator. */
  function Create(m: Memory, o: ObjectId, size: nat, c: ClientId): Memory {
    m.(objects := m.objects[o := Entry(size, false, [c])])
  }

  function Seal(m: Memory, o: ObjectId): Memory
    requires o in m.objects
  {
    m.(objects := m.objects[o := m.objects[o].(sealed := true)])
  }

  // ---- The invariant ----

  /** The list and its index hold the same objects, each once, and these are exactly the stored
      objects that no client uses. */
  ghost predicate LruInv(m: Memory) {
    && NoRepeat(m.lru)
    && (forall o :: o in m.lru <==> o in m.index)
    && (forall o :: o in m.index <==> o in m.objects && m.objects[o].clients == [])
    && (forall o :: o in m.objects ==> NoRepeat(m.objects[o].clients))
  }

  /** An object that no client uses has been sealed. */
  predicate ReleasedIsSealed(m: Memory) {
    forall o :: o in m.objects && m.objects[o].clients == [] ==> m.objects[o].sealed
  }

  ghost predicate Inv(m: Memory) {
    LruInv(m) && ReleasedIsSealed(m) && m.used <= m.capacity
  }

  lemma PrefixSplit(list: seq<ObjectId>, n: nat)
    requires NoRepeat(list) && n <= |list|
    ensures NoRepeat(list[n..])
    ensures forall o :: o in list[n..] <==> o in list && o !in list[..n]
  {
    assert list == list[..n] + list[n..];
    forall o | o in list[n..] ensures o !in list[..n] {
      var i :| 0 <= i < |list| - n && list[n..][i] == o;
      assert list[n + i] == o;
    }
  }

  /** Eviction deletes only objects that no client uses, and keeps the invariant. */
  lemma EvictKeeps(m: Memory, required: int)
    requires LruInv(m)
    ensures LruInv(Evict(m, required))
    ensures ReleasedIsSealed(m) ==> ReleasedIsSealed(Evict(m, required))
    ensures forall o :: o in Evict(m, required).objects <==>
      o in m.objects && o !in m.lru[..Count(m.lru, m.objects, required)]
    ensures forall o :: o in m.objects && m.objects[o].clients != [] ==> o in Evict(m, required).objects
  {
    PrefixSplit(m.lru, Count(m.lru, m.objects, required));
  }

  /** The deletion checks pass for every chosen object if and only if the chosen ones are sealed:
      that they are stored and unused always holds. */
  lemma ChosenAreDeletable(m: Memory, required: int)
    requires LruInv(m)
    ensures
      var n := Count(m.lru, m.objects, required);
      (forall i :: 0 <= i < n ==> Deletable(m, m.lru[i])) <==>
        (forall i :: 0 <= i < n ==> m.lru[i] in m.objects && m.objects[m.lru[i]].sealed)
    ensures ReleasedIsSealed(m) ==>
      forall i :: 0 <= i < Count(m.lru, m.objects, required) ==> Deletable(m, m.lru[i])
  {
    assert forall i :: 0 <= i < |m.lru| ==> m.lru[i] in m.lru;
  }

  predicate Deletable(m: Memory, o: ObjectId) {
    o in m.objects && m.objects[o].sealed && m.objects[o].clients == []
  }

  /** The checks made before each chosen object is deleted. */
  ghost predicate ChecksPass(m: Memory, required: int)
    requires LruInv(m)
  {
    forall i :: 0 <= i < Count(m.lru, m.objects, required) ==> Deletable(m, m.lru[i])
  }

  lemma {:induction false} CountAll(list: seq<ObjectId>, objects: map<ObjectId, Entry>, required: int)
    requires forall o :: o in list ==> o in objects
    requires required > Bytes(list, objects)
    ensures Count(list, objects, required) == |list|
  {
    if list != [] {
      CountAll(list[1..], objects, required - objects[list[0]].size);
    }
  }

  /** The checks of every possible eviction pass if and only if each unused object is sealed. */
  lemma EveryEvictionPassesIff(m: Memory)
    requires LruInv(m)
    ensures (forall required: int :: ChecksPass(m, required)) <==> ReleasedIsSealed(m)
  {
    if ReleasedIsSealed(m) {
      forall required: int ensures ChecksPass(m, required) {
        ChosenAreDeletable(m, required);
      }
    } else {
      var o :| o in m.objects && m.objects[o].clients == [] && !m.objects[o].sealed;
      assert o in m.index && o in m.lru;
      var required := Bytes(m.lru, m.objects) + 1;
      CountAll(m.lru, m.objects, required);
      var i :| 0 <= i < |m.lru| && m.lru[i] == o;
      assert !Deletable(m, m.lru[i]);
      assert !ChecksPass(m, required);
    }
  }

  lemma AddClientKeeps(m: Memory, o: ObjectId, c: ClientId)
    requires LruInv(m) && o in m.objects
    ensures LruInv(AddClient(m, o, c))
    ensures ReleasedIsSealed(m) ==> ReleasedIsSealed(AddClient(m, o, c))
  {
    WithoutRemoves(m.lru, o);
  }

  lemma RemoveClientKeeps(m: Memory, o: ObjectId, c: ClientId)
    requires LruInv(m) && o in m.objects
    ensures LruInv(RemoveClient(m, o, c))
    ensures ReleasedIsSealed(m) && m.objects[o].sealed ==> ReleasedIsSealed(RemoveClient(m, o, c))
  {
    var e, m' := m.objects[o], RemoveClient(m, o, c);
    WithoutRemoves(e.clients, c);
    hide Without;
    if c in e.clients {
      assert o !in m.index && o !in m.lru;
      forall p ensures p in m'.index <==> p in m'.objects && m'.objects[p].clients == [] {}
      forall p ensures p in m'.lru <==> p in m'.index {}
    }
  }

  lemma CreateKeeps(m: Memory, o: ObjectId, size: nat, c: ClientId)
    requires LruInv(m) && o !in m.objects
    ensures LruInv(Create(m, o, size, c))
    ensures ReleasedIsSealed(m) ==> ReleasedIsSealed(Create(m, o, size, c))
  {
  }

  // ---- Making room ----

  /** One answer of the policy keeps the invariant, and the count of used memory never exceeds
      the capacity. */
  lemma RequireSpaceKeeps(m: Memory, size: nat)
    requires Inv(m)
    ensures Inv(RequireSpace(m, size).memory)
    ensures forall o :: o in m.objects && m.objects[o].clients != [] ==> o in RequireSpace(m, size).memory.objects
  {
    EvictKeeps(m, Max(size, m.capacity / 5));
  }

  /** Space is found if and only if deleting every unused object would make enough. */
  lemma EnoughIff(m: Memory, size: nat)
    requires Inv(m)
    ensures RequireSpace(m, size).Enough? <==> m.used + size - Bytes(m.lru, m.objects) <= m.capacity
  {
    var room := Max(size, m.capacity / 5);
    var n := Count(m.lru, m.objects, room);
    PrefixKnown(m.lru, m.objects, n);
    CountIsShortest(m.lru, m.objects, room, n);
    assert m.lru == m.lru[..n] + m.lru[n..];
    BytesAppend(m.lru[..n], m.lru[n..], m.objects);
    if n == |m.lru| {
      assert m.lru[..n] == m.lru;
    }
  }

  /** What an eviction deletes: the first objects of the list, no more than it takes, or all of it; and
      the count of used memory drops by their sizes. */
  lemma EvictsPrefix(m: Memory, required: int) returns (n: nat)
    requires LruInv(m)
    ensures n <= |m.lru| && Evict(m, required).lru == m.lru[n..]
    ensures forall o :: o in Evict(m, required).objects <==> o in m.objects && o !in m.lru[..n]
    ensures forall o :: o in Evict(m, required).objects ==> Evict(m, required).objects[o] == m.objects[o]
    ensures forall o :: o in m.lru[..n] ==> o in m.objects
    ensures Bytes(m.lru[..n], m.objects) >= required || n == |m.lru|
    ensures forall k: nat :: k < n ==>
      (forall o :: o in m.lru[..k] ==> o in m.objects) && Bytes(m.lru[..k], m.objects) < required
    ensures Evict(m, required).used == m.used - Bytes(m.lru[..n], m.objects)
    ensures Evict(m, required).capacity == m.capacity
  {
    n := Count(m.lru, m.objects, required);
    PrefixKnown(m.lru, m.objects, n);
    CountIsShortest(m.lru, m.objects, required, n);
    forall k: nat | k < n
      ensures (forall o :: o in m.lru[..k] ==> o in m.objects) && Bytes(m.lru[..k], m.objects) < required
    {
      PrefixKnown(m.lru, m.objects, k);
      CountIsShortest(m.lru, m.objects, required, k);
    }
  }

  /** An answer that allows a retry has shortened the list or, for a positive size, brought the
      count of used memory closer to the capacity. */
  lemma RetryMakesProgress(m: Memory, size: nat)
    requires Inv(m) && RequireSpace(m, size).Enough?
    ensures
      var m' := RequireSpace(m, size).memory;
      || |m'.lru| < |m.lru|
      || (m'.lru == m.lru && m'.used == m.used + size && m'.objects == m.objects)
  {
    var room := Max(size, m.capacity / 5);
    var n := Count(m.lru, m.objects, room);
    PrefixKnown(m.lru, m.objects, n);
    assert n == 0 ==> Bytes(m.lru[..n], m.objects) == 0;
  }

  /** The state after `n` allocation attempts that all failed. */
  function Attempts(m: Memory, size: nat, n: nat): Outcome
    requires Inv(m)
    ensures Inv(Attempts(m, size, n).memory)
  {
    if n == 0 then Enough(m)
    else
      match Attempts(m, size, n - 1)
      case OutOfMemory(m1) => OutOfMemory(m1)
      case Enough(m1) =>
        RequireSpaceKeeps(m1, size);
        RequireSpace(m1, size)
  }

  lemma {:induction false} AttemptsCompose(m: Memory, size: nat, n: nat)
    requires Inv(m) && RequireSpace(m, size).Enough? && Inv(RequireSpace(m, size).memory)
    ensures Attempts(RequireSpace(m, size).memory, size, n) == Attempts(m, size, n + 1)
  {
    hide RequireSpace, Inv;
    if n == 0 {
      assert Attempts(m, size, 1 - 1) == Enough(m);
    } else {
      AttemptsCompose(m, size, n - 1);
    }
  }

  /** With a positive size the retry loop ends however the allocator behaves: after finitely many
      failures the policy reports that no space can be made. */
  lemma {:induction false} RetryEnds(m: Memory, size: nat) returns (n: nat)
    requires Inv(m) && size > 0
    ensures Attempts(m, size, n).OutOfMemory?
    decreases |m.lru|, m.capacity - m.used
  {
    if RequireSpace(m, size).OutOfMemory? {
      n := 1;
      assert Attempts(m, size, 1 - 1) == Enough(m);
    } else {
      RequireSpaceKeeps(m, size);
      RetryMakesProgress(m, size);
      assert m.used <= m.capacity;
      hide RequireSpace, Inv, Attempts;
      var k := RetryEnds(RequireSpace(m, size).memory, size);
      AttemptsCompose(m, size, k);
      n := k + 1;
    }
  }

  /** With size zero it never ends by itself: a failing allocator is retried forever, and nothing
      is evicted. */
  lemma {:induction false} EmptyObjectRetriesForever(m: Memory, n: nat)
    requires Inv(m)
    ensures Attempts(m, 0, n) == Enough(m)
  {
    if n > 0 {
      EmptyObjectRetriesForever(m, n - 1);
    }
  }

  /** The retry loop ends for every allocator behaviour exactly when the object is not empty. */
  lemma RetryEndsIffNonEmpty(m: Memory, size: nat)
    requires Inv(m)
    ensures (exists n: nat :: Attempts(m, size, n).OutOfMemory?) <==> size > 0
  {
    if size > 0 {
      var n := RetryEnds(m, size);
    } else {
      forall n: nat ensures Attempts(m, size, n).Enough? {
        EmptyObjectRetriesForever(m, n);
      }
    }
  }

  /** Failed attempts never remove an object in use. */
  lemma {:induction false} AttemptsSpareUsedObjects(m: Memory, size: nat, n: nat, o: ObjectId)
    requires Inv(m) && o in m.objects && m.objects[o].clients != []
    ensures o in Attempts(m, size, n).memory.objects && Attempts(m, size, n).memory.objects[o] == m.objects[o]
  {
    if n > 0 {
      AttemptsSpareUsedObjects(m, size, n - 1, o);
      var r := Attempts(m, size, n - 1);
      if r.Enough? {
        RequireSpaceKeeps(r.memory, size);
      }
    }
  }

  lemma RequireSpaceOnlyRemoves(m: Memory, size: nat, o: ObjectId)
    requires Inv(m) && o in RequireSpace(m, size).memory.objects
    ensures o in m.objects && RequireSpace(m, size).memory.objects[o] == m.objects[o]
  {
  }

  /** Failed attempts only remove objects. */
  lemma {:induction false} AttemptsOnlyRemove(m: Memory, size: nat, n: nat, o: ObjectId)
    requires Inv(m) && o in Attempts(m, size, n).memory.objects
    ensures o in m.objects && Attempts(m, size, n).memory.objects[o] == m.objects[o]
  {
    if n > 0 {
      var r := Attempts(m, size, n - 1);
      if r.Enough? {
        RequireSpaceOnlyRemoves(r.memory, size, o);
      }
      hide RequireSpace, Inv;
      AttemptsOnlyRemove(m, size, n - 1, o);
    }
  }
}
