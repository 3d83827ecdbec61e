/**
 The wait requests as the running manager keeps them: beside each request, for every object and
 every way of waiting for it, an array of the requests that wait for it in this way. Every handler
 is proved to make the transition of `WaitSpec`, which has no such arrays.
 */
module PlasmaManager {
  import opened IdLists
  import opened WaitSpec

  /** The two hash tables of the manager, chosen by the kind, are one map here. */
  datatype Key = Key(id: ObjectId, kind: Kind)

  type Arrays = map<Key, seq<WaitId>>

  function ArrayOf(arrays: Arrays, key: Key): seq<WaitId> {
    if key in arrays then arrays[key] else []
  }

  predicate LacksKey(w: Wait, key: Key) {
    Lacks(w, key.id, key.kind)
  }

  /** Whether the request names the object with this kind, whatever its status. */
  predicate Names(w: Wait, key: Key) {
    key.id in w.items && w.items[key.id].kind == key.kind
  }

  /** The requests that still lack the object in this way, in order of arrival. */
  function WaitersOf(ws: seq<Wait>, key: Key): seq<WaitId> {
    if ws == [] then [] else (if LacksKey(ws[0], key) then [ws[0].id] else []) + WaitersOf(ws[1..], key)
  }

  /** A request is listed under an object exactly while its status there is unknown, once. */
  ghost predicate Indexed(arrays: Arrays, ws: seq<Wait>) {
    forall key :: ArrayOf(arrays, key) == WaitersOf(ws, key)
  }

  // ---- The arrays as a function of the requests ----

  lemma WaitersCons(ws: seq<Wait>, key: Key)
    requires ws != []
    ensures WaitersOf(ws, key) == (if LacksKey(ws[0], key) then [ws[0].id] else []) + WaitersOf(ws[1..], key)
  {
  }

  lemma {:induction false} WaitersAppend(a: seq<Wait>, b: seq<Wait>, key: Key)
    ensures WaitersOf(a + b, key) == WaitersOf(a, key) + WaitersOf(b, key)
  {
    if a == [] {
      assert a + b == b;
    } else {
      hide WaitersOf, LacksKey;
      WaitersAppend(a[1..], b, key);
      assert (a + b)[1..] == a[1..] + b && (a + b)[0] == a[0];
      WaitersCons(a, key);
      WaitersCons(a + b, key);
      Regroup(if LacksKey(a[0], key) then [a[0].id] else [], WaitersOf(a[1..], key), WaitersOf(b, key));
    }
  }

  lemma WaitersOne(w: Wait, key: Key)
    ensures WaitersOf([w], key) == if LacksKey(w, key) then [w.id] else []
  {
    assert [w][1..] == [];
  }

  lemma WaitersSplit(a: seq<Wait>, w: Wait, b: seq<Wait>, key: Key)
    ensures WaitersOf(a + b, key) == WaitersOf(a, key) + WaitersOf(b, key)
    ensures LacksKey(w, key) ==> WaitersOf(a + ([w] + b), key) == WaitersOf(a, key) + ([w.id] + WaitersOf(b, key))
    ensures !LacksKey(w, key) ==> WaitersOf(a + ([w] + b), key) == WaitersOf(a, key) + WaitersOf(b, key)
  {
    hide LacksKey, WaitersOf;
    WaitersAppend(a, b, key);
    WaitersAppend(a, [w] + b, key);
    WaitersAppend([w], b, key);
    WaitersOne(w, key);
  }

  lemma {:induction false} WaiterIsLive(ws: seq<Wait>, key: Key, k: nat) returns (i: nat)
    requires k < |WaitersOf(ws, key)|
    ensures i < |ws| && ws[i].id == WaitersOf(ws, key)[k] && LacksKey(ws[i], key)
  {
    hide LacksKey;
    if LacksKey(ws[0], key) && k == 0 {
      i := 0;
    } else {
      var j := WaiterIsLive(ws[1..], key, if LacksKey(ws[0], key) then k - 1 else k);
      i := j + 1;
    }
  }

  lemma WaitersBelow(ws: seq<Wait>, next: WaitId, key: Key)
    requires Ascending(ws, next)
    ensures next !in WaitersOf(ws, key)
  {
    if next in WaitersOf(ws, key) {
      var k :| 0 <= k < |WaitersOf(ws, key)| && WaitersOf(ws, key)[k] == next;
      var i := WaiterIsLive(ws, key, k);
      assert false;
    }
  }

  lemma WaitersAbove(ws: seq<Wait>, low: WaitId, key: Key)
    requires Above(ws, low)
    ensures low !in WaitersOf(ws, key)
  {
    if low in WaitersOf(ws, key) {
      var k :| 0 <= k < |WaitersOf(ws, key)| && WaitersOf(ws, key)[k] == low;
      var i := WaiterIsLive(ws, key, k);
      assert false;
    }
  }

  lemma AscendingSplit(ws: seq<Wait>, i: nat, next: WaitId)
    requires Ascending(ws, next) && i < |ws|
    ensures Ascending(ws[..i], ws[i].id) && Above(ws[i + 1..], ws[i].id)
  {
  }

  /** Answering a request takes it off every array. */
  lemma WaitersDrop(ws: seq<Wait>, i: nat, key: Key, next: WaitId)
    requires Ascending(ws, next) && i < |ws|
    ensures WaitersOf(Drop(ws, i), key) == Without(WaitersOf(ws, key), ws[i].id)
    ensures !LacksKey(ws[i], key) ==> WaitersOf(Drop(ws, i), key) == WaitersOf(ws, key)
  {
    var a, w, b := ws[..i], ws[i], ws[i + 1..];
    assert ws == a + ([w] + b);
    WaitersSplit(a, w, b, key);
    AscendingSplit(ws, i, next);
    WaitersBelow(a, w.id, key);
    WaitersAbove(b, w.id, key);
    hide LacksKey, WaitersOf, Ascending, Above, Without;
    if LacksKey(w, key) {
      WithoutMiddle(WaitersOf(a, key), w.id, WaitersOf(b, key));
    } else {
      WithoutLast(WaitersOf(a, key) + WaitersOf(b, key), w.id);
    }
  }

  lemma {:induction false} WaitersOrdered(ws: seq<Wait>, key: Key, next: WaitId, k: nat)
    requires Ascending(ws, next) && k < |WaitersOf(ws, key)|
    ensures WaitersOf(ws, key)[k] !in WaitersOf(ws, key)[..k]
  {
    var rest := WaitersOf(ws[1..], key);
    AscendingTail(ws, next);
    WaitersAbove(ws[1..], ws[0].id, key);
    WaitersCons(ws, key);
    hide LacksKey, WaitersOf, Ascending, Above;
    if !LacksKey(ws[0], key) {
      assert WaitersOf(ws, key) == rest;
      WaitersOrdered(ws[1..], key, next, k);
    } else if k > 0 {
      WaitersOrdered(ws[1..], key, next, k - 1);
      assert WaitersOf(ws, key)[..k] == [ws[0].id] + rest[..k - 1];
      assert WaitersOf(ws, key)[k] == rest[k - 1];
    }
  }

  /** The arrays after a request has been taken off those of all objects that it names. */
  ghost predicate TakenOff(arrays: Arrays, arrays': Arrays, w: Wait) {
    forall key :: ArrayOf(arrays', key) == if Names(w, key) then Without(ArrayOf(arrays, key), w.id)
      else ArrayOf(arrays, key)
  }

  lemma IndexedAfterDrop(arrays: Arrays, arrays': Arrays, ws: seq<Wait>, i: nat, next: WaitId)
    requires Indexed(arrays, ws) && Ascending(ws, next) && i < |ws| && TakenOff(arrays, arrays', ws[i])
    ensures Indexed(arrays', Drop(ws, i))
  {
    forall key ensures ArrayOf(arrays', key) == WaitersOf(Drop(ws, i), key) {
      WaitersDrop(ws, i, key, next);
    }
  }

  // ---- Walking one array ----

  datatype Work = Work(waits: seq<Wait>, replies: seq<Reply>)

  function ServeOne(k: Work, id: WaitId, o: ObjectId, status: Status): Work
    requires Live(k.waits, id) && o in k.waits[Position(k.waits, id)].items
  {
    var i := Position(k.waits, id);
    var w := Fill(k.waits[i], o, status);
    if w.satisfied == w.target then Work(Drop(k.waits, i), k.replies + [Answer(w)])
    else Work(k.waits[i := w], k.replies)
  }

  predicate CanServe(ids: seq<WaitId>, k: Work, o: ObjectId) {
    ids != [] && Live(k.waits, ids[0]) && o in k.waits[Position(k.waits, ids[0])].items
  }

  function ServeList(ids: seq<WaitId>, k: Work, o: ObjectId, status: Status): Work
    decreases |ids|
  {
    if !CanServe(ids, k, o) then k else ServeList(ids[1..], ServeOne(k, ids[0], o, status), o, status)
  }

  lemma ServeListStep(ids: seq<WaitId>, k: Work, o: ObjectId, status: Status)
    requires CanServe(ids, k, o)
    ensures ServeList(ids, k, o, status) == ServeList(ids[1..], ServeOne(k, ids[0], o, status), o, status)
  {
  }

  lemma PositionUnique(ws: seq<Wait>, i: nat, next: WaitId)
    requires Ascending(ws, next) && i < |ws|
    ensures Live(ws, ws[i].id) && Position(ws, ws[i].id) == i
  {
    assert ws[Position(ws, ws[i].id)].id == ws[i].id;
  }

  lemma ServeOneAt(pre: seq<Wait>, ws: seq<Wait>, o: ObjectId, kind: Kind, status: Status, replies: seq<Reply>,
                   next: WaitId)
    requires ws != [] && Lacks(ws[0], o, kind) && Ascending(pre + ws, next)
    ensures CanServe([ws[0].id], Work(pre + ws, replies), o)
    ensures
      var k, u := ServeOne(Work(pre + ws, replies), ws[0].id, o, status), Fill(ws[0], o, status);
      k == if CompletedBy(ws[0], o, kind) then Work(pre + ws[1..], replies + [Answer(u)])
           else Work((pre + [u]) + ws[1..], replies)
  {
    assert (pre + ws)[|pre|] == ws[0];
    PositionUnique(pre + ws, |pre|, next);
    assert Drop(pre + ws, |pre|) == pre + ws[1..];
    assert (pre + ws)[|pre| := Fill(ws[0], o, status)] == (pre + [Fill(ws[0], o, status)]) + ws[1..];
  }

  lemma AscendingMoves(pre: seq<Wait>, ws: seq<Wait>, u: Wait, next: WaitId)
    requires ws != [] && Ascending(pre + ws, next) && u.id == ws[0].id
    ensures Ascending((pre + [u]) + ws[1..], next)
    ensures Ascending(pre + ws[1..], next)
  {
    var q := pre + ws;
    var changed := (pre + [u]) + ws[1..];
    forall i | 0 <= i < |changed| ensures changed[i].id == q[i].id {}
    var dropped := pre + ws[1..];
    forall i | 0 <= i < |dropped| ensures dropped[i] == q[if i < |pre| then i else i + 1] {}
  }

  /** Walking the array tells each waiting request exactly once, and amounts to one pass over all
      requests. */
  lemma {:induction false} ServeListIsPass(pre: seq<Wait>, ws: seq<Wait>, o: ObjectId, kind: Kind, status: Status,
                                           replies: seq<Reply>, next: WaitId)
    requires Ascending(pre + ws, next)
    ensures ServeList(WaitersOf(ws, Key(o, kind)), Work(pre + ws, replies), o, status)
         == Work(pre + StillWaiting(ws, o, kind, status), replies + AnsweredBy(ws, o, kind, status))
    decreases |ws|
  {
    if ws == [] {
      assert pre + [] == pre && replies + [] == replies;
    } else if !Lacks(ws[0], o, kind) {
      PassSkips(pre, ws, o, kind, status, replies, next);
    } else if CompletedBy(ws[0], o, kind) {
      PassAnswers(pre, ws, o, kind, status, replies, next);
    } else {
      PassServes(pre, ws, o, kind, status, replies, next);
    }
  }

  lemma FirstSkipped(ws: seq<Wait>, o: ObjectId, kind: Kind, status: Status)
    requires ws != [] && !Lacks(ws[0], o, kind)
    ensures !CompletedBy(ws[0], o, kind) && Updated(ws[0], o, kind, status) == ws[0]
    ensures WaitersOf(ws, Key(o, kind)) == WaitersOf(ws[1..], Key(o, kind))
  {
  }

  lemma {:induction false} PassSkips(pre: seq<Wait>, ws: seq<Wait>, o: ObjectId, kind: Kind, status: Status,
                                     replies: seq<Reply>, next: WaitId)
    requires ws != [] && !Lacks(ws[0], o, kind) && Ascending(pre + ws, next)
    ensures ServeList(WaitersOf(ws, Key(o, kind)), Work(pre + ws, replies), o, status)
         == Work(pre + StillWaiting(ws, o, kind, status), replies + AnsweredBy(ws, o, kind, status))
    decreases |ws|, 0
  {
    hide *;
    var w, rest := ws[0], ws[1..];
    FirstSkipped(ws, o, kind, status);
    PassKeepsFirst(ws, o, kind, status);
    AscendingMoves(pre, ws, w, next);
    ServeListIsPass(pre + [w], rest, o, kind, status, replies, next);
    assert pre + ws == (pre + [w]) + rest;
    assert pre + ([w] + StillWaiting(rest, o, kind, status)) == (pre + [w]) + StillWaiting(rest, o, kind, status);
  }

  /** The first request of the rest is told, and the walk goes on behind it. */
  lemma FirstServed(pre: seq<Wait>, ws: seq<Wait>, o: ObjectId, kind: Kind, status: Status, replies: seq<Reply>,
                    next: WaitId)
    requires ws != [] && Lacks(ws[0], o, kind) && Ascending(pre + ws, next)
    ensures o in ws[0].items && Fill(ws[0], o, status).id == ws[0].id
    ensures Updated(ws[0], o, kind, status) == Fill(ws[0], o, status)
    ensures
      var u := Fill(ws[0], o, status);
      ServeList(WaitersOf(ws, Key(o, kind)), Work(pre + ws, replies), o, status)
        == ServeList(WaitersOf(ws[1..], Key(o, kind)),
                     if CompletedBy(ws[0], o, kind) then Work(pre + ws[1..], replies + [Answer(u)])
                     else Work((pre + [u]) + ws[1..], replies), o, status)
  {
    var ids, rest := WaitersOf(ws, Key(o, kind)), WaitersOf(ws[1..], Key(o, kind));
    assert ids == [ws[0].id] + rest && ids[0] == ws[0].id && ids[1..] == rest;
    assert o in ws[0].items;
    ServeOneAt(pre, ws, o, kind, status, replies, next);
    assert CanServe(ids, Work(pre + ws, replies), o);
    hide ServeList, WaitersOf, ServeOne, CompletedBy, Ascending;
    ServeListStep(ids, Work(pre + ws, replies), o, status);
  }

  lemma {:induction false} PassAnswers(pre: seq<Wait>, ws: seq<Wait>, o: ObjectId, kind: Kind, status: Status,
                                       replies: seq<Reply>, next: WaitId)
    requires ws != [] && Lacks(ws[0], o, kind) && CompletedBy(ws[0], o, kind) && Ascending(pre + ws, next)
    ensures ServeList(WaitersOf(ws, Key(o, kind)), Work(pre + ws, replies), o, status)
         == Work(pre + StillWaiting(ws, o, kind, status), replies + AnsweredBy(ws, o, kind, status))
    decreases |ws|, 0
  {
    hide *;
    FirstServed(pre, ws, o, kind, status, replies, next);
    var rest, a := ws[1..], Answer(Fill(ws[0], o, status));
    PassLoses(ws, o, kind, status);
    AscendingMoves(pre, ws, ws[0], next);
    ServeListIsPass(pre, rest, o, kind, status, replies + [a], next);
    assert (replies + [a]) + AnsweredBy(rest, o, kind, status) == replies + ([a] + AnsweredBy(rest, o, kind, status));
  }

  lemma {:induction false} PassServes(pre: seq<Wait>, ws: seq<Wait>, o: ObjectId, kind: Kind, status: Status,
                                      replies: seq<Reply>, next: WaitId)
    requires ws != [] && Lacks(ws[0], o, kind) && !CompletedBy(ws[0], o, kind) && Ascending(pre + ws, next)
    ensures ServeList(WaitersOf(ws, Key(o, kind)), Work(pre + ws, replies), o, status)
         == Work(pre + StillWaiting(ws, o, kind, status), replies + AnsweredBy(ws, o, kind, status))
    decreases |ws|, 0
  {
    hide *;
    FirstServed(pre, ws, o, kind, status, replies, next);
    var rest, u := ws[1..], Fill(ws[0], o, status);
    PassKeepsFirst(ws, o, kind, status);
    AscendingMoves(pre, ws, u, next);
    ServeListIsPass(pre + [u], rest, o, kind, status, replies, next);
    assert (pre + [u]) + StillWaiting(rest, o, kind, status) == pre + ([u] + StillWaiting(rest, o, kind, status));
  }

  // ---- The middle of a walk ----

  /** Requests that differ only in how they know one object. */
  ghost predicate SameBut(a: seq<Wait>, b: seq<Wait>, key: Key) {
    && |a| == |b|
    && (forall i :: 0 <= i < |a| ==>
          && a[i].id == b[i].id
          && (forall x :: Names(a[i], x) <==> Names(b[i], x))
          && (forall x :: x != key ==> (LacksKey(a[i], x) <==> LacksKey(b[i], x))))
  }

  lemma {:induction false} WaitersSameBut(a: seq<Wait>, b: seq<Wait>, key: Key, x: Key)
    requires SameBut(a, b, key) && x != key
    ensures WaitersOf(a, x) == WaitersOf(b, x)
  {
    if a != [] {
      assert LacksKey(a[0], x) <==> LacksKey(b[0], x);
      hide LacksKey, Names;
      assert forall i :: 0 <= i < |a[1..]| ==> a[1..][i] == a[i + 1] && b[1..][i] == b[i + 1];
      WaitersSameBut(a[1..], b[1..], key, x);
    }
  }

  lemma NobodyWaitsAnymore(ws: seq<Wait>, o: ObjectId, kind: Kind, status: Status)
    requires status != Nonexistent
    ensures WaitersOf(StillWaiting(ws, o, kind, status), Key(o, kind)) == []
  {
    var ws' := StillWaiting(ws, o, kind, status);
    if WaitersOf(ws', Key(o, kind)) != [] {
      var i := WaiterIsLive(ws', Key(o, kind), 0);
      PassFills(ws, o, kind, status, i, o, kind);
      assert false;
    }
  }

  /** The requests still to be told do not know the object. */
  predicate Untold(ws: seq<Wait>, rest: seq<WaitId>, key: Key) {
    forall i :: 0 <= i < |ws| && ws[i].id in rest ==> LacksKey(ws[i], key)
  }

  /** `rest` is still to be told, and starts at `position` of the array; `shadow` is the list of
      requests as the arrays see it. */
  ghost predicate Walk(arrays: Arrays, shadow: seq<Wait>, ws: seq<Wait>, key: Key,
                       rest: seq<WaitId>, position: nat, next: WaitId) {
    && Indexed(arrays, shadow) && Ascending(shadow, next) && SameBut(shadow, ws, key)
    && Untold(ws, rest, key) && NoRepeat(rest)
    && position <= |ArrayOf(arrays, key)| && ArrayOf(arrays, key)[position..] == rest
  }

  lemma WaitersLack(ws: seq<Wait>, key: Key, next: WaitId)
    requires Ascending(ws, next)
    ensures Untold(ws, WaitersOf(ws, key), key) && NoRepeat(WaitersOf(ws, key))
  {
    var ids := WaitersOf(ws, key);
    forall i | 0 <= i < |ws| && ws[i].id in ids ensures LacksKey(ws[i], key) {
      var k :| 0 <= k < |ids| && ids[k] == ws[i].id;
      var j := WaiterIsLive(ws, key, k);
    }
    forall i, j | 0 <= i < j < |ids| ensures ids[i] != ids[j] {
      WaitersOrdered(ws, key, next, j);
      assert ids[..j][i] == ids[i];
    }
  }

  lemma WalkStarts(arrays: Arrays, ws: seq<Wait>, key: Key, next: WaitId)
    requires Indexed(arrays, ws) && Ascending(ws, next)
    ensures Walk(arrays, ws, ws, key, ArrayOf(arrays, key), 0, next) && ArrayOf(arrays, key) == WaitersOf(ws, key)
  {
    assert ArrayOf(arrays, key)[0..] == ArrayOf(arrays, key);
    WaitersLack(ws, key, next);
  }

  /** The checks of the walk: the request names the object, with an unknown status. */
  lemma WalkMeets(arrays: Arrays, shadow: seq<Wait>, ws: seq<Wait>, key: Key,
                  rest: seq<WaitId>, position: nat, next: WaitId) returns (p: nat)
    requires Walk(arrays, shadow, ws, key, rest, position, next) && rest != []
    ensures position < |ArrayOf(arrays, key)| && ArrayOf(arrays, key)[position] == rest[0]
    ensures p < |shadow| && p < |ws| && shadow[p].id == rest[0] == ws[p].id
    ensures Live(ws, rest[0]) && Position(ws, rest[0]) == p && LacksKey(ws[p], key)
  {
    p := WaiterIsLive(shadow, key, position);
    assert Ascending(ws, next);
    hide Indexed, WaitersOf;
    PositionUnique(ws, p, next);
    assert ws[p].id in rest;
  }

  lemma ShadowDrops(shadow: seq<Wait>, ws: seq<Wait>, key: Key, p: nat, next: WaitId)
    requires Ascending(shadow, next) && SameBut(shadow, ws, key) && p < |shadow|
    ensures Ascending(Drop(shadow, p), next) && SameBut(Drop(shadow, p), Drop(ws, p), key)
  {
    hide Names, LacksKey;
    var a, b := Drop(shadow, p), Drop(ws, p);
    forall k | 0 <= k < |a| ensures a[k] == shadow[if k < p then k else k + 1] {}
    forall k | 0 <= k < |b| ensures b[k] == ws[if k < p then k else k + 1] {}
  }

  lemma UntoldDrops(ws: seq<Wait>, rest: seq<WaitId>, key: Key, p: nat)
    requires Untold(ws, rest, key) && rest != [] && p < |ws|
    ensures Untold(Drop(ws, p), rest[1..], key)
  {
    var b := Drop(ws, p);
    forall k | 0 <= k < |b| && b[k].id in rest[1..] ensures LacksKey(b[k], key) {
      assert b[k] == ws[if k < p then k else k + 1];
      assert b[k].id in rest;
    }
  }

  lemma TailNoRepeat(rest: seq<WaitId>)
    requires NoRepeat(rest) && rest != []
    ensures NoRepeat(rest[1..]) && rest[0] !in rest[1..]
  {
    assert forall i :: 0 <= i < |rest[1..]| ==> rest[1..][i] == rest[i + 1];
  }

  /** What is left of the array after the waiter at `k` has been taken off. */
  lemma ArrayAfterDrop(shadow: seq<Wait>, key: Key, p: nat, k: nat, next: WaitId)
    requires Ascending(shadow, next) && p < |shadow| && k < |WaitersOf(shadow, key)|
    requires shadow[p].id == WaitersOf(shadow, key)[k]
    ensures |WaitersOf(Drop(shadow, p), key)| == |WaitersOf(shadow, key)| - 1
    ensures WaitersOf(Drop(shadow, p), key)[k..] == WaitersOf(shadow, key)[k + 1..]
  {
    WaitersDrop(shadow, p, key, next);
    WaitersOrdered(shadow, key, next, k);
    WithoutAt(WaitersOf(shadow, key), k);
  }

  lemma SameTakenOff(arrays: Arrays, arrays': Arrays, a: Wait, b: Wait)
    requires a.id == b.id && (forall x :: Names(a, x) <==> Names(b, x)) && TakenOff(arrays, arrays', b)
    ensures TakenOff(arrays, arrays', a)
  {
  }

  lemma WalkAnswers(arrays: Arrays, arrays': Arrays, shadow: seq<Wait>, ws: seq<Wait>, key: Key,
                    rest: seq<WaitId>, position: nat, next: WaitId, p: nat)
    requires Walk(arrays, shadow, ws, key, rest, position, next) && rest != []
    requires p < |shadow| && p < |ws| && shadow[p].id == rest[0] == ws[p].id && TakenOff(arrays, arrays', ws[p])
    ensures Walk(arrays', Drop(shadow, p), Drop(ws, p), key, rest[1..], position, next)
  {
    SameTakenOff(arrays, arrays', shadow[p], ws[p]);
    assert ArrayOf(arrays, key) == WaitersOf(shadow, key);
    assert WaitersOf(shadow, key)[position] == rest[0] && WaitersOf(shadow, key)[position + 1..] == rest[1..];
    hide WaitersOf, Names, LacksKey, Ascending, SameBut, NoRepeat, Untold, TakenOff, ArrayOf, Drop;
    IndexedAfterDrop(arrays, arrays', shadow, p, next);
    ShadowDrops(shadow, ws, key, p, next);
    UntoldDrops(ws, rest, key, p);
    TailNoRepeat(rest);
    ArrayAfterDrop(shadow, key, p, position, next);
  }

  lemma FillNames(w: Wait, key: Key, status: Status)
    requires LacksKey(w, key) && status != Nonexistent
    ensures forall x :: Names(Fill(w, key.id, status), x) <==> Names(w, x)
    ensures forall x :: x != key ==> (LacksKey(Fill(w, key.id, status), x) <==> LacksKey(w, x))
  {
  }

  lemma WalkServes(arrays: Arrays, shadow: seq<Wait>, ws: seq<Wait>, key: Key,
                   rest: seq<WaitId>, position: nat, next: WaitId, p: nat, status: Status)
    requires Walk(arrays, shadow, ws, key, rest, position, next) && rest != [] && p < |ws|
    requires ws[p].id == rest[0] && LacksKey(ws[p], key) && status != Nonexistent
    ensures Walk(arrays, shadow, ws[p := Fill(ws[p], key.id, status)], key, rest[1..], position + 1, next)
  {
    var u := Fill(ws[p], key.id, status);
    FillNames(ws[p], key, status);
    assert u.id == ws[p].id;
    TailNoRepeat(rest);
    hide WaitersOf, Names, LacksKey, Fill, Ascending;
    var ws' := ws[p := u];
    assert SameBut(shadow, ws', key);
    forall i | 0 <= i < |ws'| && ws'[i].id in rest[1..] ensures LacksKey(ws'[i], key) {
      assert i != p && ws[i].id in rest;
    }
    assert ArrayOf(arrays, key)[position + 1..] == rest[1..];
  }

  lemma IndexedAfterErase(arrays: Arrays, shadow: seq<Wait>, ws: seq<Wait>, all: seq<Wait>, key: Key, status: Status)
    requires Indexed(arrays, shadow) && SameBut(shadow, ws, key) && status != Nonexistent
    requires ws == StillWaiting(all, key.id, key.kind, status)
    ensures Indexed(arrays - {key}, ws)
  {
    forall x ensures ArrayOf(arrays - {key}, x) == WaitersOf(ws, x) {
      if x == key {
        NobodyWaitsAnymore(all, key.id, key.kind, status);
      } else {
        WaitersSameBut(shadow, ws, key, x);
      }
    }
  }

  /** When the walk is over, the position is the length of the array, and one pass over all
      requests has been made. */
  lemma WalkEnds(arrays: Arrays, shadow: seq<Wait>, k: Work, key: Key, position: nat, next: WaitId, start: Work,
                 status: Status)
    requires Walk(arrays, shadow, k.waits, key, [], position, next)
    requires Ascending(start.waits, next) && status != Nonexistent
    requires ServeList([], k, key.id, status) == ServeList(WaitersOf(start.waits, key), start, key.id, status)
    ensures position == |ArrayOf(arrays, key)| && Indexed(arrays - {key}, k.waits)
    ensures k == Work(StillWaiting(start.waits, key.id, key.kind, status),
                      start.replies + AnsweredBy(start.waits, key.id, key.kind, status))
  {
    assert ServeList([], k, key.id, status) == k;
    assert [] + start.waits == start.waits && Key(key.id, key.kind) == key;
    ServeListIsPass([], start.waits, key.id, key.kind, status, start.replies, next);
    assert [] + StillWaiting(start.waits, key.id, key.kind, status)
      == StillWaiting(start.waits, key.id, key.kind, status);
    IndexedAfterErase(arrays, shadow, k.waits, start.waits, key, status);
  }

  // ---- A new request ----

  /** The arrays with request `id` entered under those of `names` that are not local. */
  ghost predicate Entered(arrays: Arrays, arrays': Arrays, names: map<ObjectId, Kind>, done: set<ObjectId>,
                          here: set<ObjectId>, id: WaitId) {
    forall key :: ArrayOf(arrays', key)
      == ArrayOf(arrays, key)
         + if key.id in done && key.id in names && names[key.id] == key.kind && key.id !in here then [id] else []
  }

  lemma EnteredOne(arrays: Arrays, arrays': Arrays, names: map<ObjectId, Kind>, done: set<ObjectId>,
                   here: set<ObjectId>, id: WaitId, o: ObjectId)
    requires Entered(arrays, arrays', names, done, here, id) && o in names && o !in done
    ensures o in here ==> Entered(arrays, arrays', names, done + {o}, here, id)
    ensures o !in here ==>
      Entered(arrays, arrays'[Key(o, names[o]) := ArrayOf(arrays', Key(o, names[o])) + [id]], names, done + {o},
        here, id)
  {
    var k := Key(o, names[o]);
    assert ArrayOf(arrays', k) == ArrayOf(arrays, k) + [];
  }

  lemma EnteredMeans(arrays: Arrays, arrays': Arrays, s: State, kinds: map<ObjectId, Kind>, target: int)
    requires Entered(arrays, arrays', kinds, kinds.Keys, s.here, s.next)
    ensures
      var w := NewWait(s, kinds, target);
      forall key :: ArrayOf(arrays', key) == ArrayOf(arrays, key) + if LacksKey(w, key) then [w.id] else []
  {
    var w := NewWait(s, kinds, target);
    forall key ensures LacksKey(w, key) <==> key.id in kinds && kinds[key.id] == key.kind && key.id !in s.here {}
  }

  lemma NewWaitListed(arrays: Arrays, arrays': Arrays, ws: seq<Wait>, w: Wait)
    requires Indexed(arrays, ws)
    requires forall key :: ArrayOf(arrays', key) == ArrayOf(arrays, key) + if LacksKey(w, key) then [w.id] else []
    ensures Indexed(arrays', ws + [w])
  {
    forall key ensures ArrayOf(arrays', key) == WaitersOf(ws + [w], key) {
      WaitersAppend(ws, [w], key);
      WaitersOne(w, key);
    }
  }

  lemma NewWaitLeaves(a0: Arrays, a1: Arrays, a2: Arrays, ws: seq<Wait>, w: Wait)
    requires Indexed(a0, ws) && Ascending(ws, w.id) && TakenOff(a1, a2, w)
    requires forall key :: ArrayOf(a1, key) == ArrayOf(a0, key) + if LacksKey(w, key) then [w.id] else []
    ensures Indexed(a2, ws)
  {
    forall key ensures ArrayOf(a2, key) == WaitersOf(ws, key) {
      WaitersBelow(ws, w.id, key);
      WithoutLast(WaitersOf(ws, key), w.id);
      assert LacksKey(w, key) ==> Names(w, key);
    }
  }

  // ---- The manager ----

  class Manager {
    var here: set<ObjectId>
    var waits: seq<Wait>
    var arrays: Arrays
    var next: WaitId
    var replies: seq<Reply>

    ghost function TheState(): State
      reads this
    {
      State(here, waits, next, replies)
    }

    ghost predicate Valid()
      reads this
    {
      Inv(TheState()) && Indexed(arrays, waits)
    }

    constructor ()
      ensures Valid() && TheState() == State({}, [], 0, [])
    {
      here, waits, arrays, next, replies := {}, [], map[], 0, [];
      new;
      assert WaitIds([]) == [] && ReplyIds([]) == [] && UpTo(0) == [];
    }

    method RemoveWaitRequestForObject(key: Key, id: WaitId)
      modifies `arrays
      ensures forall x :: ArrayOf(arrays, x)
                == if x == key then Without(ArrayOf(old(arrays), key), id) else ArrayOf(old(arrays), x)
    {
      if key in arrays {
        var list := arrays[key];
        for i := 0 to |list|
          invariant arrays == old(arrays) && id !in list[..i]
        {
          if list[i] == id {
            FindFirst(list, id, i);
            arrays := arrays[key := list[..i] + list[i + 1..]];
            return;
          }
        }
        assert list[..|list|] == list;
      }
    }

    /** Send the reply and take the request off the arrays of all objects that it names. */
    method ReturnFromWait(w: Wait)
      modifies `arrays, `replies
      ensures replies == old(replies) + [Answer(w)] && TakenOff(old(arrays), arrays, w)
    {
      replies := replies + [Answer(w)];
      var todo := w.items.Keys;
      while todo != {}
        invariant todo <= w.items.Keys && replies == old(replies) + [Answer(w)]
        invariant forall x :: ArrayOf(arrays, x)
                    == if Names(w, x) && x.id !in todo then Without(ArrayOf(old(arrays), x), w.id)
                      else ArrayOf(old(arrays), x)
        decreases |todo|
      {
        var o :| o in todo;
        todo := todo - {o};
        RemoveWaitRequestForObject(Key(o, w.items[o].kind), w.id);
      }
    }

    method HandleTimeout(id: WaitId)
      requires Valid() && Enabled(TheState(), TimedOut(id))
      modifies this
      ensures Valid() && TheState() == Step(old(TheState()), TimedOut(id))
    {
      TimeOutKeeps(TheState(), id);
      hide AllPending, AllPrompt, AnsweredOnce, Indexed, TakenOff;
      var i := Position(waits, id);
      ghost var before := arrays;
      ReturnFromWait(waits[i]);
      IndexedAfterDrop(before, arrays, waits, i, next);
      waits := Drop(waits, i);
    }

    /** Walk the objects of a new request in whatever order. */
    method EnterWait(kinds: map<ObjectId, Kind>, target: int) returns (w: Wait)
      modifies `arrays
      ensures w == NewWait(TheState(), kinds, target)
      ensures Entered(old(arrays), arrays, kinds, kinds.Keys, here, next)
    {
      hide Entered, Known, Filled, NewWait;
      var items: map<ObjectId, Item> := map[];
      var satisfied := 0;
      var todo := kinds.Keys;
      EnteredNothing(arrays, kinds, here, next);
      FilledNothing(kinds, here);
      assert kinds.Keys - todo == {};
      while todo != {}
        invariant todo <= kinds.Keys && Filled(items, kinds, kinds.Keys - todo, here)
        invariant satisfied == |Known(items)|
        invariant Entered(old(arrays), arrays, kinds, kinds.Keys - todo, here, next)
        decreases |todo|
      {
        var o :| o in todo;
        ghost var done := kinds.Keys - todo;
        EnteredOne(old(arrays), arrays, kinds, done, here, next, o);
        FilledOne(items, kinds, done, here, o);
        todo := todo - {o};
        assert kinds.Keys - todo == done + {o};
        if o in here {
          items := items[o := Item(kinds[o], IsLocal)];
          satisfied := satisfied + 1;
        } else {
          items := items[o := Item(kinds[o], Nonexistent)];
          AddWaitRequestForObject(Key(o, kinds[o]));
        }
      }
      assert kinds.Keys - todo == kinds.Keys;
      w := Wait(next, items, target, satisfied);
      FilledAll(TheState(), items, kinds, target);
    }

    method AddWaitRequestForObject(key: Key)
      modifies `arrays
      ensures arrays == old(arrays)[key := ArrayOf(old(arrays), key) + [next]]
    {
      if key !in arrays {
        arrays := arrays[key := []];
      }
      arrays := arrays[key := arrays[key] + [next]];
      assert arrays == old(arrays)[key := ArrayOf(old(arrays), key) + [next]];
    }

    method ProcessWaitRequest(kinds: map<ObjectId, Kind>, target: int)
      requires Valid()
      modifies this
      ensures Valid() && TheState() == Step(old(TheState()), Arrived(kinds, target))
    {
      hide AllPending, AllPrompt, AnsweredOnce, Indexed, Entered, NewWait, Ascending;
      ghost var s, before := TheState(), arrays;
      ArriveKeeps(s, kinds, target);
      var w := EnterWait(kinds, target);
      NewWaitId(s, kinds, target);
      StartWait(w, before, s, kinds);
    }

    /** Answer a new request at once, or keep it. */
    method StartWait(w: Wait, ghost before: Arrays, ghost s: State, ghost kinds: map<ObjectId, Kind>)
      requires w == NewWait(s, kinds, w.target) && s == TheState() && w.id == next
      requires Indexed(before, waits) && Ascending(waits, next) &&
        Entered(before, arrays, kinds, kinds.Keys, here, next)
      modifies `waits, `arrays, `replies, `next
      ensures TheState() == Arrive(s, kinds, w.target) && Indexed(arrays, waits)
    {
      hide Indexed, TakenOff, Entered, NewWait, LacksKey, Ascending, ArrayOf;
      EnteredMeans(before, arrays, s, kinds, w.target);
      next := next + 1;
      if w.satisfied >= w.target {
        ghost var entered := arrays;
        ReturnFromWait(w);
        NewWaitLeaves(before, entered, arrays, waits, w);
      } else {
        NewWaitListed(before, arrays, waits, w);
        waits := waits + [w];
      }
    }

    method HandleAdded(o: ObjectId)
      requires Valid() && Enabled(TheState(), Added(o))
      modifies this
      ensures Valid() && TheState() == Step(old(TheState()), Added(o))
    {
      AddedKeeps(TheState(), o);
      PassKeeps(TheState().(here := here + {o}), o, Local, IsLocal);
      hide AllPending, AllPrompt, AnsweredOnce, Indexed, Ascending, StillWaiting, AnsweredBy;
      here := here + {o};
      UpdateObjectWaitRequests(o, Local, IsLocal);
      UpdateObjectWaitRequests(o, Anywhere, IsLocal);
    }

    method HandleRemoved(o: ObjectId)
      requires Valid()
      modifies `here
      ensures Valid() && TheState() == Step(old(TheState()), Removed(o))
    {
      StepKeeps(TheState(), Removed(o));
      hide AllPending, AllPrompt, AnsweredOnce, Indexed, Ascending;
      here := here - {o};
    }

    method HandleSeenElsewhere(o: ObjectId)
      requires Valid()
      modifies this
      ensures Valid() && TheState() == Step(old(TheState()), SeenElsewhere(o))
    {
      StepKeeps(TheState(), SeenElsewhere(o));
      hide AllPending, AllPrompt, AnsweredOnce, Indexed, Ascending, StillWaiting, AnsweredBy;
      UpdateObjectWaitRequests(o, Anywhere, IsRemote);
    }

    /** Tell every request in the array. Answering one removes it from the array while the walk goes
        on, so the position advances only past those that stay. */
    method UpdateObjectWaitRequests(o: ObjectId, kind: Kind, status: Status)
      requires Indexed(arrays, waits) && Ascending(waits, next) && status != Nonexistent
      modifies `arrays, `waits, `replies
      ensures TheState() == Update(old(TheState()), o, kind, status) && Indexed(arrays, waits)
    {
      hide Indexed, Ascending, Walk, ArrayOf, ServeList, WaitersOf, StillWaiting, AnsweredBy;
      var key := Key(o, kind);
      ghost var list := ArrayOf(arrays, key);
      ghost var shadow := waits;
      ghost var start := Work(waits, replies);
      WalkStarts(arrays, waits, key, next);
      var count := |ArrayOf(arrays, key)|;
      var position := 0;
      assert list[0..] == list;
      for i := 0 to count
        invariant Walk(arrays, shadow, waits, key, list[i..], position, next)
        invariant ServeList(list[i..], Work(waits, replies), o, status) == ServeList(list, start, o, status)
      {
        assert list[i..][1..] == list[i + 1..];
        position, shadow := TellNext(key, status, position, shadow, list[i..]);
      }
      assert list[count..] == [];
      WalkEnds(arrays, shadow, Work(waits, replies), key, position, next, start, status);
      arrays := arrays - {key};
    }

    /** One turn of the walk. */
    method TellNext(key: Key, status: Status, position: nat, ghost shadow: seq<Wait>, ghost rest: seq<WaitId>)
      returns (position': nat, ghost shadow': seq<Wait>)
      requires Walk(arrays, shadow, waits, key, rest, position, next) && rest != [] && status != Nonexistent
      modifies `arrays, `waits, `replies
      ensures Walk(arrays, shadow', waits, key, rest[1..], position', next)
      ensures ServeList(rest[1..], Work(waits, replies), key.id, status)
           == old(ServeList(rest, Work(waits, replies), key.id, status))
    {
      hide Walk, ArrayOf, ServeList, TakenOff, Live;
      ghost var k, before := Work(waits, replies), arrays;
      ghost var p := WalkMeets(arrays, shadow, waits, key, rest, position, next);
      assert CanServe(rest, k, key.id);
      ServeListStep(rest, k, key.id, status);
      var i := Position(waits, ArrayOf(arrays, key)[position]);
      assert waits[i].items[key.id].status == Nonexistent;
      var w := Fill(waits[i], key.id, status);
      if w.satisfied == w.target {
        ReturnFromWait(w);
        FillTakenOff(before, arrays, waits[i], key, status);
        WalkAnswers(before, arrays, shadow, waits, key, rest, position, next, p);
        waits := Drop(waits, i);
        position', shadow' := position, Drop(shadow, p);
      } else {
        WalkServes(arrays, shadow, waits, key, rest, position, next, p, status);
        waits := waits[i := w];
        position', shadow' := position + 1, shadow;
      }
    }
  }

  lemma FillTakenOff(arrays: Arrays, arrays': Arrays, w: Wait, key: Key, status: Status)
    requires LacksKey(w, key) && status != Nonexistent && TakenOff(arrays, arrays', Fill(w, key.id, status))
    ensures TakenOff(arrays, arrays', w)
  {
    FillNames(w, key, status);
    SameTakenOff(arrays, arrays', w, Fill(w, key.id, status));
  }

  /** The statuses that a new request starts with, for the objects looked at. */
  ghost predicate Filled(items: map<ObjectId, Item>, kinds: map<ObjectId, Kind>, done: set<ObjectId>,
                         here: set<ObjectId>) {
    && done <= kinds.Keys && items.Keys == done
    && (forall o :: o in items ==> items[o] == Item(kinds[o], if o in here then IsLocal else Nonexistent))
  }

  lemma FilledNothing(kinds: map<ObjectId, Kind>, here: set<ObjectId>)
    ensures Filled(map[], kinds, {}, here) && Known(map[]) == {}
  {
  }

  lemma FilledOne(items: map<ObjectId, Item>, kinds: map<ObjectId, Kind>, done: set<ObjectId>, here: set<ObjectId>,
                  o: ObjectId)
    requires Filled(items, kinds, done, here) && o in kinds && o !in done
    ensures
      var item := Item(kinds[o], if o in here then IsLocal else Nonexistent);
      && Filled(items[o := item], kinds, done + {o}, here)
      && |Known(items[o := item])| == |Known(items)| + if o in here then 1 else 0
  {
    var item := Item(kinds[o], if o in here then IsLocal else Nonexistent);
    KnownOne(items, o, item);
    hide Known;
    assert items[o := item].Keys == done + {o};
  }

  lemma FilledAll(s: State, items: map<ObjectId, Item>, kinds: map<ObjectId, Kind>, target: int)
    requires Filled(items, kinds, kinds.Keys, s.here)
    ensures NewWait(s, kinds, target) == Wait(s.next, items, target, |Known(items)|)
  {
    assert items == NewWait(s, kinds, target).items;
  }

  lemma EnteredNothing(arrays: Arrays, kinds: map<ObjectId, Kind>, here: set<ObjectId>, id: WaitId)
    ensures Entered(arrays, arrays, kinds, {}, here, id)
  {
  }

  lemma KnownOne(items: map<ObjectId, Item>, o: ObjectId, item: Item)
    requires o !in items
    ensures Known(items[o := item]) == Known(items) + (if item.status != Nonexistent then {o} else {})
    ensures |Known(items[o := item])| == |Known(items)| + (if item.status != Nonexistent then 1 else 0)
  {
    assert Known(items[o := item]) == Known(items) + (if item.status != Nonexistent then {o} else {});
  }

  lemma NewWaitId(s: State, kinds: map<ObjectId, Kind>, target: int)
    ensures NewWait(s, kinds, target).id == s.next && NewWait(s, kinds, target).target == target
  {
  }
}
