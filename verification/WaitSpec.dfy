/**
 The wait requests of a plasma manager as a value: each names objects, says for each whether it
 must become local or just exist somewhere, and is answered when enough of them do.
 */
module WaitSpec {
  import opened IdLists

  type ObjectId = nat
  type WaitId = nat

  datatype Kind = Local | Anywhere

  datatype Status = Nonexistent | IsLocal | IsRemote

  datatype Item = Item(kind: Kind, status: Status)

  datatype Wait = Wait(id: WaitId, items: map<ObjectId, Item>, target: int, satisfied: nat)

  datatype Reply = Reply(id: WaitId, items: map<ObjectId, Item>)

  /** `here` are the local objects, `waits` the unanswered requests in order of arrival. */
  datatype State = State(here: set<ObjectId>, waits: seq<Wait>, next: WaitId, replies: seq<Reply>)

  datatype Event =
    | Arrived(kinds: map<ObjectId, Kind>, target: int)
    | TimedOut(wait: WaitId)
    | Added(id: ObjectId)
    | Removed(id: ObjectId)
    | SeenElsewhere(id: ObjectId)

  predicate Lacks(w: Wait, o: ObjectId, kind: Kind) {
    o in w.items && w.items[o] == Item(kind, Nonexistent)
  }

  function Known(items: map<ObjectId, Item>): set<ObjectId> {
    set o | o in items && items[o].status != Nonexistent
  }

  function Answer(w: Wait): Reply {
    Reply(w.id, w.items)
  }

  // ---- Transitions ----

  function NewWait(s: State, kinds: map<ObjectId, Kind>, target: int): Wait {
    var items := map o | o in kinds :: Item(kinds[o], if o in s.here then IsLocal else Nonexistent);
    Wait(s.next, items, target, |Known(items)|)
  }

  function Arrive(s: State, kinds: map<ObjectId, Kind>, target: int): State {
    var w := NewWait(s, kinds, target);
    var s' := s.(next := s.next + 1);
    if w.satisfied >= target then s'.(replies := s.replies + [Answer(w)]) else s'.(waits := s.waits + [w])
  }

  function Fill(w: Wait, o: ObjectId, status: Status): Wait
    requires o in w.items
  {
    w.(items := w.items[o := w.items[o].(status := status)], satisfied := w.satisfied + 1)
  }

  function Updated(w: Wait, o: ObjectId, kind: Kind, status: Status): (u: Wait)
    ensures u.id == w.id
  {
    if Lacks(w, o, kind) then Fill(w, o, status) else w
  }

  predicate CompletedBy(w: Wait, o: ObjectId, kind: Kind) {
    Lacks(w, o, kind) && w.satisfied + 1 == w.target
  }

  function StillWaiting(ws: seq<Wait>, o: ObjectId, kind: Kind, status: Status): seq<Wait> {
    if ws == [] then []
    else (if CompletedBy(ws[0], o, kind) then [] else [Updated(ws[0], o, kind, status)])
         + StillWaiting(ws[1..], o, kind, status)
  }

  function AnsweredBy(ws: seq<Wait>, o: ObjectId, kind: Kind, status: Status): seq<Reply> {
    if ws == [] then []
    else (if CompletedBy(ws[0], o, kind) then [Answer(Fill(ws[0], o, status))] else [])
         + AnsweredBy(ws[1..], o, kind, status)
  }

  /** Tell every request that lacks the object in this way. */
  function Update(s: State, o: ObjectId, kind: Kind, status: Status): State {
    s.(waits := StillWaiting(s.waits, o, kind, status), replies := s.replies + AnsweredBy(s.waits, o, kind, status))
  }

  predicate Live(ws: seq<Wait>, id: WaitId) {
    exists k :: 0 <= k < |ws| && ws[k].id == id
  }

  function Position(ws: seq<Wait>, id: WaitId): (i: nat)
    requires Live(ws, id)
    ensures i < |ws| && ws[i].id == id
  {
    if ws[0].id == id then 0
    else
      assert Live(ws[1..], id) by {
        var k :| 0 <= k < |ws| && ws[k].id == id;
        assert ws[1..][k - 1].id == id;
      }
      1 + Position(ws[1..], id)
  }

  function Drop(ws: seq<Wait>, i: nat): seq<Wait>
    requires i < |ws|
  {
    ws[..i] + ws[i + 1..]
  }

  /** Notifications about one object alternate. */
  predicate Enabled(s: State, e: Event) {
    match e
    case TimedOut(id) => Live(s.waits, id)
    case Added(o) => o !in s.here
    case _ => true
  }

  function Step(s: State, e: Event): State
    requires Enabled(s, e)
  {
    match e
    case Arrived(kinds, target) => Arrive(s, kinds, target)
    case TimedOut(id) =>
      var i := Position(s.waits, id);
      s.(waits := Drop(s.waits, i), replies := s.replies + [Answer(s.waits[i])])
    case Added(o) => Update(Update(s.(here := s.here + {o}), o, Local, IsLocal), o, Anywhere, IsLocal)
    case Removed(o) => s.(here := s.here - {o})
    case SeenElsewhere(o) => Update(s, o, Anywhere, IsRemote)
  }

  // ---- The invariant ----

  /** The counter is the number of objects with a known status, and is below the target. */
  predicate Pending(w: Wait) {
    w.satisfied == |Known(w.items)| && w.satisfied < w.target
  }

  /** Nothing that a request still lacks, in whatever way, is local. */
  predicate Prompt(here: set<ObjectId>, w: Wait) {
    forall o :: o in w.items && w.items[o].status == Nonexistent ==> o !in here
  }

  predicate Ascending(ws: seq<Wait>, next: WaitId) {
    && (forall i, j :: 0 <= i < j < |ws| ==> ws[i].id < ws[j].id)
    && (forall i :: 0 <= i < |ws| ==> ws[i].id < next)
  }

  function WaitIds(ws: seq<Wait>): (r: seq<WaitId>)
    ensures |r| == |ws|
  {
    seq(|ws|, i requires 0 <= i < |ws| => ws[i].id)
  }

  function ReplyIds(rs: seq<Reply>): (r: seq<WaitId>)
    ensures |r| == |rs|
  {
    seq(|rs|, i requires 0 <= i < |rs| => rs[i].id)
  }

  function UpTo(n: nat): seq<nat> {
    seq(n, i => i)
  }

  /** Every request ever made is either waiting or has been answered, once. */
  predicate AnsweredOnce(s: State) {
    multiset(WaitIds(s.waits)) + multiset(ReplyIds(s.replies)) == multiset(UpTo(s.next))
  }

  predicate AllPending(ws: seq<Wait>) {
    forall i :: 0 <= i < |ws| ==> Pending(ws[i])
  }

  predicate AllPrompt(here: set<ObjectId>, ws: seq<Wait>) {
    forall i :: 0 <= i < |ws| ==> Prompt(here, ws[i])
  }

  predicate Inv(s: State) {
    Ascending(s.waits, s.next) && AllPending(s.waits) && AllPrompt(s.here, s.waits) && AnsweredOnce(s)
  }

  // ---- One pass over the requests ----

  lemma FillCounts(w: Wait, o: ObjectId, kind: Kind, status: Status)
    requires Lacks(w, o, kind) && w.satisfied == |Known(w.items)| && status != Nonexistent
    ensures Fill(w, o, status).satisfied == |Known(Fill(w, o, status).items)|
    ensures Known(Fill(w, o, status).items) == Known(w.items) + {o}
  {
    assert Known(Fill(w, o, status).items) == Known(w.items) + {o};
  }

  lemma PassLoses(ws: seq<Wait>, o: ObjectId, kind: Kind, status: Status)
    requires ws != [] && CompletedBy(ws[0], o, kind)
    ensures StillWaiting(ws, o, kind, status) == StillWaiting(ws[1..], o, kind, status)
    ensures AnsweredBy(ws, o, kind, status)
         == [Answer(Fill(ws[0], o, status))] + AnsweredBy(ws[1..], o, kind, status)
  {
  }

  lemma PassKeepsFirst(ws: seq<Wait>, o: ObjectId, kind: Kind, status: Status)
    requires ws != [] && !CompletedBy(ws[0], o, kind)
    ensures StillWaiting(ws, o, kind, status)
      == [Updated(ws[0], o, kind, status)] + StillWaiting(ws[1..], o, kind, status)
    ensures AnsweredBy(ws, o, kind, status) == AnsweredBy(ws[1..], o, kind, status)
  {
  }

  /** What stays comes from one request, and has been told. */
  lemma {:induction false} StayersAreUpdated(ws: seq<Wait>, o: ObjectId, kind: Kind, status: Status, k: nat)
    returns (i: nat)
    requires k < |StillWaiting(ws, o, kind, status)|
    ensures i < |ws| && !CompletedBy(ws[i], o, kind)
    ensures StillWaiting(ws, o, kind, status)[k] == Updated(ws[i], o, kind, status)
  {
    hide Updated, CompletedBy;
    if CompletedBy(ws[0], o, kind) {
      PassLoses(ws, o, kind, status);
      var j := StayersAreUpdated(ws[1..], o, kind, status, k);
      i := j + 1;
    } else {
      PassKeepsFirst(ws, o, kind, status);
      if k == 0 {
        i := 0;
      } else {
        var j := StayersAreUpdated(ws[1..], o, kind, status, k - 1);
        i := j + 1;
      }
    }
  }

  /** What is answered lacked exactly this object. */
  lemma {:induction false} AnsweredWasCompleted(ws: seq<Wait>, o: ObjectId, kind: Kind, status: Status, k: nat)
    returns (i: nat)
    requires k < |AnsweredBy(ws, o, kind, status)|
    ensures i < |ws| && CompletedBy(ws[i], o, kind)
    ensures AnsweredBy(ws, o, kind, status)[k] == Answer(Fill(ws[i], o, status))
  {
    if CompletedBy(ws[0], o, kind) {
      PassLoses(ws, o, kind, status);
      if k == 0 {
        i := 0;
      } else {
        var j := AnsweredWasCompleted(ws[1..], o, kind, status, k - 1);
        i := j + 1;
      }
    } else {
      PassKeepsFirst(ws, o, kind, status);
      var j := AnsweredWasCompleted(ws[1..], o, kind, status, k);
      i := j + 1;
    }
  }

  predicate Above(ws: seq<Wait>, low: WaitId) {
    forall k :: 0 <= k < |ws| ==> low < ws[k].id
  }

  lemma AscendingTail(ws: seq<Wait>, next: WaitId)
    requires Ascending(ws, next) && ws != []
    ensures Ascending(ws[1..], next) && Above(ws[1..], ws[0].id) && ws[0].id < next
  {
  }

  lemma {:induction false} PassAbove(ws: seq<Wait>, o: ObjectId, kind: Kind, status: Status, low: WaitId)
    requires Above(ws, low)
    ensures Above(StillWaiting(ws, o, kind, status), low)
  {
    var ws' := StillWaiting(ws, o, kind, status);
    hide StillWaiting, Updated, CompletedBy;
    forall k | 0 <= k < |ws'| ensures low < ws'[k].id {
      var i := StayersAreUpdated(ws, o, kind, status, k);
    }
  }

  lemma {:induction false} PassAscends(ws: seq<Wait>, o: ObjectId, kind: Kind, status: Status, next: WaitId)
    requires Ascending(ws, next)
    ensures Ascending(StillWaiting(ws, o, kind, status), next)
  {
    if ws != [] {
      AscendingTail(ws, next);
      hide StillWaiting, Updated, CompletedBy, Ascending, Above;
      PassAscends(ws[1..], o, kind, status, next);
      PassAbove(ws[1..], o, kind, status, ws[0].id);
      if CompletedBy(ws[0], o, kind) {
        PassLoses(ws, o, kind, status);
      } else {
        PassKeepsFirst(ws, o, kind, status);
        AscendingCons(Updated(ws[0], o, kind, status), StillWaiting(ws[1..], o, kind, status), next);
      }
    }
  }

  lemma AscendingCons(w: Wait, rest: seq<Wait>, next: WaitId)
    requires Ascending(rest, next) && w.id < next && Above(rest, w.id)
    ensures Ascending([w] + rest, next)
  {
  }

  lemma {:induction false} PassAnswersOnce(ws: seq<Wait>, o: ObjectId, kind: Kind, status: Status)
    ensures multiset(WaitIds(ws))
         == multiset(WaitIds(StillWaiting(ws, o, kind, status))) + multiset(ReplyIds(AnsweredBy(ws, o, kind, status)))
  {
    if ws != [] {
      PassAnswersOnce(ws[1..], o, kind, status);
      hide StillWaiting, AnsweredBy, CompletedBy, Updated, WaitIds, ReplyIds;
      assert ws == [ws[0]] + ws[1..];
      ConsWait(ws[0], ws[1..]);
      if CompletedBy(ws[0], o, kind) {
        PassLoses(ws, o, kind, status);
        ConsReply(ws, o, kind, status);
      } else {
        PassKeepsFirst(ws, o, kind, status);
        ConsWait(Updated(ws[0], o, kind, status), StillWaiting(ws[1..], o, kind, status));
      }
    }
  }

  lemma ConsWait(w: Wait, ws: seq<Wait>)
    ensures multiset(WaitIds([w] + ws)) == multiset{w.id} + multiset(WaitIds(ws))
  {
    assert WaitIds([w] + ws) == [w.id] + WaitIds(ws);
  }

  lemma ConsReply(ws: seq<Wait>, o: ObjectId, kind: Kind, status: Status)
    requires ws != [] && CompletedBy(ws[0], o, kind)
    ensures multiset(ReplyIds(AnsweredBy(ws, o, kind, status)))
         == multiset{ws[0].id} + multiset(ReplyIds(AnsweredBy(ws[1..], o, kind, status)))
  {
    PassLoses(ws, o, kind, status);
    var rest := AnsweredBy(ws[1..], o, kind, status);
    var first := Answer(Fill(ws[0], o, status));
    assert ReplyIds([first] + rest) == [ws[0].id] + ReplyIds(rest);
  }

  lemma UpdatedIsPending(w: Wait, o: ObjectId, kind: Kind, status: Status)
    requires Pending(w) && !CompletedBy(w, o, kind) && status != Nonexistent
    ensures Pending(Updated(w, o, kind, status))
  {
    if Lacks(w, o, kind) {
      FillCounts(w, o, kind, status);
    }
  }

  /** No request lacks the object in this way after a pass, and none lacks more than before. */
  lemma UpdatedLacks(w: Wait, o: ObjectId, kind: Kind, status: Status, p: ObjectId, k: Kind)
    requires status != Nonexistent
    ensures Lacks(Updated(w, o, kind, status), p, k) <==> Lacks(w, p, k) && !(p == o && k == kind)
  {
  }

  lemma UpdateAnswersOnce(s: State, o: ObjectId, kind: Kind, status: Status)
    requires AnsweredOnce(s)
    ensures AnsweredOnce(Update(s, o, kind, status))
  {
    hide StillWaiting, AnsweredBy;
    PassAnswersOnce(s.waits, o, kind, status);
    var added := AnsweredBy(s.waits, o, kind, status);
    assert ReplyIds(s.replies + added) == ReplyIds(s.replies) + ReplyIds(added);
  }

  lemma PassKeeps(s: State, o: ObjectId, kind: Kind, status: Status)
    requires Ascending(s.waits, s.next) && AllPending(s.waits) && AnsweredOnce(s) && status != Nonexistent
    ensures
      var s' := Update(s, o, kind, status);
      Ascending(s'.waits, s'.next) && AllPending(s'.waits) && AnsweredOnce(s')
  {
    hide StillWaiting, AnsweredBy, Ascending, Pending, CompletedBy, Updated, AnsweredOnce;
    var ws := StillWaiting(s.waits, o, kind, status);
    PassAscends(s.waits, o, kind, status, s.next);
    UpdateAnswersOnce(s, o, kind, status);
    forall k | 0 <= k < |ws| ensures Pending(ws[k]) {
      var i := StayersAreUpdated(s.waits, o, kind, status, k);
      UpdatedIsPending(s.waits[i], o, kind, status);
    }
  }

  /** After a pass nothing lacks `(o, kind)`; what is lacked was lacked before. */
  lemma PassFills(ws: seq<Wait>, o: ObjectId, kind: Kind, status: Status, k: nat, p: ObjectId, q: Kind)
    requires status != Nonexistent && k < |StillWaiting(ws, o, kind, status)|
    requires Lacks(StillWaiting(ws, o, kind, status)[k], p, q)
    ensures !(p == o && q == kind) && exists i :: 0 <= i < |ws| && Lacks(ws[i], p, q)
  {
    var i := StayersAreUpdated(ws, o, kind, status, k);
    UpdatedLacks(ws[i], o, kind, status, p, q);
  }

  lemma PromptMeans(here: set<ObjectId>, ws: seq<Wait>)
    ensures AllPrompt(here, ws) <==>
      forall i, o, q :: 0 <= i < |ws| && Lacks(ws[i], o, q) ==> o !in here
  {
    if forall i, o, q :: 0 <= i < |ws| && Lacks(ws[i], o, q) ==> o !in here {
      forall i | 0 <= i < |ws| ensures Prompt(here, ws[i]) {
        forall o | o in ws[i].items && ws[i].items[o].status == Nonexistent ensures o !in here {
          assert Lacks(ws[i], o, ws[i].items[o].kind);
        }
      }
    }
  }

  // ---- Every transition keeps the invariant ----

  lemma ArriveKeeps(s: State, kinds: map<ObjectId, Kind>, target: int)
    requires Inv(s)
    ensures Inv(Arrive(s, kinds, target))
  {
    var w, s' := NewWait(s, kinds, target), Arrive(s, kinds, target);
    assert Prompt(s.here, w);
    assert UpTo(s.next + 1) == UpTo(s.next) + [s.next];
    if w.satisfied >= target {
      assert ReplyIds(s'.replies) == ReplyIds(s.replies) + [s.next];
    } else {
      assert WaitIds(s'.waits) == WaitIds(s.waits) + [s.next];
      assert Pending(w);
    }
  }

  lemma DropIds(ws: seq<Wait>, i: nat)
    requires i < |ws|
    ensures multiset(WaitIds(ws)) == multiset(WaitIds(Drop(ws, i))) + multiset{ws[i].id}
  {
    var a, b := WaitIds(ws[..i]), WaitIds(ws[i + 1..]);
    assert WaitIds(ws) == a + ([ws[i].id] + b);
    assert WaitIds(Drop(ws, i)) == a + b;
  }

  lemma TimeOutKeeps(s: State, id: WaitId)
    requires Inv(s) && Live(s.waits, id)
    ensures Inv(Step(s, TimedOut(id)))
  {
    var i := Position(s.waits, id);
    var ws := Drop(s.waits, i);
    DropIds(s.waits, i);
    assert ReplyIds(s.replies + [Answer(s.waits[i])]) == ReplyIds(s.replies) + [id];
    hide Pending, Prompt;
    forall k | 0 <= k < |ws| ensures ws[k] == s.waits[if k < i then k else k + 1] {}
  }

  lemma PassPrompt(here: set<ObjectId>, ws: seq<Wait>, o: ObjectId, kind: Kind, status: Status)
    requires status != Nonexistent && AllPrompt(here, ws)
    ensures AllPrompt(here, StillWaiting(ws, o, kind, status))
  {
    var ws' := StillWaiting(ws, o, kind, status);
    PromptMeans(here, ws);
    forall k, p, q | 0 <= k < |ws'| && Lacks(ws'[k], p, q) ensures p !in here {
      PassFills(ws, o, kind, status, k, p, q);
    }
    PromptMeans(here, ws');
  }

  /** An object that becomes local is told to both kinds of requests for it. */
  lemma BothPassesPrompt(here: set<ObjectId>, ws: seq<Wait>, o: ObjectId)
    requires AllPrompt(here, ws)
    ensures AllPrompt(here + {o}, StillWaiting(StillWaiting(ws, o, Local, IsLocal), o, Anywhere, IsLocal))
  {
    var ws1 := StillWaiting(ws, o, Local, IsLocal);
    var ws2 := StillWaiting(ws1, o, Anywhere, IsLocal);
    PromptMeans(here, ws);
    hide StillWaiting, AllPrompt, Lacks;
    forall k, p, q | 0 <= k < |ws2| && Lacks(ws2[k], p, q) ensures p !in here + {o} {
      PassFills(ws1, o, Anywhere, IsLocal, k, p, q);
      var i :| 0 <= i < |ws1| && Lacks(ws1[i], p, q);
      PassFills(ws, o, Local, IsLocal, i, p, q);
    }
    PromptMeans(here + {o}, ws2);
  }

  lemma AddedKeeps(s: State, o: ObjectId)
    requires Inv(s) && o !in s.here
    ensures Inv(Step(s, Added(o)))
  {
    var s1 := Update(s.(here := s.here + {o}), o, Local, IsLocal);
    BothPassesPrompt(s.here, s.waits, o);
    hide StillWaiting, AnsweredBy, Ascending, AllPending, AllPrompt;
    PassKeeps(s.(here := s.here + {o}), o, Local, IsLocal);
    PassKeeps(s1, o, Anywhere, IsLocal);
  }

  lemma StepKeeps(s: State, e: Event)
    requires Inv(s) && Enabled(s, e)
    ensures Inv(Step(s, e))
  {
    match e
    case Arrived(kinds, target) => ArriveKeeps(s, kinds, target);
    case TimedOut(id) => TimeOutKeeps(s, id);
    case Added(o) => AddedKeeps(s, o);
    case Removed(o) =>
      hide Pending, Ascending, WaitIds, ReplyIds;
    case SeenElsewhere(o) =>
      PassKeeps(s, o, Anywhere, IsRemote);
      PassPrompt(s.here, s.waits, o, Anywhere, IsRemote);
  }

  predicate Feasible(s: State, es: seq<Event>)
    decreases |es|
  {
    es == [] || (Enabled(s, es[0]) && Feasible(Step(s, es[0]), es[1..]))
  }

  function Run(s: State, es: seq<Event>): State
    requires Feasible(s, es)
    decreases |es|
  {
    if es == [] then s else Run(Step(s, es[0]), es[1..])
  }

  /** Over every run each request is answered once, counts its known objects and stays below its
      target while it waits, and lacks nothing that is local. */
  lemma {:induction false} RunKeeps(s: State, es: seq<Event>)
    requires Inv(s) && Feasible(s, es)
    ensures Inv(Run(s, es))
    decreases |es|
  {
    if es != [] {
      StepKeeps(s, es[0]);
      RunKeeps(Step(s, es[0]), es[1..]);
    }
  }

  // ---- When a request is answered ----

  /** A pass answers a request exactly when it brings the number of known objects to the target. */
  lemma PassAnswersAtTarget(ws: seq<Wait>, o: ObjectId, kind: Kind, status: Status, k: nat)
    requires AllPending(ws) && status != Nonexistent && k < |AnsweredBy(ws, o, kind, status)|
    ensures exists i :: 0 <= i < |ws| && ws[i].id == AnsweredBy(ws, o, kind, status)[k].id
              && |Known(ws[i].items)| + 1 == |Known(AnsweredBy(ws, o, kind, status)[k].items)| == ws[i].target
  {
    var i := AnsweredWasCompleted(ws, o, kind, status, k);
    assert Pending(ws[i]);
    FillCounts(ws[i], o, kind, status);
    hide AnsweredBy, Known;
    assert ws[i].id == AnsweredBy(ws, o, kind, status)[k].id;
  }

  /** And every request that the pass brings to its target is answered. */
  lemma {:induction false} TargetMeansAnswered(ws: seq<Wait>, o: ObjectId, kind: Kind, status: Status, i: nat)
    requires i < |ws| && Pending(ws[i]) && Lacks(ws[i], o, kind) && |Known(ws[i].items)| + 1 == ws[i].target
    ensures Answer(Fill(ws[i], o, status)) in AnsweredBy(ws, o, kind, status)
  {
    assert CompletedBy(ws[i], o, kind);
    CompletedIsAnswered(ws, o, kind, status, i);
  }

  lemma {:induction false} CompletedIsAnswered(ws: seq<Wait>, o: ObjectId, kind: Kind, status: Status, i: nat)
    requires i < |ws| && CompletedBy(ws[i], o, kind)
    ensures Answer(Fill(ws[i], o, status)) in AnsweredBy(ws, o, kind, status)
  {
    hide AnsweredBy, CompletedBy, Fill, Answer, StillWaiting;
    if i > 0 {
      CompletedIsAnswered(ws[1..], o, kind, status, i - 1);
    }
    if CompletedBy(ws[0], o, kind) {
      PassLoses(ws, o, kind, status);
    } else {
      PassKeepsFirst(ws, o, kind, status);
    }
  }

  // ---- Waits that repeat an id ----

  /** One entry of a wait message. */
  datatype Asked = Asked(id: ObjectId, kind: Kind)

  /** The entries are read into a hash map, so the last of several about one object counts. */
  function Parse(asked: seq<Asked>): map<ObjectId, Kind> {
    if asked == [] then map[]
    else Parse(asked[..|asked| - 1])[asked[|asked| - 1].id := asked[|asked| - 1].kind]
  }

  function AskedIds(asked: seq<Asked>): (r: seq<ObjectId>)
    ensures |r| == |asked|
  {
    seq(|asked|, i requires 0 <= i < |asked| => asked[i].id)
  }

  lemma {:induction false} ParseKeys(asked: seq<Asked>)
    ensures Parse(asked).Keys == AsSet(AskedIds(asked))
  {
    if asked != [] {
      var k := |asked| - 1;
      ParseKeys(asked[..k]);
      assert AskedIds(asked) == AskedIds(asked[..k]) + [asked[k].id];
      hide AskedIds;
      assert AsSet(AskedIds(asked[..k]) + [asked[k].id]) == AsSet(AskedIds(asked[..k])) + {asked[k].id};
    }
  }

  /** The request with this id, as long as it waits, has this target and names these objects. */
  predicate Origin(ws: seq<Wait>, id: WaitId, target: int, objects: set<ObjectId>) {
    forall i :: 0 <= i < |ws| && ws[i].id == id ==> ws[i].target == target && ws[i].items.Keys == objects
  }

  lemma UpdatedOrigin(w: Wait, o: ObjectId, kind: Kind, status: Status)
    ensures
      var u := Updated(w, o, kind, status);
      u.id == w.id && u.target == w.target && u.items.Keys == w.items.Keys
  {
  }

  lemma PassKeepsOrigin(ws: seq<Wait>, o: ObjectId, kind: Kind, status: Status, id: WaitId, target: int,
                        objects: set<ObjectId>)
    requires Origin(ws, id, target, objects)
    ensures Origin(StillWaiting(ws, o, kind, status), id, target, objects)
  {
    hide StillWaiting, Updated, CompletedBy;
    var ws' := StillWaiting(ws, o, kind, status);
    forall k | 0 <= k < |ws'| && ws'[k].id == id ensures ws'[k].target == target && ws'[k].items.Keys == objects {
      var i := StayersAreUpdated(ws, o, kind, status, k);
      UpdatedOrigin(ws[i], o, kind, status);
    }
  }

  /** A request whose target exceeds the number of its objects is completed by no object. */
  lemma TooHighIsNotCompleted(w: Wait, o: ObjectId, kind: Kind)
    requires Pending(w) && w.target > |w.items|
    ensures !CompletedBy(w, o, kind)
  {
    if Lacks(w, o, kind) {
      assert Known(w.items) + {o} <= w.items.Keys;
      SmallerSubset(Known(w.items) + {o}, w.items.Keys);
    }
  }

  lemma SmallerSubset(a: set<ObjectId>, b: set<ObjectId>)
    requires a <= b
    ensures |a| <= |b|
  {
    assert b == a + (b - a);
  }

  lemma {:induction false} UncompletedStays(ws: seq<Wait>, o: ObjectId, kind: Kind, status: Status, i: nat)
    requires i < |ws| && !CompletedBy(ws[i], o, kind)
    ensures Updated(ws[i], o, kind, status) in StillWaiting(ws, o, kind, status)
  {
    hide AnsweredBy, CompletedBy, Updated, StillWaiting;
    if i > 0 {
      UncompletedStays(ws[1..], o, kind, status, i - 1);
    }
    if CompletedBy(ws[0], o, kind) {
      PassLoses(ws, o, kind, status);
    } else {
      PassKeepsFirst(ws, o, kind, status);
    }
  }

  lemma PassStaysLive(ws: seq<Wait>, o: ObjectId, kind: Kind, status: Status, id: WaitId, target: int,
                      objects: set<ObjectId>)
    requires AllPending(ws) && Origin(ws, id, target, objects) && Live(ws, id) && target > |objects|
    ensures Live(StillWaiting(ws, o, kind, status), id)
  {
    var i, ws' := Position(ws, id), StillWaiting(ws, o, kind, status);
    SameSize(ws[i]);
    TooHighIsNotCompleted(ws[i], o, kind);
    UncompletedStays(ws, o, kind, status, i);
    hide StillWaiting, Position, CompletedBy;
    var k :| 0 <= k < |ws'| && ws'[k] == Updated(ws[i], o, kind, status);
    assert ws'[k].id == id;
  }

  lemma SameSize(w: Wait)
    ensures |w.items| == |w.items.Keys|
  {
  }

  /** The request keeps its target and objects while it waits, and with too high a target it waits
      until its time-out. */
  lemma StepKeepsWaiting(s: State, e: Event, id: WaitId, target: int, objects: set<ObjectId>)
    requires Inv(s) && Enabled(s, e) && id < s.next && Origin(s.waits, id, target, objects) && e != TimedOut(id)
    ensures id < Step(s, e).next && Origin(Step(s, e).waits, id, target, objects)
    ensures Live(s.waits, id) && target > |objects| ==> Live(Step(s, e).waits, id)
  {
    match e
    case Arrived(kinds, t) => ArriveKeepsWaiting(s, kinds, t, id, target, objects);
    case TimedOut(other) => DropKeepsWaiting(s.waits, other, id, target, objects);
    case Added(o) =>
      var s1 := Update(s.(here := s.here + {o}), o, Local, IsLocal);
      PassKeeps(s.(here := s.here + {o}), o, Local, IsLocal);
      UpdateKeepsWaiting(s.(here := s.here + {o}), o, Local, IsLocal, id, target, objects);
      UpdateKeepsWaiting(s1, o, Anywhere, IsLocal, id, target, objects);
    case Removed(o) =>
    case SeenElsewhere(o) => UpdateKeepsWaiting(s, o, Anywhere, IsRemote, id, target, objects);
  }

  lemma UpdateKeepsWaiting(s: State, o: ObjectId, kind: Kind, status: Status, id: WaitId, target: int,
                           objects: set<ObjectId>)
    requires AllPending(s.waits) && Origin(s.waits, id, target, objects)
    ensures Origin(Update(s, o, kind, status).waits, id, target, objects)
    ensures Live(s.waits, id) && target > |objects| ==> Live(Update(s, o, kind, status).waits, id)
  {
    PassKeepsOrigin(s.waits, o, kind, status, id, target, objects);
    if Live(s.waits, id) && target > |objects| {
      PassStaysLive(s.waits, o, kind, status, id, target, objects);
    }
  }

  lemma ArriveKeepsWaiting(s: State, kinds: map<ObjectId, Kind>, t: int, id: WaitId, target: int,
                           objects: set<ObjectId>)
    requires id < s.next && Origin(s.waits, id, target, objects)
    ensures Origin(Arrive(s, kinds, t).waits, id, target, objects)
    ensures Live(s.waits, id) ==> Live(Arrive(s, kinds, t).waits, id)
  {
    if Live(s.waits, id) {
      assert Arrive(s, kinds, t).waits[Position(s.waits, id)].id == id;
    }
  }

  lemma DropKeepsWaiting(ws: seq<Wait>, other: WaitId, id: WaitId, target: int, objects: set<ObjectId>)
    requires Live(ws, other) && other != id && Origin(ws, id, target, objects)
    ensures Origin(Drop(ws, Position(ws, other)), id, target, objects)
    ensures Live(ws, id) ==> Live(Drop(ws, Position(ws, other)), id)
  {
    var i, ws' := Position(ws, other), Drop(ws, Position(ws, other));
    assert forall k :: 0 <= k < |ws'| ==> ws'[k] == ws[if k < i then k else k + 1];
    if Live(ws, id) {
      var k := Position(ws, id);
      assert ws'[if k < i then k else k - 1].id == id;
    }
  }

  lemma {:induction false} RunKeepsWaiting(s: State, es: seq<Event>, id: WaitId, target: int, objects: set<ObjectId>)
    requires Inv(s) && Feasible(s, es) && id < s.next && Origin(s.waits, id, target, objects)
    requires TimedOut(id) !in es
    ensures Inv(Run(s, es)) && Origin(Run(s, es).waits, id, target, objects)
    ensures Live(s.waits, id) && target > |objects| ==> Live(Run(s, es).waits, id)
    decreases |es|
  {
    if es != [] {
      hide Inv, Origin, Live;
      StepKeeps(s, es[0]);
      StepKeepsWaiting(s, es[0], id, target, objects);
      RunKeepsWaiting(Step(s, es[0]), es[1..], id, target, objects);
    }
  }

  /** Of a request that still waits while all its objects are local, the target exceeds their number. */
  lemma AllLocalButWaiting(s: State, id: WaitId, target: int, objects: set<ObjectId>)
    requires Inv(s) && Origin(s.waits, id, target, objects) && Live(s.waits, id) && objects <= s.here
    ensures target > |objects|
  {
    var w := s.waits[Position(s.waits, id)];
    assert Pending(w) && Prompt(s.here, w);
    assert Known(w.items) == w.items.Keys;
  }

  /** In every run, once all objects of a wait are local, the wait has been answered without a time-out,
      if and only if its target is at most the number of different objects it names. */
  lemma AnsweredOnceAllLocalIff(s: State, asked: seq<Asked>, target: int, es: seq<Event>)
    requires Inv(s) && Feasible(Arrive(s, Parse(asked), target), es) && TimedOut(s.next) !in es
    requires AsSet(AskedIds(asked)) <= Run(Arrive(s, Parse(asked), target), es).here
    ensures !Live(Run(Arrive(s, Parse(asked), target), es).waits, s.next) <==> target <= |AsSet(AskedIds(asked))|
  {
    var id, objects, s1 := s.next, AsSet(AskedIds(asked)), Arrive(s, Parse(asked), target);
    ParseKeys(asked);
    StepKeeps(s, Arrived(Parse(asked), target));
    ArrivedOrigin(s, Parse(asked), target);
    hide Inv, Origin, Live, Arrive, AsSet;
    RunKeepsWaiting(s1, es, id, target, objects);
    if Live(Run(s1, es).waits, id) {
      AllLocalButWaiting(Run(s1, es), id, target, objects);
    }
  }

  lemma ArrivedOrigin(s: State, kinds: map<ObjectId, Kind>, target: int)
    requires Inv(s)
    ensures
      var s1 := Arrive(s, kinds, target);
      && s1.next == s.next + 1 && Origin(s1.waits, s.next, target, kinds.Keys)
      && (target > |kinds.Keys| ==> Live(s1.waits, s.next))
  {
    var w, s1 := NewWait(s, kinds, target), Arrive(s, kinds, target);
    assert w.items.Keys == kinds.Keys;
    assert forall i :: 0 <= i < |s.waits| ==> s.waits[i].id < s.next;
    if target > |kinds.Keys| {
      SmallerSubset(Known(w.items), w.items.Keys);
      assert s1.waits[|s.waits|] == w;
    }
  }

  /** A wait for every entry is answered once all its objects are local if and only if no id repeats. */
  lemma WaitForAllIff(s: State, asked: seq<Asked>, es: seq<Event>)
    requires Inv(s) && Feasible(Arrive(s, Parse(asked), |asked|), es) && TimedOut(s.next) !in es
    requires AsSet(AskedIds(asked)) <= Run(Arrive(s, Parse(asked), |asked|), es).here
    ensures !Live(Run(Arrive(s, Parse(asked), |asked|), es).waits, s.next) <==> NoRepeat(AskedIds(asked))
  {
    DistinctIff(AskedIds(asked));
    AnsweredOnceAllLocalIff(s, asked, |asked|, es);
  }

  /** A wait for two entries about one local object is not answered. */
  lemma RepeatedIdWaitsForever()
    ensures
      var s, asked := State({1}, [], 0, []), [Asked(1, Local), Asked(1, Local)];
      Inv(s) && Live(Arrive(s, Parse(asked), 2).waits, 0)
  {
    var s, asked := State({1}, [], 0, []), [Asked(1, Local), Asked(1, Local)];
    assert WaitIds([]) == [] && ReplyIds([]) == [] && UpTo(0) == [];
    assert AskedIds(asked)[0] == 1 == AskedIds(asked)[1];
    assert Run(Arrive(s, Parse(asked), 2), []) == Arrive(s, Parse(asked), 2);
    assert Arrive(s, Parse(asked), 2).here == {1} && AsSet(AskedIds(asked)) == {1};
    hide Parse, Arrive, AskedIds, Inv, Live;
    WaitForAllIff(s, asked, []);
  }
}
