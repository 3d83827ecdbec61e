/**
 The wait requests of a plasma manager told from outside: which objects count as local, and what every
 request and every reply says about each of its objects, as a function of the notifications.
 */
module WaitHistory {
  import opened WaitSpec

  // ---- Which objects are local ----

  predicate Notice(e: Event, o: ObjectId) {
    e == Added(o) || e == Removed(o)
  }

  /** The last notification about `o` says that it was added; or there is none, and it was local before. */
  predicate ReportedHere(es: seq<Event>, o: ObjectId, before: bool) {
    || (exists i :: 0 <= i < |es| && es[i] == Added(o) && forall j :: i < j < |es| ==> !Notice(es[j], o))
    || (before && forall j :: 0 <= j < |es| ==> !Notice(es[j], o))
  }

  lemma {:induction false} RunExtends(s: State, es: seq<Event>, e: Event)
    ensures Feasible(s, es + [e]) <==> Feasible(s, es) && Enabled(Run(s, es), e)
    ensures Feasible(s, es + [e]) ==> Run(s, es + [e]) == Step(Run(s, es), e)
    decreases |es|
  {
    if es == [] {
      assert es + [e] == [e] && [e][1..] == [];
    } else {
      assert (es + [e])[0] == es[0] && (es + [e])[1..] == es[1..] + [e];
      if Enabled(s, es[0]) {
        RunExtends(Step(s, es[0]), es[1..], e);
      }
    }
  }

  lemma ReportedMore(es: seq<Event>, e: Event, o: ObjectId, before: bool)
    ensures ReportedHere(es + [e], o, before) <==> e == Added(o) || (e != Removed(o) && ReportedHere(es, o, before))
  {
    var fs, n := es + [e], |es|;
    assert fs[n] == e && forall i :: 0 <= i < n ==> fs[i] == es[i];
    if ReportedHere(fs, o, before) && e != Added(o) {
      if exists i :: 0 <= i < |fs| && fs[i] == Added(o) && forall j :: i < j < |fs| ==> !Notice(fs[j], o) {
        var i :| 0 <= i < |fs| && fs[i] == Added(o) && forall j :: i < j < |fs| ==> !Notice(fs[j], o);
        assert es[i] == Added(o) && !Notice(fs[n], o);
      } else {
        assert !Notice(fs[n], o);
      }
    }
    if !Notice(e, o) && ReportedHere(es, o, before) {
      if exists i :: 0 <= i < n && es[i] == Added(o) && forall j :: i < j < n ==> !Notice(es[j], o) {
        var i :| 0 <= i < n && es[i] == Added(o) && forall j :: i < j < n ==> !Notice(es[j], o);
        assert fs[i] == Added(o);
      }
    }
  }

  /** Over every run: an object counts as local if and only if the last notification about it says so. */
  lemma {:induction false} RunHereIff(s: State, es: seq<Event>, o: ObjectId)
    requires Feasible(s, es)
    ensures o in Run(s, es).here <==> ReportedHere(es, o, o in s.here)
    decreases |es|
  {
    if es != [] {
      var n := |es| - 1;
      var fs, e := es[..n], es[n];
      assert es == fs + [e];
      RunExtends(s, fs, e);
      RunHereIff(s, fs, o);
      ReportedMore(fs, e, o, o in s.here);
    }
  }

  // ---- What is known about one object of a request ----

  /** What one more notification tells a request about an object of which it knows nothing yet: it has
      become local, or, if that is enough, it has been seen elsewhere. */
  function Told(kind: Kind, status: Status, e: Event, o: ObjectId): Status {
    if status != Nonexistent then status
    else if e == Added(o) then IsLocal
    else if e == SeenElsewhere(o) && kind == Anywhere then IsRemote
    else Nonexistent
  }

  /** What a request knows after several notifications. */
  function Fate(kind: Kind, status: Status, es: seq<Event>, o: ObjectId): Status {
    if es == [] then status else Told(kind, Fate(kind, status, es[..|es| - 1], o), es[|es| - 1], o)
  }

  /** The request knows about each of its objects what the notifications since it came have told. */
  ghost predicate Knows(kinds: map<ObjectId, Kind>, here: set<ObjectId>, es: seq<Event>, items: map<ObjectId, Item>) {
    && items.Keys == kinds.Keys
    && forall o :: o in kinds ==>
         items[o] == Item(kinds[o], Fate(kinds[o], if o in here then IsLocal else Nonexistent, es, o))
  }

  /** The items of a request after one more event. */
  ghost predicate ToldItems(items: map<ObjectId, Item>, e: Event, items': map<ObjectId, Item>) {
    && items'.Keys == items.Keys
    && forall o :: o in items ==> items'[o] == Item(items[o].kind, Told(items[o].kind, items[o].status, e, o))
  }

  lemma KnowsMore(kinds: map<ObjectId, Kind>, here: set<ObjectId>, es: seq<Event>, e: Event,
                  items: map<ObjectId, Item>, items': map<ObjectId, Item>)
    requires Knows(kinds, here, es, items) && ToldItems(items, e, items')
    ensures Knows(kinds, here, es + [e], items')
  {
    assert (es + [e])[..|es|] == es && (es + [e])[|es|] == e;
  }

  /** An event that is no notification tells nothing. */
  lemma NothingTold(items: map<ObjectId, Item>, e: Event)
    requires !e.Added? && !e.SeenElsewhere?
    ensures ToldItems(items, e, items)
  {
  }

  /** A pass that tells the requests about `o` in one way. */
  predicate TellsLike(e: Event, o: ObjectId, kind: Kind, status: Status) {
    || (e == Added(o) && status == IsLocal)
    || (e == SeenElsewhere(o) && kind == Anywhere && status == IsRemote)
  }

  lemma FillTells(w: Wait, e: Event, o: ObjectId, kind: Kind, status: Status)
    requires TellsLike(e, o, kind, status) && Lacks(w, o, kind)
    ensures ToldItems(w.items, e, Fill(w, o, status).items)
  {
  }

  /** What a pass does to a request: told, or left alone. */
  lemma UpdatedTells(w: Wait, e: Event, o: ObjectId, kind: Kind, status: Status)
    requires TellsLike(e, o, kind, status)
    ensures
      var u := Updated(w, o, kind, status);
      u.id == w.id && (ToldItems(w.items, e, u.items) || (u == w && !Lacks(w, o, kind)))
  {
    if Lacks(w, o, kind) {
      FillTells(w, e, o, kind, status);
    }
  }

  // ---- Every request and every reply is explained by its arrival ----

  /** The request with this id came as event `i`, and its items are what the events up to `j` have told. */
  ghost predicate ExplainedBy(s: State, es: seq<Event>, id: WaitId, items: map<ObjectId, Item>, i: int, j: int)
    requires Feasible(s, es)
  {
    && 0 <= i < j <= |es| && es[i].Arrived?
    && Feasible(s, es[..i]) && Run(s, es[..i]).next == id
    && Knows(es[i].kinds, Run(s, es[..i]).here, es[i + 1..j], items)
  }

  ghost predicate ExplainedUpTo(s: State, es: seq<Event>, id: WaitId, items: map<ObjectId, Item>, j: int)
    requires Feasible(s, es)
  {
    exists i :: ExplainedBy(s, es, id, items, i, j)
  }

  ghost predicate ExplainedSoFar(s: State, es: seq<Event>, id: WaitId, items: map<ObjectId, Item>)
    requires Feasible(s, es)
  {
    exists j :: ExplainedUpTo(s, es, id, items, j)
  }

  ghost predicate WaitsExplained(s: State, es: seq<Event>, ws: seq<Wait>)
    requires Feasible(s, es)
  {
    forall k :: 0 <= k < |ws| ==> ExplainedUpTo(s, es, ws[k].id, ws[k].items, |es|)
  }

  ghost predicate RepliesExplained(s: State, es: seq<Event>, rs: seq<Reply>)
    requires Feasible(s, es)
  {
    forall k :: 0 <= k < |rs| ==> ExplainedSoFar(s, es, rs[k].id, rs[k].items)
  }

  /** Every waiting request is explained by the whole run, every reply by a part of it. */
  ghost predicate Explained(s: State, es: seq<Event>)
    requires Feasible(s, es)
  {
    WaitsExplained(s, es, Run(s, es).waits) && RepliesExplained(s, es, Run(s, es).replies)
  }

  /** An explanation stays one when the run goes on. */
  lemma ExplanationStays(s: State, es: seq<Event>, e: Event, id: WaitId, items: map<ObjectId, Item>, j: int)
    requires Feasible(s, es) && Feasible(s, es + [e]) && ExplainedUpTo(s, es, id, items, j)
    ensures ExplainedUpTo(s, es + [e], id, items, j)
  {
    var fs := es + [e];
    var i :| ExplainedBy(s, es, id, items, i, j);
    assert fs[..i] == es[..i] && fs[i] == es[i] && fs[i + 1..j] == es[i + 1..j];
    assert ExplainedBy(s, fs, id, items, i, j);
  }

  /** An explanation of a request that still waits grows by the new event. */
  lemma ExplanationGrows(s: State, es: seq<Event>, e: Event, w: Wait, items: map<ObjectId, Item>)
    requires Feasible(s, es) && Feasible(s, es + [e]) && ExplainedUpTo(s, es, w.id, w.items, |es|)
    requires ToldItems(w.items, e, items)
    ensures ExplainedUpTo(s, es + [e], w.id, items, |es| + 1)
  {
    var fs, n := es + [e], |es|;
    var i :| ExplainedBy(s, es, w.id, w.items, i, n);
    assert fs[..i] == es[..i] && fs[i] == es[i] && fs[i + 1..n + 1] == es[i + 1..n] + [e];
    KnowsMore(es[i].kinds, Run(s, es[..i]).here, es[i + 1..n], e, w.items, items);
    assert ExplainedBy(s, fs, w.id, items, i, n + 1);
  }

  /** A request that has just come. */
  lemma ArrivalExplains(s: State, es: seq<Event>, e: Event)
    requires Feasible(s, es) && Feasible(s, es + [e]) && e.Arrived?
    ensures
      var m := Run(s, es);
      ExplainedUpTo(s, es + [e], m.next, NewWait(m, e.kinds, e.target).items, |es| + 1)
  {
    var fs, n, m := es + [e], |es|, Run(s, es);
    assert fs[..n] == es && fs[n] == e && fs[n + 1..n + 1] == [];
    assert ExplainedBy(s, fs, m.next, NewWait(m, e.kinds, e.target).items, n, n + 1);
  }

  /** Where a request or a reply after an event comes from: a request before it, told about the event, or
      the event itself. */
  ghost predicate ComesFrom(m: State, e: Event, id: WaitId, items: map<ObjectId, Item>) {
    || (exists k :: 0 <= k < |m.waits| && m.waits[k].id == id && ToldItems(m.waits[k].items, e, items))
    || (e.Arrived? && id == m.next && items == NewWait(m, e.kinds, e.target).items)
  }

  lemma ComesFromExplains(s: State, es: seq<Event>, e: Event, id: WaitId, items: map<ObjectId, Item>)
    requires Feasible(s, es) && Feasible(s, es + [e]) && Explained(s, es) && ComesFrom(Run(s, es), e, id, items)
    ensures ExplainedUpTo(s, es + [e], id, items, |es| + 1)
  {
    hide ExplainedUpTo, ToldItems;
    var m := Run(s, es);
    if exists k :: 0 <= k < |m.waits| && m.waits[k].id == id && ToldItems(m.waits[k].items, e, items) {
      var k :| 0 <= k < |m.waits| && m.waits[k].id == id && ToldItems(m.waits[k].items, e, items);
      ExplanationGrows(s, es, e, m.waits[k], items);
    } else {
      ArrivalExplains(s, es, e);
    }
  }

  lemma StayerDerived(ws: seq<Wait>, e: Event, o: ObjectId, kind: Kind, status: Status, k: nat)
    requires TellsLike(e, o, kind, status) && k < |StillWaiting(ws, o, kind, status)|
    ensures
      var w := StillWaiting(ws, o, kind, status)[k];
      exists i :: 0 <= i < |ws| && ws[i].id == w.id
        && (ToldItems(ws[i].items, e, w.items) || (w == ws[i] && !Lacks(w, o, kind)))
  {
    hide StillWaiting, Updated, ToldItems, CompletedBy;
    var i := StayersAreUpdated(ws, o, kind, status, k);
    UpdatedTells(ws[i], e, o, kind, status);
  }

  lemma AnsweredDerived(ws: seq<Wait>, e: Event, o: ObjectId, kind: Kind, status: Status, k: nat)
    requires TellsLike(e, o, kind, status) && k < |AnsweredBy(ws, o, kind, status)|
    ensures
      var r := AnsweredBy(ws, o, kind, status)[k];
      exists i :: 0 <= i < |ws| && ws[i].id == r.id && ToldItems(ws[i].items, e, r.items)
  {
    hide AnsweredBy, ToldItems;
    var i := AnsweredWasCompleted(ws, o, kind, status, k);
    FillTells(ws[i], e, o, kind, status);
  }

  lemma SeenNotLacking(w: Wait, o: ObjectId)
    requires !Lacks(w, o, Anywhere)
    ensures ToldItems(w.items, SeenElsewhere(o), w.items)
  {
  }

  lemma AddedWaits(m: State, o: ObjectId, k: nat)
    requires Enabled(m, Added(o)) && k < |Step(m, Added(o)).waits|
    ensures
      var w := Step(m, Added(o)).waits[k];
      exists i :: 0 <= i < |m.waits| && m.waits[i].id == w.id && ToldItems(m.waits[i].items, Added(o), w.items)
  {
    var e := Added(o);
    var ws1 := StillWaiting(m.waits, o, Local, IsLocal);
    var w := StillWaiting(ws1, o, Anywhere, IsLocal)[k];
    StayerDerived(ws1, e, o, Anywhere, IsLocal, k);
    hide StillWaiting, ToldItems;
    var j :| 0 <= j < |ws1| && ws1[j].id == w.id
      && (ToldItems(ws1[j].items, e, w.items) || (w == ws1[j] && !Lacks(w, o, Anywhere)));
    StayerDerived(m.waits, e, o, Local, IsLocal, j);
    var i :| 0 <= i < |m.waits| && m.waits[i].id == ws1[j].id
      && (ToldItems(m.waits[i].items, e, ws1[j].items) || (ws1[j] == m.waits[i] && !Lacks(ws1[j], o, Local)));
    AddedChain(m.waits[i], ws1[j], w, o);
    assert ToldItems(m.waits[i].items, e, w.items);
  }

  lemma AddedChain(a: Wait, b: Wait, c: Wait, o: ObjectId)
    requires ToldItems(a.items, Added(o), b.items) || (b == a && !Lacks(b, o, Local))
    requires ToldItems(b.items, Added(o), c.items) || (c == b && !Lacks(c, o, Anywhere))
    ensures ToldItems(a.items, Added(o), c.items)
  {
    if o in a.items {
      assert a.items[o].kind == Local || a.items[o].kind == Anywhere;
    }
  }

  lemma AddedReplies(m: State, o: ObjectId, k: nat)
    requires Enabled(m, Added(o)) && |m.replies| <= k < |Step(m, Added(o)).replies|
    ensures
      var r := Step(m, Added(o)).replies[k];
      exists i :: 0 <= i < |m.waits| && m.waits[i].id == r.id && ToldItems(m.waits[i].items, Added(o), r.items)
  {
    var e := Added(o);
    var ws1, first := StillWaiting(m.waits, o, Local, IsLocal), AnsweredBy(m.waits, o, Local, IsLocal);
    var second := AnsweredBy(ws1, o, Anywhere, IsLocal);
    var r := Step(m, e).replies[k];
    assert Step(m, e).replies == (m.replies + first) + second;
    if k < |m.replies| + |first| {
      assert r == first[k - |m.replies|];
      AnsweredDerived(m.waits, e, o, Local, IsLocal, k - |m.replies|);
    } else {
      var h := k - |m.replies| - |first|;
      assert r == second[h];
      AnsweredDerived(ws1, e, o, Anywhere, IsLocal, h);
      hide StillWaiting, AnsweredBy, ToldItems;
      var j :| 0 <= j < |ws1| && ws1[j].id == r.id && ToldItems(ws1[j].items, e, r.items);
      StayerDerived(m.waits, e, o, Local, IsLocal, j);
      var i :| 0 <= i < |m.waits| && m.waits[i].id == ws1[j].id
        && (ToldItems(m.waits[i].items, e, ws1[j].items) || (ws1[j] == m.waits[i] && !Lacks(ws1[j], o, Local)));
      AddedChain(m.waits[i], ws1[j], Wait(0, r.items, 0, 0), o);
      assert ToldItems(m.waits[i].items, e, r.items);
    }
  }

  /** Every request that waits after an event comes from one before it or from the event. */
  lemma StepWaits(m: State, e: Event, k: nat)
    requires Enabled(m, e) && k < |Step(m, e).waits|
    ensures ComesFrom(m, e, Step(m, e).waits[k].id, Step(m, e).waits[k].items)
  {
    var w := Step(m, e).waits[k];
    match e
    case Arrived(kinds, target) =>
      if k < |m.waits| {
        assert w == m.waits[k];
        NothingTold(w.items, e);
      }
    case TimedOut(id) =>
      var i := Position(m.waits, id);
      var j := if k < i then k else k + 1;
      assert w == m.waits[j];
      NothingTold(w.items, e);
    case Added(o) => AddedWaits(m, o, k);
    case Removed(o) =>
      assert w == m.waits[k];
      NothingTold(w.items, e);
    case SeenElsewhere(o) =>
      StayerDerived(m.waits, e, o, Anywhere, IsRemote, k);
      hide StillWaiting, ToldItems;
      var i :| 0 <= i < |m.waits| && m.waits[i].id == w.id
        && (ToldItems(m.waits[i].items, e, w.items) || (w == m.waits[i] && !Lacks(w, o, Anywhere)));
      if !ToldItems(m.waits[i].items, e, w.items) {
        SeenNotLacking(w, o);
      }
  }

  /** So does every reply that the event leads to. */
  lemma StepReplies(m: State, e: Event, k: nat)
    requires Enabled(m, e) && |m.replies| <= k < |Step(m, e).replies|
    ensures ComesFrom(m, e, Step(m, e).replies[k].id, Step(m, e).replies[k].items)
  {
    var r := Step(m, e).replies[k];
    match e
    case Arrived(kinds, target) =>
    case TimedOut(id) =>
      var i := Position(m.waits, id);
      assert r == Answer(m.waits[i]);
      NothingTold(m.waits[i].items, e);
    case Added(o) => AddedReplies(m, o, k);
    case Removed(o) =>
    case SeenElsewhere(o) =>
      var h := k - |m.replies|;
      assert r == AnsweredBy(m.waits, o, Anywhere, IsRemote)[h];
      AnsweredDerived(m.waits, e, o, Anywhere, IsRemote, h);
  }

  lemma RepliesStay(m: State, e: Event)
    requires Enabled(m, e)
    ensures m.replies <= Step(m, e).replies
  {
  }

  lemma WaitExplained(s: State, es: seq<Event>, e: Event, k: nat)
    requires Feasible(s, es) && Feasible(s, es + [e]) && Explained(s, es) && k < |Run(s, es + [e]).waits|
    ensures
      var w := Run(s, es + [e]).waits[k];
      ExplainedUpTo(s, es + [e], w.id, w.items, |es + [e]|)
  {
    hide Step, Enabled, Explained, ExplainedUpTo, ComesFrom, Run, Feasible;
    RunExtends(s, es, e);
    StepWaits(Run(s, es), e, k);
    var w := Run(s, es + [e]).waits[k];
    ComesFromExplains(s, es, e, w.id, w.items);
  }

  lemma ReplyExplained(s: State, es: seq<Event>, e: Event, k: nat)
    requires Feasible(s, es) && Feasible(s, es + [e]) && Explained(s, es) && k < |Run(s, es + [e]).replies|
    ensures
      var r := Run(s, es + [e]).replies[k];
      ExplainedSoFar(s, es + [e], r.id, r.items)
  {
    hide Step, Enabled, ExplainedUpTo, ComesFrom, Run, Feasible;
    RunExtends(s, es, e);
    var m, r := Run(s, es), Run(s, es + [e]).replies[k];
    RepliesStay(m, e);
    if k < |m.replies| {
      assert r == m.replies[k];
      var j :| ExplainedUpTo(s, es, r.id, r.items, j);
      ExplanationStays(s, es, e, r.id, r.items, j);
    } else {
      StepReplies(m, e, k);
      ComesFromExplains(s, es, e, r.id, r.items);
    }
  }

  /** Over every run of a manager that starts without requests: what each waiting request, and each
      reply, says about each object is what the notifications since the request came have told: that it
      was local then or became so, or was seen elsewhere first where that is enough, or nothing. */
  lemma {:induction false} RunExplained(s: State, es: seq<Event>)
    requires Feasible(s, es) && s.waits == [] && s.replies == []
    ensures Explained(s, es)
    decreases |es|
  {
    if es != [] {
      hide Step, Enabled, ExplainedUpTo;
      var n := |es| - 1;
      var fs, e := es[..n], es[n];
      assert es == fs + [e];
      RunExtends(s, fs, e);
      RunExplained(s, fs);
      var ws, rs := Run(s, es).waits, Run(s, es).replies;
      forall k | 0 <= k < |ws| ensures ExplainedUpTo(s, es, ws[k].id, ws[k].items, |es|) {
        WaitExplained(s, fs, e, k);
      }
      forall k | 0 <= k < |rs| ensures ExplainedSoFar(s, es, rs[k].id, rs[k].items) {
        ReplyExplained(s, fs, e, k);
      }
    }
  }

  lemma {:induction false} FateSays(kind: Kind, es: seq<Event>, o: ObjectId)
    ensures Fate(kind, Nonexistent, es, o) == IsLocal ==> Added(o) in es
    ensures Fate(kind, Nonexistent, es, o) == IsRemote ==> SeenElsewhere(o) in es && kind == Anywhere
    ensures Fate(kind, Nonexistent, es, o) == Nonexistent ==>
      Added(o) !in es && (kind == Anywhere ==> SeenElsewhere(o) !in es)
  {
    if es != [] {
      FateSays(kind, es[..|es| - 1], o);
      assert es == es[..|es| - 1] + [es[|es| - 1]];
    }
  }

  lemma {:induction false} FateStays(kind: Kind, status: Status, es: seq<Event>, o: ObjectId)
    requires status != Nonexistent
    ensures Fate(kind, status, es, o) == status
  {
    if es != [] {
      FateStays(kind, status, es[..|es| - 1], o);
    }
  }

  /** Over every run: a reply calls an object local only if it was reported local when the request came or
      was added since; calls it remote only if it was seen elsewhere since and that is enough; and says
      nothing only if neither happened. */
  lemma RepliesTellTheTruth(s: State, es: seq<Event>, k: nat, o: ObjectId) returns (i: nat, j: nat)
    requires Feasible(s, es) && s.waits == [] && s.replies == [] && k < |Run(s, es).replies|
    requires o in Run(s, es).replies[k].items
    ensures i < j <= |es| && es[i].Arrived? && o in es[i].kinds
    ensures Feasible(s, es[..i]) && Run(s, es[..i]).next == Run(s, es).replies[k].id
    ensures
      var item, local := Run(s, es).replies[k].items[o], ReportedHere(es[..i], o, o in s.here);
      && item.kind == es[i].kinds[o]
      && (item.status == IsLocal ==> local || Added(o) in es[i + 1..j])
      && (item.status == IsRemote ==> !local && SeenElsewhere(o) in es[i + 1..j] && item.kind == Anywhere)
      && (item.status == Nonexistent ==> !local && Added(o) !in es[i + 1..j])
      && (item == Item(Anywhere, Nonexistent) ==> SeenElsewhere(o) !in es[i + 1..j])
  {
    RunExplained(s, es);
    var r := Run(s, es).replies[k];
    var j0 :| ExplainedUpTo(s, es, r.id, r.items, j0);
    var i0 :| ExplainedBy(s, es, r.id, r.items, i0, j0);
    i, j := i0, j0;
    RunHereIff(s, es[..i], o);
    FateSays(es[i].kinds[o], es[i + 1..j], o);
    FateStays(es[i].kinds[o], IsLocal, es[i + 1..j], o);
  }
}
