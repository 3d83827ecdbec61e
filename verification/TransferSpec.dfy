/**
 Object transfer between two plasma managers as values: the sender writes a header and then the
 object's bytes in chunks, one chunk each time its socket is writable; the receiver reads whatever
 has arrived, at most one chunk each time its socket is readable.
 */
module TransferSpec {

  type Byte = bv8
  type ObjectId = nat

  const BUFSIZE := 4096

  /** An object to send: its data is followed by its metadata in the same buffer. */
  datatype Object = Object(id: ObjectId, data: seq<Byte>, metadata: seq<Byte>)

  function Bytes(x: Object): seq<Byte> {
    x.data + x.metadata
  }

  /** What travels: a header is one message, everything else is single bytes. */
  datatype Item = Header(id: ObjectId, dataSize: nat, metadataSize: nat) | Raw(byte: Byte)

  function Raws(bytes: seq<Byte>): (r: seq<Item>)
    ensures |r| == |bytes|
  {
    seq(|bytes|, i requires 0 <= i < |bytes| => Raw(bytes[i]))
  }

  function HeaderOf(x: Object): Item {
    Header(x.id, |x.data|, |x.metadata|)
  }

  /** The wire form of one object. */
  function Encode(x: Object): seq<Item> {
    [HeaderOf(x)] + Raws(Bytes(x))
  }

  function Chunk(left: nat): nat {
    if left > BUFSIZE then BUFSIZE else left
  }

  // ---- One object is sent ----

  datatype Sending = Sending(cursor: nat, wire: seq<Item>, done: bool)

  /** The socket accepts `r` of the bytes offered; it accepts none only when none are offered. */
  predicate CanWrite(x: Object, s: Sending, r: nat) {
    && !s.done && s.cursor <= |Bytes(x)| && r <= Chunk(|Bytes(x)| - s.cursor)
    && (r == 0 ==> s.cursor == |Bytes(x)|)
  }

  /** One event: the header first, then a chunk. The cursor moves only if the whole chunk was
      accepted; a cursor of zero afterwards means that the object is done. */
  function Write(x: Object, s: Sending, r: nat): Sending
    requires CanWrite(x, s, r)
  {
    var wire := s.wire + (if s.cursor == 0 then [HeaderOf(x)] else []) + Raws(Bytes(x)[s.cursor..s.cursor + r]);
    var cursor := if r == Chunk(|Bytes(x)| - s.cursor) && r != 0 then s.cursor + r else if r == 0 then 0 else s.cursor;
    Sending(cursor, wire, cursor == 0)
  }

  predicate Partial(x: Object, s: Sending, r: nat) {
    s.cursor <= |Bytes(x)| && r < Chunk(|Bytes(x)| - s.cursor)
  }

  predicate Feasible(x: Object, s: Sending, rs: seq<nat>)
    decreases |rs|
  {
    rs == [] || (CanWrite(x, s, rs[0]) && Feasible(x, Write(x, s, rs[0]), rs[1..]))
  }

  function Run(x: Object, s: Sending, rs: seq<nat>): Sending
    requires Feasible(x, s, rs)
    decreases |rs|
  {
    if rs == [] then s else Run(x, Write(x, s, rs[0]), rs[1..])
  }

  predicate NoPartial(x: Object, s: Sending, rs: seq<nat>)
    requires Feasible(x, s, rs)
    decreases |rs|
  {
    rs == [] || (!Partial(x, s, rs[0]) && NoPartial(x, Write(x, s, rs[0]), rs[1..]))
  }

  const START := Sending(0, [], false)

  /** What has been written while nothing went wrong. */
  function Sent(x: Object, cursor: nat): seq<Item>
    requires cursor <= |Bytes(x)|
  {
    if cursor == 0 then [] else Encode(x)[..1 + cursor]
  }

  lemma EncodeSplit(x: Object, c: nat, r: nat)
    requires c + r <= |Bytes(x)|
    ensures Encode(x)[..1 + c] + Raws(Bytes(x)[c..c + r]) == Encode(x)[..1 + c + r]
    ensures [HeaderOf(x)] == Encode(x)[..1]
  {
  }

  lemma FullWriteExtends(x: Object, s: Sending, r: nat)
    requires CanWrite(x, s, r) && s.wire == Sent(x, s.cursor) && !Partial(x, s, r)
    ensures
      var s' := Write(x, s, r);
      if s'.done then s'.wire == Encode(x) else s'.cursor <= |Bytes(x)| && s'.wire == Sent(x, s'.cursor)
  {
    EncodeSplit(x, s.cursor, r);
    assert Encode(x)[..1 + |Bytes(x)|] == Encode(x);
    assert [] + [HeaderOf(x)] == [HeaderOf(x)];
    assert s.wire + [] == s.wire;
  }

  /** Without partial writes a transfer that is done has written exactly the wire form. */
  lemma {:induction false} FullWritesAreExact(x: Object, s: Sending, rs: seq<nat>)
    requires Feasible(x, s, rs) && NoPartial(x, s, rs)
    requires !s.done && s.cursor <= |Bytes(x)| && s.wire == Sent(x, s.cursor)
    ensures Run(x, s, rs).done ==> Run(x, s, rs).wire == Encode(x)
    decreases |rs|
  {
    if rs != [] {
      FullWriteExtends(x, s, rs[0]);
      var s' := Write(x, s, rs[0]);
      if s'.done {
        DoneIsLast(x, s', rs[1..]);
      } else {
        FullWritesAreExact(x, s', rs[1..]);
      }
    }
  }

  lemma DoneIsLast(x: Object, s: Sending, rs: seq<nat>)
    requires s.done && Feasible(x, s, rs)
    ensures rs == [] && Run(x, s, rs) == s
  {
  }

  /** How many items a transfer that has begun puts on the wire beyond the wire form: what partial
      writes send twice. */
  lemma {:induction false} PartialWritesRepeat(x: Object, s: Sending, rs: seq<nat>)
    requires Feasible(x, s, rs) && !s.done && 0 < s.cursor <= |Bytes(x)|
    requires |s.wire| >= 1 + s.cursor && Run(x, s, rs).done
    ensures |Run(x, s, rs).wire| >= |Encode(x)|
    ensures |s.wire| > 1 + s.cursor || !NoPartial(x, s, rs) ==> |Run(x, s, rs).wire| > |Encode(x)|
    decreases |rs|
  {
    if rs != [] {
      var s' := Write(x, s, rs[0]);
      assert |s'.wire| == |s.wire| + rs[0];
      if s'.done {
        DoneIsLast(x, s', rs[1..]);
        assert rs[0] == 0 && !Partial(x, s, rs[0]) && NoPartial(x, s', rs[1..]);
      } else {
        PartialWritesRepeat(x, s', rs[1..]);
      }
    }
  }

  /** A partial write of the first chunk makes the sender believe that it is done: the rest of the
      object is never sent. */
  lemma PartialFirstWriteStops(x: Object, r: nat)
    requires CanWrite(x, START, r) && Partial(x, START, r)
    ensures Write(x, START, r).done && |Write(x, START, r).wire| < |Encode(x)|
  {
  }

  /** A transfer that the sender considers done has put exactly the object on the wire if and only
      if no socket write was partial. */
  lemma ExactIffNoPartialWrite(x: Object, rs: seq<nat>)
    requires Feasible(x, START, rs) && Run(x, START, rs).done
    ensures Run(x, START, rs).wire == Encode(x) <==> NoPartial(x, START, rs)
  {
    if NoPartial(x, START, rs) {
      FullWritesAreExact(x, START, rs);
    } else {
      var s := Write(x, START, rs[0]);
      if s.done {
        DoneIsLast(x, s, rs[1..]);
        if Partial(x, START, rs[0]) {
          PartialFirstWriteStops(x, rs[0]);
        }
      } else {
        PartialWritesRepeat(x, s, rs[1..]);
      }
    }
  }

  // ---- Many objects, any interleaving with the receiver ----

  datatype Mode =
    | Listening
    | Reading(id: ObjectId, size: nat, got: seq<Byte>, accepted: bool)

  /** `accepted` says that the local store created the object; otherwise its bytes are dropped. */
  datatype Received = Received(id: ObjectId, bytes: seq<Byte>, accepted: bool)

  /** `objects` are all objects ever queued, of which `sent` are done. `confused` is set when the
      receiver takes object bytes for a message, or a message for object bytes. */
  datatype System = System(
    objects: seq<Object>, sent: nat, cursor: nat, wire: seq<Item>,
    mode: Mode, finished: seq<Received>, confused: bool)

  /** `WriteChunk` and `ReadChunk` say how many bytes the socket took or gave. */
  datatype Action = Enqueue(x: Object) | WriteChunk(r: nat) | ReadHeader(accepted: bool) | ReadChunk(r: nat)

  function Outgoing(s: System): Sending {
    Sending(s.cursor, s.wire, false)
  }

  predicate Enabled(s: System, a: Action) {
    match a
    case Enqueue(_) => true
    case WriteChunk(r) => s.sent < |s.objects| && CanWrite(s.objects[s.sent], Outgoing(s), r)
    case ReadHeader(_) => s.mode.Listening? && s.wire != []
    case ReadChunk(r) =>
      && s.mode.Reading? && s.wire != [] && |s.mode.got| <= s.mode.size
      && r <= Chunk(s.mode.size - |s.mode.got|) && r <= |s.wire|
      && (r == 0 <==> |s.mode.got| == s.mode.size)
  }

  /** A writable event. */
  function SendNext(s: System, r: nat): System
    requires Enabled(s, WriteChunk(r))
  {
    var w := Write(s.objects[s.sent], Outgoing(s), r);
    s.(cursor := w.cursor, wire := w.wire, sent := if w.done then s.sent + 1 else s.sent)
  }

  function ReceiveHeader(s: System, accepted: bool): System
    requires Enabled(s, ReadHeader(accepted))
  {
    var m := s.wire[0];
    if !m.Header? then s.(confused := true)
    else s.(wire := s.wire[1..], mode := Reading(m.id, m.dataSize + m.metadataSize, [], accepted))
  }

  predicate AllRaw(items: seq<Item>) {
    forall i :: 0 <= i < |items| ==> items[i].Raw?
  }

  function BytesOf(items: seq<Item>): (r: seq<Byte>)
    requires AllRaw(items)
    ensures |r| == |items|
  {
    seq(|items|, i requires 0 <= i < |items| => items[i].byte)
  }

  /** A readable event: the object is finished when the last byte has come, and the socket goes back
      to messages. */
  function ReceiveChunk(s: System, r: nat): System
    requires Enabled(s, ReadChunk(r))
  {
    if !AllRaw(s.wire[..r]) then s.(confused := true)
    else
      var got := s.mode.got + BytesOf(s.wire[..r]);
      var s' := s.(wire := s.wire[r..]);
      if |got| == s.mode.size then
        s'.(mode := Listening, finished := s.finished + [Received(s.mode.id, got, s.mode.accepted)])
      else s'.(mode := s.mode.(got := got))
  }

  function Step(s: System, a: Action): System
    requires Enabled(s, a)
  {
    match a
    case Enqueue(x) => s.(objects := s.objects + [x])
    case WriteChunk(r) => SendNext(s, r)
    case ReadHeader(accepted) => ReceiveHeader(s, accepted)
    case ReadChunk(r) => ReceiveChunk(s, r)
  }

  // ---- Positions in the stream ----

  /** The wire form of all objects. */
  function Stream(xs: seq<Object>): seq<Item> {
    if xs == [] then [] else Stream(xs[..|xs| - 1]) + Encode(xs[|xs| - 1])
  }

  /** Where object `k` begins. */
  function Offset(xs: seq<Object>, k: nat): nat
    requires k <= |xs|
  {
    |Stream(xs[..k])|
  }

  lemma StreamNext(xs: seq<Object>, k: nat)
    requires k < |xs|
    ensures Stream(xs[..k + 1]) == Stream(xs[..k]) + Encode(xs[k])
    ensures Offset(xs, k + 1) == Offset(xs, k) + 1 + |Bytes(xs[k])|
  {
    assert xs[..k + 1][..k] == xs[..k];
  }

  lemma {:induction false} StreamPrefix(xs: seq<Object>, k: nat)
    requires k <= |xs|
    ensures Offset(xs, k) <= |Stream(xs)| && Stream(xs)[..Offset(xs, k)] == Stream(xs[..k])
    ensures k < |xs| ==> Offset(xs, k) < |Stream(xs)|
  {
    if k == |xs| {
      assert xs[..k] == xs;
    } else {
      var front := xs[..|xs| - 1];
      assert front[..k] == xs[..k];
      StreamPrefix(front, k);
      assert Stream(xs) == Stream(front) + Encode(xs[|xs| - 1]);
    }
  }

  lemma StreamItem(xs: seq<Object>, k: nat, i: nat)
    requires k < |xs| && i < |Encode(xs[k])|
    ensures Offset(xs, k) + |Encode(xs[k])| <= |Stream(xs)|
    ensures Stream(xs)[Offset(xs, k) + i] == Encode(xs[k])[i]
  {
    StreamPrefix(xs, k + 1);
    StreamNext(xs, k);
    hide Stream, Encode;
    var t, n := Stream(xs), Offset(xs, k + 1);
    assert t[Offset(xs, k) + i] == t[..n][Offset(xs, k) + i];
  }

  // ---- The invariant ----

  /** Where the sender and the receiver are in the stream. */
  function SendPos(s: System): nat
    requires s.sent <= |s.objects|
  {
    Offset(s.objects, s.sent) + if s.cursor == 0 then 0 else 1 + s.cursor
  }

  function RecvPos(s: System): nat
    requires |s.finished| <= |s.objects|
  {
    Offset(s.objects, |s.finished|) + if s.mode.Reading? then 1 + |s.mode.got| else 0
  }

  predicate SenderOk(s: System) {
    && s.sent <= |s.objects|
    && (if s.sent < |s.objects| then s.cursor <= |Bytes(s.objects[s.sent])| else s.cursor == 0)
  }

  /** The first bytes of an object. */
  predicate Begins(got: seq<Byte>, bytes: seq<Byte>) {
    |got| <= |bytes| && forall i :: 0 <= i < |got| ==> got[i] == bytes[i]
  }

  /** What is finished is what was queued, in order, byte for byte; what is being read is a prefix
      of the next object. */
  predicate ReceiverOk(s: System) {
    var n := |s.finished|;
    && n <= |s.objects|
    && (forall i :: 0 <= i < n ==>
          s.finished[i].id == s.objects[i].id && s.finished[i].bytes == Bytes(s.objects[i]))
    && (s.mode.Reading? ==>
          && n < |s.objects| && s.mode.id == s.objects[n].id && s.mode.size == |Bytes(s.objects[n])|
          && Begins(s.mode.got, Bytes(s.objects[n]))
          && (|s.mode.got| == s.mode.size ==> s.mode.size == 0))
  }

  /** The wire holds the items of the stream between two positions. */
  predicate Holds(wire: seq<Item>, t: seq<Item>, from: nat, to: nat) {
    from <= to <= |t| && |wire| == to - from && forall i :: 0 <= i < |wire| ==> wire[i] == t[from + i]
  }

  predicate WireOk(s: System)
    requires s.sent <= |s.objects| && |s.finished| <= |s.objects|
  {
    Holds(s.wire, Stream(s.objects), RecvPos(s), SendPos(s))
  }

  /** An empty object is finished only when something that follows it has arrived. */
  predicate EmptyOk(s: System) {
    forall i :: 0 <= i < |s.finished| && i < |s.objects| && Bytes(s.objects[i]) == [] ==> i + 1 < |s.objects|
  }

  predicate Inv(s: System) {
    !s.confused && SenderOk(s) && ReceiverOk(s) && EmptyOk(s) && WireOk(s)
  }

  const INITIAL := System([], 0, 0, [], Listening, [], false)

  lemma InitialInv()
    ensures Inv(INITIAL)
  {
    assert INITIAL.objects[..0] == [];
  }

  lemma EnqueueKeeps(s: System, x: Object)
    requires Inv(s)
    ensures Inv(Step(s, Enqueue(x)))
  {
    var xs := s.objects + [x];
    assert xs[..|s.objects|] == s.objects;
    assert Stream(xs) == Stream(s.objects) + Encode(x);
    assert xs[..s.sent] == s.objects[..s.sent] && xs[..|s.finished|] == s.objects[..|s.finished|];
    hide Stream, Encode, Bytes, Begins;
    assert Offset(xs, s.sent) == Offset(s.objects, s.sent);
    assert Offset(xs, |s.finished|) == Offset(s.objects, |s.finished|);
  }

  lemma OffsetEnd(xs: seq<Object>)
    ensures Offset(xs, |xs|) == |Stream(xs)|
  {
    assert xs[..|xs|] == xs;
  }

  lemma HoldsMore(wire: seq<Item>, t: seq<Item>, from: nat, to: nat, added: seq<Item>)
    requires Holds(wire, t, from, to) && to + |added| <= |t|
    requires forall j :: 0 <= j < |added| ==> added[j] == t[to + j]
    ensures Holds(wire + added, t, from, to + |added|)
  {
    var w := wire + added;
    forall i | 0 <= i < |w| ensures w[i] == t[from + i] {
      if i >= |wire| {
        assert w[i] == added[i - |wire|];
      }
    }
  }

  lemma HoldsLess(wire: seq<Item>, t: seq<Item>, from: nat, to: nat, r: nat)
    requires Holds(wire, t, from, to) && r <= |wire|
    ensures Holds(wire[r..], t, from + r, to)
  {
  }

  /** What one event writes. */
  function Added(x: Object, cursor: nat): seq<Item>
    requires cursor <= |Bytes(x)|
  {
    (if cursor == 0 then [HeaderOf(x)] else []) + Raws(Bytes(x)[cursor..cursor + Chunk(|Bytes(x)| - cursor)])
  }

  lemma AddedItem(x: Object, cursor: nat, j: nat)
    requires cursor <= |Bytes(x)| && j < |Added(x, cursor)|
    ensures
      var e := (if cursor == 0 then 0 else 1 + cursor) + j;
      e < |Encode(x)| && Added(x, cursor)[j] == Encode(x)[e]
  {
  }

  lemma AddedLength(x: Object, cursor: nat)
    requires cursor <= |Bytes(x)|
    ensures |Added(x, cursor)| == (if cursor == 0 then 1 else 0) + Chunk(|Bytes(x)| - cursor)
    ensures |Encode(x)| == 1 + |Bytes(x)| && cursor + Chunk(|Bytes(x)| - cursor) <= |Bytes(x)|
  {
  }

  lemma AddedIsNext(xs: seq<Object>, k: nat, cursor: nat)
    requires k < |xs| && cursor <= |Bytes(xs[k])|
    ensures
      var q, added := Offset(xs, k) + (if cursor == 0 then 0 else 1 + cursor), Added(xs[k], cursor);
      && q + |added| == Offset(xs, k) + 1 + cursor + Chunk(|Bytes(xs[k])| - cursor) <= |Stream(xs)|
      && forall j :: 0 <= j < |added| ==> added[j] == Stream(xs)[q + j]
  {
    hide Stream, Encode, Added, Offset, Bytes, Chunk;
    var e, added := if cursor == 0 then 0 else 1 + cursor, Added(xs[k], cursor);
    AddedLength(xs[k], cursor);
    StreamItem(xs, k, 0);
    forall j | 0 <= j < |added| ensures added[j] == Stream(xs)[Offset(xs, k) + e + j] {
      AddedItem(xs[k], cursor, j);
      StreamItem(xs, k, e + j);
    }
  }

  /** The socket took less than it was offered. */
  predicate PartialWrite(s: System, a: Action)
    requires Enabled(s, a)
  {
    a.WriteChunk? && Partial(s.objects[s.sent], Outgoing(s), a.r)
  }

  lemma SendNextIs(s: System, r: nat)
    requires Enabled(s, WriteChunk(r)) && !PartialWrite(s, WriteChunk(r))
    ensures
      var x, s' := s.objects[s.sent], SendNext(s, r);
      && r == Chunk(|Bytes(x)| - s.cursor) && s'.wire == s.wire + Added(x, s.cursor)
      && (if r == 0 then s'.sent == s.sent + 1 && s'.cursor == 0 && s.cursor == |Bytes(x)|
          else s'.sent == s.sent && s'.cursor == s.cursor + r)
  {
    var x := s.objects[s.sent];
    var raws := Raws(Bytes(x)[s.cursor..s.cursor + Chunk(|Bytes(x)| - s.cursor)]);
    var head := if s.cursor == 0 then [HeaderOf(x)] else [];
    assert (s.wire + head) + raws == s.wire + (head + raws);
  }

  lemma SendKeeps(s: System, r: nat)
    requires Inv(s) && Enabled(s, WriteChunk(r)) && !PartialWrite(s, WriteChunk(r))
    ensures Inv(Step(s, WriteChunk(r)))
  {
    hide Stream, Bytes, Added, Holds, Begins, Offset, Chunk, SendNext;
    SendNextIs(s, r);
    AddedIsNext(s.objects, s.sent, s.cursor);
    StreamNext(s.objects, s.sent);
    var x, s' := s.objects[s.sent], SendNext(s, r);
    HoldsMore(s.wire, Stream(s.objects), RecvPos(s), SendPos(s), Added(x, s.cursor));
    SendKeepsOthers(s, r);
    assert SendPos(s') == SendPos(s) + |Added(x, s.cursor)|;
  }

  lemma SendKeepsOthers(s: System, r: nat)
    requires Inv(s) && Enabled(s, WriteChunk(r)) && !PartialWrite(s, WriteChunk(r))
    ensures
      var s' := SendNext(s, r);
      && s'.objects == s.objects && s'.mode == s.mode && s'.finished == s.finished && !s'.confused
      && RecvPos(s') == RecvPos(s) && ReceiverOk(s') && SenderOk(s')
  {
    hide Stream, Holds, Begins, Offset;
  }

  /** What a partial write does to the sender: it drops the rest of the object, or forgets what it sent. */
  lemma PartialSendIs(s: System, r: nat)
    requires Enabled(s, WriteChunk(r)) && PartialWrite(s, WriteChunk(r))
    ensures
      var x, s' := s.objects[s.sent], SendNext(s, r);
      && 0 < r < |Bytes(x)| && s'.cursor == s.cursor && |s'.wire| == |s.wire| + r + (if s.cursor == 0 then 1 else 0)
      && s'.sent == (if s.cursor == 0 then s.sent + 1 else s.sent)
  {
  }

  /** A write keeps the two ends at matching positions if and only if it is not partial. */
  lemma SendKeepsIff(s: System, r: nat)
    requires Inv(s) && Enabled(s, WriteChunk(r))
    ensures Inv(Step(s, WriteChunk(r))) <==> !PartialWrite(s, WriteChunk(r))
  {
    if PartialWrite(s, WriteChunk(r)) {
      hide Stream, Bytes, Begins, Chunk, Offset;
      var s' := SendNext(s, r);
      PartialSendIs(s, r);
      StreamNext(s.objects, s.sent);
      assert RecvPos(s') == RecvPos(s);
      assert !WireOk(s');
    } else {
      SendKeeps(s, r);
    }
  }

  /** Between objects the next item is the header of the next object. */
  lemma HeaderIsNext(s: System)
    requires Inv(s) && s.mode.Listening? && s.wire != []
    ensures |s.finished| < |s.objects| && s.wire[0] == HeaderOf(s.objects[|s.finished|])
  {
    OffsetEnd(s.objects);
    var n := |s.finished|;
    assert n < |s.objects|;
    StreamItem(s.objects, n, 0);
  }

  lemma HeaderKeeps(s: System, accepted: bool)
    requires Inv(s) && Enabled(s, ReadHeader(accepted))
    ensures Inv(Step(s, ReadHeader(accepted)))
  {
    hide Stream, Holds, Offset, Encode;
    HeaderIsNext(s);
    HoldsLess(s.wire, Stream(s.objects), RecvPos(s), SendPos(s), 1);
  }

  /** The next items are the next bytes of the object that is being read. */
  lemma ChunkIsNext(s: System, r: nat)
    requires Inv(s) && Enabled(s, ReadChunk(r))
    ensures AllRaw(s.wire[..r])
    ensures
      var bytes, got := Bytes(s.objects[|s.finished|]), s.mode.got + BytesOf(s.wire[..r]);
      Begins(got, bytes) && (|got| == |bytes| ==> got == bytes)
  {
    var n, c := |s.finished|, |s.mode.got|;
    var x := s.objects[n];
    forall i | 0 <= i < r ensures s.wire[..r][i] == Raw(Bytes(x)[c + i]) {
      StreamItem(s.objects, n, 1 + c + i);
    }
  }

  lemma ChunkEmptyOk(s: System, r: nat)
    requires Inv(s) && Enabled(s, ReadChunk(r))
    ensures EmptyOk(Step(s, ReadChunk(r)))
  {
    var n := |s.finished|;
    if |s.mode.got| == s.mode.size {
      StreamNext(s.objects, n);
      OffsetEnd(s.objects);
      assert n + 1 < |s.objects|;
    }
  }

  lemma ChunkKeeps(s: System, r: nat)
    requires Inv(s) && Enabled(s, ReadChunk(r))
    ensures Inv(Step(s, ReadChunk(r)))
  {
    hide Stream, Offset, AllRaw, BytesOf, Holds, Begins, Bytes, Chunk;
    ChunkIsNext(s, r);
    ChunkEmptyOk(s, r);
    StreamNext(s.objects, |s.finished|);
    HoldsLess(s.wire, Stream(s.objects), RecvPos(s), SendPos(s), r);
    var s' := ReceiveChunk(s, r);
    assert |s.mode.got + BytesOf(s.wire[..r])| == |s.mode.got| + r;
    assert RecvPos(s') == RecvPos(s) + r;
  }

  /** Each event keeps the invariant, a write if and only if it is not partial. */
  lemma StepKeepsIff(s: System, a: Action)
    requires Inv(s) && Enabled(s, a)
    ensures Inv(Step(s, a)) <==> !PartialWrite(s, a)
  {
    hide Inv, Enabled, Step;
    match a
    case Enqueue(x) => EnqueueKeeps(s, x);
    case WriteChunk(r) => SendKeepsIff(s, r);
    case ReadHeader(accepted) => HeaderKeeps(s, accepted);
    case ReadChunk(r) => ChunkKeeps(s, r);
  }

  predicate FeasibleRun(s: System, actions: seq<Action>)
    decreases |actions|
  {
    actions == [] || (Enabled(s, actions[0]) && FeasibleRun(Step(s, actions[0]), actions[1..]))
  }

  function RunAll(s: System, actions: seq<Action>): System
    requires FeasibleRun(s, actions)
    decreases |actions|
  {
    if actions == [] then s else RunAll(Step(s, actions[0]), actions[1..])
  }

  predicate FullWrites(s: System, actions: seq<Action>)
    requires FeasibleRun(s, actions)
    decreases |actions|
  {
    actions == [] || (!PartialWrite(s, actions[0]) && FullWrites(Step(s, actions[0]), actions[1..]))
  }

  predicate InvThroughout(s: System, actions: seq<Action>)
    requires FeasibleRun(s, actions)
    decreases |actions|
  {
    Inv(s) && (actions == [] || InvThroughout(Step(s, actions[0]), actions[1..]))
  }

  /** For every interleaving and every fragmentation of reads: the receiver never mistakes bytes for
      messages or messages for bytes, what it has finished is what was queued, in order, and the wire
      holds just what it needs next, throughout the run if and only if no write was partial. */
  lemma {:induction false} RunKeepsIff(s: System, actions: seq<Action>)
    requires Inv(s) && FeasibleRun(s, actions)
    ensures InvThroughout(s, actions) <==> FullWrites(s, actions)
    ensures FullWrites(s, actions) ==> Inv(RunAll(s, actions))
    decreases |actions|
  {
    if actions != [] {
      StepKeepsIff(s, actions[0]);
      if !PartialWrite(s, actions[0]) {
        hide Inv, PartialWrite, Step, Enabled;
        RunKeepsIff(Step(s, actions[0]), actions[1..]);
      }
    }
  }

  /** When the sender has nothing left and the wire is empty, everything has been received if and only
      if the last object queued is not empty; otherwise just that one is not finished, its header has
      been read, and nothing happens until another object is queued. */
  lemma QuietMeansReceived(s: System)
    requires Inv(s) && s.sent == |s.objects| && s.wire == []
    ensures
      if s.mode.Listening? then |s.finished| == |s.objects|
      else |s.finished| + 1 == |s.objects| && s.mode.size == 0 && forall a :: Enabled(s, a) ==> a.Enqueue?
    ensures |s.finished| == |s.objects| <==> s.objects == [] || Bytes(s.objects[|s.objects| - 1]) != []
  {
    var n := |s.finished|;
    assert s.objects[..s.sent] == s.objects;
    if n < |s.objects| {
      StreamPrefix(s.objects, n);
      StreamNext(s.objects, n);
      StreamPrefix(s.objects, n + 1);
      hide Stream;
    }
  }

  const EMPTY := Object(7, [], [])
  const QUEUED := INITIAL.(objects := [EMPTY])
  const WRITTEN := QUEUED.(sent := 1, wire := [HeaderOf(EMPTY)])

  lemma EmptyIsQueued()
    ensures Enabled(INITIAL, Enqueue(EMPTY)) && Step(INITIAL, Enqueue(EMPTY)) == QUEUED
  {
    assert [] + [EMPTY] == [EMPTY];
  }

  lemma EmptyIsWritten()
    ensures Enabled(QUEUED, WriteChunk(0)) && Step(QUEUED, WriteChunk(0)) == WRITTEN
    ensures !PartialWrite(QUEUED, WriteChunk(0))
  {
    assert Bytes(EMPTY) == [];
    SendNextIs(QUEUED, 0);
    assert Added(EMPTY, 0) == [HeaderOf(EMPTY)] && [] + [HeaderOf(EMPTY)] == [HeaderOf(EMPTY)];
  }

  lemma EmptyIsAnnounced()
    ensures Enabled(WRITTEN, ReadHeader(true))
    ensures
      var s := Step(WRITTEN, ReadHeader(true));
      s.objects == [EMPTY] && s.sent == 1 && s.wire == [] && s.finished == []
  {
    assert [HeaderOf(EMPTY)][1..] == [];
  }

  lemma Prepend(s: System, a: Action, rest: seq<Action>)
    requires Enabled(s, a) && FeasibleRun(Step(s, a), rest)
    ensures FeasibleRun(s, [a] + rest) && RunAll(s, [a] + rest) == RunAll(Step(s, a), rest)
    ensures FullWrites(s, [a] + rest) <==> !PartialWrite(s, a) && FullWrites(Step(s, a), rest)
  {
    assert ([a] + rest)[0] == a && ([a] + rest)[1..] == rest;
  }

  lemma Nothing(s: System)
    ensures FeasibleRun(s, []) && RunAll(s, []) == s && FullWrites(s, [])
  {
  }

  /** A run after which everything is quiet and an empty object is not finished. */
  lemma EmptyObjectIsNotFinished()
    ensures exists run ::
      && FeasibleRun(INITIAL, run)
      && var s := RunAll(INITIAL, run);
         Inv(s) && s.sent == |s.objects| == 1 && s.wire == [] && s.finished == []
  {
    hide *;
    var a, b, c := Enqueue(EMPTY), WriteChunk(0), ReadHeader(true);
    EmptyIsQueued();
    EmptyIsWritten();
    EmptyIsAnnounced();
    Nothing(Step(WRITTEN, c));
    Prepend(WRITTEN, c, []);
    Prepend(QUEUED, b, [c] + []);
    Prepend(INITIAL, a, [b] + ([c] + []));
    InitialInv();
    ReadsAreWhole(WRITTEN, c);
    ReadsAreWhole(INITIAL, a);
    RunKeepsIff(INITIAL, [a] + ([b] + ([c] + [])));
  }

  lemma ReadsAreWhole(s: System, a: Action)
    requires Enabled(s, a) && !a.WriteChunk?
    ensures !PartialWrite(s, a)
  {
  }

  // ---- What a partial write does to the receiver ----

  const TWO_BYTES := Object(8, [0, 0], [])
  const CUT := INITIAL.(objects := [TWO_BYTES], sent := 1, wire := [HeaderOf(TWO_BYTES), Raw(0)])
  const STUCK := CUT.(wire := [], mode := Reading(8, 2, [0], true))
  const MISREAD := STUCK.(objects := [TWO_BYTES, EMPTY], sent := 2, wire := [HeaderOf(EMPTY)])

  lemma FirstChunkIsCut()
    ensures
      var s := INITIAL.(objects := [TWO_BYTES]);
      && Enabled(INITIAL, Enqueue(TWO_BYTES)) && Step(INITIAL, Enqueue(TWO_BYTES)) == s
      && Enabled(s, WriteChunk(1)) && Step(s, WriteChunk(1)) == CUT
  {
    assert [] + [TWO_BYTES] == [TWO_BYTES] && Bytes(TWO_BYTES) == [0, 0];
    assert [0, 0][0..1] == [0] && Raws([0]) == [Raw(0)];
    assert ([] + [HeaderOf(TWO_BYTES)]) + [Raw(0)] == [HeaderOf(TWO_BYTES), Raw(0)];
  }

  lemma OneByteArrives()
    ensures
      var s := CUT.(wire := [Raw(0)], mode := Reading(8, 2, [], true));
      && Enabled(CUT, ReadHeader(true)) && Step(CUT, ReadHeader(true)) == s
      && Enabled(s, ReadChunk(1)) && Step(s, ReadChunk(1)) == STUCK
  {
    var s := CUT.(wire := [Raw(0)], mode := Reading(8, 2, [], true));
    assert CUT.wire[1..] == [Raw(0)];
    assert s.wire[..1] == [Raw(0)] && s.wire[1..] == [] && AllRaw(s.wire[..1]);
    assert BytesOf(s.wire[..1]) == [0];
    assert s.mode.got + BytesOf(s.wire[..1]) == [0];
    assert Step(s, ReadChunk(1)).mode == Reading(8, 2, [0], true);
  }

  lemma NextHeaderIsMisread()
    ensures
      var s := STUCK.(objects := [TWO_BYTES, EMPTY]);
      && Enabled(STUCK, Enqueue(EMPTY)) && Step(STUCK, Enqueue(EMPTY)) == s
      && Enabled(s, WriteChunk(0)) && Step(s, WriteChunk(0)) == MISREAD
      && Enabled(MISREAD, ReadChunk(1)) && Step(MISREAD, ReadChunk(1)) == MISREAD.(confused := true)
  {
    var s := STUCK.(objects := [TWO_BYTES, EMPTY]);
    assert [TWO_BYTES] + [EMPTY] == [TWO_BYTES, EMPTY] && Bytes(EMPTY) == [];
    SendNextIs(s, 0);
    assert Added(EMPTY, 0) == [HeaderOf(EMPTY)] && [] + [HeaderOf(EMPTY)] == [HeaderOf(EMPTY)];
    assert MISREAD.wire[..1][0] == HeaderOf(EMPTY);
  }

  /** A run with one partial write after which everything is quiet while the receiver waits for bytes
      that never come; and then a longer one in which it takes the next header for such bytes. */
  lemma PartialWriteConfusesReceiver()
    ensures exists run ::
      && FeasibleRun(INITIAL, run)
      && var s := RunAll(INITIAL, run);
         s.sent == |s.objects| == 1 && s.wire == [] && s.mode == Reading(8, 2, [0], true) && !s.confused
    ensures exists run :: FeasibleRun(INITIAL, run) && RunAll(INITIAL, run).confused
  {
    hide *;
    FirstChunkIsCut();
    OneByteArrives();
    NextHeaderIsMisread();
    StuckMeans();
    var s1, s3 := INITIAL.(objects := [TWO_BYTES]), CUT.(wire := [Raw(0)], mode := Reading(8, 2, [], true));
    var s5, end := STUCK.(objects := [TWO_BYTES, EMPTY]), MISREAD.(confused := true);
    var more := [Enqueue(EMPTY)] + ([WriteChunk(0)] + ([ReadChunk(1)] + []));
    Nothing(end);
    Prepend(MISREAD, ReadChunk(1), []);
    Prepend(s5, WriteChunk(0), [ReadChunk(1)] + []);
    Prepend(STUCK, Enqueue(EMPTY), [WriteChunk(0)] + ([ReadChunk(1)] + []));
    Nothing(STUCK);
    ToStuck(s1, s3, []);
    ToStuck(s1, s3, more);
  }

  lemma StuckMeans()
    ensures STUCK.sent == |STUCK.objects| == 1 && STUCK.wire == [] && STUCK.mode == Reading(8, 2, [0], true)
    ensures !STUCK.confused
  {
  }

  lemma ToStuck(s1: System, s3: System, rest: seq<Action>)
    requires Enabled(INITIAL, Enqueue(TWO_BYTES)) && Step(INITIAL, Enqueue(TWO_BYTES)) == s1
    requires Enabled(s1, WriteChunk(1)) && Step(s1, WriteChunk(1)) == CUT
    requires Enabled(CUT, ReadHeader(true)) && Step(CUT, ReadHeader(true)) == s3
    requires Enabled(s3, ReadChunk(1)) && Step(s3, ReadChunk(1)) == STUCK && FeasibleRun(STUCK, rest)
    ensures
      var run := [Enqueue(TWO_BYTES)] + ([WriteChunk(1)] + ([ReadHeader(true)] + ([ReadChunk(1)] + rest)));
      FeasibleRun(INITIAL, run) && RunAll(INITIAL, run) == RunAll(STUCK, rest)
  {
    hide *;
    Prepend(s3, ReadChunk(1), rest);
    Prepend(CUT, ReadHeader(true), [ReadChunk(1)] + rest);
    Prepend(s1, WriteChunk(1), [ReadHeader(true)] + ([ReadChunk(1)] + rest));
    Prepend(INITIAL, Enqueue(TWO_BYTES), [WriteChunk(1)] + ([ReadHeader(true)] + ([ReadChunk(1)] + rest)));
  }
}
