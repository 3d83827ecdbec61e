/**
 The two ends of a connection between plasma managers as the running program keeps them: a queue
 and a cursor on one side, a fixed-size buffer that is filled in place on the other.
 */
module ObjectTransfer {
  import opened TransferSpec

  class SendConnection {
    var queue: seq<Object>
    var cursor: nat
    var wire: seq<Item>

    predicate Valid()
      reads this
    {
      if queue == [] then cursor == 0 else cursor <= |Bytes(queue[0])|
    }

    constructor ()
      ensures Valid() && queue == [] && wire == []
    {
      queue, cursor, wire := [], 0, [];
    }

    /** Offer the next chunk to the socket, which takes `r` bytes of it. */
    method WriteObjectChunk(x: Object, r: nat)
      requires CanWrite(x, Sending(cursor, wire, false), r)
      modifies `cursor, `wire
      ensures wire == old(wire) + Raws(Bytes(x)[old(cursor)..old(cursor) + r])
      ensures cursor == if r == 0 then 0 else if r == Chunk(|Bytes(x)| - old(cursor)) then old(cursor) + r
        else old(cursor)
    {
      var s := |Bytes(x)| - cursor;
      if s > BUFSIZE {
        s := BUFSIZE;
      }
      wire := wire + Raws(Bytes(x)[cursor..cursor + r]);
      if r == s {
        cursor := cursor + r;
      }
      if r == 0 {
        cursor := 0;
      }
    }

    /** The socket is writable. Returns whether the connection stays registered for writing. */
    method SendQueuedRequest(r: nat) returns (active: bool)
      requires Valid() && (queue != [] ==> CanWrite(queue[0], Sending(cursor, wire, false), r))
      modifies this
      ensures Valid() && active == (old(queue) != [])
      ensures old(queue) == [] ==> queue == [] && wire == old(wire)
      ensures old(queue) != [] ==>
        var w := Write(old(queue)[0], old(Sending(cursor, wire, false)), r);
        cursor == w.cursor && wire == w.wire && queue == if w.done then old(queue)[1..] else old(queue)
    {
      if queue == [] {
        return false;
      }
      var x := queue[0];
      if cursor == 0 {
        wire := wire + [HeaderOf(x)];
      } else {
        assert wire + [] == wire;
      }
      WriteObjectChunk(x, r);
      if cursor == 0 {
        queue := queue[1..];
      }
      return true;
    }
  }

  class ReceiveConnection {
    var reading: bool
    var id: ObjectId
    var accepted: bool
    var buffer: array<Byte>
    var cursor: nat
    var finished: seq<Received>

    predicate Valid()
      reads this
    {
      if reading then cursor <= buffer.Length else cursor == 0
    }

    function TheMode(): Mode
      requires Valid()
      reads this, buffer
    {
      if reading then Reading(id, buffer.Length, buffer[..cursor], accepted) else Listening
    }

    constructor ()
      ensures Valid() && fresh(buffer) && TheMode() == Listening && finished == []
    {
      reading, id, accepted, cursor, finished := false, 0, false, 0, [];
      buffer := new Byte[0];
    }

    /** A header has been read; `accepted` says whether the store has created the object. */
    method ProcessDataRequest(id: ObjectId, dataSize: nat, metadataSize: nat, accepted: bool)
      requires Valid() && !reading
      modifies this
      ensures Valid() && fresh(buffer) && finished == old(finished)
      ensures TheMode() == Reading(id, dataSize + metadataSize, [], accepted)
    {
      this.id, this.accepted := id, accepted;
      assert cursor == 0;
      buffer := new Byte[dataSize + metadataSize];
      reading := true;
    }

    /** The socket is readable and gives `chunk`, nothing at the end of the stream. */
    method ProcessDataChunk(chunk: seq<Byte>)
      requires Valid() && reading && |chunk| <= Chunk(buffer.Length - cursor)
      modifies this, buffer
      ensures Valid() && buffer == old(buffer)
      ensures
        var m := old(TheMode());
        var got := m.got + chunk;
        if |got| == m.size then TheMode() == Listening && finished == old(finished) + [Received(m.id, got, m.accepted)]
        else TheMode() == m.(got := got) && finished == old(finished)
    {
      ghost var got := buffer[..cursor] + chunk;
      var done := ReadObjectChunk(chunk);
      if done {
        assert buffer[..] == buffer[..buffer.Length] == got;
        finished := finished + [Received(id, buffer[..], accepted)];
        reading := false;
      }
    }

    /** Copy the chunk to the cursor; a full buffer resets the cursor. */
    method ReadObjectChunk(chunk: seq<Byte>) returns (done: bool)
      requires cursor <= buffer.Length && |chunk| <= Chunk(buffer.Length - cursor)
      modifies `cursor, buffer
      ensures done == (old(cursor) + |chunk| == buffer.Length)
      ensures cursor == if done then 0 else old(cursor) + |chunk|
      ensures buffer[..old(cursor) + |chunk|] == old(buffer[..cursor]) + chunk
    {
      for i := 0 to |chunk|
        invariant cursor == old(cursor)
        invariant buffer[..cursor + i] == old(buffer[..cursor]) + chunk[..i]
      {
        buffer[cursor + i] := chunk[i];
        assert buffer[..cursor + i] == old(buffer[..cursor]) + chunk[..i];
      }
      assert chunk[..|chunk|] == chunk;
      cursor := cursor + |chunk|;
      done := cursor == buffer.Length;
      if done {
        cursor := 0;
      }
    }
  }
}
