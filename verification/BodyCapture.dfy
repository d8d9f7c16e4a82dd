/** Capturing a prefix of a request body and splicing it back: logcenter/bodycapture.go. */
module BodyCapture {
  import opened Bytes

  /** How a read ended: with more to come, at the end of the stream, or in an error. */
  datatype End = More | Eof | Fail

  /** What the source of a body hands out at a time; a reader with a small buffer takes it in pieces. */
  datatype Chunk = Chunk(data: seq<Byte>, end: End)

  /** The bytes still to come. */
  function Rest(chunks: seq<Chunk>): seq<Byte> {
    if chunks == [] then [] else chunks[0].data + Rest(chunks[1..])
  }

  /** The end is the last thing a stream reports. */
  predicate WellEnded(chunks: seq<Chunk>) {
    forall i :: 0 <= i < |chunks| && chunks[i].end.Eof? ==> i == |chunks| - 1
  }

  predicate NeverFails(chunks: seq<Chunk>) {
    forall i :: 0 <= i < |chunks| ==> !chunks[i].end.Fail?
  }

  /** One read into a buffer with room for `room` bytes: the bytes, how it ended, and what is left. */
  function ReadFrom(chunks: seq<Chunk>, room: nat): (seq<Byte>, End, seq<Chunk>) {
    if chunks == [] then ([], Eof, [])
    else if |chunks[0].data| > room then
      (chunks[0].data[..room], More, chunks[0 := Chunk(chunks[0].data[room..], chunks[0].end)])
    else (chunks[0].data, chunks[0].end, chunks[1..])
  }

  /** A read takes bytes off the front and nothing else; it ends the stream only when nothing is left. */
  lemma {:induction false} ReadTakesFront(chunks: seq<Chunk>, room: nat)
    requires WellEnded(chunks)
    ensures var (data, end, left) := ReadFrom(chunks, room);
            && data + Rest(left) == Rest(chunks)
            && |data| <= room
            && WellEnded(left)
            && (end.Eof? ==> Rest(left) == [])
            && (NeverFails(chunks) ==> !end.Fail? && NeverFails(left))
            && (room > 0 && chunks != [] ==> |Rest(left)| + |left| < |Rest(chunks)| + |chunks|)
  {
    var (data, end, left) := ReadFrom(chunks, room);
    if chunks != [] {
      if |chunks[0].data| > room {
        assert left[1..] == chunks[1..];
        assert data + (chunks[0].data[room..] + Rest(chunks[1..])) == chunks[0].data + Rest(chunks[1..]);
      } else {
        assert end.Eof? ==> left == [];
      }
    }
  }

  const MAX_INT64: int := 0x7FFF_FFFF_FFFF_FFFF

  /** `maxBytes + 1` in 64 bits. */
  function LimitFor(maxBytes: int): int {
    if maxBytes == MAX_INT64 then -MAX_INT64 - 1 else maxBytes + 1
  }

  /**
    * A request whose body reads bytes captured earlier first and the underlying stream after them, which is
    * what `replayReadCloser` over `io.MultiReader` does; a fresh request has captured nothing yet.
    */
  class Request {
    var replay: seq<Byte>
    var stream: seq<Chunk>

    ghost function Body(): seq<Byte>
      reads this
    {
      replay + Rest(stream)
    }

    ghost predicate Valid()
      reads this
    {
      WellEnded(stream)
    }

    constructor (stream: seq<Chunk>)
      requires WellEnded(stream)
      ensures Valid() && Body() == Rest(stream) && this.stream == stream
    {
      this.stream := stream;
      replay := [];
      new;
      assert [] + Rest(stream) == Rest(stream);
    }

    /** One read by whoever holds the body. */
    method Read(room: nat) returns (data: seq<Byte>, end: End)
      requires Valid() && room > 0
      modifies this
      ensures Valid()
      ensures data + Body() == old(Body()) && |data| <= room
      ensures end.Eof? ==> Body() == []
      ensures NeverFails(old(stream)) ==> !end.Fail? && NeverFails(stream)
      ensures end.More? ==> |Body()| + |stream| < |old(Body())| + |old(stream)|
    {
      if replay != [] {
        var n := if |replay| <= room then |replay| else room;
        data := replay[..n];
        replay := replay[n..];
        end := More;
        assert data + (old(replay)[n..] + Rest(stream)) == old(replay) + Rest(stream);
        return;
      }
      ReadTakesFront(stream, room);
      var (d, e, left) := ReadFrom(stream, room);
      data, end, stream := d, e, left;
      assert [] + Rest(stream) == Rest(stream);
    }

    /** `io.ReadAll` of `io.LimitReader`: reads of any size until the limit, the end or an error. */
    method ReadLimited(limit: int) returns (buffer: seq<Byte>, failed: bool)
      requires Valid()
      modifies this
      ensures Valid()
      ensures buffer + Body() == old(Body())
      ensures |buffer| <= if limit > 0 then limit else 0
      ensures !failed && limit > 0 ==> |buffer| == limit || Body() == []
      ensures NeverFails(old(stream)) ==> !failed
    {
      buffer := [];
      var left := limit;
      while left > 0
        invariant Valid() && buffer + Body() == old(Body())
        invariant limit > 0 ==> left >= 0 && |buffer| == limit - left
        invariant limit <= 0 ==> left == limit && buffer == []
        invariant NeverFails(old(stream)) ==> NeverFails(stream)
        decreases |Body()| + |stream|
      {
        var size: nat :| size > 0;
        ghost var before := Body();
        var data, end := Read(if size <= left then size else left);
        assert buffer + data + Body() == buffer + before;
        buffer := buffer + data;
        left := left - |data|;
        if end.Eof? {
          return buffer, false;
        }
        if end.Fail? {
          return buffer, true;
        }
      }
      return buffer, false;
    }

    /**
      * `readAndRestoreBody`. Whatever the stream does, the body reads afterwards as it did before. Unless a
      * read failed, the capture is the longest prefix of at most `maxBytes` and `truncated` tells whether more
      * followed -- for every limit but the largest 64-bit number, where the limit wraps and nothing is captured.
      */
    method ReadAndRestore(maxBytes: int) returns (captured: seq<Byte>, truncated: bool, ok: bool)
      requires Valid() && 0 < maxBytes <= MAX_INT64
      modifies this
      ensures Valid() && Body() == old(Body())
      ensures NeverFails(old(stream)) ==> ok
      ensures !ok ==> captured == [] && !truncated
      ensures ok && maxBytes < MAX_INT64 ==>
                && captured == Body()[..if |Body()| <= maxBytes then |Body()| else maxBytes]
                && truncated == (|Body()| > maxBytes)
      ensures ok && maxBytes == MAX_INT64 ==> captured == [] && !truncated
    {
      var buffer, failed := ReadLimited(LimitFor(maxBytes));
      ghost var after := Body();
      replay := buffer + replay;
      assert Body() == buffer + after;
      if failed {
        return [], false, false;
      }
      truncated := |buffer| > maxBytes;
      if truncated {
        captured := buffer[..maxBytes];
      } else {
        captured := buffer;
      }
      return captured, truncated, true;
    }

    /** The handler after the capture: however it sizes its reads, it gets the body, in order, and all of it. */
    method Drain() returns (data: seq<Byte>, failed: bool)
      requires Valid()
      modifies this
      ensures Valid() && data + Body() == old(Body())
      ensures !failed ==> data == old(Body())
      ensures NeverFails(old(stream)) ==> !failed
    {
      data := [];
      while true
        invariant Valid() && data + Body() == old(Body())
        invariant NeverFails(old(stream)) ==> NeverFails(stream)
        decreases |Body()| + |stream|
      {
        var size: nat :| size > 0;
        ghost var before := Body();
        var piece, end := Read(size);
        assert data + piece + Body() == data + before;
        data := data + piece;
        if end.Eof? {
          assert data + [] == data;
          return data, false;
        }
        if end.Fail? {
          return data, true;
        }
      }
    }
  }
}
