/** errLimitReader: a reader that fails once its source proves longer than a limit
    (internal/storage/file_service_sharing.go). */
module LimitReader {
  import opened Base
  import opened PhysicalTree

  const MAX_INT64: int := 0x7FFF_FFFF_FFFF_FFFF

  /** Why a read ended: the content is over, its source failed, it is over the limit, or
      the reader itself failed on a bound beyond the 64-bit integers. */
  datatype End = Eof | Fault | TooLarge | Panic

  /** Any io.Reader over a content, which it hands out in pieces of its own choice and
      then ends, with the last piece or after it. */
  class Reader {
    var left: Bytes
    const ending: End

    constructor (content: Bytes, ending: End)
      requires ending == Eof || ending == Fault
      ensures left == content && this.ending == ending
    {
      left, this.ending := content, ending;
    }

    method Read(n: nat) returns (piece: Bytes, end: Option<End>)
      modifies this`left
      ensures |piece| <= n && old(left) == piece + left
      ensures end.Some? ==> left == [] && end == Some(ending)
      ensures piece == [] && n > 0 ==> end.Some?
    {
      var m: nat :| m <= n && m <= |left| && (left != [] && n > 0 ==> m > 0);
      piece, left := left[..m], left[m..];
      end := None;
      var now: bool := *;
      if left == [] && (piece == [] || now) {
        end := Some(ending);
      }
    }
  }

  class ErrLimitReader {
    const r: Reader
    var remaining: int

    constructor (r: Reader, limit: int)
      ensures this.r == r && remaining == limit
    {
      this.r, remaining := r, limit;
    }

    /** Asks for one byte more than is left of the limit, so that a source of exactly
        that length ends by itself. With the largest integer left the sum wraps around, and
        the buffer is cut at a negative bound. */
    method Read(n: nat) returns (piece: Bytes, end: Option<End>)
      requires -1 <= remaining <= MAX_INT64 && (r.ending == Eof || r.ending == Fault)
      modifies this`remaining, r`left
      ensures old(r.left) == piece + r.left && |piece| <= n
      ensures remaining == old(remaining) - |piece| >= -1
      ensures old(remaining) < 0 ==> piece == [] && end == Some(TooLarge)
      ensures end == Some(Panic) <==> old(remaining) == MAX_INT64
      ensures end == Some(Panic) ==> piece == []
      ensures 0 <= old(remaining) < MAX_INT64 ==>
                if remaining < 0 then end == Some(TooLarge)
                else (end.Some? ==> r.left == [] && end == Some(r.ending)) && (piece == [] && n > 0 ==> end.Some?)
    {
      if remaining < 0 {
        return [], Some(TooLarge);
      }
      if remaining == MAX_INT64 {
        return [], Some(Panic);
      }
      piece, end := r.Read(if n > remaining + 1 then remaining + 1 else n);
      remaining := remaining - |piece|;
      if remaining < 0 {
        end := Some(TooLarge);
      }
    }
  }

  /** Reading through the limit until it ends, in buffers of any length: a content
      within the limit arrives whole and ends as its source ends; a longer one fails,
      after one byte too many; under the largest limit nothing arrives. */
  method Drain(content: Bytes, ending: End, limit: nat) returns (got: Bytes, end: End)
    requires (ending == Eof || ending == Fault) && limit <= MAX_INT64
    ensures limit == MAX_INT64 ==> got == [] && end == Panic
    ensures |content| <= limit < MAX_INT64 ==> got == content && end == ending
    ensures |content| > limit && limit < MAX_INT64 ==> got == content[..limit + 1] && end == TooLarge
  {
    var r := new Reader(content, ending);
    var l := new ErrLimitReader(r, limit);
    got := [];
    var e: Option<End> := None;
    while e.None?
      invariant l.r == r && r.ending == ending
      invariant content == got + r.left && l.remaining == limit - |got| >= -1
      invariant e.None? ==> l.remaining >= 0
      invariant e == Some(Panic) <==> e.Some? && limit == MAX_INT64
      invariant limit == MAX_INT64 ==> got == []
      invariant e.Some? && limit < MAX_INT64 ==>
                  if l.remaining < 0 then e == Some(TooLarge) else r.left == [] && e == Some(ending)
      decreases if e.None? then 1 + |r.left| else 0
    {
      var n: nat :| n > 0;
      var piece;
      piece, e := l.Read(n);
      got := got + piece;
    }
    end := e.value;
  }

  /** What an upload receives through a limit: the same stream, or a broken one. */
  function Limited(src: Source, limit: Option<nat>): Source {
    if limit.Some? && src.Complete? && |src.data| > limit.value then Broken else src
  }

  /** The stream an upload reads, whatever the pieces it arrives in and wherever a
      broken one breaks. */
  method Receive(src: Source, limit: Option<nat>) returns (received: Source)
    requires limit.Some? ==> limit.value < MAX_INT64
    ensures received == Limited(src, limit)
  {
    if limit.None? {
      return src;
    }
    var sent: Bytes := *;
    var content, ending := if src.Complete? then src.data else sent, if src.Complete? then Eof else Fault;
    var got, end := Drain(content, ending, limit.value);
    received := if end.Eof? then Complete(got) else Broken;
  }
}
