/** cappedReadCloser (server/api_pipelines_run.go) over any inner reader that follows the
    io.Reader contract: a Read returns some of the bytes that are left, and reports EOF
    only once none is. */
module CappedReader {
  import opened Runs

  /** ReaderFailed stands for every error of the inner reader other than EOF. */
  datatype ReadError = EndOfFile | TooLarge | ReaderFailed

  /** What a reader was asked for, and the error that came with its answer. */
  datatype Reply = Reply(size: nat, err: Option<ReadError>)

  class InnerReader {
    const data: seq<bv8>
    var pos: nat
    /** All its replies so far, in order. */
    ghost var told: seq<Reply>

    constructor (data: seq<bv8>)
      ensures this.data == data && pos == 0 && told == []
    {
      this.data, pos, told := data, 0, [];
    }

    ghost predicate Valid()
      reads this
    {
      pos <= |data| && forall k :: 0 <= k < |told| ==> told[k].err != Some(TooLarge)
    }

    /** Fills the front of a buffer of `size` bytes. */
    method Read(size: nat) returns (bytes: seq<bv8>, err: Option<ReadError>)
      requires Valid()
      modifies this
      ensures Valid() && |bytes| <= size && pos == old(pos) + |bytes| && bytes == data[old(pos)..pos]
      ensures err == Some(EndOfFile) ==> pos == |data|
      ensures err != Some(TooLarge)
      ensures told == old(told) + [Reply(size, err)]
    {
      var most := if size <= |data| - pos then size else |data| - pos;
      var n :| 0 <= n <= most;
      bytes := data[pos..pos + n];
      pos := pos + n;
      var fails: bool := *;
      var ends: bool := *;
      err := if fails then Some(ReaderFailed) else if ends && pos == |data| then Some(EndOfFile) else None;
      told := told + [Reply(size, err)];
    }
  }

  class CappedReadCloser {
    const inner: InnerReader
    const cap: int
    var read: int
    /** Everything handed to the caller so far. */
    ghost var delivered: seq<bv8>

    /** Past the cap one byte more may have been taken from the inner reader: the peek. */
    ghost predicate Valid()
      reads this, inner
    {
      && inner.Valid()
      && 0 <= read <= |inner.data| && (read <= cap || read == 0)
      && read <= inner.pos <= read + (if read >= cap then 1 else 0)
      && delivered == inner.data[..read]
    }

    constructor (inner: InnerReader, cap: int)
      requires inner.Valid() && inner.pos == 0
      ensures Valid() && this.inner == inner && this.cap == cap && delivered == []
    {
      this.inner, this.cap, read := inner, cap, 0;
      delivered := [];
    }

    /** Below the cap the caller gets exactly the inner reader's reply. The reply that
        reaches the cap is passed on too, unless it was no failure and the peek that then
        follows finds another byte. Past the cap the inner reader is not asked. */
    method Read(size: nat) returns (bytes: seq<bv8>, err: Option<ReadError>)
      requires Valid()
      modifies this, inner
      ensures Valid() && |bytes| <= size && delivered == old(delivered) + bytes
      ensures old(read) >= cap ==> bytes == [] && err == Some(TooLarge) && inner.pos == old(inner.pos)
      ensures old(read) >= cap ==> inner.told == old(inner.told)
      ensures old(read) < cap ==> bytes == inner.data[old(inner.pos)..old(inner.pos) + |bytes|]
      ensures old(read) < cap ==>
                && |inner.told| > |old(inner.told)| && old(inner.told) <= inner.told
                && inner.told[|old(inner.told)|].size == (if size <= cap - old(read) then size else cap - old(read))
      ensures read < cap ==>
                inner.told == old(inner.told) + [Reply(inner.told[|old(inner.told)|].size, err)] && inner.pos == read
      ensures old(read) < cap == read ==>
                var reply := inner.told[|old(inner.told)|].err;
                var peeks := reply.None? || reply.value.EndOfFile?;
                && |inner.told| == |old(inner.told)| + (if peeks then 2 else 1)
                && (peeks ==> inner.told[|old(inner.told)| + 1].size == 1)
                && (inner.pos == read || (peeks && inner.pos == read + 1))
                && err == (if inner.pos > read then Some(TooLarge) else reply)
      ensures err == Some(EndOfFile) ==> delivered == inner.data && |inner.data| <= cap
      ensures err == Some(TooLarge) ==> |inner.data| >= cap && read >= cap
      ensures err == Some(TooLarge) && |inner.data| == cap ==> old(read) >= cap
    {
      var remaining := cap - read;
      if remaining <= 0 {
        return [], Some(TooLarge);
      }
      var limit := size;
      if limit > remaining {
        limit := remaining;
      }
      bytes, err := inner.Read(limit);
      read := read + |bytes|;
      delivered := inner.data[..read];
      if read >= cap && (err.None? || err.value.EndOfFile?) {
        var more, _ := inner.Read(1);
        if |more| > 0 {
          return bytes, Some(TooLarge);
        }
      }
    }
  }

  /** The inner reader was asked once for each of the first `calls` reads, for nothing only
      where the caller's buffer is empty, and no reply but the last carried an error. */
  predicate AskedPerCall(before: seq<Reply>, after: seq<Reply>, sizes: seq<nat>, calls: nat) {
    && calls <= |sizes| && |before| + calls <= |after| && before <= after
    && (forall k :: |before| <= k < |before| + calls ==>
          after[k].size <= sizes[k - |before|] && (sizes[k - |before|] > 0 ==> after[k].size > 0))
    && (forall k :: |before| <= k < |before| + calls - 1 ==> after[k].err.None?)
  }

  lemma AskOnce(before: seq<Reply>, mid: seq<Reply>, after: seq<Reply>, sizes: seq<nat>, size: nat, calls: nat)
    requires PassedOn(before, mid, sizes, calls, None) && mid <= after && |after| > |mid|
    requires after[|mid|].size <= size && (size > 0 ==> after[|mid|].size > 0)
    ensures calls == |sizes| && AskedPerCall(before, after, sizes + [size], calls + 1)
  {
    forall k | 0 <= k < |mid| ensures after[k] == mid[k] {}
  }

  lemma AskNoMore(before: seq<Reply>, after: seq<Reply>, sizes: seq<nat>, size: nat, calls: nat)
    requires EndedAtCap(before, after, sizes, calls, false, None)
    ensures EndedAtCap(before, after, sizes + [size], calls, false, Some(TooLarge))
  {
  }

  /** Below the cap the last reply is the caller's answer, and without an error every
      buffer has been filled from one reply. */
  predicate PassedOn(before: seq<Reply>, after: seq<Reply>, sizes: seq<nat>, calls: nat, err: Option<ReadError>) {
    && AskedPerCall(before, after, sizes, calls) && |after| == |before| + calls
    && (calls > 0 ==> err == after[|after| - 1].err)
    && (err.None? ==> calls == |sizes|)
    && (err.Some? ==> calls > 0)
  }

  /** The reply that reached the cap decides: a failure is passed on; otherwise one byte
      more is asked for, and `more` says that it came. Only a stream that ends cleanly at
      the cap leaves the caller's next read to be refused. */
  predicate EndedAtCap(before: seq<Reply>, after: seq<Reply>, sizes: seq<nat>, calls: nat, more: bool, err: Option<ReadError>) {
    && AskedPerCall(before, after, sizes, calls) && calls > 0
    && var reply := after[|before| + calls - 1].err;
    && var peeks := reply.None? || reply.value.EndOfFile?;
    && |after| == |before| + calls + (if peeks then 1 else 0)
    && (more ==> peeks)
    && err == (if more then Some(TooLarge)
               else if reply.Some? then reply
               else if calls < |sizes| then Some(TooLarge)
               else None)
  }

  /** What reads with buffers of these sizes have come to, `calls` of them having reached
      the inner reader; `before` are its earlier replies. */
  ghost predicate Drained(reader: CappedReadCloser, before: seq<Reply>, sizes: seq<nat>, calls: nat, err: Option<ReadError>)
    reads reader, reader.inner
  {
    && reader.Valid()
    && (err == Some(EndOfFile) ==> reader.delivered == reader.inner.data && |reader.inner.data| <= reader.cap)
    && (reader.cap <= 0 ==>
          reader.read == 0 && calls == 0 && reader.inner.told == before
          && err == (if sizes == [] then None else Some(TooLarge)))
    && (reader.read < reader.cap ==>
          reader.inner.pos == reader.read && PassedOn(before, reader.inner.told, sizes, calls, err))
    && (0 < reader.cap == reader.read ==>
          EndedAtCap(before, reader.inner.told, sizes, calls, reader.inner.pos > reader.cap, err))
  }

  method ReadOn(reader: CappedReadCloser, ghost before: seq<Reply>, ghost sizes: seq<nat>, size: nat, ghost calls: nat)
    returns (bytes: seq<bv8>, err: Option<ReadError>, ghost after: nat)
    requires Drained(reader, before, sizes, calls, None)
    modifies reader, reader.inner
    ensures Drained(reader, before, sizes + [size], after, err)
    ensures reader.delivered == old(reader.delivered) + bytes
  {
    ghost var mid := reader.inner.told;
    after := if reader.read < reader.cap then calls + 1 else calls;
    bytes, err := reader.Read(size);
    if after == calls + 1 {
      AskOnce(before, mid, reader.inner.told, sizes, size, calls);
    } else if 0 < reader.cap {
      AskNoMore(before, mid, sizes, size, calls);
    }
  }

  /** Where the stream and the cap leave no choice. */
  lemma DrainedMeans(reader: CappedReadCloser, before: seq<Reply>, sizes: seq<nat>, calls: nat, err: Option<ReadError>)
    requires Drained(reader, before, sizes, calls, err)
    ensures reader.cap > 0 && err == Some(TooLarge) ==> reader.read == reader.cap
    ensures |reader.inner.data| < reader.cap ==> err != Some(TooLarge)
    ensures 0 < |reader.inner.data| == reader.cap == reader.read ==>
              && |before| + calls <= |reader.inner.told| && calls > 0
              && var last := reader.inner.told[|before| + calls - 1].err;
              (err == Some(EndOfFile) <==> last == Some(EndOfFile))
              && (err == Some(TooLarge) <==> last.None? && calls < |sizes|)
  {
  }

  /** Reads with the given buffer sizes until an error or until they are used up. What
      comes out is what the inner reader hands over, up to the cap; a stream of exactly
      the cap ends cleanly exactly if the reply with its last byte says that it ended. */
  method Drain(reader: CappedReadCloser, sizes: seq<nat>)
    returns (out: seq<bv8>, err: Option<ReadError>, ghost calls: nat)
    requires reader.Valid() && reader.delivered == []
    modifies reader, reader.inner
    ensures reader.Valid() && out == reader.inner.data[..reader.read]
    ensures Drained(reader, old(reader.inner.told), sizes, calls, err)
    ensures reader.cap >= 0 ==> |out| <= reader.cap && (err == Some(TooLarge) ==> |out| == reader.cap)
    ensures err == Some(EndOfFile) ==> out == reader.inner.data
    ensures |reader.inner.data| < reader.cap ==> err != Some(TooLarge)
    ensures |reader.inner.data| > reader.cap ==> err != Some(EndOfFile)
    ensures 0 < |reader.inner.data| == reader.cap == |out| ==>
              var last := reader.inner.told[|old(reader.inner.told)| + calls - 1].err;
              (err == Some(EndOfFile) <==> last == Some(EndOfFile))
              && (err == Some(TooLarge) <==> last.None? && calls < |sizes|)
  {
    out, err, calls := [], None, 0;
    ghost var before := reader.inner.told;
    var i := 0;
    while i < |sizes| && err.None?
      invariant 0 <= i <= |sizes| && out == reader.delivered
      invariant Drained(reader, before, sizes[..i], calls, err)
      decreases |sizes| - i
    {
      assert sizes[..i + 1] == sizes[..i] + [sizes[i]];
      var bytes: seq<bv8>;
      bytes, err, calls := ReadOn(reader, before, sizes[..i], sizes[i], calls);
      out := out + bytes;
      i := i + 1;
    }
    assert i == |sizes| ==> sizes[..i] == sizes;
    DrainedMeans(reader, before, sizes, calls, err);
  }
}
