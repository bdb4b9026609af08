/** The bounded capture of a build's diagnostics. */
module Tail {
  import opened Results

  type Byte = b: int | 0 <= b < 256

  datatype ReadError = ReadError

  /** What one read returns: some bytes, none at the end of the stream, or an error. */
  datatype Read = Data(bytes: seq<Byte>) | Failure

  /** Everything read before the end. */
  function Stream(results: seq<Read>): seq<Byte> {
    if results == [] || results[0].Failure? || results[0].bytes == [] then [] else results[0].bytes + Stream(results[1..])
  }

  predicate Fails(results: seq<Read>) {
    results != [] && (results[0].Failure? || (results[0].bytes != [] && Fails(results[1..])))
  }

  function Last<T>(bytes: seq<T>, limit: nat): (r: seq<T>)
    ensures |r| == if |bytes| < limit then |bytes| else limit
  {
    if |bytes| <= limit then bytes else bytes[|bytes| - limit..]
  }

  /** What the capture keeps of its tail and one more chunk. */
  function Kept<T>(tail: seq<T>, chunk: seq<T>, limit: nat): seq<T>
    requires |tail| <= limit
  {
    if |chunk| >= limit then chunk[|chunk| - limit..]
    else if |tail| + |chunk| > limit then tail[|tail| + |chunk| - limit..] + chunk
    else tail + chunk
  }

  lemma DropInFirst<T>(a: seq<T>, b: seq<T>, k: nat)
    requires k <= |a|
    ensures (a + b)[k..] == a[k..] + b
  {
  }

  lemma DropInSecond<T>(a: seq<T>, b: seq<T>, k: nat)
    requires |a| <= k <= |a| + |b|
    ensures (a + b)[k..] == b[k - |a|..]
  {
  }

  lemma DropTwice<T>(a: seq<T>, i: nat, j: nat)
    requires i + j <= |a|
    ensures a[i..][j..] == a[i + j..]
  {
  }

  lemma LongChunk<T>(before: seq<T>, chunk: seq<T>, limit: nat)
    requires |chunk| >= limit
    ensures Last(before + chunk, limit) == chunk[|chunk| - limit..]
  {
    var seen := before + chunk;
    DropInSecond(before, chunk, |seen| - limit);
    if |seen| == limit { assert seen == seen[0..]; }
  }

  lemma ShortChunk<T>(before: seq<T>, chunk: seq<T>, limit: nat)
    requires |chunk| < limit < |before| + |chunk|
    ensures Last(before + chunk, limit) == before[|before| + |chunk| - limit..] + chunk
    ensures |before| > limit ==> before[|before| - limit..][|chunk|..] == before[|before| + |chunk| - limit..]
  {
    DropInFirst(before, chunk, |before| + |chunk| - limit);
    if |before| > limit { DropTwice(before, |before| - limit, |chunk|); }
  }

  /** What is kept is the end of everything seen so far. */
  lemma KeptIsLast<T>(before: seq<T>, chunk: seq<T>, limit: nat)
    ensures Kept(Last(before, limit), chunk, limit) == Last(before + chunk, limit)
  {
    if |chunk| >= limit {
      LongChunk(before, chunk, limit);
    } else if |before| + |chunk| > limit {
      ShortChunk(before, chunk, limit);
    }
  }

  lemma ReadOne(results: seq<Read>, k: nat)
    requires k < |results|
    ensures results[k].Failure? ==> Fails(results[k..])
    ensures results[k].Data? && results[k].bytes == [] ==> Stream(results[k..]) == [] && !Fails(results[k..])
    ensures results[k].Data? && results[k].bytes != [] ==>
      Stream(results[k..]) == results[k].bytes + Stream(results[k + 1..]) && Fails(results[k..]) == Fails(results[k + 1..])
  {
    assert results[k..][0] == results[k] && results[k..][1..] == results[k + 1..];
  }

  /** One more chunk: the tail drops what overflows, or gives way to the end of the chunk. */
  method Keep(tail: seq<Byte>, chunk: seq<Byte>, limit: nat) returns (next: seq<Byte>)
    requires |tail| <= limit
    ensures next == Kept(tail, chunk, limit)
  {
    var count := |chunk|;
    if count >= limit {
      next := chunk[count - limit..count];
      assert next == chunk[count - limit..];
    } else {
      var overflow := if |tail| + count > limit then |tail| + count - limit else 0;
      next := tail;
      if overflow > 0 {
        next := next[overflow..];
      }
      next := next + chunk;
    }
  }

  /** However the stream is cut into reads, the capture is its last `limit` bytes, and never holds more. */
  method ReadTail(results: seq<Read>, limit: nat) returns (res: Result<seq<Byte>, ReadError>, peak: nat)
    ensures res == if Fails(results) then Err(ReadError) else Ok(Last(Stream(results), limit))
    ensures peak <= limit
  {
    var tail: seq<Byte> := [];
    peak := 0;
    ghost var seen: seq<Byte> := [];
    var next := 0;
    assert results[0..] == results && [] + Stream(results) == Stream(results);
    while next < |results|
      invariant next <= |results|
      invariant tail == Last(seen, limit) && peak <= limit
      invariant Stream(results) == seen + Stream(results[next..])
      invariant Fails(results) == Fails(results[next..])
    {
      hide Last, Kept, Stream, Fails;
      var read := results[next];
      ReadOne(results, next);
      ghost var rest := Stream(results[next + 1..]);
      next := next + 1;
      if read.Failure? { return Err(ReadError), peak; }
      var chunk := read.bytes;
      if |chunk| == 0 {
        assert seen + [] == seen;
        return Ok(tail), peak;
      }
      KeptIsLast(seen, chunk, limit);
      Appended(seen, chunk, rest);
      tail := Keep(tail, chunk, limit);
      seen := seen + chunk;
      peak := if |tail| > peak then |tail| else peak;
    }
    assert results[|results|..] == [] && seen + [] == seen;
    res := Ok(tail);
  }

  lemma Appended<T>(a: seq<T>, b: seq<T>, c: seq<T>)
    ensures a + (b + c) == a + b + c
  {
  }
}
