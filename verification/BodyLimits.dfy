/** Bounded reading of chunked bodies: the request body limit, which refuses a body that is too long and
    otherwise hands the same bytes on, and the bounded download, which keeps the first bytes. */
module BodyLimits {
  import opened Bytes
  import opened Wrappers

  function Concat(chunks: seq<seq<byte>>): seq<byte> {
    if chunks == [] then [] else Concat(chunks[..|chunks|-1]) + chunks[|chunks|-1]
  }

  function Prefix(bytes: seq<byte>, limit: int): seq<byte> {
    if limit <= 0 then [] else if limit < |bytes| then bytes[..limit] else bytes
  }

  lemma ConcatNext(chunks: seq<seq<byte>>, i: nat)
    requires i < |chunks|
    ensures Concat(chunks[..i+1]) == Concat(chunks[..i]) + chunks[i]
  {
    assert chunks[..i+1][..i] == chunks[..i];
  }

  lemma {:induction false} ConcatPrefix(chunks: seq<seq<byte>>, i: nat)
    requires i <= |chunks|
    ensures Concat(chunks[..i]) <= Concat(chunks)
    decreases |chunks| - i
  {
    if i < |chunks| {
      ConcatNext(chunks, i);
      ConcatPrefix(chunks, i + 1);
    } else {
      assert chunks[..i] == chunks;
    }
  }

  /** Exactly the chunks up to the first one that takes the total past the limit, or all of them. */
  ghost predicate ReadUpTo(chunks: seq<seq<byte>>, limit: int, n: nat) {
    && n <= |chunks|
    && (forall i :: 0 <= i < n ==> |Concat(chunks[..i])| <= limit || i == 0)
    && (n < |chunks| ==> n > 0 && |Concat(chunks[..n])| > limit)
  }

  class Stream {
    const chunks: seq<seq<byte>>
    var position: nat
    var cancelled: bool

    constructor (chunks: seq<seq<byte>>)
      ensures this.chunks == chunks && position == 0 && !cancelled
    {
      this.chunks, position, cancelled := chunks, 0, false;
    }

    method Read() returns (chunk: Option<seq<byte>>)
      modifies this
      ensures cancelled == old(cancelled)
      ensures old(position) < |chunks| ==> chunk == Some(chunks[old(position)]) && position == old(position) + 1
      ensures old(position) >= |chunks| ==> chunk == None && position == old(position)
    {
      if position >= |chunks| { return None; }
      position := position + 1;
      return Some(chunks[position-1]);
    }

    method Cancel()
      modifies this
      ensures cancelled && position == old(position)
    {
      cancelled := true;
    }
  }

  // ---------------------------------------------------------------- the bounded download

  /** Copies `chunk` into `data` at `offset`. */
  method Set(data: array<byte>, chunk: seq<byte>, offset: nat)
    requires offset + |chunk| <= data.Length
    modifies data
    ensures data[..offset] == old(data[..offset]) && data[offset..offset+|chunk|] == chunk
  {
    for i := 0 to |chunk|
      invariant data[..offset] == old(data[..offset])
      invariant forall k :: 0 <= k < i ==> data[offset+k] == chunk[k]
    {
      data[offset+i] := chunk[i];
    }
  }

  method Assemble(chunks: seq<seq<byte>>, total: nat) returns (data: array<byte>)
    requires total == |Concat(chunks)|
    ensures fresh(data) && data[..] == Concat(chunks)
  {
    hide Concat;
    data := new byte[total](_ => 0);
    var offset := 0;
    EmptyConcat(chunks[..0]);
    for i := 0 to |chunks|
      invariant offset == |Concat(chunks[..i])| && offset <= total
      invariant data[..offset] == Concat(chunks[..i])
    {
      ConcatNext(chunks, i);
      ConcatPrefix(chunks, i + 1);
      Set(data, chunks[i], offset);
      assert data[..offset+|chunks[i]|] == data[..offset] + data[offset..offset+|chunks[i]|];
      offset := offset + |chunks[i]|;
    }
    assert chunks[..|chunks|] == chunks;
    assert data[..] == data[..offset];
  }

  /** What is kept when chunk n takes the total past the limit. */
  function Kept(chunks: seq<seq<byte>>, n: nat, limit: int): seq<seq<byte>>
    requires n < |chunks|
  {
    var remaining := limit - |Concat(chunks[..n])|;
    if 0 < remaining <= |chunks[n]| then chunks[..n] + [chunks[n][..remaining]] else chunks[..n]
  }

  lemma {:induction false} KeptIsPrefix(chunks: seq<seq<byte>>, n: nat, limit: int)
    requires n < |chunks| && (|Concat(chunks[..n])| <= limit || n == 0)
    requires |Concat(chunks[..n])| + |chunks[n]| > limit
    ensures Concat(Kept(chunks, n, limit)) == Prefix(Concat(chunks), limit)
  {
    hide Concat;
    EmptyConcat(chunks[..0]);
    ConcatNext(chunks, n);
    ConcatPrefix(chunks, n + 1);
    var before := Concat(chunks[..n]);
    var remaining := limit - |before|;
    if remaining > 0 {
      var kept := chunks[..n] + [chunks[n][..remaining]];
      assert kept[..n] == chunks[..n] && kept[..n+1] == kept;
      ConcatNext(kept, n);
      assert Concat(chunks)[..limit] == (before + chunks[n])[..limit];
    } else {
      assert Concat(chunks[..n]) <= Concat(chunks[..n+1]);
    }
  }

  lemma KeptChunks(chunks: seq<seq<byte>>, n: nat, limit: int)
    requires n < |chunks| && (|Concat(chunks[..n])| <= limit || n == 0)
    requires |Concat(chunks[..n])| + |chunks[n]| > limit
    ensures var remaining := limit - |Concat(chunks[..n])|;
      && Kept(chunks, n, limit) == (if remaining > 0 then chunks[..n] + [chunks[n][..remaining]] else chunks[..n])
      && |Concat(Kept(chunks, n, limit))| == |Concat(chunks[..n])| + if remaining > 0 then remaining else 0
  {
    assert Kept(chunks, n, limit)[..n] == chunks[..n];
  }

  lemma EmptyConcat(chunks: seq<seq<byte>>)
    requires chunks == []
    ensures Concat(chunks) == []
  {
  }

  lemma SingleConcat(chunk: seq<byte>)
    ensures Concat([chunk]) == chunk
  {
    assert [chunk][..0] == [];
  }

  lemma AllIsPrefix(chunks: seq<seq<byte>>, limit: int)
    requires |Concat(chunks)| <= limit || chunks == []
    ensures Concat(chunks) == Prefix(Concat(chunks), limit)
  {
  }

  /** The loop over the reader: the chunks that are kept, and their length. */
  method ReadKept(reader: Stream, maxBodySize: int) returns (chunks: seq<seq<byte>>, total: nat)
    requires reader.position == 0 && !reader.cancelled
    modifies reader
    ensures Concat(chunks) == Prefix(Concat(reader.chunks), maxBodySize) && total == |Concat(chunks)|
    ensures ReadUpTo(reader.chunks, maxBodySize, reader.position)
    ensures reader.cancelled <==> CrossesAt(reader.chunks, maxBodySize, reader.position)
  {
    hide Concat, Prefix, Kept;
    chunks, total := [], 0;
    EmptyConcat(reader.chunks[..0]);
    while true
      invariant reader.position <= |reader.chunks| && chunks == reader.chunks[..reader.position] && !reader.cancelled
      invariant total == |Concat(chunks)|
      invariant forall i :: 0 <= i <= reader.position ==> |Concat(reader.chunks[..i])| <= maxBodySize || i == 0
      decreases |reader.chunks| - reader.position
    {
      ghost var n := reader.position;
      var value := reader.Read();
      if value.None? {
        assert reader.chunks[..n] == reader.chunks;
        AllIsPrefix(reader.chunks, maxBodySize);
        EmptyConcat(reader.chunks[..0]);
        break;
      }
      ConcatNext(reader.chunks, n);
      if total + |value.value| > maxBodySize {
        KeptIsPrefix(reader.chunks, n, maxBodySize);
        KeptChunks(reader.chunks, n, maxBodySize);
        var remaining := maxBodySize - total;
        if remaining > 0 {
          chunks := chunks + [value.value[..remaining]];
          total := total + remaining;
        }
        reader.Cancel();
        break;
      }
      chunks := chunks + [value.value];
      assert chunks == reader.chunks[..n+1];
      total := total + |value.value|;
    }
  }

  /** Whatever the chunking, the first `maxBodySize` bytes, or all of them when there are fewer; nothing is
      read past the first chunk that crosses the limit, and the stream is cancelled there. */
  method ReadLimitedResponseBody(body: Option<Stream>, maxBodySize: int) returns (data: array<byte>)
    requires body.Some? ==> body.value.position == 0 && !body.value.cancelled
    modifies if body.Some? then {body.value} else {}
    ensures fresh(data)
    ensures data[..] == if body.Some? then Prefix(Concat(body.value.chunks), maxBodySize) else []
    ensures body.Some? ==> ReadUpTo(body.value.chunks, maxBodySize, body.value.position)
    ensures body.Some? ==> (body.value.cancelled <==> CrossesAt(body.value.chunks, maxBodySize, body.value.position))
  {
    hide Concat, Prefix;
    if body.None? {
      data := new byte[0];
      return;
    }
    var chunks, total := ReadKept(body.value, maxBodySize);
    data := Assemble(chunks, total);
  }

  /** The last chunk read took the total past the limit. */
  ghost predicate CrossesAt(chunks: seq<seq<byte>>, limit: int, n: nat) {
    0 < n <= |chunks| && |Concat(chunks[..n])| > limit
  }

  // ---------------------------------------------------------------- the request body limit

  /** `contentLength` is the header as a finite number, None when absent or not one. */
  class Request {
    const contentLength: Option<real>
    const body: Option<Stream>

    constructor (contentLength: Option<real>, body: Option<Stream>)
      ensures this.contentLength == contentLength && this.body == body
    {
      this.contentLength, this.body := contentLength, body;
    }
  }

  class RequestEvent {
    var request: Request

    constructor (request: Request)
      ensures this.request == request
    {
      this.request := request;
    }
  }

  /** With a positive limit, refuses exactly when the declared or the actual length exceeds it; what is
      accepted is rebound to a request with exactly the same bytes, unread. A refusal by declared length
      reads nothing; otherwise nothing is read past the first chunk that crosses the limit. */
  method ApplyBodyLimit(event: RequestEvent, limitBytes: int) returns (refused: bool)
    requires event.request.body.Some? ==> event.request.body.value.position == 0 && !event.request.body.value.cancelled
    modifies event, if event.request.body.Some? then {event.request.body.value} else {}
    ensures var request := old(event.request);
      var declared := request.contentLength.Some? && request.contentLength.value > limitBytes as real;
      && refused == (limitBytes > 0 && (declared
           || (request.body.Some? && |Concat(request.body.value.chunks)| > limitBytes)))
      && (limitBytes <= 0 || refused || request.body.None? ==> event.request == request)
      && (limitBytes > 0 && !refused && request.body.Some? ==>
            && event.request.contentLength == request.contentLength && event.request.body.Some?
            && fresh(event.request.body.value) && event.request.body.value.position == 0
            && Concat(event.request.body.value.chunks) == Concat(request.body.value.chunks))
      && (request.body.Some? ==>
            var body := request.body.value;
            && (if limitBytes <= 0 || declared then body.position == 0 && !body.cancelled
                else ReadUpTo(body.chunks, limitBytes, body.position) && body.cancelled == refused))
  {
    hide Concat;
    if limitBytes <= 0 { return false; }
    if event.request.contentLength.Some? {
      if event.request.contentLength.value > limitBytes as real { return true; }
    }
    if event.request.body.None? { return false; }
    var reader := event.request.body.value;
    var chunks: seq<seq<byte>> := [];
    var total := 0;
    EmptyConcat(reader.chunks[..0]);
    while true
      invariant event.request == old(event.request)
      invariant reader.position <= |reader.chunks| && chunks == reader.chunks[..reader.position] && !reader.cancelled
      invariant total == |Concat(chunks)| <= limitBytes
      invariant forall i :: 0 <= i <= reader.position ==> |Concat(reader.chunks[..i])| <= limitBytes
      decreases |reader.chunks| - reader.position
    {
      ghost var n := reader.position;
      var value := reader.Read();
      if value.None? {
        assert reader.chunks[..n] == reader.chunks;
        break;
      }
      ConcatNext(reader.chunks, n);
      ConcatPrefix(reader.chunks, n + 1);
      total := total + |value.value|;
      if total > limitBytes {
        reader.Cancel();
        return true;
      }
      chunks := chunks + [value.value];
      assert chunks == reader.chunks[..n+1];
    }
    var blob := Assemble(chunks, total);
    var body := new Stream([blob[..]]);
    SingleConcat(blob[..]);
    event.request := new Request(event.request.contentLength, Some(body));
    return false;
  }
}
