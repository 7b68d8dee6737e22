/** The hand-written HTTP/1.1 response reader that fetches attestation tokens. */
module Http {
  import opened Prelude
  import opened Text
  import Utf8

  const NEWLINE: byte := 10

  /** How the end of the body was found. */
  datatype Framing = ByLength | Chunked | UntilClose

  datatype Response = Response(status: nat, headers: seq<(string, string)>, body: string)

  /** A response together with what the reader leaves behind. `terminated` records that
      every line it read ended in a newline rather than at the end of the stream. */
  datatype Parsed = Parsed(response: Response, framing: Framing, rest: Bytes, terminated: bool)

  // ---------- Reading ----------

  /** Bytes up to and including the first newline, or all of them. */
  function LineLength(input: Bytes): (n: nat)
    ensures n <= |input|
    ensures input != [] ==> n > 0
    ensures NEWLINE !in input[..n] ==> n == |input|
  {
    if input == [] then 0
    else if input[0] == NEWLINE then 1
    else
      var n := LineLength(input[1..]);
      assert input[..n + 1] == [input[0]] + input[1..][..n];
      n + 1
  }

  datatype Line = Line(text: string, rest: Bytes, terminated: bool)

  /** `read_line`: a line that is not UTF-8 is an error. */
  function ReadLine(input: Bytes): (r: Outcome<Line>)
    ensures !r.Panic?
    ensures r.Ok? ==> |r.value.rest| <= |input| && (r.value.text != [] ==> |r.value.rest| < |input|)
  {
    var n := LineLength(input);
    match Utf8.Decode(input[..n])
    case None => Err
    case Some(text) => Ok(Line(text, input[n..], n > 0 && input[n - 1] == NEWLINE))
  }

  /** `vec![0; len]` then `read_exact`: a length above `isize::MAX` panics, a short stream is an error. */
  function ReadExact(input: Bytes, len: nat): (r: Outcome<(Bytes, Bytes)>)
    ensures r.Ok? ==> len <= |input| && r.value == (input[..len], input[len..])
    ensures r.Panic? <==> len > ISIZE_MAX
  {
    if len > ISIZE_MAX then Panic
    else if len > |input| then Err
    else Ok((input[..len], input[len..]))
  }

  // ---------- Status line and headers ----------

  /** `StatusCode::from_bytes`: three digits, the first not zero. */
  function ParseStatusCode(s: string): (r: Option<nat>) {
    if |s| == 3 && '1' <= s[0] <= '9' && '0' <= s[1] <= '9' && '0' <= s[2] <= '9' then ParseDigits(s, 10) else None
  }

  function ParseStatusLine(line: string): (r: Outcome<nat>) {
    var (version, rest) :- OkOr(NextWord(line));
    var _ :- Ensure(version == "HTTP/1.1");
    var (code, _) :- OkOr(NextWord(rest));
    OkOr(ParseStatusCode(code))
  }

  datatype HeaderState = HeaderState(headers: seq<(string, string)>, contentLength: Option<nat>, chunked: bool)

  const NO_HEADERS := HeaderState([], None, false)

  /** What one trimmed, non-empty header line does. */
  function ApplyHeader(line: string, st: HeaderState): (r: Outcome<HeaderState>) {
    var (rawName, rawValue) :- OkOr(SplitOnce(line, ':'));
    var name, value := Trim(rawName), Trim(rawValue);
    var added := st.(headers := st.headers + [(name, value)]);
    if name == "Content-Length" then
      var length :- OkOr(ParseUsize(value, 10));
      Ok(added.(contentLength := Some(length)))
    else if name == "Transfer-Encoding" then Ok(added.(chunked := value == "chunked"))
    else Ok(added)
  }

  datatype Headers = Headers(state: HeaderState, rest: Bytes, terminated: bool)

  /** The header loop: it ends at the first blank line, or at the end of the stream. */
  function ReadHeaders(input: Bytes, st: HeaderState): (r: Outcome<Headers>)
    ensures r.Ok? ==> |r.value.rest| <= |input|
    decreases |input|
  {
    var line :- ReadLine(input);
    var trimmed := Trim(line.text);
    if trimmed == [] then Ok(Headers(st, line.rest, line.terminated))
    else
      var next :- ApplyHeader(trimmed, st);
      BlankTrims(line.text);
      var more :- ReadHeaders(line.rest, next);
      Ok(more.(terminated := line.terminated && more.terminated))
  }

  lemma BlankTrims(s: string)
    ensures s == [] ==> Trim(s) == []
  {
  }

  // ---------- Body ----------

  datatype Body = Body(bytes: Bytes, rest: Bytes, terminated: bool)

  /** One round of the chunk loop; `chunk` is `None` for the zero-sized last chunk. */
  datatype Round = Round(chunk: Option<Bytes>, rest: Bytes, terminated: bool)

  /** A size in hexadecimal, then that many bytes; the line after them is skipped unread. */
  function ReadChunk(input: Bytes): (r: Outcome<Round>)
    ensures r.Ok? && r.value.chunk.Some? ==> |r.value.rest| < |input|
  {
    var sizeLine :- ReadLine(input);
    var size :- OkOr(ParseUsize(Trim(sizeLine.text), 16));
    if size == 0 then
      var last :- ReadLine(sizeLine.rest);
      Ok(Round(None, last.rest, sizeLine.terminated && last.terminated))
    else
      var (chunk, afterChunk) :- ReadExact(sizeLine.rest, size);
      var newline :- ReadLine(afterChunk);
      Ok(Round(Some(chunk), newline.rest, sizeLine.terminated && newline.terminated))
  }

  /** The chunk loop. */
  function ReadChunks(input: Bytes): (r: Outcome<Body>)
    decreases |input|
  {
    var round :- ReadChunk(input);
    if round.chunk.None? then Ok(Body([], round.rest, round.terminated))
    else
      var more :- ReadChunks(round.rest);
      Ok(Body(round.chunk.value + more.bytes, more.rest, round.terminated && more.terminated))
  }

  function FramingOf(st: HeaderState): (r: Framing) {
    if st.contentLength.Some? then ByLength else if st.chunked then Chunked else UntilClose
  }

  /** Content-Length takes precedence over chunked encoding. */
  function ReadBody(st: HeaderState, input: Bytes): (r: Outcome<Body>) {
    match FramingOf(st)
    case ByLength =>
      var (bytes, rest) :- ReadExact(input, st.contentLength.value);
      Ok(Body(bytes, rest, true))
    case Chunked => ReadChunks(input)
    case UntilClose => Ok(Body(input, [], true))
  }

  /** A check of the `http` crate: whether a name and value make a legal header. */
  type HeaderCheck = (string, string) -> bool

  function ParseResponse(legal: HeaderCheck, input: Bytes): (r: Outcome<Parsed>) {
    var statusLine :- ReadLine(input);
    var status :- ParseStatusLine(statusLine.text);
    var headers :- ReadHeaders(statusLine.rest, NO_HEADERS);
    var body :- ReadBody(headers.state, headers.rest);
    var text :- OkOr(Utf8.Decode(body.bytes));
    var _ :- Ensure(forall h :: h in headers.state.headers ==> legal(h.0, h.1));
    Ok(Parsed(Response(status, headers.state.headers, text), FramingOf(headers.state), body.rest,
              statusLine.terminated && headers.terminated && body.terminated))
  }

  // ---------- The reader as written ----------

  /** Reading headers from `now` on, after those in `st`, gives what reading them from `before` gives. */
  ghost predicate HeadersLeft(before: Bytes, st: HeaderState, now: Bytes) {
    match ReadHeaders(before, NO_HEADERS)
    case Ok(h) => ReadHeaders(now, st).Ok? && ReadHeaders(now, st).value.state == h.state
                  && ReadHeaders(now, st).value.rest == h.rest
    case Err => ReadHeaders(now, st) == Err
    case Panic => ReadHeaders(now, st) == Panic
  }

  /** One line of the header loop. */
  lemma HeadersLeftStep(before: Bytes, st: HeaderState, now: Bytes)
    requires HeadersLeft(before, st, now)
    ensures ReadLine(now).IsFailure() ==> ReadHeaders(before, NO_HEADERS) == Err
    ensures ReadLine(now).Ok? && Trim(ReadLine(now).value.text) == [] ==>
              ReadHeaders(before, NO_HEADERS).Ok? && ReadHeaders(before, NO_HEADERS).value.state == st
              && ReadHeaders(before, NO_HEADERS).value.rest == ReadLine(now).value.rest
    ensures ReadLine(now).Ok? && Trim(ReadLine(now).value.text) != [] ==>
              var next := ApplyHeader(Trim(ReadLine(now).value.text), st);
              && ReadLine(now).value.text != []
              && (next.Ok? ==> HeadersLeft(before, next.value, ReadLine(now).value.rest))
              && (next.IsFailure() ==> ReadHeaders(before, NO_HEADERS) == next.PropagateFailure())
  {
    hide ReadLine, Trim, ApplyHeader;
    if ReadLine(now).Ok? {
      BlankTrims(ReadLine(now).value.text);
    }
  }

  /** Reading chunks from `now` on, after those in `body`, gives what reading them from `before` gives. */
  ghost predicate ChunksLeft(before: Bytes, body: Bytes, now: Bytes) {
    match ReadChunks(before)
    case Ok(b) => ReadChunks(now).Ok? && body + ReadChunks(now).value.bytes == b.bytes
                  && ReadChunks(now).value.rest == b.rest
    case failure => ReadChunks(now) == failure
  }

  lemma ChunksLeftStart(input: Bytes)
    ensures ChunksLeft(input, [], input)
  {
    hide ReadChunks;
    assert ReadChunks(input).Ok? ==> [] + ReadChunks(input).value.bytes == ReadChunks(input).value.bytes;
  }

  lemma ChunksLeftStep(before: Bytes, body: Bytes, now: Bytes, chunk: Bytes)
    requires ChunksLeft(before, body, now)
    requires ReadChunk(now).Ok? && ReadChunk(now).value.chunk == Some(chunk)
    ensures ChunksLeft(before, body + chunk, ReadChunk(now).value.rest)
  {
    hide ReadChunk;
    var more := ReadChunks(ReadChunk(now).value.rest);
    if more.Ok? {
      ConcatAssociates(body, chunk, more.value.bytes);
    }
  }

  /** The last chunk ends the body, and a failing one fails it. */
  lemma ChunksLeftEnd(before: Bytes, body: Bytes, now: Bytes)
    requires ChunksLeft(before, body, now)
    ensures ReadChunk(now).IsFailure() ==> ReadChunks(before) == ReadChunk(now).PropagateFailure()
    ensures ReadChunk(now).Ok? && ReadChunk(now).value.chunk.None? ==>
              ReadChunks(before).Ok? && ReadChunks(before).value.bytes == body
              && ReadChunks(before).value.rest == ReadChunk(now).value.rest
  {
    hide ReadChunk;
    assert body + [] == body;
  }

  class ResponseReader {
    var unread: Bytes

    constructor (stream: Bytes)
      ensures unread == stream
    {
      unread := stream;
    }

    method NextLine() returns (r: Outcome<string>)
      modifies this
      ensures match ReadLine(old(unread))
              case Ok(line) => r == Ok(line.text) && unread == line.rest
              case failure => r == Err
      ensures |unread| <= |old(unread)|
    {
      var n := 0;
      while n < |unread| && unread[n] != NEWLINE
        invariant n <= |unread|
        invariant LineLength(unread) == n + LineLength(unread[n..])
        invariant unread == old(unread)
      {
        assert unread[n..][1..] == unread[n + 1..];
        n := n + 1;
      }
      if n < |unread| {
        n := n + 1;
      }
      var line := unread[..n];
      unread := unread[n..];
      r := OkOr(Utf8.Decode(line));
    }

    method Exactly(len: nat) returns (r: Outcome<Bytes>)
      modifies this
      ensures match ReadExact(old(unread), len)
              case Ok((bytes, rest)) => r == Ok(bytes) && unread == rest
              case failure => r == failure.PropagateFailure()
      ensures r.Err? ==> unread == []
      ensures r.Panic? ==> unread == old(unread)
    {
      if len > ISIZE_MAX {
        return Panic;
      }
      if len > |unread| {
        unread := [];
        return Err;
      }
      r := Ok(unread[..len]);
      unread := unread[len..];
    }

    /** The header loop with its mutable variables; each round consumes at least one byte. */
    method Headers() returns (r: Outcome<HeaderState>)
      modifies this
      ensures match ReadHeaders(old(unread), NO_HEADERS)
              case Ok(h) => r == Ok(h.state) && unread == h.rest
              case failure => r == failure.PropagateFailure()
    {
      hide ReadHeaders, ReadLine, Trim, ApplyHeader;
      var st := NO_HEADERS;
      while true
        invariant HeadersLeft(old(unread), st, unread)
        decreases |unread|
      {
        HeadersLeftStep(old(unread), st, unread);
        var line := NextLine();
        if line.IsFailure() {
          return Err;
        }
        var trimmed := Trim(line.value);
        if trimmed == [] {
          return Ok(st);
        }
        var next := ApplyHeader(trimmed, st);
        if next.IsFailure() {
          return next.PropagateFailure();
        }
        st := next.value;
      }
    }

    method NextChunk() returns (r: Outcome<Option<Bytes>>)
      modifies this
      ensures match ReadChunk(old(unread))
              case Ok(round) => r == Ok(round.chunk) && unread == round.rest
              case failure => r == failure.PropagateFailure()
    {
      hide ReadLine, ReadExact, Trim, ParseUsize;
      var sizeLine := NextLine();
      if sizeLine.IsFailure() {
        return Err;
      }
      var size := ParseUsize(Trim(sizeLine.value), 16);
      if size.None? {
        return Err;
      }
      if size.value == 0 {
        var last := NextLine();
        return if last.IsFailure() then Err else Ok(None);
      }
      var chunk := Exactly(size.value);
      if chunk.IsFailure() {
        return chunk.PropagateFailure();
      }
      var newline := NextLine();
      r := if newline.IsFailure() then Err else Ok(Some(chunk.value));
    }

    /** The chunk loop, which appends to one buffer. */
    method Chunks() returns (r: Outcome<Bytes>)
      modifies this
      ensures match ReadChunks(old(unread))
              case Ok(b) => r == Ok(b.bytes) && unread == b.rest
              case failure => r == failure.PropagateFailure()
    {
      hide ReadChunk, ReadChunks;
      var body: Bytes := [];
      ChunksLeftStart(unread);
      while true
        invariant ChunksLeft(old(unread), body, unread)
        decreases |unread|
      {
        ghost var now := unread;
        var chunk := NextChunk();
        ChunksLeftEnd(old(unread), body, now);
        if chunk.IsFailure() {
          return chunk.PropagateFailure();
        }
        if chunk.value.None? {
          return Ok(body);
        }
        ChunksLeftStep(old(unread), body, now, chunk.value.value);
        body := body + chunk.value.value;
      }
    }

    /** The body, found by its length, by its chunks, or by the end of the stream. */
    method Body(st: HeaderState) returns (r: Outcome<Bytes>)
      modifies this
      ensures match ReadBody(st, old(unread))
              case Ok(b) => r == Ok(b.bytes) && unread == b.rest
              case failure => r == failure.PropagateFailure()
    {
      hide ReadChunks, ReadExact;
      if st.contentLength.Some? {
        r := Exactly(st.contentLength.value);
      } else if st.chunked {
        r := Chunks();
      } else {
        r := Ok(unread);
        unread := [];
      }
    }
  }

  /** The response half of `http_request`. */
  method ReadResponse(legal: HeaderCheck, stream: Bytes) returns (r: Outcome<Response>)
    ensures match ParseResponse(legal, stream)
            case Ok(parsed) => r == Ok(parsed.response)
            case failure => r == failure.PropagateFailure()
  {
    hide ReadLine, ParseStatusLine, ReadHeaders, ReadBody, Utf8.Decode;
    var reader := new ResponseReader(stream);
    var statusLine := reader.NextLine();
    if statusLine.IsFailure() {
      return Err;
    }
    var status := ParseStatusLine(statusLine.value);
    if status.IsFailure() {
      return status.PropagateFailure();
    }
    var headers := reader.Headers();
    if headers.IsFailure() {
      return headers.PropagateFailure();
    }
    var body := reader.Body(headers.value);
    if body.IsFailure() {
      return body.PropagateFailure();
    }
    var text := Utf8.Decode(body.value);
    if text.None? {
      return Err;
    }
    if !(forall h :: h in headers.value.headers ==> legal(h.0, h.1)) {
      return Err;
    }
    r := Ok(Response(status.value, headers.value.headers, text.value));
  }
}
