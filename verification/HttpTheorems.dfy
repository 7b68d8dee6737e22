/** What the HTTP reader guarantees: when bytes after a response cannot matter,
    and that the three ways to delimit a body are read alike. */
module HttpTheorems {
  import opened Prelude
  import opened Text
  import opened Http
  import Utf8

  // ---------- Bytes after the response ----------

  lemma {:induction false} LineLengthStable(input: Bytes, more: Bytes)
    ensures LineLength(input) > 0 && input[LineLength(input) - 1] == NEWLINE ==>
            LineLength(input + more) == LineLength(input)
    ensures !(LineLength(input) > 0 && input[LineLength(input) - 1] == NEWLINE) ==>
            LineLength(input) == |input| && LineLength(input + more) == |input| + LineLength(more)
    decreases |input|
  {
    if input == [] {
      assert input + more == more;
    } else {
      assert (input + more)[1..] == input[1..] + more;
      LineLengthStable(input[1..], more);
    }
  }

  lemma LineStable(input: Bytes, more: Bytes)
    requires ReadLine(input).Ok? && ReadLine(input).value.terminated
    ensures var line := ReadLine(input).value; ReadLine(input + more) == Ok(line.(rest := line.rest + more))
  {
    LineLengthStable(input, more);
    var n := LineLength(input);
    assert (input + more)[..n] == input[..n] && (input + more)[n..] == input[n..] + more;
  }

  lemma {:induction false} HeadersStable(input: Bytes, st: HeaderState, more: Bytes)
    requires ReadHeaders(input, st).Ok? && ReadHeaders(input, st).value.terminated
    ensures var h := ReadHeaders(input, st).value; ReadHeaders(input + more, st) == Ok(h.(rest := h.rest + more))
    decreases |input|
  {
    hide ReadLine, ApplyHeader;
    var line := ReadLine(input).value;
    LineStable(input, more);
    if Trim(line.text) != [] {
      BlankTrims(line.text);
      HeadersStable(line.rest, ApplyHeader(Trim(line.text), st).value, more);
    }
  }

  lemma ExactStable(input: Bytes, len: nat, more: Bytes)
    requires ReadExact(input, len).Ok?
    ensures ReadExact(input + more, len) == Ok((input[..len], input[len..] + more))
  {
    assert (input + more)[..len] == input[..len] && (input + more)[len..] == input[len..] + more;
  }

  lemma ChunkStable(input: Bytes, more: Bytes)
    requires ReadChunk(input).Ok? && ReadChunk(input).value.terminated
    ensures var c := ReadChunk(input).value; ReadChunk(input + more) == Ok(c.(rest := c.rest + more))
  {
    hide ReadLine, ReadExact, ParseUsize, Trim;
    var sizeLine := ReadLine(input).value;
    LineStable(input, more);
    var size := ParseUsize(Trim(sizeLine.text), 16).value;
    if size == 0 {
      LineStable(sizeLine.rest, more);
    } else {
      ExactStable(sizeLine.rest, size, more);
      LineStable(sizeLine.rest[size..], more);
    }
  }

  lemma {:induction false} ChunksStable(input: Bytes, more: Bytes)
    requires ReadChunks(input).Ok? && ReadChunks(input).value.terminated
    ensures var b := ReadChunks(input).value; ReadChunks(input + more) == Ok(b.(rest := b.rest + more))
    decreases |input|
  {
    hide ReadChunk;
    ChunkStable(input, more);
    if ReadChunk(input).value.chunk.Some? {
      ChunksStable(ReadChunk(input).value.rest, more);
    }
  }

  /** Prefix stability: a completely framed response parses the same whatever follows it. */
  lemma FramedResponseIsStable(legal: HeaderCheck, input: Bytes, more: Bytes)
    requires ParseResponse(legal, input).Ok?
    requires ParseResponse(legal, input).value.terminated && !ParseResponse(legal, input).value.framing.UntilClose?
    ensures var r := ParseResponse(legal, input).value;
            ParseResponse(legal, input + more) == Ok(r.(rest := r.rest + more))
  {
    hide ReadLine, ReadHeaders, ParseStatusLine, ReadChunks, ReadExact;
    var statusLine := ReadLine(input).value;
    LineStable(input, more);
    var headers := ReadHeaders(statusLine.rest, NO_HEADERS).value;
    HeadersStable(statusLine.rest, NO_HEADERS, more);
    match FramingOf(headers.state)
    case ByLength => ExactStable(headers.rest, headers.state.contentLength.value, more);
    case Chunked => ChunksStable(headers.rest, more);
    case UntilClose =>
  }

  const STRAY: Bytes := [0xFF]

  lemma {:induction false} StrayByteIsNotUtf8(b: Bytes)
    ensures Utf8.Decode(b + STRAY) == None
    decreases |b|
  {
    var x := b + STRAY;
    match Utf8.DecodeChar(x)
    case None =>
    case Some((c, size)) =>
      assert size <= |b|;
      assert x[size..] == b[size..] + STRAY;
      StrayByteIsNotUtf8(b[size..]);
  }

  lemma UnterminatedLineBreaks(input: Bytes)
    requires ReadLine(input).Ok? && !ReadLine(input).value.terminated
    ensures ReadLine(input + STRAY) == Err
  {
    LineLengthStable(input, STRAY);
    assert LineLength(STRAY) == 1;
    assert (input + STRAY)[..|input| + 1] == input + STRAY;
    StrayByteIsNotUtf8(input);
  }

  lemma {:induction false} UnterminatedHeadersBreak(input: Bytes, st: HeaderState)
    requires ReadHeaders(input, st).Ok? && !ReadHeaders(input, st).value.terminated
    ensures ReadHeaders(input + STRAY, st).IsFailure()
    decreases |input|
  {
    hide ReadLine, ApplyHeader;
    var line := ReadLine(input).value;
    if line.terminated {
      LineStable(input, STRAY);
      BlankTrims(line.text);
      UnterminatedHeadersBreak(line.rest, ApplyHeader(Trim(line.text), st).value);
    } else {
      UnterminatedLineBreaks(input);
    }
  }

  lemma UnterminatedChunkBreaks(input: Bytes)
    requires ReadChunk(input).Ok? && !ReadChunk(input).value.terminated
    ensures ReadChunk(input + STRAY).IsFailure()
  {
    hide ReadLine, ReadExact, ParseUsize, Trim;
    var sizeLine := ReadLine(input).value;
    if !sizeLine.terminated {
      UnterminatedLineBreaks(input);
    } else {
      LineStable(input, STRAY);
      var size := ParseUsize(Trim(sizeLine.text), 16).value;
      if size == 0 {
        UnterminatedLineBreaks(sizeLine.rest);
      } else {
        ExactStable(sizeLine.rest, size, STRAY);
        UnterminatedLineBreaks(sizeLine.rest[size..]);
      }
    }
  }

  lemma {:induction false} UnterminatedChunksBreak(input: Bytes)
    requires ReadChunks(input).Ok? && !ReadChunks(input).value.terminated
    ensures ReadChunks(input + STRAY).IsFailure()
    decreases |input|
  {
    hide ReadChunk;
    var round := ReadChunk(input).value;
    if round.terminated {
      ChunkStable(input, STRAY);
      UnterminatedChunksBreak(round.rest);
    } else {
      UnterminatedChunkBreaks(input);
    }
  }

  lemma UnframedResponseBreaks(legal: HeaderCheck, input: Bytes)
    requires ParseResponse(legal, input).Ok?
    requires !ParseResponse(legal, input).value.terminated || ParseResponse(legal, input).value.framing.UntilClose?
    ensures ParseResponse(legal, input + STRAY).IsFailure()
  {
    hide ReadLine, ReadHeaders, ParseStatusLine, ReadChunks, ReadExact;
    var statusLine := ReadLine(input).value;
    if !statusLine.terminated {
      UnterminatedLineBreaks(input);
    } else {
      LineStable(input, STRAY);
      var headers := ReadHeaders(statusLine.rest, NO_HEADERS).value;
      if !headers.terminated {
        UnterminatedHeadersBreak(statusLine.rest, NO_HEADERS);
      } else {
        HeadersStable(statusLine.rest, NO_HEADERS, STRAY);
        if FramingOf(headers.state).Chunked? {
          UnterminatedChunksBreak(headers.rest);
        } else {
          StrayByteIsNotUtf8(headers.rest);
        }
      }
    }
  }

  /** A parsed response is independent of what follows it in the stream exactly when its body is
      delimited by length or chunks and every line of it ended in a newline. */
  lemma StableExactlyWhenFramed(legal: HeaderCheck, input: Bytes)
    requires ParseResponse(legal, input).Ok?
    ensures (forall more: Bytes :: ParseResponse(legal, input + more).Ok?
                                   && ParseResponse(legal, input + more).value.response
                                      == ParseResponse(legal, input).value.response)
       <==> ParseResponse(legal, input).value.terminated && !ParseResponse(legal, input).value.framing.UntilClose?
  {
    hide ParseResponse;
    var r := ParseResponse(legal, input).value;
    if r.terminated && !r.framing.UntilClose? {
      forall more: Bytes
        ensures ParseResponse(legal, input + more).Ok? && ParseResponse(legal, input + more).value.response == r.response
      {
        FramedResponseIsStable(legal, input, more);
      }
    } else {
      UnframedResponseBreaks(legal, input);
      assert !ParseResponse(legal, input + STRAY).Ok?;
    }
  }

  // ---------- Three framings of one body ----------

  /** A line as a server sends it. */
  function EncodeLine(line: string): (r: Bytes) {
    Utf8.Encode(line + "\r\n")
  }

  function EncodeLines(lines: seq<string>): (r: Bytes) {
    if lines == [] then [] else EncodeLine(lines[0]) + EncodeLines(lines[1..])
  }

  lemma NewlineOnlyFromNewline(c: char)
    ensures c != '\n' ==> NEWLINE !in Utf8.EncodeChar(c)
    ensures Utf8.EncodeChar('\n') == [NEWLINE] && Utf8.EncodeChar('\r') == [13]
  {
  }

  lemma LineLengthSkips(before: Bytes, after: Bytes)
    requires NEWLINE !in before
    ensures LineLength(before + after) == |before| + LineLength(after)
  {
    LineLengthStable(before, after);
    assert LineLength(before) > 0 ==> before[LineLength(before) - 1] in before;
  }

  lemma EmptyLineEncoding()
    ensures EncodeLine("") == [13, NEWLINE]
  {
    NewlineOnlyFromNewline('\r');
    assert "" + "\r\n" == "\r\n" && "\r\n"[1..] == "\n" && "\n"[1..] == "";
  }

  lemma EncodeLineStep(line: string)
    requires line != []
    ensures EncodeLine(line) == Utf8.EncodeChar(line[0]) + EncodeLine(line[1..])
  {
    assert (line + "\r\n")[1..] == line[1..] + "\r\n";
  }

  lemma {:induction false} EncodedLineLength(line: string, rest: Bytes)
    requires '\n' !in line
    ensures LineLength(EncodeLine(line) + rest) == |EncodeLine(line)|
    ensures EncodeLine(line) != [] && EncodeLine(line)[|EncodeLine(line)| - 1] == NEWLINE
    decreases |line|
  {
    hide EncodeLine, Utf8.EncodeChar;
    if line == [] {
      EmptyLineEncoding();
      LineLengthSkips([13], [NEWLINE] + rest);
      assert [13] + ([NEWLINE] + rest) == [13, NEWLINE] + rest;
    } else {
      var first, tail := Utf8.EncodeChar(line[0]), EncodeLine(line[1..]);
      EncodeLineStep(line);
      EncodedLineLength(line[1..], rest);
      NewlineOnlyFromNewline(line[0]);
      LineLengthSkips(first, tail + rest);
      assert first + (tail + rest) == first + tail + rest;
    }
  }

  /** A sent line is read back whole. */
  lemma ReadEncodedLine(line: string, rest: Bytes)
    requires '\n' !in line
    ensures ReadLine(EncodeLine(line) + rest) == Ok(Line(line + "\r\n", rest, true))
  {
    EncodedLineLength(line, rest);
    var n, input := |EncodeLine(line)|, EncodeLine(line) + rest;
    assert input[..n] == EncodeLine(line) && input[n..] == rest;
    Utf8.DecodeEncoded(line + "\r\n");
  }

  /** A header the reader records but does not act on. */
  predicate IgnoredHeader(line: string) {
    && '\n' !in line
    && Trim(line + "\r\n") != []
    && SplitOnce(Trim(line + "\r\n"), ':').Some?
    && HeaderOf(line).0 != "Content-Length" && HeaderOf(line).0 != "Transfer-Encoding"
  }

  function HeaderOf(line: string): (r: (string, string)) {
    match SplitOnce(Trim(line + "\r\n"), ':')
    case Some((name, value)) => (Trim(name), Trim(value))
    case None => ([], [])
  }

  function HeadersOf(lines: seq<string>): (r: seq<(string, string)>) {
    if lines == [] then [] else [HeaderOf(lines[0])] + HeadersOf(lines[1..])
  }

  lemma IgnoredHeaderIsRecorded(line: string, rest: Bytes, st: HeaderState)
    requires IgnoredHeader(line)
    ensures ReadHeaders(EncodeLine(line) + rest, st)
         == ReadHeaders(rest, st.(headers := st.headers + [HeaderOf(line)]))
  {
    hide ReadLine, Trim, SplitOnce, EncodeLine;
    ReadEncodedLine(line, rest);
    assert ApplyHeader(Trim(line + "\r\n"), st) == Ok(st.(headers := st.headers + [HeaderOf(line)]));
  }

  lemma {:induction false} IgnoredHeadersAreRecorded(lines: seq<string>, rest: Bytes, st: HeaderState)
    requires forall l :: l in lines ==> IgnoredHeader(l)
    ensures ReadHeaders(EncodeLines(lines) + rest, st)
         == ReadHeaders(rest, st.(headers := st.headers + HeadersOf(lines)))
    decreases |lines|
  {
    hide ReadHeaders, IgnoredHeader, EncodeLine, HeaderOf;
    if lines == [] {
      assert EncodeLines(lines) + rest == rest;
      assert st.headers + [] == st.headers;
    } else {
      var next := st.(headers := st.headers + [HeaderOf(lines[0])]);
      ConcatAssociates(EncodeLine(lines[0]), EncodeLines(lines[1..]), rest);
      IgnoredHeaderIsRecorded(lines[0], EncodeLines(lines[1..]) + rest, st);
      IgnoredHeadersAreRecorded(lines[1..], rest, next);
      ConcatAssociates(st.headers, [HeaderOf(lines[0])], HeadersOf(lines[1..]));
    }
  }

  lemma BlankLineEndsHeaders(rest: Bytes, st: HeaderState)
    ensures ReadHeaders(EncodeLine("") + rest, st) == Ok(Headers(st, rest, true))
  {
    ReadEncodedLine("", rest);
    assert "" + "\r\n" == "\r\n";
    TrimBlank("\r\n");
  }

  lemma {:induction false} IndexOfAt(s: string, c: char, k: nat)
    requires k < |s| && s[k] == c && c !in s[..k]
    ensures IndexOf(s, c) == Some(k)
  {
    if k > 0 {
      assert s[..k][0] == s[0] && s[1..][..k - 1] == s[..k][1..];
      IndexOfAt(s[1..], c, k - 1);
    }
  }

  /** A header line `name: value` splits back into the two. */
  lemma HeaderSplits(name: string, value: string)
    requires name != [] && !IsWhitespace(name[0]) && !IsWhitespace(name[|name| - 1]) && ':' !in name
    requires value != [] && !IsWhitespace(value[0]) && !IsWhitespace(value[|value| - 1])
    ensures var line := Trim(name + ": " + value + "\r\n");
      line != [] && SplitOnce(line, ':') == Some((name, " " + value)) && Trim(name) == name && Trim(" " + value) == value
  {
    var line := name + ": " + value;
    TrimDrops(line, "\r\n");
    assert line[..|name|] == name && line[|name| + 1..] == " " + value;
    IndexOfAt(line, ':', |name|);
    TrimDrops(name, "");
    assert name + "" == name;
    assert (" " + value)[1..] == value;
    TrimDrops(value, "");
    assert value + "" == value;
  }

  /** The header that frames a body by its length, and the one that announces chunks. */
  function LengthHeader(n: nat): (r: (string, string)) {
    ("Content-Length", Format(n, 10))
  }

  function ChunkedHeader(): (r: (string, string)) {
    ("Transfer-Encoding", "chunked")
  }

  function HeaderLine(header: (string, string)): (r: string) {
    header.0 + ": " + header.1
  }

  lemma ContentLengthIsRead(n: nat, rest: Bytes, st: HeaderState)
    requires n < USIZE_VALUES
    ensures ReadHeaders(EncodeLine(HeaderLine(LengthHeader(n))) + rest, st)
         == ReadHeaders(rest, st.(headers := st.headers + [LengthHeader(n)], contentLength := Some(n)))
  {
    hide ReadLine, Trim, SplitOnce, Format;
    DigitsArePlain(n, 10);
    ReadEncodedLine(HeaderLine(LengthHeader(n)), rest);
    HeaderSplits("Content-Length", Format(n, 10));
    ParseFormatted(n, 10);
  }

  lemma ChunkedIsRead(rest: Bytes, st: HeaderState)
    ensures ReadHeaders(EncodeLine(HeaderLine(ChunkedHeader())) + rest, st)
         == ReadHeaders(rest, st.(headers := st.headers + [ChunkedHeader()], chunked := true))
  {
    hide ReadLine, Trim, SplitOnce;
    ReadEncodedLine(HeaderLine(ChunkedHeader()), rest);
    HeaderSplits("Transfer-Encoding", "chunked");
  }

  lemma DigitsArePlain(n: nat, radix: nat)
    requires radix == 10 || radix == 16
    ensures var s := Format(n, radix);
      s != [] && '\n' !in s && !IsWhitespace(s[0]) && !IsWhitespace(s[|s| - 1])
  {
  }

  // Chunked encoding as section 7.1 of RFC 9112 defines it, without extensions and trailers.

  function EncodeChunk(chunk: Bytes): (r: Bytes) {
    EncodeLine(Format(|chunk|, 16)) + chunk + EncodeLine("")
  }

  function EncodeChunks(chunks: seq<Bytes>): (r: Bytes) {
    if chunks == [] then EncodeLine("0") + EncodeLine("") else EncodeChunk(chunks[0]) + EncodeChunks(chunks[1..])
  }

  function Concat(chunks: seq<Bytes>): (r: Bytes) {
    if chunks == [] then [] else chunks[0] + Concat(chunks[1..])
  }

  lemma SizeLineIsRead(n: nat, rest: Bytes)
    requires n < USIZE_VALUES
    ensures ReadLine(EncodeLine(Format(n, 16)) + rest) == Ok(Line(Format(n, 16) + "\r\n", rest, true))
    ensures ParseUsize(Trim(Format(n, 16) + "\r\n"), 16) == Some(n)
  {
    hide ReadLine, Format;
    DigitsArePlain(n, 16);
    ReadEncodedLine(Format(n, 16), rest);
    TrimDrops(Format(n, 16), "\r\n");
    ParseFormatted(n, 16);
  }

  lemma ChunkIsRead(chunk: Bytes, rest: Bytes)
    requires 0 < |chunk| <= ISIZE_MAX
    ensures ReadChunk(EncodeChunk(chunk) + rest) == Ok(Round(Some(chunk), rest, true))
  {
    hide ReadLine, Format, Trim, ParseUsize, EncodeLine;
    var tail := chunk + (EncodeLine("") + rest);
    assert EncodeChunk(chunk) + rest == EncodeLine(Format(|chunk|, 16)) + tail;
    SizeLineIsRead(|chunk|, tail);
    assert tail[..|chunk|] == chunk && tail[|chunk|..] == EncodeLine("") + rest;
    ReadEncodedLine("", rest);
  }

  lemma LastChunkIsRead(rest: Bytes)
    ensures ReadChunk(EncodeChunks([]) + rest) == Ok(Round(None, rest, true))
  {
    hide ReadLine, Trim, ParseUsize, EncodeLine;
    assert EncodeChunks([]) + rest == EncodeLine("0") + (EncodeLine("") + rest);
    assert Format(0, 16) == "0";
    SizeLineIsRead(0, EncodeLine("") + rest);
    ReadEncodedLine("", rest);
  }

  lemma {:induction false} ChunksAreRead(chunks: seq<Bytes>, rest: Bytes)
    requires forall c :: c in chunks ==> 0 < |c| <= ISIZE_MAX
    ensures ReadChunks(EncodeChunks(chunks) + rest) == Ok(Body(Concat(chunks), rest, true))
    decreases |chunks|
  {
    hide ReadChunk, EncodeChunk;
    if chunks == [] {
      LastChunkIsRead(rest);
    } else {
      var tail := EncodeChunks(chunks[1..]) + rest;
      assert EncodeChunks(chunks) + rest == EncodeChunk(chunks[0]) + tail;
      ChunkIsRead(chunks[0], tail);
      ChunksAreRead(chunks[1..], rest);
    }
  }

  // ---------- The status line ----------

  /** A decimal digit is the character of its value. */
  lemma DecimalDigit(c: char)
    requires '0' <= c <= '9'
    ensures ToDigit(c, 10).Some? && DigitChar(ToDigit(c, 10).value) == c
    ensures c != '0' <==> ToDigit(c, 10).value > 0
  {
  }

  lemma ThreeDigits(s: string, a: nat, b: nat, c: nat)
    requires |s| == 3
    requires ToDigit(s[0], 10) == Some(a) && ToDigit(s[1], 10) == Some(b) && ToDigit(s[2], 10) == Some(c)
    ensures ParseDigits(s, 10) == Some(100 * a + 10 * b + c)
  {
    hide ToDigit, ParseDigits;
    NoDigits(10);
    ParseLastDigit([], s[0], 10);
    ParseLastDigit([] + [s[0]], s[1], 10);
    ParseLastDigit([] + [s[0]] + [s[1]], s[2], 10);
    assert s == [] + [s[0]] + [s[1]] + [s[2]];
  }

  lemma FormatOfThree(n: nat)
    requires 100 <= n <= 999
    ensures Format(n, 10) == [DigitChar(n / 100), DigitChar(n / 10 % 10), DigitChar(n % 10)]
  {
    hide DigitChar;
    assert n / 10 / 10 == n / 100;
    assert Format(n / 100, 10) == [DigitChar(n / 100)];
    assert Format(n / 10, 10) == [DigitChar(n / 100)] + [DigitChar(n / 10 % 10)];
  }

  lemma DigitsOf(a: nat, b: nat, c: nat)
    requires a < 10 && b < 10 && c < 10
    ensures var n := 100 * a + 10 * b + c; n / 100 == a && n / 10 % 10 == b && n % 10 == c
  {
  }

  lemma CodesAreFormatted(s: string)
    requires ParseStatusCode(s).Some?
    ensures 100 <= ParseStatusCode(s).value <= 999 && s == Format(ParseStatusCode(s).value, 10)
  {
    hide ToDigit, DigitChar, ParseDigits, Format;
    DecimalDigit(s[0]);
    DecimalDigit(s[1]);
    DecimalDigit(s[2]);
    var a, b, c := ToDigit(s[0], 10).value, ToDigit(s[1], 10).value, ToDigit(s[2], 10).value;
    ThreeDigits(s, a, b, c);
    DigitsOf(a, b, c);
    FormatOfThree(100 * a + 10 * b + c);
    assert s == [s[0], s[1], s[2]];
  }

  lemma FormattedAreCodes(n: nat)
    requires 100 <= n <= 999
    ensures ParseStatusCode(Format(n, 10)) == Some(n)
  {
    hide ToDigit, ParseDigits;
    FormatOfThree(n);
    ParseDigitsOfFormat(n, 10);
  }

  /** The codes are the numbers from 100 to 999 in decimal. */
  lemma StatusCodeExactly(s: string, n: nat)
    ensures ParseStatusCode(s) == Some(n) <==> 100 <= n <= 999 && s == Format(n, 10)
  {
    hide ParseStatusCode, Format;
    if ParseStatusCode(s).Some? {
      CodesAreFormatted(s);
    }
    if 100 <= n <= 999 {
      FormattedAreCodes(n);
    }
  }

  /** A status line is read exactly when its first word is the version and its second a code; all that may
      follow is free. Lines with fewer words are errors. */
  lemma StatusLineExactly(before: string, version: string, between: string, code: string, rest: string, n: nat)
    requires AllWhitespace(before) && AllWhitespace(between) && between != []
    requires IsWord(version, between) && IsWord(code, rest)
    ensures ParseStatusLine(before + (version + (between + (code + rest)))) == Ok(n)
       <==> version == "HTTP/1.1" && 100 <= n <= 999 && code == Format(n, 10)
    ensures ParseStatusLine(before) == Err && ParseStatusLine(before + (version + between)) == Err
    ensures !ParseStatusLine(before + (version + (between + (code + rest)))).Panic?
  {
    hide NextWord, ParseStatusCode, Format;
    assert IsWord(version, between + (code + rest)) by {
      assert (between + (code + rest))[0] == between[0];
    }
    NextWordOf(before, version, between + (code + rest));
    NextWordOf(before, version, between);
    NextWordOf(between, code, rest);
    StatusCodeExactly(code, n);
  }

  /** The status line a server sends. */
  function StatusLine(code: nat, reason: string): (r: string) {
    "HTTP/1.1 " + Format(code, 10) + " " + reason
  }

  lemma StatusLineReads(code: nat, reason: string)
    requires 100 <= code <= 999
    ensures ParseStatusLine(StatusLine(code, reason) + "\r\n") == Ok(code)
  {
    hide ParseStatusLine, Format;
    var rest := " " + reason + "\r\n";
    DigitsArePlain(code, 10);
    DigitsAreWords(code);
    StatusLineExactly("", "HTTP/1.1", " ", Format(code, 10), rest, code);
    assert StatusLine(code, reason) + "\r\n" == "" + ("HTTP/1.1" + (" " + (Format(code, 10) + rest)));
  }

  lemma DigitsAreWords(n: nat)
    ensures Format(n, 10) != [] && forall i: nat :: i < |Format(n, 10)| ==> !IsWhitespace(Format(n, 10)[i])
  {
  }

  /** A status line, and headers that do not frame the body. */
  datatype Head = Head(statusLine: string, others: seq<string>)

  function EncodeHead(head: Head): (r: Bytes) {
    EncodeLine(head.statusLine) + EncodeLines(head.others)
  }

  predicate ValidHead(head: Head, status: nat) {
    && '\n' !in head.statusLine && ParseStatusLine(head.statusLine + "\r\n") == Ok(status)
    && forall l :: l in head.others ==> IgnoredHeader(l)
  }

  // The three wire forms.

  function LengthForm(head: Head, body: Bytes): (r: Bytes) {
    EncodeHead(head) + (EncodeLine(HeaderLine(LengthHeader(|body|))) + (EncodeLine("") + body))
  }

  function ChunkedForm(head: Head, chunks: seq<Bytes>): (r: Bytes) {
    EncodeHead(head) + (EncodeLine(HeaderLine(ChunkedHeader())) + (EncodeLine("") + EncodeChunks(chunks)))
  }

  function CloseForm(head: Head, body: Bytes): (r: Bytes) {
    EncodeHead(head) + (EncodeLine("") + body)
  }

  /** The answer once a response is cut up: its body has to be UTF-8 and its headers legal. */
  function Verdict(legal: HeaderCheck, status: nat, headers: seq<(string, string)>, bytes: Bytes, framing: Framing,
                   rest: Bytes): (r: Outcome<Parsed>)
  {
    match Utf8.Decode(bytes)
    case None => Err
    case Some(text) =>
      if forall h :: h in headers ==> legal(h.0, h.1) then Ok(Parsed(Response(status, headers, text), framing, rest, true))
      else Err
  }

  /** The state of the header loop once the head has been read. */
  function HeadState(head: Head): (r: HeaderState) {
    NO_HEADERS.(headers := HeadersOf(head.others))
  }

  lemma HeadIsRead(head: Head, status: nat, tail: Bytes)
    requires ValidHead(head, status)
    ensures var input := EncodeHead(head) + tail;
      && ReadLine(input).Ok? && ReadLine(input).value.terminated
      && ParseStatusLine(ReadLine(input).value.text) == Ok(status)
      && ReadHeaders(ReadLine(input).value.rest, NO_HEADERS) == ReadHeaders(tail, HeadState(head))
  {
    hide ReadLine, ReadHeaders, ParseStatusLine, IgnoredHeader, HeadersOf, EncodeLine, EncodeLines;
    var afterStatus := EncodeLines(head.others) + tail;
    assert EncodeHead(head) + tail == EncodeLine(head.statusLine) + afterStatus;
    ReadEncodedLine(head.statusLine, afterStatus);
    IgnoredHeadersAreRecorded(head.others, tail, NO_HEADERS);
    assert NO_HEADERS.headers + HeadersOf(head.others) == HeadersOf(head.others);
  }

  /** Parsing after a valid head, given what the remaining headers and the body come to. */
  lemma AfterHead(legal: HeaderCheck, head: Head, status: nat, tail: Bytes, headers: Headers, body: Body)
    requires ValidHead(head, status)
    requires ReadHeaders(tail, HeadState(head)) == Ok(headers) && headers.terminated
    requires ReadBody(headers.state, headers.rest) == Ok(body) && body.terminated
    ensures ParseResponse(legal, EncodeHead(head) + tail)
         == Verdict(legal, status, headers.state.headers, body.bytes, FramingOf(headers.state), body.rest)
  {
    hide ReadLine, ReadHeaders, ReadBody, ParseStatusLine, ValidHead, EncodeHead, FramingOf;
    HeadIsRead(head, status, tail);
  }

  lemma TailJoins(a: Bytes, b: Bytes, c: Bytes, d: Bytes, tail: Bytes)
    ensures a + (b + (c + d)) + tail == a + (b + (c + (d + tail)))
  {
    ConcatAssociates(a, b + (c + d), tail);
    ConcatAssociates(b, c + d, tail);
    ConcatAssociates(c, d, tail);
  }

  lemma LengthFormParses(legal: HeaderCheck, head: Head, status: nat, body: Bytes, trailing: Bytes)
    requires ValidHead(head, status) && |body| <= ISIZE_MAX
    ensures ParseResponse(legal, LengthForm(head, body) + trailing)
         == Verdict(legal, status, HeadersOf(head.others) + [LengthHeader(|body|)], body, ByLength, trailing)
  {
    hide ReadHeaders, ParseResponse, Verdict, ValidHead, HeadersOf, Format, EncodeLine, EncodeHead, LengthHeader,
         HeaderLine;
    var blank := EncodeLine("") + (body + trailing);
    var line := EncodeLine(HeaderLine(LengthHeader(|body|)));
    TailJoins(EncodeHead(head), line, EncodeLine(""), body, trailing);
    ContentLengthIsRead(|body|, blank, HeadState(head));
    var st := HeaderState(HeadersOf(head.others) + [LengthHeader(|body|)], Some(|body|), false);
    BlankLineEndsHeaders(body + trailing, st);
    SplitConcat(body, trailing);
    AfterHead(legal, head, status, line + blank, Headers(st, body + trailing, true), Body(body, trailing, true));
  }

  lemma ChunkedFormParses(legal: HeaderCheck, head: Head, status: nat, chunks: seq<Bytes>, trailing: Bytes)
    requires ValidHead(head, status) && forall c :: c in chunks ==> 0 < |c| <= ISIZE_MAX
    ensures ParseResponse(legal, ChunkedForm(head, chunks) + trailing)
         == Verdict(legal, status, HeadersOf(head.others) + [ChunkedHeader()], Concat(chunks), Chunked, trailing)
  {
    hide ReadHeaders, ParseResponse, Verdict, ValidHead, HeadersOf, EncodeLine, EncodeHead, EncodeChunks, ReadChunks,
         ChunkedHeader, HeaderLine;
    var bodyInput := EncodeChunks(chunks) + trailing;
    var blank := EncodeLine("") + bodyInput;
    var line := EncodeLine(HeaderLine(ChunkedHeader()));
    TailJoins(EncodeHead(head), line, EncodeLine(""), EncodeChunks(chunks), trailing);
    ChunkedIsRead(blank, HeadState(head));
    var st := HeaderState(HeadersOf(head.others) + [ChunkedHeader()], None, true);
    BlankLineEndsHeaders(bodyInput, st);
    ChunksAreRead(chunks, trailing);
    AfterHead(legal, head, status, line + blank, Headers(st, bodyInput, true), Body(Concat(chunks), trailing, true));
  }

  lemma CloseFormParses(legal: HeaderCheck, head: Head, status: nat, body: Bytes)
    requires ValidHead(head, status)
    ensures ParseResponse(legal, CloseForm(head, body))
         == Verdict(legal, status, HeadersOf(head.others), body, UntilClose, [])
  {
    hide ReadHeaders, ParseResponse, Verdict, ValidHead, HeadersOf, EncodeLine, EncodeHead;
    BlankLineEndsHeaders(body, HeadState(head));
    AfterHead(legal, head, status, EncodeLine("") + body, Headers(HeadState(head), body, true), Body(body, [], true));
  }

  /** A head as a server sends it: a code, any reason, and headers that do not frame the body. */
  predicate SentHead(code: nat, reason: string, others: seq<string>) {
    100 <= code <= 999 && '\n' !in reason && forall l :: l in others ==> IgnoredHeader(l)
  }

  lemma SentHeadIsValid(code: nat, reason: string, others: seq<string>)
    requires SentHead(code, reason, others)
    ensures ValidHead(Head(StatusLine(code, reason), others), code)
  {
    hide ParseStatusLine, IgnoredHeader;
    StatusLineReads(code, reason);
    assert forall i: nat :: i < |Format(code, 10)| ==> IsDigit(Format(code, 10)[i]);
  }

  /** Framings agree: every body, sent with its length, in any cut into non-empty chunks, or until the connection
      closes, gets the same verdict on its bytes and status; the first two leave whatever follows unread. */
  lemma FramingsAgree(legal: HeaderCheck, code: nat, reason: string, others: seq<string>, body: Bytes,
                      chunks: seq<Bytes>, trailing: Bytes)
    requires SentHead(code, reason, others) && |body| <= ISIZE_MAX
    requires Concat(chunks) == body && forall c :: c in chunks ==> c != []
    ensures ParseResponse(legal, LengthForm(Head(StatusLine(code, reason), others), body) + trailing)
         == Verdict(legal, code, HeadersOf(others) + [LengthHeader(|body|)], body, ByLength, trailing)
    ensures ParseResponse(legal, ChunkedForm(Head(StatusLine(code, reason), others), chunks) + trailing)
         == Verdict(legal, code, HeadersOf(others) + [ChunkedHeader()], body, Chunked, trailing)
    ensures ParseResponse(legal, CloseForm(Head(StatusLine(code, reason), others), body))
         == Verdict(legal, code, HeadersOf(others), body, UntilClose, [])
  {
    hide ParseResponse, Verdict, ValidHead, HeadersOf, LengthForm, ChunkedForm, CloseForm, Format, StatusLine, SentHead;
    var head := Head(StatusLine(code, reason), others);
    SentHeadIsValid(code, reason, others);
    ChunksAreShort(chunks);
    LengthFormParses(legal, head, code, body, trailing);
    ChunkedFormParses(legal, head, code, chunks, trailing);
    CloseFormParses(legal, head, code, body);
  }

  /** The length wins over chunks when a response announces both, in either order: the body is the announced number
      of bytes, taken as they are. */
  lemma LengthWinsOverChunks(legal: HeaderCheck, code: nat, reason: string, others: seq<string>, lengthFirst: bool,
                             body: Bytes, trailing: Bytes)
    requires SentHead(code, reason, others) && |body| <= ISIZE_MAX
    ensures var both := if lengthFirst then [LengthHeader(|body|), ChunkedHeader()]
                        else [ChunkedHeader(), LengthHeader(|body|)];
      ParseResponse(legal, EncodeHead(Head(StatusLine(code, reason), others))
                           + (EncodeLine(HeaderLine(both[0])) + (EncodeLine(HeaderLine(both[1]))
                              + (EncodeLine("") + (body + trailing)))))
      == Verdict(legal, code, HeadersOf(others) + both, body, ByLength, trailing)
  {
    hide ReadHeaders, ParseResponse, Verdict, ValidHead, HeadersOf, Format, EncodeLine, EncodeHead, LengthHeader,
         ChunkedHeader, HeaderLine, StatusLine, SentHead;
    var head, length, chunked := Head(StatusLine(code, reason), others), LengthHeader(|body|), ChunkedHeader();
    SentHeadIsValid(code, reason, others);
    var both := if lengthFirst then [length, chunked] else [chunked, length];
    var blank := EncodeLine("") + (body + trailing);
    var second := EncodeLine(HeaderLine(both[1])) + blank;
    var st := HeaderState(HeadersOf(others) + both, Some(|body|), true);
    if lengthFirst {
      ContentLengthIsRead(|body|, second, HeadState(head));
      ChunkedIsRead(blank, HeadState(head).(headers := HeadersOf(others) + [length], contentLength := Some(|body|)));
      ConcatAssociates(HeadersOf(others), [length], [chunked]);
      assert [length] + [chunked] == both;
    } else {
      ChunkedIsRead(second, HeadState(head));
      ContentLengthIsRead(|body|, blank, HeadState(head).(headers := HeadersOf(others) + [chunked], chunked := true));
      ConcatAssociates(HeadersOf(others), [chunked], [length]);
      assert [chunked] + [length] == both;
    }
    BlankLineEndsHeaders(body + trailing, st);
    SplitConcat(body, trailing);
    AfterHead(legal, head, code, EncodeLine(HeaderLine(both[0])) + second, Headers(st, body + trailing, true),
              Body(body, trailing, true));
  }

  lemma {:induction false} ChunksAreShort(chunks: seq<Bytes>)
    ensures forall c :: c in chunks ==> |c| <= |Concat(chunks)|
  {
    if chunks != [] {
      ChunksAreShort(chunks[1..]);
      assert forall c :: c in chunks ==> c == chunks[0] || c in chunks[1..];
    }
  }

  /** What is malformed is an error: a header without a colon, a Content-Length or chunk size that is not a
      number of the right radix. The last Transfer-Encoding header decides whether the body is chunked. */
  lemma MalformedIsRejected(line: string, rest: Bytes, st: HeaderState, value: string)
    requires '\n' !in line && Trim(line + "\r\n") != []
    requires value != [] && !IsWhitespace(value[0]) && !IsWhitespace(value[|value| - 1]) && '\n' !in value
    ensures ':' !in Trim(line + "\r\n") ==> ReadHeaders(EncodeLine(line) + rest, st) == Err
    ensures ParseUsize(value, 10).None? ==>
              ReadHeaders(EncodeLine(HeaderLine(("Content-Length", value))) + rest, st) == Err
    ensures ReadHeaders(EncodeLine(HeaderLine(("Transfer-Encoding", value))) + rest, st)
         == ReadHeaders(rest, st.(headers := st.headers + [("Transfer-Encoding", value)], chunked := value == "chunked"))
    ensures ParseUsize(Trim(line + "\r\n"), 16).None? ==> ReadChunks(EncodeLine(line) + rest) == Err
  {
    hide ReadLine, Trim, SplitOnce, EncodeLine, ParseUsize;
    ReadEncodedLine(line, rest);
    NoColonNoSplit(Trim(line + "\r\n"));
    ReadEncodedLine(HeaderLine(("Content-Length", value)), rest);
    HeaderSplits("Content-Length", value);
    ReadEncodedLine(HeaderLine(("Transfer-Encoding", value)), rest);
    HeaderSplits("Transfer-Encoding", value);
  }

  lemma NoColonNoSplit(s: string)
    ensures ':' !in s ==> SplitOnce(s, ':') == None
  {
  }
}
