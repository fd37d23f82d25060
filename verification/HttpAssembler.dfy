/** src/networking/http/HttpAssembler.cpp: the assembler that edits the receive buffer in place,
    proved against the per-byte fold of BoundedParser. */
module Assembler {
  import opened Text
  import opened Utils
  import opened Http
  import opened P = StreamParser
  import opened B = BoundedParser

  datatype HttpType = UnknownType | RequestType | ResponseType

  datatype TransferMode = UnknownMode | DefaultMode | ChunkedMode

  /** `HttpStreamState`: what the assembler remembers of one connection between two reads. */
  class HttpStreamState {
    var pos: nat
    var iStart: nat
    var iEnd: nat
    var headerNameStart: nat
    var headerNameEnd: nat
    var lengthCounter: nat
    var totalHeadersCounter: nat
    var lastCheckpoint: int
    var bodyLength: int
    var currentChunkLength: int
    var httpVersion: Version
    var headers: Headers
    var body: string
    var state: Phase
    var verb: Method
    var uri: string
    var headerValueStart: nat
    var headerValueEnd: nat
    var transferMode: TransferMode
    var messageType: HttpType
    var httpCode: int

    constructor ()
      ensures IsReset()
    {
      headerValueStart, headerValueEnd := 0, 0;
      transferMode, messageType, httpCode := UnknownMode, UnknownType, -1;
      pos, iStart, iEnd, headerNameStart, headerNameEnd := 0, 0, 0, 0, 0;
      lengthCounter, totalHeadersCounter, lastCheckpoint := 0, 0, -1;
      bodyLength, currentChunkLength := -1, 0;
      httpVersion, headers, body := NoVersion, map[], "";
      state, verb, uri := ParseResponseOrRequest, UNKNOWN, "";
    }

    ghost predicate IsReset()
      reads this
    {
      && pos == 0 && iEnd == 0 && Account("") == INITIAL
      && headerValueStart == 0 && headerValueEnd == 0
      && transferMode == UnknownMode && messageType == UnknownType && httpCode == -1
    }

    /** The fields, over the bytes consumed so far. */
    ghost function Account(held: string): Machine
      reads this
    {
      Machine(state, held, iStart, headerNameStart, headerNameEnd, lengthCounter, totalHeadersCounter,
              lastCheckpoint, bodyLength, currentChunkLength, httpVersion, verb, uri, headers, body)
    }

    /** The second position of the token is the position of the parser, except in a body. */
    ghost predicate Aligned(n: nat)
      reads this
    {
      state != ParseBody && state != Error ==> iEnd == n
    }

    /** Enters `next` with an empty token at `at`. */
    method Enter(next: Phase, at: nat)
      modifies `state, `iStart, `iEnd
      ensures state == next && iStart == at && iEnd == at
    {
      state := next;
      iStart := at;
      iEnd := at;
    }

    /** The first word was a version: this is a response, whose status follows from `at`. */
    method BeginStatus(version: Version, at: nat)
      modifies `httpVersion, `messageType, `state, `iStart, `iEnd
      ensures iEnd == at && state == ParseResponseStatus && messageType == ResponseType
      ensures forall held ::
                Account(held) == old(Account(held)).(version := version, phase := ParseResponseStatus, start := at)
    {
      httpVersion := version;
      messageType := ResponseType;
      Enter(ParseResponseStatus, at);
    }

    /** The first word was a method: this is a request, whose target follows from `at`. */
    method BeginTarget(at: nat)
      modifies `messageType, `state, `iStart, `iEnd
      ensures iEnd == at && state == ParseRequestUri && messageType == RequestType
      ensures forall held :: Account(held) == old(Account(held)).(phase := ParseRequestUri, start := at)
    {
      messageType := RequestType;
      Enter(ParseRequestUri, at);
    }

    /** The status is complete; the rest of its line follows from `at`. */
    method BeginReason(code: int, at: nat)
      modifies `httpCode, `state, `iStart, `iEnd
      ensures iEnd == at && httpCode == code
      ensures forall held :: Account(held) == old(Account(held)).(phase := ParseResponseHeadersStart, start := at)
    {
      httpCode := code;
      Enter(ParseResponseHeadersStart, at);
    }

    /** The request line is complete; header lines follow from `at`. */
    method BeginHeaders(version: Version, at: nat)
      modifies `httpVersion, `state, `iStart, `iEnd, `lastCheckpoint, `lengthCounter
      ensures iEnd == at
      ensures forall held ::
                Account(held) == old(Account(held)).(version := version, phase := ParseHeaderName, start := at,
                                                     checkpoint := at, count := 0)
    {
      httpVersion := version;
      Enter(ParseHeaderName, at);
      lastCheckpoint := at;
      lengthCounter := 0;
    }

    /** The token is the name of a header whose value follows from `at`. */
    method KeepName(at: nat)
      modifies `headerNameStart, `headerNameEnd, `state, `iStart, `iEnd
      ensures iEnd == at
      ensures forall held ::
                Account(held) == old(Account(held)).(nameStart := old(iStart), nameEnd := old(iEnd),
                                                     phase := ParseHeaderValue, start := at)
    {
      headerNameStart := iStart;
      headerNameEnd := iEnd;
      Enter(ParseHeaderValue, at);
    }

    /** The line end behind a chunk is complete; the next chunk-size line follows from `at`. */
    method NextChunk(at: nat)
      modifies `state, `iStart, `iEnd, `currentChunkLength
      ensures iEnd == at
      ensures forall held ::
                Account(held) == old(Account(held)).(phase := ParseChunkSize, start := at, chunkLength := 0)
    {
      Enter(ParseChunkSize, at);
      currentChunkLength := 0;
    }

    method StoreHeader(name: string, value: string, at: nat)
      modifies `headers, `lastCheckpoint, `state, `iStart, `iEnd
      ensures iEnd == at
      ensures forall held ::
                Account(held) == old(Account(held)).(headers := Emplace(old(headers), name, value), checkpoint := at,
                                                     phase := ParseHeaderName, start := at)
    {
      if name !in headers {
        headers := headers[name := value];
      }
      lastCheckpoint := at;
      Enter(ParseHeaderName, at);
    }

    method BeginChunk(length: int, at: nat)
      modifies `currentChunkLength, `state, `iStart, `iEnd, `bodyLength, `body, `lengthCounter
      ensures iEnd == at
      ensures forall held ::
                Account(held) == old(Account(held)).(phase := ParseChunk, start := at, chunkLength := length,
                                                     bodyLength := old(bodyLength) + length, body := "", count := 0)
    {
      currentChunkLength := length;
      Enter(ParseChunk, at);
      bodyLength := bodyLength + length;
      body := "";
      lengthCounter := 0;
    }

    /** The last chunk-size line was read; the end of the message follows from `at`. */
    method LastChunk(at: nat)
      modifies `currentChunkLength, `state, `iStart, `iEnd
      ensures iEnd == at
      ensures forall held ::
                Account(held) == old(Account(held)).(phase := ParseEndOfChunkedRequest, start := at, chunkLength := 0)
    {
      currentChunkLength := 0;
      Enter(ParseEndOfChunkedRequest, at);
    }

    /** A body of a declared length follows from `at`. */
    method BeginBody(length: int, at: nat)
      modifies `bodyLength, `state, `iStart, `iEnd, `lengthCounter
      ensures iEnd == at
      ensures forall held ::
                Account(held) == old(Account(held)).(phase := ParseBody, start := at, bodyLength := length, count := 0)
    {
      bodyLength := length;
      Enter(ParseBody, at);
      lengthCounter := 0;
    }

    /** The chunk has left: its text and, with the first chunk, the headers are moved from; the
        checkpoint is not touched. */
    method EndChunk()
      modifies `pos, `currentChunkLength, `state, `iStart, `iEnd, `headers, `body
      ensures pos == 0 && state == ParseChunkSkipLine && iStart == 0 && iEnd == 0 && currentChunkLength == 0
      ensures headers == map[] && body == ""
    {
      headers := map[];
      body := "";
      pos := 0;
      Enter(ParseChunkSkipLine, 0);
      currentChunkLength := 0;
    }

    /** Positions move back by `amount`, those before it to the front. */
    method MoveBack(amount: nat)
      requires amount <= pos
      modifies `iStart, `iEnd, `headerNameStart, `headerNameEnd, `pos, `lastCheckpoint
      modifies `headerValueStart, `headerValueEnd
      ensures iStart == ShiftBack(old(iStart), amount) && iEnd == ShiftBack(old(iEnd), amount)
      ensures headerNameStart == ShiftBack(old(headerNameStart), amount)
      ensures headerNameEnd == ShiftBack(old(headerNameEnd), amount)
      ensures headerValueStart == ShiftBack(old(headerValueStart), amount)
      ensures headerValueEnd == ShiftBack(old(headerValueEnd), amount)
      ensures pos == old(pos) - amount && lastCheckpoint == -1
    {
      iStart := ShiftBack(iStart, amount);
      iEnd := ShiftBack(iEnd, amount);
      headerNameStart := ShiftBack(headerNameStart, amount);
      headerNameEnd := ShiftBack(headerNameEnd, amount);
      headerValueStart := ShiftBack(headerValueStart, amount);
      headerValueEnd := ShiftBack(headerValueEnd, amount);
      pos := pos - amount;
      lastCheckpoint := -1;
    }

    method ResetState()
      modifies this
      ensures IsReset()
    {
      ResetKind();
      ResetRequest();
      ResetPositions();
    }

    method ResetKind()
      modifies `transferMode, `messageType, `httpCode, `headerValueStart, `headerValueEnd
      ensures transferMode == UnknownMode && messageType == UnknownType && httpCode == -1
      ensures headerValueStart == 0 && headerValueEnd == 0
    {
      transferMode := UnknownMode;
      messageType := UnknownType;
      httpCode := -1;
      headerValueStart := 0;
      headerValueEnd := 0;
    }

    method ResetRequest()
      modifies `bodyLength, `httpVersion, `headers, `state, `verb, `uri, `body, `currentChunkLength
      ensures bodyLength == -1 && httpVersion == NoVersion && headers == map[] && state == ParseResponseOrRequest
      ensures verb == UNKNOWN && uri == "" && body == "" && currentChunkLength == 0
    {
      bodyLength := -1;
      httpVersion := NoVersion;
      headers := map[];
      state := ParseResponseOrRequest;
      verb := UNKNOWN;
      uri := "";
      currentChunkLength := 0;
      body := "";
    }

    method ResetPositions()
      modifies `pos, `iStart, `iEnd, `headerNameStart, `headerNameEnd
      modifies `lengthCounter, `totalHeadersCounter, `lastCheckpoint
      ensures pos == 0 && iStart == 0 && iEnd == 0 && headerNameStart == 0 && headerNameEnd == 0
      ensures lengthCounter == 0 && totalHeadersCounter == 0 && lastCheckpoint == -1
    {
      iStart := 0;
      iEnd := 0;
      headerNameStart := 0;
      headerNameEnd := 0;
      lengthCounter := 0;
      totalHeadersCounter := 0;
      lastCheckpoint := -1;
      pos := 0;
    }
  }

  /** `memmove` to the front of the buffer. Where it would read past the end of the buffer, what it
      does is not defined; here it then moves what the buffer has. Whoever calls it `inside` has to
      show that it does not. */
  method MoveToFront(buffer: array<char>, from: nat, n: nat, ghost inside: bool)
    requires from <= buffer.Length && (inside ==> from + n <= buffer.Length)
    modifies buffer
    ensures buffer[..] == match Memmove(old(buffer[..]), from, n)
                          case Some(moved) => moved
                          case None => old(buffer[from..]) + old(buffer[buffer.Length - from..])
  {
    var m := if from + n <= buffer.Length then n else buffer.Length - from;
    forall k | 0 <= k < m {
      buffer[k] := buffer[from + k];
    }
  }

  /** Shifts what follows position `pos` to the front; returns how much there is. The length given
      to `memmove` is one more than that. */
  method DropThrough(buffer: array<char>, pos: nat, bufferLen: nat, ghost inside: bool) returns (left: nat)
    requires pos < bufferLen <= buffer.Length && (inside ==> bufferLen < buffer.Length)
    modifies buffer
    ensures left == bufferLen - pos - 1 && buffer[..left] == old(buffer[pos + 1..bufferLen])
    ensures pos == bufferLen - 1 ==> buffer[..] == old(buffer[..])
    ensures pos < bufferLen - 1 && bufferLen < buffer.Length ==>
              Memmove(old(buffer[..]), pos + 1, bufferLen - pos) == Some(buffer[..])
  {
    if pos == bufferLen - 1 {
      left := 0;
    } else {
      ghost var was := buffer[..];
      MoveToFront(buffer, pos + 1, bufferLen - pos, inside);
      left := bufferLen - pos - 1;
      ghost var now := buffer[..];
      ShiftLeaves(was, now, pos, bufferLen);
      assert buffer[..left] == now[..left] && was[pos + 1..bufferLen] == old(buffer[pos + 1..bufferLen]);
    }
  }

  /** A shift: the bytes that stay live are the same whether or not the last one it reads exists. */
  lemma ShiftLeaves(was: string, now: string, pos: nat, bufferLen: nat)
    requires pos + 1 < bufferLen <= |was|
    requires now == match Memmove(was, pos + 1, bufferLen - pos)
                    case Some(moved) => moved
                    case None => was[pos + 1..] + was[|was| - pos - 1..]
    ensures |now| == |was| && now[..bufferLen - pos - 1] == was[pos + 1..bufferLen]
  {
    var left := bufferLen - pos - 1;
    assert forall k :: 0 <= k < left ==> now[k] == was[pos + 1 + k];
  }

  /** The first bytes of the buffer are `held`. */
  ghost predicate InBuffer(buffer: array<char>, held: string)
    reads buffer
  {
    |held| <= buffer.Length && held == buffer[..|held|]
  }

  /** `std::string_view` on consumed bytes of the buffer. */
  method Part(buffer: array<char>, from: nat, to: nat, ghost held: string) returns (part: string)
    requires from <= to <= |held| && InBuffer(buffer, held)
    ensures part == held[from..to] && (to == |held| ==> part == held[from..])
  {
    part := buffer[from..to];
  }

  class HttpAssembler {
    var maxRequestLineLength: int32
    var maxTotalHeaders: int32
    var maxBodyMemoryBuffer: int32
    var maxBodySize: int32
    var clientStates: map<nat, HttpStreamState>

    constructor ()
      ensures GetLimits() == Limits(4096, 8192, 1024 * 1024, 100 * 1024 * 1024) && clientStates == map[]
    {
      maxRequestLineLength, maxTotalHeaders := 4096, 8192;
      maxBodyMemoryBuffer, maxBodySize := 1024 * 1024, 100 * 1024 * 1024;
      clientStates := map[];
    }

    ghost function GetLimits(): Limits
      reads this
    {
      Limits(maxRequestLineLength, maxTotalHeaders, maxBodyMemoryBuffer, maxBodySize)
    }

    /** A chunk that may be kept in memory is a body that may be received. */
    ghost predicate LimitsConsistent()
      reads this
    {
      maxBodyMemoryBuffer <= maxBodySize
    }

    method SetMaxRequestLineLength(length: int32)
      modifies this`maxRequestLineLength
      ensures GetLimits() == old(GetLimits()).(requestLine := length)
    {
      maxRequestLineLength := length;
    }

    method SetMaxRequestHeaderBytes(length: int32)
      modifies this`maxTotalHeaders
      ensures GetLimits() == old(GetLimits()).(headerBytes := length)
    {
      maxTotalHeaders := length;
    }

    method SetMaxBodySize(length: int32)
      modifies this`maxBodySize
      ensures GetLimits() == if length < old(maxBodyMemoryBuffer) then old(GetLimits())
                             else old(GetLimits()).(bodySize := length)
      ensures old(LimitsConsistent()) ==> LimitsConsistent()
    {
      if length < maxBodyMemoryBuffer {
        return;
      }
      maxBodySize := length;
    }

    method SetMaxBodyMemoryBuffer(length: int32)
      modifies this`maxBodyMemoryBuffer
      ensures GetLimits() == if length > old(maxBodySize) then old(GetLimits())
                             else old(GetLimits()).(bodyMemory := length)
      ensures old(LimitsConsistent()) ==> LimitsConsistent()
    {
      if length > maxBodySize {
        return;
      }
      maxBodyMemoryBuffer := length;
    }

    // ------------------------------------------------- one byte, state by state

    /** At a byte in `phase`, the account being `n`: the counters have been increased already. */
    ghost predicate AtByte(st: HttpStreamState, buffer: array<char>, i: nat, n: Machine, phase: Phase)
      reads st, buffer
    {
      && st.pos == i < buffer.Length
      && n.phase == phase && phase != Error
      && Ordered(n)
      && |n.held| == i && InBuffer(buffer, n.held) && st.Account(n.held) == n
      && st.Aligned(i)
    }

    /** The byte `c` has been read with the outcome the fold gives it. */
    ghost predicate Took(st: HttpStreamState, held: string, c: char, o: Machine)
      reads st
    {
      && st.pos == |held|
      && if o.phase == Error then st.state == Error
         else st.Account(held + [c]) == o && st.Aligned(|held| + 1)
    }

    method MethodState(st: HttpStreamState, buffer: array<char>, i: nat, c: char, ghost n: Machine)
      requires AtByte(st, buffer, i, n, ParseResponseOrRequest)
      modifies st
      ensures Took(st, n.held, c, MethodByte(n, c))
    {
      hide ParseMethod, InBuffer;
      if c == ' ' && st.iEnd - st.iStart > 0 {
        FirstWord(st, buffer, i, n);
      } else if st.lengthCounter > 8 {
        st.state := Error;
      } else if c as int <= 127 {
        st.iEnd := st.iEnd + 1;
      } else {
        st.state := Error;
      }
    }

    /** The word before the first space: a version begins a response, a method a request. */
    method FirstWord(st: HttpStreamState, buffer: array<char>, i: nat, ghost n: Machine)
      requires AtByte(st, buffer, i, n, ParseResponseOrRequest) && n.Token() != ""
      modifies st
      ensures Took(st, n.held, ' ', MethodByte(n, ' '))
      ensures st.state == ParseResponseStatus ==> st.messageType == ResponseType
      ensures st.state == ParseRequestUri ==> st.messageType == RequestType
    {
      hide ParseMethod, InBuffer;
      var part := Part(buffer, st.iStart, st.iEnd, n.held);
      if part == "HTTP/1.0" {
        st.BeginStatus(Http10, i + 1);
      } else if part == "HTTP/1.1" {
        st.BeginStatus(Http11, i + 1);
      } else {
        st.verb := ParseMethod(part);
        if st.verb == INVALID {
          st.state := Error;
        } else {
          st.BeginTarget(i + 1);
        }
      }
    }

    method StatusState(st: HttpStreamState, buffer: array<char>, i: nat, c: char, ghost n: Machine)
      requires AtByte(st, buffer, i, n, ParseResponseStatus)
      modifies st
      ensures Took(st, n.held, c, StatusByte(n, c, GetLimits()))
      ensures st.state == ParseResponseHeadersStart ==>
                |n.held| >= 3 &&
                var h, t, u := n.held[0] as int - 48, n.held[1] as int - 48, n.held[2] as int - 48;
                st.httpCode == 100 * h + 10 * t + u
      ensures st.state == ParseResponseHeadersStart && "HTTP" <= n.held ==> st.httpCode == 2796
    {
      hide InBuffer;
      if c == ' ' {
        if st.iEnd - st.iStart != 3 {
          st.state := Error;
        } else {
          var first := Part(buffer, 0, 3, n.held);
          var code := (first[0] as int - '0' as int) * 100 + (first[1] as int - '0' as int) * 10
                      + (first[2] as int - '0' as int);
          st.BeginReason(code, i + 1);
        }
      } else if st.lengthCounter > maxRequestLineLength {
        st.state := Error;
      } else if '0' <= c <= '9' {
        st.iEnd := st.iEnd + 1;
      } else {
        st.state := Error;
      }
    }

    method HeadersStartState(st: HttpStreamState, buffer: array<char>, i: nat, c: char, ghost n: Machine)
      requires AtByte(st, buffer, i, n, ParseResponseHeadersStart) && c == buffer[i]
      modifies st
      ensures Took(st, n.held, c, if n.count > GetLimits().requestLine || !Ascii(c) then n.Fail() else n.Extend(c))
    {
      // the byte compared with CR is the current one, so a response never gets to its headers
      if st.iEnd - st.iStart > 0 && c == '\n' && buffer[st.iEnd] == '\r' {
        assert false;
      } else if st.lengthCounter > maxRequestLineLength {
        st.state := Error;
      } else if c as int <= 127 {
        st.iEnd := st.iEnd + 1;
      } else {
        st.state := Error;
      }
    }

    method UriState(st: HttpStreamState, buffer: array<char>, i: nat, c: char, ghost n: Machine)
      requires AtByte(st, buffer, i, n, ParseRequestUri)
      modifies st
      ensures Took(st, n.held, c, UriByte(n, c, GetLimits()))
    {
      hide InBuffer;
      if c == ' ' && st.iEnd - st.iStart == 0 {
        st.state := Error;
      } else if c == ' ' {
        st.uri := Part(buffer, st.iStart, st.iEnd, n.held);
        st.Enter(ParseRequestHttpVersion, i + 1);
      } else if st.lengthCounter > maxRequestLineLength {
        st.state := Error;
      } else if c as int <= 127 {
        st.iEnd := st.iEnd + 1;
      } else {
        st.state := Error;
      }
    }

    method VersionState(st: HttpStreamState, buffer: array<char>, i: nat, c: char, ghost n: Machine)
      requires AtByte(st, buffer, i, n, ParseRequestHttpVersion)
      modifies st
      ensures Took(st, n.held, c, VersionByte(n, c, GetLimits()))
    {
      if st.iEnd - st.iStart > 1 && c == '\n' && buffer[st.iEnd - 1] == '\r' {
        VersionWord(st, buffer, i, n);
      } else if st.lengthCounter > maxRequestLineLength {
        st.state := Error;
      } else if c as int <= 127 {
        st.iEnd := st.iEnd + 1;
      } else {
        st.state := Error;
      }
    }

    method VersionWord(st: HttpStreamState, buffer: array<char>, i: nat, ghost n: Machine)
      requires AtByte(st, buffer, i, n, ParseRequestHttpVersion) && |n.Token()| > 1 && EndsWithCr(n.Token())
      modifies st
      ensures Took(st, n.held, '\n', VersionByte(n, '\n', GetLimits()))
    {
      hide InBuffer;
      var part := Part(buffer, st.iStart, st.iEnd - 1, n.held);
      assert part == Front(n.Token());
      if part == "HTTP/1.0" {
        st.BeginHeaders(Http10, i + 1);
      } else if part == "HTTP/1.1" {
        st.BeginHeaders(Http11, i + 1);
      } else {
        st.state := Error;
      }
    }

    method HeaderValueState(st: HttpStreamState, buffer: array<char>, i: nat, c: char, ghost n: Machine)
      requires AtByte(st, buffer, i, n, ParseHeaderValue) && c == buffer[i]
      modifies st
      ensures Took(st, n.held, c, HeaderValueByte(n, c, GetLimits()))
    {
      hide TrimLeft, ToLower;
      if st.iEnd - st.iStart > 0 && c == '\n' && buffer[st.iEnd - 1] == '\r' {
        HeaderLineEnd(st, buffer, i, n);
      } else if st.totalHeadersCounter > maxTotalHeaders {
        st.state := Error;
      } else if c as int <= 127 {
        st.iEnd := st.iEnd + 1;
      } else {
        st.state := Error;
      }
    }

    /** Skips spaces from `iStart`, which stays at or before `iEnd`. */
    method SkipSpaces(st: HttpStreamState, buffer: array<char>, ghost held: string)
      requires st.iStart <= st.iEnd == |held| < buffer.Length && InBuffer(buffer, held)
      modifies st`iStart
      ensures st.iStart <= st.iEnd && held[st.iStart..] == TrimLeft(held[old(st.iStart)..])
    {
      ghost var from := st.iStart;
      while buffer[st.iStart] == ' ' && st.iStart < st.iEnd
        invariant from <= st.iStart <= st.iEnd
        invariant forall k :: from <= k < st.iStart ==> held[k] == ' '
      {
        st.iStart := st.iStart + 1;
      }
      TrimLeftUnique(held[from..], st.iStart - from);
    }

    method HeaderLineEnd(st: HttpStreamState, buffer: array<char>, i: nat, ghost n: Machine)
      requires AtByte(st, buffer, i, n, ParseHeaderValue) && EndsWithCr(n.Token()) && buffer[i] == '\n'
      modifies st
      ensures Took(st, n.held, '\n', HeaderValueByte(n, '\n', GetLimits()))
    {
      hide TrimLeft, ToLower, InBuffer;
      var headerName := Part(buffer, st.headerNameStart, st.headerNameEnd, n.held);
      var headerValue := TrimmedValue(st, buffer, n.held);
      if |headerValue| == 0 {
        st.state := Error;
      } else {
        var key := ToLowerAscii(headerName);
        st.StoreHeader(key, headerValue, i + 1);
      }
    }

    /** The value without its leading spaces and its CR. The loop that would trim its end never
        runs, for the position it starts from is that of the LF. */
    method TrimmedValue(st: HttpStreamState, buffer: array<char>, ghost held: string) returns (value: string)
      requires st.iStart <= st.iEnd == |held| < buffer.Length && InBuffer(buffer, held)
      requires EndsWithCr(held[st.iStart..]) && buffer[st.iEnd] == '\n'
      modifies st`iStart
      ensures value == TrimLeft(Front(held[old(st.iStart)..]))
    {
      hide TrimLeft;
      CrStays(held[st.iStart..]);
      SkipSpaces(st, buffer, held);
      value := Part(buffer, st.iStart, st.iEnd - 1, held);
      assert Front(held[st.iStart..]) == value;
    }

    lemma CrStays(text: string)
      requires EndsWithCr(text)
      ensures TrimLeft(text) != "" && Front(TrimLeft(text)) == TrimLeft(Front(text))
    {
      TrimLeftFacts(text);
      var gone := |text| - |TrimLeft(text)|;
      TrimLeftUnique(Front(text), gone);
    }

    /** The byte at `i` completed messages: what follows it is now at the front of the buffer. */
    twostate predicate Shifted(buffer: array<char>, i: nat, bufferLen: nat, left: nat)
      reads buffer
    {
      i < bufferLen <= buffer.Length && left == bufferLen - i - 1 && buffer[..left] == old(buffer[i + 1..bufferLen])
    }

    /** What one byte does to the connection: the outcome `o` of the fold, and the bytes that
        have not been read yet. */
    twostate predicate Advanced(st: HttpStreamState, buffer: array<char>, held: string,
                                bufferLen: nat, left: nat, o: Step<Machine>)
      reads st, buffer
    {
      var i := |held|;
      i < bufferLen <= buffer.Length &&
      if o.next.phase == Error then st.state == Error && o.messages == []
      else if o.messages == [] then
        Took(st, held, old(buffer[i]), o.next) && left == bufferLen && unchanged(buffer)
      else st.pos == 0 && st.iEnd == 0 && st.Account("") == o.next && Shifted(buffer, i, bufferLen, left)
    }

    method StartOver(st: HttpStreamState, buffer: array<char>, i: nat, bufferLen: nat, ghost inside: bool)
      returns (left: nat)
      requires i < bufferLen <= buffer.Length
      requires inside ==> bufferLen < buffer.Length
      modifies st, buffer
      ensures st.IsReset() && Shifted(buffer, i, bufferLen, left)
    {
      left := DropThrough(buffer, i, bufferLen, inside);
      st.ResetState();
    }

    method HeaderNameState(st: HttpStreamState, buffer: array<char>, i: nat, c: char, ghost n: Machine)
      requires AtByte(st, buffer, i, n, ParseHeaderName) && c == buffer[i]
      requires c != '\n' || n.Token() != "\r"
      modifies st
      ensures HeaderNameByte(n, c, GetLimits()).messages == []
      ensures Took(st, n.held, c, HeaderNameByte(n, c, GetLimits()).next)
    {
      hide TrimLeft, HeadersDone, InBuffer;
      var size := st.iEnd - st.iStart;
      if c == ':' && size > 0 {
        HeaderNameEnd(st, buffer, i, n);
      } else if c == ':' && size == 0 {
        EmptyName(n);
        st.state := Error;
      } else if st.totalHeadersCounter > maxTotalHeaders {
        st.state := Error;
      } else if c as int <= 127 {
        st.iEnd := st.iEnd + 1;
      } else {
        st.state := Error;
      }
    }

    lemma EmptyName(n: Machine)
      requires Ordered(n) && n.Token() == ""
      ensures TrimLeft(n.Token()) == ""
    {
    }

    /** The trailing trim of the name never runs either: it starts from the colon. */
    method HeaderNameEnd(st: HttpStreamState, buffer: array<char>, i: nat, ghost n: Machine)
      requires AtByte(st, buffer, i, n, ParseHeaderName) && buffer[i] == ':'
      modifies st
      ensures Took(st, n.held, ':', HeaderNameByte(n, ':', GetLimits()).next)
    {
      hide TrimLeft, HeadersDone, InBuffer;
      SkipSpaces(st, buffer, n.held);
      assert buffer[st.iEnd] != ' ';
      assert st.iStart == |n.held| - |TrimLeft(n.Token())|;
      if st.iEnd - st.iStart > 0 {
        st.KeepName(i + 1);
      } else {
        st.state := Error;
      }
    }

    /** The blank line: chunks, a declared length, or a finished message. */
    method BlankLine(st: HttpStreamState, buffer: array<char>, bufferLen: nat, i: nat, ghost n: Machine,
                     ghost inside: bool)
      returns (left: nat, emitted: seq<Message>)
      requires inside ==> bufferLen < buffer.Length
      requires AtByte(st, buffer, i, n, ParseHeaderName) && buffer[i] == '\n' && i < bufferLen <= buffer.Length
      modifies st, buffer
      ensures var o := HeadersDone(n, '\n', GetLimits());
              && emitted == o.messages
              && Advanced(st, buffer, n.held, bufferLen, left, o)
    {
      hide ParseNumber, IsChunked, InBuffer;
      left, emitted := bufferLen, [];
      var chunked := AsksForChunks(st);
      if chunked {
        st.Enter(ParseChunkSize, i + 1);
      } else if "content-length" in st.headers {
        DeclaredLength(st, i);
      } else {
        emitted := [Message(st.httpVersion, st.verb, st.uri, st.headers, "")];
        left := StartOver(st, buffer, i, bufferLen, inside);
      }
    }

    method AsksForChunks(st: HttpStreamState) returns (chunked: bool)
      ensures chunked <==> IsChunked(st.headers)
    {
      chunked := false;
      if "transfer-encoding" in st.headers {
        chunked := ContainsToken(st.headers["transfer-encoding"], "chunked");
      }
    }

    method DeclaredLength(st: HttpStreamState, i: nat)
      requires "content-length" in st.headers
      modifies st`state, st`iStart, st`iEnd, st`bodyLength, st`lengthCounter
      ensures match ParseNumber(st.headers["content-length"])
              case Some(length) =>
                if length <= maxBodySize then
                  forall held ::
                    st.Account(held)
                    == old(st.Account(held)).(phase := ParseBody, start := i + 1, bodyLength := length, count := 0)
                else st.state == Error
              case None => st.state == Error
    {
      hide ParseNumber;
      var number := ParseNumber(st.headers["content-length"]);
      if number.Some? && number.value <= maxBodySize {
        st.BeginBody(number.value, i + 1);
      } else {
        st.state := Error;
      }
    }

    /** The bytes of a body that ends with the current byte: from the buffer alone, or appended
        to what was spilled. */
    method WholeBody(st: HttpStreamState, buffer: array<char>, i: nat, length: int, ghost held: string)
      returns (text: string)
      requires |held| == i < buffer.Length && InBuffer(buffer, held) && st.iStart <= i
      requires length == |st.body| + i - st.iStart + 1 && (st.body != "" ==> st.iStart == 0)
      ensures text == st.body + held[st.iStart..] + [buffer[i]]
    {
      if st.body == "" {
        text := buffer[st.iStart..st.iStart + length];
      } else {
        text := st.body + buffer[st.iStart..st.iStart + i + 1];
      }
    }

    method BodyState(st: HttpStreamState, buffer: array<char>, bufferLen: nat, i: nat, c: char, ghost n: Machine,
                     ghost inside: bool)
      returns (left: nat, emitted: seq<Message>)
      requires inside ==> bufferLen < buffer.Length
      requires AtByte(st, buffer, i, n, ParseBody) && c == buffer[i] && i < bufferLen <= buffer.Length
      requires n.count == |n.body| + |n.Token()| + 1 && (n.body != "" ==> n.start == 0)
      modifies st, buffer
      ensures var o := BodyByte(n, c, GetLimits());
              && emitted == o.messages
              && Advanced(st, buffer, n.held, bufferLen, left, o)
    {
      left, emitted := bufferLen, [];
      var size := st.lengthCounter;
      if size > maxBodySize {
        st.state := Error;
      } else if size == st.bodyLength {
        var text := WholeBody(st, buffer, i, size, n.held);
        emitted := [Message(st.httpVersion, st.verb, st.uri, st.headers, text)];
        left := StartOver(st, buffer, i, bufferLen, inside);
      }
    }

    method ChunkSizeState(st: HttpStreamState, buffer: array<char>, i: nat, c: char, ghost n: Machine)
      requires AtByte(st, buffer, i, n, ParseChunkSize)
      modifies st
      ensures Took(st, n.held, c, ChunkSizeByte(n, c, GetLimits()))
    {
      hide FromChars;
      var size := st.iEnd - st.iStart;
      if size > 0 && c == '\n' && buffer[i - 1] == '\r' {
        ChunkSizeLine(st, buffer, i, n);
      } else if 'A' <= c <= 'F' || 'a' <= c <= 'f' || '0' <= c <= '9' || c == '\r' {
        st.iEnd := st.iEnd + 1;
      } else {
        st.state := Error;
      }
    }

    method ChunkSizeLine(st: HttpStreamState, buffer: array<char>, i: nat, ghost n: Machine)
      requires AtByte(st, buffer, i, n, ParseChunkSize) && EndsWithCr(n.Token())
      modifies st
      ensures Took(st, n.held, '\n', ChunkSizeByte(n, '\n', GetLimits()))
    {
      hide FromChars, InBuffer;
      var text := Part(buffer, st.iStart, st.iEnd - 1, n.held);
      assert text == Front(n.Token());
      var number := FromChars(text, 16);
      if number.Some? {
        if number.value > maxBodyMemoryBuffer {
          st.state := Error;
        } else if number.value > 0 {
          st.BeginChunk(number.value, i + 1);
        } else {
          st.LastChunk(i + 1);
        }
      } else {
        st.state := Error;
      }
    }

    method LeaveChunk(st: HttpStreamState, buffer: array<char>, i: nat, bufferLen: nat, ghost inside: bool)
      returns (left: nat)
      requires i < bufferLen <= buffer.Length
      requires inside ==> bufferLen < buffer.Length
      modifies st, buffer
      ensures Shifted(buffer, i, bufferLen, left)
      ensures st.pos == 0 && st.iEnd == 0
      ensures st.Account("") == old(st.Account("")).(phase := ParseChunkSkipLine, start := 0, chunkLength := 0,
                                                    headers := map[], body := "")
    {
      left := DropThrough(buffer, i, bufferLen, inside);
      st.EndChunk();
    }

    method ChunkState(st: HttpStreamState, buffer: array<char>, bufferLen: nat, i: nat, c: char, ghost n: Machine,
                      ghost inside: bool)
      returns (left: nat, emitted: seq<Message>)
      requires inside ==> bufferLen < buffer.Length
      requires AtByte(st, buffer, i, n, ParseChunk) && c == buffer[i] && i < bufferLen <= buffer.Length
      requires n.count == |n.body| + |n.Token()| + 1 && (n.body != "" ==> n.start == 0)
      modifies st, buffer
      ensures var o := ChunkByte(n, c, GetLimits());
              && emitted == o.messages
              && Advanced(st, buffer, n.held, bufferLen, left, o)
    {
      left, emitted := bufferLen, [];
      st.iEnd := st.iEnd + 1;
      var size := st.lengthCounter;
      if size == st.currentChunkLength {
        var text := WholeBody(st, buffer, i, size, n.held);
        emitted := [Message(st.httpVersion, st.verb, st.uri, st.headers, text)];
        left := LeaveChunk(st, buffer, i, bufferLen, inside);
      } else if size > maxBodySize {
        st.state := Error;
      }
    }

    method ChunkSkipLineState(st: HttpStreamState, buffer: array<char>, i: nat, c: char, ghost n: Machine)
      requires AtByte(st, buffer, i, n, ParseChunkSkipLine)
      modifies st
      ensures Took(st, n.held, c,
                   if n.Token() == "\r" && c == '\n' then n.(chunkLength := 0).Enter(ParseChunkSize, c)
                   else if n.Token() == "" && (c == '\n' || c == '\r') then n.Extend(c)
                   else n.Fail())
    {
      var size := st.iEnd + 1 - st.iStart;
      if size == 2 && c == '\n' && buffer[i - 1] == '\r' {
        st.NextChunk(i + 1);
      } else if size < 2 && (c == '\n' || c == '\r') {
        st.iEnd := st.iEnd + 1;
      } else {
        st.state := Error;
      }
    }

    method EndOfChunkedState(st: HttpStreamState, buffer: array<char>, bufferLen: nat, i: nat, c: char,
                             ghost n: Machine,
                             ghost inside: bool)
      returns (left: nat, emitted: seq<Message>)
      requires inside ==> bufferLen < buffer.Length
      requires AtByte(st, buffer, i, n, ParseEndOfChunkedRequest) && c == buffer[i] && i < bufferLen <= buffer.Length
      modifies st, buffer
      ensures var o := if n.Token() == "\r" && c == '\n' then Step(INITIAL, [n.Finish("")])
                       else if n.Token() == "" && (c == '\n' || c == '\r') then Silent(n.Extend(c))
                       else Silent(n.Fail());
              && emitted == o.messages
              && Advanced(st, buffer, n.held, bufferLen, left, o)
    {
      left, emitted := bufferLen, [];
      var size := st.iEnd + 1 - st.iStart;
      if size == 2 && c == '\n' && buffer[i - 1] == '\r' {
        emitted := [Message(st.httpVersion, st.verb, st.uri, st.headers, "")];
        left := StartOver(st, buffer, i, bufferLen, inside);
      } else if size < 2 && (c == '\n' || c == '\r') {
        st.iEnd := st.iEnd + 1;
      } else {
        st.state := Error;
      }
    }

    // ----------------------------------------------------------------- the loop

    /** Between two bytes: the account is `m`, and the assembler has not failed. */
    ghost predicate Between(st: HttpStreamState, buffer: array<char>, m: Machine)
      reads st, buffer
    {
      && st.pos <= buffer.Length
      && m.phase != Error && Ordered(m)
      && |m.held| == st.pos && InBuffer(buffer, m.held) && st.Account(m.held) == m
      && st.Aligned(st.pos)
    }

    method LineByte(st: HttpStreamState, buffer: array<char>, i: nat, c: char, ghost n: Machine)
      requires n.phase in {ParseResponseOrRequest, ParseResponseStatus, ParseResponseHeadersStart,
                           ParseRequestUri, ParseRequestHttpVersion}
      requires AtByte(st, buffer, i, n, n.phase) && c == buffer[i] && n.count > 0
      modifies st
      ensures var o := Byte(n.(count := n.count - 1), c, GetLimits());
              o.messages == [] && Took(st, n.held, c, o.next)
    {
      hide MethodByte, StatusByte, UriByte, VersionByte, HeaderNameByte, HeaderValueByte, InBuffer;
      hide BodyByte, ChunkSizeByte, ChunkByte;
      match st.state {
        case ParseResponseOrRequest => MethodState(st, buffer, i, c, n);
        case ParseResponseStatus => StatusState(st, buffer, i, c, n);
        case ParseResponseHeadersStart => HeadersStartState(st, buffer, i, c, n);
        case ParseRequestUri => UriState(st, buffer, i, c, n);
        case ParseRequestHttpVersion => VersionState(st, buffer, i, c, n);
      }
    }

    method NameByte(st: HttpStreamState, buffer: array<char>, bufferLen: nat, i: nat, c: char, ghost n: Machine,
                    ghost inside: bool)
      returns (left: nat, emitted: seq<Message>)
      requires inside ==> bufferLen < buffer.Length
      requires AtByte(st, buffer, i, n, ParseHeaderName) && c == buffer[i] && i < bufferLen <= buffer.Length
      modifies st, buffer
      ensures var o := HeaderNameByte(n, c, GetLimits());
              emitted == o.messages && Advanced(st, buffer, n.held, bufferLen, left, o)
    {
      hide HeaderNameByte, HeadersDone;
      if c == '\n' && st.iEnd - st.iStart == 1 && buffer[i - 1] == '\r' {
        assert n.Token() == "\r";
        BlankLineOutcome(n);
        left, emitted := BlankLine(st, buffer, bufferLen, i, n, inside);
      } else {
        left, emitted := bufferLen, [];
        HeaderNameState(st, buffer, i, c, n);
      }
    }

    method HeaderByte(st: HttpStreamState, buffer: array<char>, bufferLen: nat, i: nat, c: char, ghost n: Machine,
                      ghost inside: bool)
      returns (left: nat, emitted: seq<Message>)
      requires inside ==> bufferLen < buffer.Length
      requires n.phase == ParseHeaderName || n.phase == ParseHeaderValue
      requires AtByte(st, buffer, i, n, n.phase) && c == buffer[i] && i < bufferLen <= buffer.Length && n.count > 0
      modifies st, buffer
      ensures var o := Byte(n.(count := n.count - 1), c, GetLimits());
              emitted == o.messages && Advanced(st, buffer, n.held, bufferLen, left, o)
    {
      hide MethodByte, StatusByte, UriByte, VersionByte, HeaderNameByte, HeaderValueByte, InBuffer;
      hide BodyByte, ChunkSizeByte, ChunkByte;
      st.totalHeadersCounter := st.totalHeadersCounter + 1;
      ghost var k := n.(headerBytes := n.headerBytes + 1);
      if st.state == ParseHeaderValue {
        left, emitted := bufferLen, [];
        HeaderValueState(st, buffer, i, c, k);
      } else {
        left, emitted := NameByte(st, buffer, bufferLen, i, c, k, inside);
      }
    }

    lemma BlankLineOutcome(n: Machine)
      requires Ordered(n) && n.Token() == "\r"
      ensures HeaderNameByte(n, '\n', GetLimits()) == HeadersDone(n, '\n', GetLimits())
    {
    }

    method ContentByte(st: HttpStreamState, buffer: array<char>, bufferLen: nat, i: nat, c: char, ghost n: Machine,
                       ghost inside: bool)
      returns (left: nat, emitted: seq<Message>)
      requires inside ==> bufferLen < buffer.Length
      requires n.phase in {ParseBody, ParseChunk, ParseChunkSize, ParseChunkSkipLine, ParseEndOfChunkedRequest}
      requires AtByte(st, buffer, i, n, n.phase) && c == buffer[i] && i < bufferLen <= buffer.Length && n.count > 0
      requires n.phase == ParseBody || n.phase == ParseChunk ==>
                 n.count == |n.body| + |n.Token()| + 1 && (n.body != "" ==> n.start == 0)
      modifies st, buffer
      ensures var o := Byte(n.(count := n.count - 1), c, GetLimits());
              emitted == o.messages && Advanced(st, buffer, n.held, bufferLen, left, o)
    {
      hide MethodByte, StatusByte, UriByte, VersionByte, HeaderNameByte, HeaderValueByte, InBuffer;
      hide BodyByte, ChunkSizeByte, ChunkByte;
      left, emitted := bufferLen, [];
      match st.state {
        case ParseBody => left, emitted := BodyState(st, buffer, bufferLen, i, c, n, inside);
        case ParseChunk => left, emitted := ChunkState(st, buffer, bufferLen, i, c, n, inside);
        case ParseChunkSize => ChunkSizeState(st, buffer, i, c, n);
        case ParseChunkSkipLine => ChunkSkipLineState(st, buffer, i, c, n);
        case ParseEndOfChunkedRequest => left, emitted := EndOfChunkedState(st, buffer, bufferLen, i, c, n, inside);
      }
    }

    method ParseByte(st: HttpStreamState, buffer: array<char>, bufferLen: nat, ghost m: Machine, ghost cfg: Config,
                     ghost inside: bool)
      returns (left: nat, emitted: seq<Message>)
      requires inside ==> bufferLen < buffer.Length
      requires Between(st, buffer, m) && Ready(m, cfg) && cfg.limits == GetLimits()
      requires st.pos < bufferLen <= buffer.Length
      modifies st, buffer
      ensures var o := Byte(m, old(buffer[st.pos]), GetLimits());
              emitted == o.messages && Advanced(st, buffer, m.held, bufferLen, left, o)
    {
      hide Byte;
      var i := st.pos;
      var c := buffer[i];
      st.lengthCounter := st.lengthCounter + 1;
      ghost var n := m.(count := m.count + 1);
      assert n.(count := n.count - 1) == m;
      if st.state == ParseHeaderName || st.state == ParseHeaderValue {
        left, emitted := HeaderByte(st, buffer, bufferLen, i, c, n, inside);
      } else if st.state in {ParseBody, ParseChunk, ParseChunkSize, ParseChunkSkipLine, ParseEndOfChunkedRequest} {
        left, emitted := ContentByte(st, buffer, bufferLen, i, c, n, inside);
      } else {
        left, emitted := bufferLen, [];
        LineByte(st, buffer, i, c, n);
      }
    }

    /** The buffer is full: spill the body, or move the unfinished line to the front. Bytes that
        `memmove` takes from past the end would land behind the live ones; they are not moved. */
    method FreeSpace(st: HttpStreamState, buffer: array<char>, bufferLen: nat, ghost m: Machine, ghost cfg: Config,
                     ghost inside: bool)
      returns (left: nat)
      requires inside ==> m.phase == ParseBody || m.phase == ParseChunk || 2 * m.checkpoint <= buffer.Length
      requires Between(st, buffer, m) && Sound(m, cfg) && st.pos == bufferLen == cfg.capacity
      modifies st, buffer
      ensures var f := Full(m, AsWritten);
              if f.phase == Error then st.state == Error else left == st.pos && Between(st, buffer, f)
    {
      left := bufferLen;
      if st.state == ParseBody || st.state == ParseChunk {
        left := Spill(st, buffer, m);
      } else if st.lastCheckpoint == -1 {
        st.state := Error;
      } else {
        left := Compact(st, buffer, bufferLen, m, inside);
      }
    }

    method Spill(st: HttpStreamState, buffer: array<char>, ghost m: Machine) returns (left: nat)
      requires Between(st, buffer, m) && (m.phase == ParseBody || m.phase == ParseChunk)
      modifies st
      ensures left == st.pos == 0 && Between(st, buffer, m.(body := m.body + m.Token(), held := "", start := 0))
    {
      var text := Part(buffer, st.iStart, st.pos, m.held);
      st.body := st.body + text;
      left := 0;
      st.iStart := 0;
      st.iEnd := 0;
      st.pos := 0;
    }

    method Compact(st: HttpStreamState, buffer: array<char>, bufferLen: nat, ghost m: Machine,
                   ghost inside: bool) returns (left: nat)
      requires inside ==> 2 * m.checkpoint <= buffer.Length
      requires Between(st, buffer, m) && st.pos == bufferLen && 0 < m.checkpoint <= bufferLen
      requires m.phase != ParseBody && m.phase != ParseChunk
      modifies st, buffer
      ensures left == st.pos && Between(st, buffer, Full(m, AsWritten))
    {
      var cp: nat := st.lastCheckpoint;
      left := MoveLine(buffer, bufferLen, cp, inside);
      st.MoveBack(cp);
    }

    method MoveLine(buffer: array<char>, bufferLen: nat, cp: nat, ghost inside: bool) returns (left: nat)
      requires cp <= bufferLen <= buffer.Length && (inside ==> 2 * cp <= buffer.Length)
      modifies buffer
      ensures left == bufferLen - cp && buffer[..left] == Moved(old(buffer[..bufferLen]), cp, AsWritten)
      ensures 2 * cp <= buffer.Length ==> Memmove(old(buffer[..]), cp, cp) == Some(buffer[..])
    {
      ghost var was := buffer[..];
      MoveToFront(buffer, cp, cp, inside);
      left := bufferLen - cp;
      ghost var now := buffer[..];
      LineMoved(was, now, bufferLen, cp);
      assert buffer[..left] == now[..left] && was[..bufferLen] == old(buffer[..bufferLen]);
    }

    /** The bytes of the line that stay live are the same whether or not all that the compaction
        reads exists. */
    lemma LineMoved(was: string, now: string, bufferLen: nat, cp: nat)
      requires cp <= bufferLen <= |was|
      requires now == match Memmove(was, cp, cp) case Some(moved) => moved case None => was[cp..] + was[|was| - cp..]
      ensures |now| == |was| && now[..bufferLen - cp] == Moved(was[..bufferLen], cp, AsWritten)
    {
      hide Moved;
      var left, held := bufferLen - cp, was[..bufferLen];
      var line := Moved(held, cp, AsWritten);
      forall k | 0 <= k < left
        ensures now[k] == line[k]
      {
        MovedAt(held, cp, k, AsWritten);
      }
    }

    /** The byte that was read joins the consumed ones. */
    method StepOver(st: HttpStreamState, buffer: array<char>, ghost held: string, ghost o: Machine)
      requires |held| < buffer.Length && InBuffer(buffer, held)
      requires o.phase != Error && Ordered(o) && Took(st, held, buffer[|held|], o)
      modifies st`pos
      ensures st.pos == |held| + 1 && Between(st, buffer, o)
    {
      Snoc(buffer, |held|);
      st.pos := st.pos + 1;
    }

    /** One pass of the loop: one byte read, all others still to come. */
    method Pass(st: HttpStreamState, buffer: array<char>, bufferLen: nat, ghost m: Machine, ghost cfg: Config,
                ghost inside: bool)
      returns (left: nat, emitted: seq<Message>)
      requires inside ==> bufferLen < buffer.Length
      requires Between(st, buffer, m) && Ready(m, cfg) && cfg.limits == GetLimits()
      requires st.pos < bufferLen <= buffer.Length
      modifies st, buffer
      ensures var o := Byte(m, old(buffer[st.pos]), GetLimits());
              && emitted == o.messages
              && if o.next.phase == Error then st.state == Error
                 else
                   && st.pos <= left <= bufferLen
                   && left - st.pos == bufferLen - old(st.pos) - 1
                   && Between(st, buffer, o.next)
                   && buffer[st.pos..left] == old(buffer[st.pos + 1..bufferLen])
    {
      ByteOrdered(m, buffer[st.pos], cfg);
      hide Byte, Ready, Took, InBuffer;
      ghost var o := Byte(m, buffer[st.pos], GetLimits());
      ghost var i, rest := st.pos, buffer[st.pos + 1..bufferLen];
      left, emitted := ParseByte(st, buffer, bufferLen, m, cfg, inside);
      if st.state != Error && emitted == [] {
        assert left == bufferLen && buffer[i + 1..left] == rest;
        StepOver(st, buffer, m.held, o.next);
        assert st.pos == i + 1 && buffer[i + 1..left] == rest;
      } else if o.next.phase != Error {
        FromFront(st, buffer, o.next);
        assert buffer[..left] == buffer[st.pos..left];
      }
    }

    lemma FromFront(st: HttpStreamState, buffer: array<char>, o: Machine)
      requires st.pos == 0 && st.iEnd == 0 && st.Account("") == o && o.phase != Error && Ordered(o)
      ensures Between(st, buffer, o)
    {
    }

    lemma Snoc(buffer: array<char>, pos: nat)
      requires pos < buffer.Length
      ensures buffer[..pos + 1] == buffer[..pos] + [buffer[pos]]
    {
    }

    /** The loop of `feed`: every pass reads exactly one byte. */
    method Loop(st: HttpStreamState, buffer: array<char>, bufferLen: nat, ghost m0: Machine, ghost cfg: Config,
                ghost inside: bool)
      returns (left: nat, messages: seq<Message>, ghost m: Machine)
      requires inside ==> bufferLen < buffer.Length
      requires Between(st, buffer, m0) && Ready(m0, cfg) && cfg.limits == GetLimits()
      requires st.pos <= bufferLen <= cfg.capacity && bufferLen <= buffer.Length
      modifies st, buffer
      ensures var input := old(buffer[st.pos..bufferLen]);
              if st.state == Error then
                B.Run(m0, input, cfg).next.phase == Error && B.Run(m0, input, cfg).messages == messages
              else
                && st.pos == left <= bufferLen
                && Between(st, buffer, m)
                && UnderWay(m0, input, cfg, messages, m, "")
    {
      hide Byte, Sound, Full, B.Run;
      ghost var input := buffer[st.pos..bufferLen];
      ghost var rest := input;
      m, left, messages := m0, bufferLen, [];
      UnderWayStart(m0, input, cfg);
      while st.pos < left
        invariant st.pos <= left <= bufferLen
        invariant Between(st, buffer, m) && rest == buffer[st.pos..left]
        invariant UnderWay(m0, input, cfg, messages, m, rest)
        decreases left - st.pos
      {
        UnderWayStep(m0, input, cfg, messages, m, rest);
        ghost var o := Byte(m, rest[0], cfg.limits);
        var emitted: seq<Message>;
        left, emitted := Pass(st, buffer, left, m, cfg, inside);
        messages := messages + emitted;
        if st.state == Error {
          break;
        }
        m, rest := o.next, rest[1..];
      }
    }

    /** `feed` for one connection. Whatever was fed before, the messages and the account
        afterwards are those of the fold over the bytes that are new; a failure forgets
        everything. */
    method Assemble(st: HttpStreamState, buffer: array<char>, bufferLen: nat, maxBufferLen: nat,
                    ghost m0: Machine, ghost cfg: Config, ghost inside: bool)
      returns (left: nat, messages: seq<Message>, error: bool)
      requires inside ==> bufferLen < maxBufferLen <= buffer.Length
      requires Between(st, buffer, m0) && Ready(m0, cfg)
      requires cfg.limits == GetLimits() && cfg.compaction == AsWritten && cfg.capacity == maxBufferLen
      requires st.pos <= bufferLen <= cfg.capacity && bufferLen <= buffer.Length
      modifies st, buffer
      ensures var r := B.Run(m0, old(buffer[st.pos..bufferLen]), cfg);
              && messages == r.messages
              && (error <==> r.next.phase == Error)
              && (error ==> left == 0 && st.IsReset())
              && (!error ==> left == st.pos < maxBufferLen && Between(st, buffer, r.next))
    {
      hide Byte, Full, B.Run;
      ghost var m;
      ghost var input := buffer[st.pos..bufferLen];
      left, messages, m := Loop(st, buffer, bufferLen, m0, cfg, inside);
      if st.state != Error {
        UnderWayEnd(m0, input, cfg, messages, m);
        if st.pos == maxBufferLen {
          left := FreeSpace(st, buffer, left, m, cfg, inside);
        }
      }
      error := st.state == Error;
      if error {
        st.ResetState();
        left := 0;
      }
    }

    // --------------------------------------------------------------- connections

    /** No two connections share a state. */
    ghost predicate Separate()
      reads this
    {
      forall i, j :: i in clientStates && j in clientStates && i != j ==> clientStates[i] != clientStates[j]
    }

    /** The account of connection `id` is `m`; one that was never fed has the initial account. */
    ghost predicate Accounted(id: nat, buffer: array<char>, m: Machine)
      reads this, buffer, if id in clientStates then {clientStates[id]} else {}
    {
      if id in clientStates then Between(clientStates[id], buffer, m) else m == INITIAL
    }

    ghost function ConfigFor(maxBufferLen: nat): Config
      reads this
    {
      Config(GetLimits(), maxBufferLen, AsWritten)
    }

    /** The state of connection `id`, which is made when it is first asked for. */
    method StateOf(id: nat, buffer: array<char>, ghost m0: Machine) returns (st: HttpStreamState)
      requires Separate() && Accounted(id, buffer, m0)
      modifies `clientStates
      ensures Separate() && clientStates.Keys == old(clientStates.Keys) + {id} && clientStates[id] == st
      ensures forall j :: j in old(clientStates) ==> clientStates[j] == old(clientStates[j])
      ensures id !in old(clientStates) ==> fresh(st)
      ensures Between(st, buffer, m0) && st.pos == |m0.held|
    {
      if id !in clientStates {
        st := new HttpStreamState();
        clientStates := clientStates[id := st];
      } else {
        st := clientStates[id];
      }
    }

    /** `feed`: parses what is new in the buffer of connection `id`, and leaves in it what is
        still needed, with room for more; no other connection is touched. Called `inside`, which it can
        be whenever the buffer is not full, it never reads past the end of the buffer. */
    method Feed(id: nat, buffer: array<char>, bufferLen: nat, maxBufferLen: nat, ghost m0: Machine,
                ghost inside: bool)
      returns (left: nat, messages: seq<Message>, error: bool)
      requires inside ==> bufferLen < maxBufferLen <= buffer.Length
      requires Separate() && Accounted(id, buffer, m0)
      requires Ready(m0, ConfigFor(maxBufferLen)) && m0.phase != Error
      requires |m0.held| <= bufferLen <= maxBufferLen && bufferLen <= buffer.Length
      modifies `clientStates, buffer, if id in clientStates then {clientStates[id]} else {}
      ensures Separate() && clientStates.Keys == old(clientStates.Keys) + {id}
      ensures forall j :: j in old(clientStates) ==> clientStates[j] == old(clientStates[j])
      ensures id !in old(clientStates) ==> fresh(clientStates[id])
      ensures var r := B.Run(m0, old(buffer[|m0.held|..bufferLen]), ConfigFor(maxBufferLen));
              && messages == r.messages
              && (error <==> r.next.phase == Error)
              && Accounted(id, buffer, if error then INITIAL else r.next)
              && left == (if error then 0 else |r.next.held|) < maxBufferLen
    {
      hide B.Run;
      var st := StateOf(id, buffer, m0);
      left, messages, error := Assemble(st, buffer, bufferLen, maxBufferLen, m0, ConfigFor(maxBufferLen), inside);
    }
  }
}
